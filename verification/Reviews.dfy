/** Reviews and the rating cached on the event (backend/app/services/review_service.py). */
module Reviews {
  import opened Counting
  import opened Rounding
  import opened Wrappers

  datatype Review = Review(userId: nat, eventId: nat, registrationId: nat, axes: seq<int>, overall: real,
                           comment: Option<string>, hidden: bool, hiddenReason: Option<string>)

  datatype Rating = Rating(average: real, count: nat)

  /** `ratings` are the columns rating_avg and rating_count of the events. */
  datatype Store = Store(reviews: map<nat, Review>, ratings: map<nat, Rating>, nextId: nat)

  datatype Form = Form(axes: seq<int>, comment: Option<string>)

  predicate FormOk(form: Form) {
    |form.axes| == 4 && forall i :: 0 <= i < 4 ==> 0 <= form.axes[i] <= 5
  }

  predicate Counts(reviews: map<nat, Review>, e: nat, id: nat) {
    id in reviews && reviews[id].eventId == e && !reviews[id].hidden
  }

  function CountBelow(reviews: map<nat, Review>, e: nat, n: nat): nat {
    if n == 0 then 0 else CountBelow(reviews, e, n - 1) + (if Counts(reviews, e, n - 1) then 1 else 0)
  }

  function SumBelow(reviews: map<nat, Review>, e: nat, n: nat): real {
    if n == 0 then 0.0 else SumBelow(reviews, e, n - 1) + (if Counts(reviews, e, n - 1) then reviews[n - 1].overall else 0.0)
  }

  /** Two decimals. */
  function Round2(x: real): real {
    RoundHalfEven(x * 100.0) as real / 100.0
  }

  function RatingFor(reviews: map<nat, Review>, e: nat, n: nat): Rating {
    var count := CountBelow(reviews, e, n);
    Rating(if count == 0 then 0.0 else Round2(SumBelow(reviews, e, n) / count as real), count)
  }

  function Overall(axes: seq<int>): real
    requires |axes| == 4
  {
    (axes[0] + axes[1] + axes[2] + axes[3]) as real / 4.0
  }

  predicate IsBy(reviews: map<nat, Review>, id: nat, userId: nat, eventId: nat) {
    id in reviews && reviews[id].userId == userId && reviews[id].eventId == eventId
  }

  ghost function Find(reviews: map<nat, Review>, userId: nat, eventId: nat): (r: Option<nat>)
    ensures r.Some? ==> IsBy(reviews, r.value, userId, eventId)
    ensures r.None? ==> forall id :: !IsBy(reviews, id, userId, eventId)
  {
    if exists id :: IsBy(reviews, id, userId, eventId) then
      var id :| IsBy(reviews, id, userId, eventId);
      Some(id)
    else None
  }

  function Recomputed(s: Store, e: nat): Store {
    if e in s.ratings then s.(ratings := s.ratings[e := RatingFor(s.reviews, e, s.nextId)]) else s
  }

  /** `registration` is the eligible registration found for the user, if any. */
  ghost function Submit(s: Store, userId: nat, eventId: nat, registration: Option<nat>, form: Form): Store
    requires FormOk(form)
  {
    if registration.None? then s else
    var found := Find(s.reviews, userId, eventId);
    var id := if found.Some? then found.value else s.nextId;
    var reason := if found.Some? then s.reviews[id].hiddenReason else None;
    Recomputed(Store(s.reviews[id := NewReview(userId, eventId, registration.value, form, reason)], s.ratings,
                     if found.Some? then s.nextId else s.nextId + 1), eventId)
  }

  /** A submitted review is published; resubmitting does not clear an old reason for hiding it. */
  function NewReview(userId: nat, eventId: nat, registrationId: nat, form: Form, reason: Option<string>): (r: Review)
    requires FormOk(form)
    ensures 0.0 <= r.overall <= 5.0
  {
    Review(userId, eventId, registrationId, form.axes, Overall(form.axes), form.comment, false, reason)
  }

  function SetHidden(s: Store, id: nat, hidden: bool, reason: Option<string>): Store
    requires id in s.reviews
  {
    Recomputed(s.(reviews := s.reviews[id := s.reviews[id].(hidden := hidden, hiddenReason := if hidden then reason else None)]),
               s.reviews[id].eventId)
  }

  class ReviewService {
    var reviews: map<nat, Review>
    var ratings: map<nat, Rating>
    var nextId: nat

    ghost function State(): Store
      reads this
    {
      Store(reviews, ratings, nextId)
    }

    /** The aggregate query over the published reviews of an event. */
    method RecomputeEventRating(e: nat)
      modifies this`ratings
      ensures State() == Recomputed(old(State()), e)
    {
      var sum, count := 0.0, 0;
      for id := 0 to nextId
        invariant sum == SumBelow(reviews, e, id) && count == CountBelow(reviews, e, id)
      {
        if Counts(reviews, e, id) {
          sum, count := sum + reviews[id].overall, count + 1;
        }
      }
      if e in ratings {
        ratings := ratings[e := Rating(if count == 0 then 0.0 else Round2(sum / count as real), count)];
      }
    }

    method SubmitReview(userId: nat, eventId: nat, registration: Option<nat>, form: Form) returns (ok: bool)
      requires FormOk(form) && Valid(State())
      modifies this
      ensures ok == registration.Some?
      ensures State() == Submit(old(State()), userId, eventId, registration, form)
    {
      if registration.None? {
        return false;
      }
      var id := nextId;
      var reason := None;
      if k :| k in reviews && IsBy(reviews, k, userId, eventId) {
        id, reason := k, reviews[k].hiddenReason;
      } else {
        nextId := nextId + 1;
      }
      reviews := reviews[id := NewReview(userId, eventId, registration.value, form, reason)];
      RecomputeEventRating(eventId);
      ok := true;
    }

    method SetReviewHidden(id: nat, hidden: bool, reason: Option<string>)
      requires id in reviews
      modifies this
      ensures State() == SetHidden(old(State()), id, hidden, reason)
    {
      reviews := reviews[id := reviews[id].(hidden := hidden)];
      reviews := reviews[id := reviews[id].(hiddenReason := if hidden then reason else None)];
      assert reviews == old(reviews)[id := reviews[id]];
      RecomputeEventRating(reviews[id].eventId);
    }
  }

  // ------------------------------------------------------------------------ invariant

  ghost predicate RowsOk(s: Store) {
    && (forall id :: id in s.reviews ==> id < s.nextId && 0.0 <= s.reviews[id].overall <= 5.0)
    && (forall a, b :: a in s.reviews && b in s.reviews ==>
          s.reviews[a].userId == s.reviews[b].userId && s.reviews[a].eventId == s.reviews[b].eventId ==> a == b)
  }

  /** One review per user and event, and every cached rating agrees with the published reviews. */
  ghost predicate Valid(s: Store) {
    RowsOk(s) && forall e :: e in s.ratings ==> s.ratings[e] == RatingFor(s.reviews, e, s.nextId)
  }

  /** A change of one review does not show in the figures of any other event. */
  lemma {:induction false} OtherEventsUnaffected(reviews: map<nat, Review>, id: nat, review: Review, e: nat, n: nat)
    requires review.eventId != e && (id in reviews ==> reviews[id].eventId != e)
    ensures CountBelow(reviews[id := review], e, n) == CountBelow(reviews, e, n)
    ensures SumBelow(reviews[id := review], e, n) == SumBelow(reviews, e, n)
  {
    if n > 0 {
      OtherEventsUnaffected(reviews, id, review, e, n - 1);
    }
  }

  lemma UpdateKeepsValid(s: Store, id: nat, review: Review, next: nat)
    requires Valid(s) && s.nextId <= next <= s.nextId + 1
    requires if id in s.reviews then s.reviews[id].eventId == review.eventId && next == s.nextId else id == s.nextId && next == id + 1
    requires RowsOk(Store(s.reviews[id := review], s.ratings, next))
    ensures var s' := Recomputed(Store(s.reviews[id := review], s.ratings, next), review.eventId);
            && Valid(s')
            && (forall e :: e in s.ratings && e != review.eventId ==> s'.ratings[e] == s.ratings[e])
  {
    var reviews := s.reviews[id := review];
    forall e: nat | e != review.eventId ensures RatingFor(reviews, e, next) == RatingFor(s.reviews, e, s.nextId) {
      OtherEventsUnaffected(s.reviews, id, review, e, s.nextId);
    }
  }

  datatype Op =
    | SubmitOp(userId: nat, eventId: nat, registration: Option<nat>, form: Form)
    | HideOp(id: nat, hidden: bool, reason: Option<string>)

  ghost function Step(s: Store, op: Op): Store {
    match op
    case SubmitOp(u, e, reg, form) => if FormOk(form) then Submit(s, u, e, reg, form) else s
    case HideOp(id, hidden, reason) => if id in s.reviews then SetHidden(s, id, hidden, reason) else s
  }

  ghost function EventOf(s: Store, op: Op): Option<nat> {
    match op
    case SubmitOp(_, e, _, _) => Some(e)
    case HideOp(id, _, _) => if id in s.reviews then Some(s.reviews[id].eventId) else None
  }

  lemma SubmitIsSound(s: Store, userId: nat, eventId: nat, registration: nat, form: Form)
    requires Valid(s) && FormOk(form)
    ensures var s' := Submit(s, userId, eventId, Some(registration), form);
            && Valid(s') && s'.ratings.Keys == s.ratings.Keys
            && (forall e :: e in s.ratings && e != eventId ==> s'.ratings[e] == s.ratings[e])
  {
    var found := Find(s.reviews, userId, eventId);
    var id := if found.Some? then found.value else s.nextId;
    var reason := if found.Some? then s.reviews[id].hiddenReason else None;
    var next := if found.Some? then s.nextId else s.nextId + 1;
    var review := NewReview(userId, eventId, registration, form, reason);
    OthersAreNotBy(s, id, userId, eventId);
    NewRowIsOk(s, id, review, next);
    UpdateKeepsValid(s, id, review, next);
    SubmitShape(s, userId, eventId, registration, form, id, review, next);
  }

  lemma SubmitShape(s: Store, userId: nat, eventId: nat, registration: nat, form: Form, id: nat, review: Review, next: nat)
    requires FormOk(form)
    requires var found := Find(s.reviews, userId, eventId);
             && id == (if found.Some? then found.value else s.nextId) && next == (if found.Some? then s.nextId else s.nextId + 1)
             && review == NewReview(userId, eventId, registration, form, if found.Some? then s.reviews[id].hiddenReason else None)
    ensures Submit(s, userId, eventId, Some(registration), form)
            == Recomputed(Store(s.reviews[id := review], s.ratings, next), review.eventId)
  {
  }

  lemma NewRowIsOk(s: Store, id: nat, review: Review, next: nat)
    requires RowsOk(s) && s.nextId <= next && id < next && 0.0 <= review.overall <= 5.0
    requires forall k :: k in s.reviews && k != id ==> s.reviews[k].userId != review.userId || s.reviews[k].eventId != review.eventId
    ensures RowsOk(Store(s.reviews[id := review], s.ratings, next))
  {
  }

  lemma OthersAreNotBy(s: Store, id: nat, userId: nat, eventId: nat)
    requires RowsOk(s)
    requires var found := Find(s.reviews, userId, eventId); id == if found.Some? then found.value else s.nextId
    ensures forall k :: k in s.reviews && k != id ==> s.reviews[k].userId != userId || s.reviews[k].eventId != eventId
  {
    forall k | k in s.reviews && k != id ensures !IsBy(s.reviews, k, userId, eventId) {
    }
  }

  /** Each call keeps the agreement and leaves the ratings of all other events as they were. */
  lemma StepIsSound(s: Store, op: Op)
    requires Valid(s)
    ensures var s' := Step(s, op);
            && Valid(s') && s'.ratings.Keys == s.ratings.Keys
            && (forall e :: e in s.ratings && EventOf(s, op) != Some(e) ==> s'.ratings[e] == s.ratings[e])
  {
    match op
    case SubmitOp(u, e, reg, form) =>
      if FormOk(form) && reg.Some? {
        SubmitIsSound(s, u, e, reg.value, form);
      }
    case HideOp(id, hidden, reason) =>
      if id in s.reviews {
        UpdateKeepsValid(s, id, s.reviews[id].(hidden := hidden, hiddenReason := if hidden then reason else None), s.nextId);
      }
  }

  ghost function Run(s: Store, ops: seq<Op>): (s': Store)
    requires Valid(s)
    ensures Valid(s')
    decreases |ops|
  {
    if ops == [] then s else
    StepIsSound(s, ops[0]);
    Run(Step(s, ops[0]), ops[1..])
  }

  // --------------------------------------------------------------------- consequences

  lemma {:induction false} SumIsBounded(reviews: map<nat, Review>, e: nat, n: nat)
    requires forall id :: id in reviews ==> 0.0 <= reviews[id].overall <= 5.0
    ensures 0.0 <= SumBelow(reviews, e, n) <= 5.0 * CountBelow(reviews, e, n) as real
  {
    if n > 0 {
      SumIsBounded(reviews, e, n - 1);
    }
  }

  lemma QuotientIsBounded(q: real, sum: real, count: real)
    requires 0.0 < count && q * count == sum && 0.0 <= sum <= 5.0 * count
    ensures 0.0 <= q <= 5.0
  {
    assert q > 5.0 ==> q * count > 5.0 * count;
    assert q < 0.0 ==> q * count < 0.0;
  }

  lemma Round2IsBounded(x: real)
    requires 0.0 <= x <= 5.0
    ensures 0.0 <= Round2(x) <= 5.0
  {
    assert RoundHalfEven(0.0) == 0 && RoundHalfEven(500.0) == 500;
    RoundIsMonotone(0.0, x * 100.0);
    RoundIsMonotone(x * 100.0, 500.0);
  }

  lemma RatingForIsBounded(reviews: map<nat, Review>, e: nat, n: nat)
    requires forall id :: id in reviews ==> 0.0 <= reviews[id].overall <= 5.0
    ensures 0.0 <= RatingFor(reviews, e, n).average <= 5.0
  {
    var count := CountBelow(reviews, e, n);
    if count > 0 {
      var sum := SumBelow(reviews, e, n);
      SumIsBounded(reviews, e, n);
      QuotientIsBounded(sum / count as real, sum, count as real);
      Round2IsBounded(sum / count as real);
    }
  }

  /** In every reachable store every rating lies between 0 and 5, also after rounding. */
  lemma RatingsAreInRange(s: Store, e: nat)
    requires Valid(s) && e in s.ratings
    ensures 0.0 <= s.ratings[e].average <= 5.0
  {
    RatingForIsBounded(s.reviews, e, s.nextId);
  }

  /** Unhiding undoes hiding: the rating of the event is exactly restored. */
  lemma UnhideUndoesHide(s: Store, id: nat, reason: Option<string>)
    requires Valid(s) && id in s.reviews && !s.reviews[id].hidden && s.reviews[id].hiddenReason.None?
    ensures SetHidden(SetHidden(s, id, true, reason), id, false, None) == s
  {
    var m := SetHidden(s, id, true, reason);
    var z := SetHidden(m, id, false, None);
    assert z.reviews == s.reviews;
    assert z.ratings == s.ratings;
  }

  lemma {:induction false} CountAfterUpdate(reviews: map<nat, Review>, id: nat, review: Review, n: nat)
    ensures CountBelow(reviews[id := review], review.eventId, n) + (if id < n && Counts(reviews, review.eventId, id) then 1 else 0)
            == CountBelow(reviews, review.eventId, n) + (if id < n && !review.hidden then 1 else 0)
  {
    if n > 0 {
      CountAfterUpdate(reviews, id, review, n - 1);
    }
  }

  /** Submitting counts each user once: a first (or hidden) review adds one, a resubmission none. */
  lemma SubmissionCountsOnce(s: Store, userId: nat, eventId: nat, registration: nat, form: Form)
    requires Valid(s) && FormOk(form) && eventId in s.ratings
    ensures var found := Find(s.reviews, userId, eventId);
            Submit(s, userId, eventId, Some(registration), form).ratings[eventId].count
            == s.ratings[eventId].count + (if found.Some? && !s.reviews[found.value].hidden then 0 else 1)
  {
    var found := Find(s.reviews, userId, eventId);
    var id := if found.Some? then found.value else s.nextId;
    var s' := Submit(s, userId, eventId, Some(registration), form);
    CountAfterUpdate(s.reviews, id, s'.reviews[id], s'.nextId);
  }

  // ------------------------------------------------------------------ what a rating means

  /** The published reviews of an event. */
  function Published(reviews: map<nat, Review>, e: nat): set<nat> {
    set id | id in reviews && reviews[id].eventId == e && !reviews[id].hidden
  }

  /** The sum of the overall marks of some reviews. */
  ghost function Total(reviews: map<nat, Review>, ids: set<nat>): real
    requires ids <= reviews.Keys
  {
    if ids == {} then 0.0 else
    HasGreatest(ids);
    var id :| id in ids && forall j :: j in ids ==> j <= id;
    Total(reviews, ids - {id}) + reviews[id].overall
  }

  function PublishedBelow(reviews: map<nat, Review>, e: nat, n: nat): set<nat> {
    set id | id in Published(reviews, e) && id < n
  }

  lemma TotalWithGreatest(reviews: map<nat, Review>, ids: set<nat>, id: nat)
    requires ids <= reviews.Keys && id in reviews && forall j :: j in ids ==> j < id
    ensures Total(reviews, ids + {id}) == Total(reviews, ids) + reviews[id].overall
  {
    var all := ids + {id};
    assert id in all;
    assert forall m :: m in all && (forall j :: j in all ==> j <= m) ==> m == id;
    assert all - {id} == ids;
  }

  lemma {:induction false} LoopsCountAndSum(reviews: map<nat, Review>, e: nat, n: nat)
    ensures CountBelow(reviews, e, n) == |PublishedBelow(reviews, e, n)|
    ensures SumBelow(reviews, e, n) == Total(reviews, PublishedBelow(reviews, e, n))
  {
    if n == 0 {
      assert PublishedBelow(reviews, e, 0) == {};
    } else {
      LoopsCountAndSum(reviews, e, n - 1);
      var less := PublishedBelow(reviews, e, n - 1);
      if n - 1 in Published(reviews, e) {
        assert PublishedBelow(reviews, e, n) == less + {n - 1};
        TotalWithGreatest(reviews, less, n - 1);
      } else {
        assert PublishedBelow(reviews, e, n) == less;
      }
    }
  }

  /** Two decimals are within half a hundredth. */
  lemma Round2IsClose(x: real)
    ensures -0.005 <= Round2(x) - x <= 0.005
  {
    assert Round2(x) * 100.0 - x * 100.0 == RoundHalfEven(x * 100.0) as real - x * 100.0;
  }

  /** In every reachable store an event's count is the number of its published reviews and its average
      their mean to two decimals, 0 if there are none. */
  lemma RatingIsMean(s: Store, e: nat)
    requires Valid(s) && e in s.ratings
    ensures var ids := Published(s.reviews, e);
            && s.ratings[e].count == |ids|
            && (ids == {} ==> s.ratings[e].average == 0.0)
            && (ids != {} ==> -0.005 <= s.ratings[e].average - Total(s.reviews, ids) / |ids| as real <= 0.005)
  {
    assert PublishedBelow(s.reviews, e, s.nextId) == Published(s.reviews, e);
    LoopsCountAndSum(s.reviews, e, s.nextId);
    if Published(s.reviews, e) != {} {
      Round2IsClose(Total(s.reviews, Published(s.reviews, e)) / |Published(s.reviews, e)| as real);
    }
  }

  /** A submission stores the user's four marks and their mean, published, under the registration; the
      reviews of all others stay as they are. */
  lemma SubmissionWrites(s: Store, userId: nat, eventId: nat, registration: nat, form: Form)
    requires Valid(s) && FormOk(form)
    ensures var s' := Submit(s, userId, eventId, Some(registration), form);
            && (exists id :: && id in s'.reviews && s'.reviews == s.reviews[id := s'.reviews[id]]
                             && IsSubmitted(s'.reviews[id], userId, eventId, registration, form))
            && (forall id :: id in s.reviews && (s.reviews[id].userId != userId || s.reviews[id].eventId != eventId) ==>
                  id in s'.reviews && s'.reviews[id] == s.reviews[id])
  {
    var found := Find(s.reviews, userId, eventId);
    var id := if found.Some? then found.value else s.nextId;
    var s' := Submit(s, userId, eventId, Some(registration), form);
    assert s'.reviews == s.reviews[id := s'.reviews[id]];
    assert IsSubmitted(s'.reviews[id], userId, eventId, registration, form);
  }

  predicate IsSubmitted(r: Review, userId: nat, eventId: nat, registration: nat, form: Form)
    requires FormOk(form)
  {
    && r.userId == userId && r.eventId == eventId && r.registrationId == registration && !r.hidden
    && r.axes == form.axes && r.comment == form.comment
    && r.overall * 4.0 == (form.axes[0] + form.axes[1] + form.axes[2] + form.axes[3]) as real
  }

  /** Hiding takes exactly the one review out of its event's rating, publishing puts it back. */
  lemma HidingWrites(s: Store, id: nat, hidden: bool, reason: Option<string>)
    requires Valid(s) && id in s.reviews
    ensures var s', e := SetHidden(s, id, hidden, reason), s.reviews[id].eventId;
            && s'.reviews == s.reviews[id := s.reviews[id].(hidden := hidden, hiddenReason := if hidden then reason else None)]
            && Published(s'.reviews, e) == (if hidden then Published(s.reviews, e) - {id} else Published(s.reviews, e) + {id})
            && (e in s.ratings ==> e in s'.ratings && s'.ratings[e].count == |Published(s'.reviews, e)|)
  {
    var review := s.reviews[id].(hidden := hidden, hiddenReason := if hidden then reason else None);
    UpdateKeepsValid(s, id, review, s.nextId);
    PublishedAfterHiding(s.reviews, id, review);
    if review.eventId in s.ratings {
      RatingIsMean(SetHidden(s, id, hidden, reason), review.eventId);
    }
  }

  lemma PublishedAfterHiding(reviews: map<nat, Review>, id: nat, review: Review)
    requires id in reviews && review.eventId == reviews[id].eventId
    ensures Published(reviews[id := review], review.eventId)
            == if review.hidden then Published(reviews, review.eventId) - {id} else Published(reviews, review.eventId) + {id}
  {
  }
}
