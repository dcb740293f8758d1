/** The one-hour reminder scan (backend/app/workers/scheduler.py, scan_reminders).  Times in seconds. */
module Reminders {
  import opened Registrations
  import opened Wrappers

  /** `reminded` records the times at which a reminder was enqueued for the registration. */
  datatype Registration = Registration(sessionId: nat, eventId: nat, status: RegStatus,
                                       reminderSentAt: Option<real>, reminded: seq<real>)

  datatype Store = Store(regs: map<nat, Registration>, startsAt: map<nat, real>, published: map<nat, bool>)

  const WINDOW_START := 3540.0   // 59 minutes
  const WINDOW_END := 3660.0     // 61 minutes

  predicate InWindow(start: real, now: real) {
    now + WINDOW_START <= start <= now + WINDOW_END
  }

  /** The registration would be reminded now, were it not for an earlier reminder. */
  predicate Eligible(s: Store, reg: Registration, now: real) {
    && reg.status == Confirmed
    && reg.eventId in s.published && s.published[reg.eventId]
    && reg.sessionId in s.startsAt && InWindow(s.startsAt[reg.sessionId], now)
  }

  predicate IsDue(s: Store, r: nat, now: real) {
    r in s.regs && s.regs[r].reminderSentAt.None? && Eligible(s, s.regs[r], now)
  }

  function Remind(reg: Registration, now: real): Registration {
    reg.(reminderSentAt := Some(now), reminded := reg.reminded + [now])
  }

  function Scan(s: Store, now: real): Store {
    s.(regs := map r | r in s.regs :: if IsDue(s, r, now) then Remind(s.regs[r], now) else s.regs[r])
  }

  class Scanner {
    var regs: map<nat, Registration>
    var startsAt: map<nat, real>
    var published: map<nat, bool>

    ghost function State(): Store
      reads this
    {
      Store(regs, startsAt, published)
    }

    /** The due registrations are fetched once and then reminded one by one, in any order. */
    method ScanReminders(now: real)
      modifies this`regs
      ensures State() == Scan(old(State()), now)
    {
      ghost var s := State();
      var due := set r | r in regs && IsDue(Store(regs, startsAt, published), r, now);
      var left := due;
      while left != {}
        invariant left <= due
        invariant regs == map r | r in s.regs :: if r in due && r !in left then Remind(s.regs[r], now) else s.regs[r]
        decreases left
      {
        var r :| r in left;
        regs := regs[r := regs[r].(reminded := regs[r].reminded + [now])];
        regs := regs[r := regs[r].(reminderSentAt := Some(now))];
        left := left - {r};
      }
    }
  }

  // ------------------------------------------------------------------------------ runs

  /** A run is a sequence of scans; before each one, anything else may have changed the store. */
  datatype Op = Change(to: Store) | ScanAt(now: real)

  /** The rest of the program adds registrations without reminder and never touches reminder fields. */
  ghost predicate ChangeOk(s: Store, t: Store) {
    && s.regs.Keys <= t.regs.Keys
    && (forall r :: r in s.regs ==> t.regs[r].reminderSentAt == s.regs[r].reminderSentAt && t.regs[r].reminded == s.regs[r].reminded)
    && (forall r :: r in t.regs && r !in s.regs ==> t.regs[r].reminderSentAt.None? && t.regs[r].reminded == [])
  }

  ghost predicate Possible(s: Store, ops: seq<Op>)
    decreases |ops|
  {
    ops == [] || ((ops[0].Change? ==> ChangeOk(s, ops[0].to)) && Possible(Step(s, ops[0]), ops[1..]))
  }

  function Step(s: Store, op: Op): Store {
    match op
    case Change(t) => t
    case ScanAt(now) => Scan(s, now)
  }

  function Run(s: Store, ops: seq<Op>): Store
    decreases |ops|
  {
    if ops == [] then s else Run(Step(s, ops[0]), ops[1..])
  }

  /** A registration has been reminded at most once, and the mark says whether it has. */
  ghost predicate Valid(s: Store) {
    forall r :: r in s.regs ==>
      s.regs[r].reminded == match s.regs[r].reminderSentAt case None => [] case Some(t) => [t]
  }

  /** No registration is ever reminded twice, and a reminder, once sent, stays recorded. */
  lemma {:induction false} NeverRemindedTwice(s: Store, ops: seq<Op>)
    requires Valid(s) && Possible(s, ops)
    ensures var z := Run(s, ops);
            && Valid(z) && s.regs.Keys <= z.regs.Keys
            && (forall r :: r in z.regs ==> |z.regs[r].reminded| <= 1)
            && (forall r :: r in s.regs ==> s.regs[r].reminded <= z.regs[r].reminded)
    decreases |ops|
  {
    if ops != [] {
      NeverRemindedTwice(Step(s, ops[0]), ops[1..]);
    }
  }

  // -------------------------------------------------------------------------- coverage

  /** Scans start no later than `first`, follow each other within the width of the window, and
      the last is at `last` or later. */
  ghost predicate Covers(ops: seq<Op>, previous: real, last: real)
    decreases |ops|
  {
    if ops == [] then last <= previous
    else if ops[0].ScanAt? then previous <= ops[0].now <= previous + 120.0 && Covers(ops[1..], ops[0].now, last)
    else Covers(ops[1..], previous, last)
  }

  /** The registration is confirmed and its event published, and its session starts in 59 to 61 minutes. */
  predicate StartsInAnHour(s: Store, r: nat, now: real) {
    && r in s.regs && s.regs[r].status == Confirmed
    && s.regs[r].eventId in s.published && s.published[s.regs[r].eventId]
    && s.regs[r].sessionId in s.startsAt
    && 59.0 * 60.0 <= s.startsAt[s.regs[r].sessionId] - now <= 61.0 * 60.0
  }

  predicate IsAnHourBefore(start: real, now: real) {
    start - 3660.0 <= now <= start - 3540.0
  }

  /** Whenever a scan comes about an hour before `start`, the registration is confirmed for a session
      of a published event that starts about then. */
  ghost predicate StaysEligible(s: Store, ops: seq<Op>, r: nat, start: real)
    decreases |ops|
  {
    ops == []
    || ((ops[0].ScanAt? && IsAnHourBefore(start, ops[0].now) ==> StartsInAnHour(s, r, ops[0].now))
        && StaysEligible(Step(s, ops[0]), ops[1..], r, start))
  }

  /** One scan inside the window is enough. */
  lemma ScanInWindowReminds(s: Store, ops: seq<Op>, r: nat, start: real)
    requires Valid(s) && Possible(s, ops) && StaysEligible(s, ops, r, start)
    requires ops != [] && ops[0].ScanAt? && IsAnHourBefore(start, ops[0].now)
    ensures r in Run(s, ops).regs && |Run(s, ops).regs[r].reminded| == 1
  {
    var s' := Step(s, ops[0]);
    NeverRemindedTwice(s, [ops[0]]);
    assert r in s'.regs && |s'.regs[r].reminded| == 1;
    assert Valid(s');
    NeverRemindedTwice(s', ops[1..]);
  }

  /** If scans begin before the window closes, are never more than its width apart and go on until it
      has opened, a registration that stays eligible is reminded exactly once. */
  lemma {:induction false} WindowIsCovered(s: Store, ops: seq<Op>, previous: real, r: nat, start: real)
    requires Valid(s) && Possible(s, ops) && StaysEligible(s, ops, r, start)
    requires previous < start - 3660.0 && Covers(ops, previous, start - 3660.0)
    ensures r in Run(s, ops).regs && |Run(s, ops).regs[r].reminded| == 1
    decreases |ops|
  {
    if ops[0].ScanAt? && IsAnHourBefore(start, ops[0].now) {
      ScanInWindowReminds(s, ops, r, start);
    } else {
      NeverRemindedTwice(s, [ops[0]]);
      assert Run(s, [ops[0]]) == Step(s, ops[0]) by { assert [ops[0]][1..] == []; }
      WindowIsCovered(Step(s, ops[0]), ops[1..], if ops[0].ScanAt? then ops[0].now else previous, r, start);
    }
  }

  /** The same when the first scan already falls before the window closes. */
  lemma EveryEligibleRegistrationIsRemindedOnce(s: Store, first: real, ops: seq<Op>, r: nat, start: real)
    requires Valid(s) && Possible(s, [ScanAt(first)] + ops) && StaysEligible(s, [ScanAt(first)] + ops, r, start)
    requires first <= start - 3540.0 && Covers(ops, first, start - 3660.0)
    ensures var z := Run(s, [ScanAt(first)] + ops); r in z.regs && |z.regs[r].reminded| == 1
  {
    var all := [ScanAt(first)] + ops;
    assert all[1..] == ops;
    if IsAnHourBefore(start, first) {
      ScanInWindowReminds(s, all, r, start);
    } else {
      NeverRemindedTwice(s, [all[0]]);
      assert Run(s, [all[0]]) == Step(s, all[0]) by { assert [all[0]][1..] == []; }
      WindowIsCovered(Step(s, all[0]), ops, first, r, start);
    }
  }

  // ------------------------------------------------------------------ what is missed, exactly

  /** The first scan of the run that comes when the registration's session starts in about an hour. */
  ghost function FirstSighting(s: Store, ops: seq<Op>, r: nat): Option<real>
    decreases |ops|
  {
    if ops == [] then None
    else if ops[0].ScanAt? && StartsInAnHour(s, r, ops[0].now) then Some(ops[0].now)
    else FirstSighting(Step(s, ops[0]), ops[1..], r)
  }

  ghost predicate Seen(s: Store, ops: seq<Op>, r: nat) {
    FirstSighting(s, ops, r).Some?
  }

  /** In every run, a registration without reminder gets one if and only if it is confirmed, its event
      published and its session 59 to 61 minutes away at the time of some scan; the first such scan
      sends it, and is the time recorded. */
  lemma {:induction false} RemindedIffSeen(s: Store, ops: seq<Op>, r: nat)
    requires Valid(s) && Possible(s, ops) && (r in s.regs ==> s.regs[r].reminded == [])
    ensures var z, t := Run(s, ops), FirstSighting(s, ops, r);
            r in z.regs ==> z.regs[r].reminderSentAt == t && z.regs[r].reminded == match t case None => [] case Some(x) => [x]
    decreases |ops|
  {
    if ops != [] {
      var s' := Step(s, ops[0]);
      OneStep(s, ops[0]);
      if r in s'.regs && s'.regs[r].reminded != [] {
        RemindedStays(s', ops[1..], r);
      } else {
        RemindedIffSeen(s', ops[1..], r);
      }
    }
  }

  lemma RemindedStays(s: Store, ops: seq<Op>, r: nat)
    requires Valid(s) && Possible(s, ops) && r in s.regs && s.regs[r].reminded != []
    ensures var z := Run(s, ops);
            r in z.regs && z.regs[r].reminderSentAt == s.regs[r].reminderSentAt && z.regs[r].reminded == s.regs[r].reminded
  {
    NeverRemindedTwice(s, ops);
    assert s.regs[r].reminded[0] == Run(s, ops).regs[r].reminded[0];
  }

  lemma OneStep(s: Store, op: Op)
    requires Valid(s) && (op.Change? ==> ChangeOk(s, op.to))
    ensures Valid(Step(s, op))
  {
  }

  predicate Ascending(times: seq<real>) {
    forall i, j :: 0 <= i < j < |times| ==> times[i] <= times[j]
  }

  function ScansAt(times: seq<real>): seq<Op> {
    if times == [] then [] else [ScanAt(times[0])] + ScansAt(times[1..])
  }

  /** The registration is confirmed for a session of a published event, and not yet reminded. */
  predicate Standing(s: Store, r: nat) {
    && r in s.regs && s.regs[r].status == Confirmed && s.regs[r].reminded == []
    && s.regs[r].eventId in s.published && s.published[s.regs[r].eventId] && s.regs[r].sessionId in s.startsAt
  }

  function StartOf(s: Store, r: nat): real
    requires Standing(s, r)
  {
    s.startsAt[s.regs[r].sessionId]
  }

  /** Scans at the given times, which span the registration's window, leave it without reminder,
      although nothing about it changes. */
  ghost predicate Missed(s: Store, r: nat, times: seq<real>)
    requires times != []
  {
    && Valid(s) && Standing(s, r)
    && times[0] <= StartOf(s, r) - 3540.0 && StartOf(s, r) - 3660.0 <= times[|times| - 1]
    && r in Run(s, ScansAt(times)).regs && Run(s, ScansAt(times)).regs[r].reminded == []
  }

  lemma {:induction false} ScansArePossible(s: Store, times: seq<real>)
    ensures Possible(s, ScansAt(times))
    decreases |times|
  {
    if times != [] {
      ScansArePossible(Scan(s, times[0]), times[1..]);
    }
  }

  /** Scans see a standing registration if and only if one of them falls in its window. */
  lemma {:induction false} SeenIffInWindow(s: Store, r: nat, times: seq<real>, start: real)
    requires r in s.regs && s.regs[r].status == Confirmed
    requires s.regs[r].eventId in s.published && s.published[s.regs[r].eventId]
    requires s.regs[r].sessionId in s.startsAt && s.startsAt[s.regs[r].sessionId] == start
    ensures Seen(s, ScansAt(times), r) <==> exists k :: 0 <= k < |times| && IsAnHourBefore(start, times[k])
    decreases |times|
  {
    if times != [] {
      SeenIffInWindow(Scan(s, times[0]), r, times[1..], start);
      if k :| 0 <= k < |times| && IsAnHourBefore(start, times[k]) {
        assert k > 0 ==> times[1..][k - 1] == times[k];
      }
      assert forall k :: 0 <= k < |times[1..]| ==> times[1..][k] == times[k + 1];
    }
  }

  predicate HasWideGap(times: seq<real>) {
    exists k :: 0 < k < |times| && times[k] - times[k - 1] > 120.0
  }

  /** Without a wide gap, one of the scans that span a window falls in it. */
  lemma {:induction false} NarrowGapsHit(times: seq<real>, start: real)
    requires times != [] && !HasWideGap(times)
    requires times[0] <= start - 3540.0 && start - 3660.0 <= times[|times| - 1]
    ensures exists k :: 0 <= k < |times| && IsAnHourBefore(start, times[k])
    decreases |times|
  {
    if IsAnHourBefore(start, times[0]) {
      assert 0 < |times|;
    } else {
      var rest := times[1..];
      assert forall k :: 0 < k < |rest| ==> rest[k] - rest[k - 1] == times[k + 1] - times[k];
      assert times[1] - times[0] <= 120.0;
      NarrowGapsHit(rest, start);
      var k :| 0 <= k < |rest| && IsAnHourBefore(start, rest[k]);
      assert IsAnHourBefore(start, times[k + 1]);
    }
  }

  /** A registration whose window lies inside the gap before the k-th scan. */
  function InGap(start: real): Store {
    Store(map[1 := Registration(1, 1, Confirmed, None, [])], map[1 := start], map[1 := true])
  }

  lemma WideGapMisses(times: seq<real>, k: nat)
    requires Ascending(times) && 0 < k < |times| && times[k] - times[k - 1] > 120.0
    ensures Missed(InGap(times[k - 1] + 3660.0 + (times[k] - times[k - 1] - 120.0) / 2.0), 1, times)
  {
    var start := times[k - 1] + 3660.0 + (times[k] - times[k - 1] - 120.0) / 2.0;
    var s := InGap(start);
    forall j | 0 <= j < |times| ensures !IsAnHourBefore(start, times[j]) {
      assert j < k ==> times[j] <= times[k - 1];
      assert j >= k ==> times[k] <= times[j];
    }
    ScansArePossible(s, times);
    SeenIffInWindow(s, 1, times, start);
    RemindedIffSeen(s, ScansAt(times), 1);
    NeverRemindedTwice(s, ScansAt(times));
  }

  /** The condition on the spacing is exact: scans at given times can miss a standing registration
      whose window they span if and only if two consecutive scans are more than 120 seconds apart. */
  lemma GapMissesIffTooWide(times: seq<real>)
    requires times != [] && Ascending(times)
    ensures (exists s, r :: Missed(s, r, times)) <==> HasWideGap(times)
  {
    if k :| 0 < k < |times| && times[k] - times[k - 1] > 120.0 {
      WideGapMisses(times, k);
    }
    if s, r :| Missed(s, r, times) {
      ScansArePossible(s, times);
      SeenIffInWindow(s, r, times, StartOf(s, r));
      RemindedIffSeen(s, ScansAt(times), r);
      if !HasWideGap(times) {
        NarrowGapsHit(times, StartOf(s, r));
        assert false;
      }
    }
  }
}
