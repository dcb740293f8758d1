/** The notification outbox: send, retry with capped exponential backoff, give up
    (backend/app/workers/scheduler.py). */
module Outbox {
  import opened Arithmetic
  import opened Counting

  datatype Status = Pending | Sent | Failed

  /** A row of notification_outbox; `sends` records the times of its send attempts. */
  datatype Row = Row(status: Status, attempts: nat, nextAttemptAt: int, sends: seq<int>)

  type Queue = map<nat, Row>

  /** One call of a provider: when it started, whether it reported success (anything else,
      an exception included, is a failure), and when the outcome was recorded. */
  datatype Attempt = Attempt(sentAt: int, delivered: bool, markedAt: int)

  const BATCH_SIZE := 50

  function Pow2(n: nat): nat {
    if n == 0 then 1 else 2 * Pow2(n - 1)
  }

  /** Seconds to wait after the given number of attempts. */
  function Backoff(attempts: nat): int
    requires 1 <= attempts
  {
    Min(30 * Pow2(attempts - 1), 3600)
  }

  function Marked(row: Row, maxAttempts: nat, now: int): Row
    requires 1 <= row.attempts
  {
    if row.attempts >= maxAttempts then row.(status := Failed)
    else row.(nextAttemptAt := now + Backoff(row.attempts))
  }

  function Tried(row: Row, maxAttempts: nat, a: Attempt): Row {
    var r := row.(attempts := row.attempts + 1, sends := row.sends + [a.sentAt]);
    if a.delivered then r.(status := Sent) else Marked(r, maxAttempts, a.markedAt)
  }

  predicate IsDue(row: Row, now: int) {
    row.status == Pending && row.nextAttemptAt <= now
  }

  function Due(q: Queue, now: int): set<nat> {
    set id | id in q && IsDue(q[id], now)
  }

  /** What the batch query may return: due rows in any order, all of them up to the limit. */
  predicate BatchOk(q: Queue, now: int, batch: seq<nat>) {
    && (forall i :: 0 <= i < |batch| ==> batch[i] in Due(q, now))
    && (forall i, j :: 0 <= i < j < |batch| ==> batch[i] != batch[j])
    && |batch| == Min(BATCH_SIZE, |Due(q, now)|)
  }

  /** One attempt per row of the batch, in order, none before the query. */
  predicate AttemptsOk(now: int, batch: seq<nat>, attempts: seq<Attempt>, end: int) {
    && |attempts| == |batch| && now <= end
    && (forall i :: 0 <= i < |attempts| ==> now <= attempts[i].sentAt <= attempts[i].markedAt <= end)
  }

  function Dispatch(q: Queue, maxAttempts: nat, batch: seq<nat>, attempts: seq<Attempt>): Queue
    requires |attempts| == |batch|
    decreases |batch|
  {
    if batch == [] then q
    else Dispatch(if batch[0] in q then q[batch[0] := Tried(q[batch[0]], maxAttempts, attempts[0])] else q,
                  maxAttempts, batch[1..], attempts[1..])
  }

  class Worker {
    var outbox: Queue
    const maxAttempts: nat

    constructor (maxAttempts: nat)
      ensures this.maxAttempts == maxAttempts && outbox == map[]
    {
      this.maxAttempts := maxAttempts;
      outbox := map[];
    }

    method MarkRetryOrFailed(id: nat, now: int)
      requires id in outbox && 1 <= outbox[id].attempts
      modifies this
      ensures outbox == old(outbox)[id := Marked(old(outbox)[id], maxAttempts, now)]
    {
      if outbox[id].attempts >= maxAttempts {
        outbox := outbox[id := outbox[id].(status := Failed)];
      } else {
        var wait := Min(30 * Pow2(outbox[id].attempts - 1), 3600);
        outbox := outbox[id := outbox[id].(nextAttemptAt := now + wait)];
      }
    }

    method SendOne(id: nat, a: Attempt)
      requires id in outbox
      modifies this
      ensures outbox == old(outbox)[id := Tried(old(outbox)[id], maxAttempts, a)]
    {
      outbox := outbox[id := outbox[id].(attempts := outbox[id].attempts + 1, sends := outbox[id].sends + [a.sentAt])];
      if a.delivered {
        outbox := outbox[id := outbox[id].(status := Sent)];
      } else {
        MarkRetryOrFailed(id, a.markedAt);
      }
    }

    method DispatchOutbox(now: int, batch: seq<nat>, attempts: seq<Attempt>)
      requires BatchOk(outbox, now, batch) && |attempts| == |batch|
      modifies this
      ensures outbox == Dispatch(old(outbox), maxAttempts, batch, attempts)
    {
      var i := 0;
      while i < |batch|
        invariant 0 <= i <= |batch|
        invariant outbox.Keys == old(outbox).Keys
        invariant Dispatch(outbox, maxAttempts, batch[i..], attempts[i..])
                  == Dispatch(old(outbox), maxAttempts, batch, attempts)
      {
        assert batch[i..][1..] == batch[i + 1..] && attempts[i..][1..] == attempts[i + 1..];
        SendOne(batch[i], attempts[i]);
        i := i + 1;
      }
    }
  }

  // ------------------------------------------------------------------------ invariant

  /** Status and attempts agree; sends are as far apart as the backoff demands; a pending row that
      has been tried waits out the backoff. */
  ghost predicate RowOk(row: Row, maxAttempts: nat) {
    && |row.sends| == row.attempts <= maxAttempts
    && (row.status.Pending? ==> row.attempts < maxAttempts)
    && (row.status.Failed? ==> row.attempts == maxAttempts)
    && (row.status.Sent? ==> 1 <= row.attempts)
    && (forall j :: 1 <= j < |row.sends| ==> row.sends[j] - row.sends[j - 1] >= Backoff(j))
    && (row.status.Pending? && 1 <= row.attempts ==>
          row.nextAttemptAt >= row.sends[row.attempts - 1] + Backoff(row.attempts))
  }

  ghost predicate Valid(q: Queue, maxAttempts: nat) {
    forall id :: id in q ==> RowOk(q[id], maxAttempts)
  }

  lemma TriedIsOk(row: Row, maxAttempts: nat, a: Attempt)
    requires RowOk(row, maxAttempts) && row.status == Pending
    requires row.nextAttemptAt <= a.sentAt <= a.markedAt
    ensures RowOk(Tried(row, maxAttempts, a), maxAttempts)
  {
  }

  ghost predicate Within(q: Queue, n: nat) {
    forall id :: id in q ==> id < n
  }

  /** The sends a row still has in it. */
  function SendsLeft(q: Queue, maxAttempts: nat, id: nat): nat {
    if id in q && q[id].status == Pending && q[id].attempts < maxAttempts then maxAttempts - q[id].attempts else 0
  }

  function Measure(q: Queue, maxAttempts: nat, n: nat): nat {
    Sum(id => SendsLeft(q, maxAttempts, id), n)
  }

  function AttemptsOf(q: Queue, id: nat): nat {
    if id in q then q[id].attempts else 0
  }

  function TotalSends(q: Queue, n: nat): nat {
    Sum(id => AttemptsOf(q, id), n)
  }

  /** One send costs at least one unit of the measure and is counted once. */
  lemma OneSend(q: Queue, maxAttempts: nat, id: nat, a: Attempt, n: nat)
    requires id in q && id < n && q[id].status == Pending && q[id].attempts < maxAttempts
    ensures var q' := q[id := Tried(q[id], maxAttempts, a)];
            && Measure(q', maxAttempts, n) + 1 <= Measure(q, maxAttempts, n)
            && TotalSends(q', n) == TotalSends(q, n) + 1
  {
    var q' := q[id := Tried(q[id], maxAttempts, a)];
    SumAfterChange(i => SendsLeft(q, maxAttempts, i), i => SendsLeft(q', maxAttempts, i), n, id);
    SumAfterChange(i => AttemptsOf(q, i), i => AttemptsOf(q', i), n, id);
  }

  /** Distinct rows of the queue, all due. */
  ghost predicate AllDue(q: Queue, now: int, batch: seq<nat>) {
    && (forall i :: 0 <= i < |batch| ==> batch[i] in q && IsDue(q[batch[i]], now))
    && (forall i, j :: 0 <= i < j < |batch| ==> batch[i] != batch[j])
  }

  lemma AllDueTail(q: Queue, maxAttempts: nat, now: int, batch: seq<nat>, attempts: seq<Attempt>, end: int)
    requires batch != [] && AllDue(q, now, batch) && AttemptsOk(now, batch, attempts, end)
    ensures AllDue(q[batch[0] := Tried(q[batch[0]], maxAttempts, attempts[0])], now, batch[1..])
    ensures AttemptsOk(now, batch[1..], attempts[1..], end)
    ensures batch[0] !in batch[1..] && forall k :: k in batch <==> k == batch[0] || k in batch[1..]
  {
    assert batch == [batch[0]] + batch[1..];
  }

  lemma {:induction false} DispatchKeepsValid(q: Queue, maxAttempts: nat, now: int, batch: seq<nat>, attempts: seq<Attempt>, end: int)
    requires Valid(q, maxAttempts) && AllDue(q, now, batch) && AttemptsOk(now, batch, attempts, end)
    ensures var q' := Dispatch(q, maxAttempts, batch, attempts); Valid(q', maxAttempts) && q'.Keys == q.Keys
    decreases |batch|
  {
    if batch != [] {
      var id := batch[0];
      TriedIsOk(q[id], maxAttempts, attempts[0]);
      AllDueTail(q, maxAttempts, now, batch, attempts, end);
      DispatchKeepsValid(q[id := Tried(q[id], maxAttempts, attempts[0])], maxAttempts, now, batch[1..], attempts[1..], end);
    }
  }

  /** Rows outside the batch are left alone, and rows in it due again within an hour. */
  lemma {:induction false} DispatchFrame(q: Queue, maxAttempts: nat, now: int, batch: seq<nat>, attempts: seq<Attempt>, end: int)
    requires AllDue(q, now, batch) && AttemptsOk(now, batch, attempts, end)
    ensures var q' := Dispatch(q, maxAttempts, batch, attempts);
            && q'.Keys == q.Keys
            && (forall id :: id in q && id !in batch ==> q'[id] == q[id])
            && (forall id :: id in batch ==> id in q && (q'[id].status == Pending ==> q'[id].nextAttemptAt <= end + 3600))
    decreases |batch|
  {
    if batch != [] {
      var id := batch[0];
      AllDueTail(q, maxAttempts, now, batch, attempts, end);
      DispatchFrame(q[id := Tried(q[id], maxAttempts, attempts[0])], maxAttempts, now, batch[1..], attempts[1..], end);
    }
  }

  /** The measure falls by at least the number of rows processed, each of which is one send. */
  lemma {:induction false} DispatchSpendsMeasure(
      q: Queue, maxAttempts: nat, now: int, batch: seq<nat>, attempts: seq<Attempt>, end: int, n: nat)
    requires Valid(q, maxAttempts) && AllDue(q, now, batch) && AttemptsOk(now, batch, attempts, end) && Within(q, n)
    ensures var q' := Dispatch(q, maxAttempts, batch, attempts);
            && Measure(q', maxAttempts, n) + |batch| <= Measure(q, maxAttempts, n)
            && TotalSends(q', n) == TotalSends(q, n) + |batch|
    decreases |batch|
  {
    if batch != [] {
      var id := batch[0];
      TriedIsOk(q[id], maxAttempts, attempts[0]);
      OneSend(q, maxAttempts, id, attempts[0], n);
      AllDueTail(q, maxAttempts, now, batch, attempts, end);
      DispatchSpendsMeasure(q[id := Tried(q[id], maxAttempts, attempts[0])], maxAttempts, now, batch[1..], attempts[1..], end, n);
    }
  }

  lemma DispatchIsSound(q: Queue, maxAttempts: nat, now: int, batch: seq<nat>, attempts: seq<Attempt>, end: int, n: nat)
    requires Valid(q, maxAttempts) && BatchOk(q, now, batch) && AttemptsOk(now, batch, attempts, end) && Within(q, n)
    ensures var q' := Dispatch(q, maxAttempts, batch, attempts);
            && Valid(q', maxAttempts) && q'.Keys == q.Keys
            && (forall id :: id in q && id !in batch ==> q'[id] == q[id])
            && (forall id :: id in batch ==> id in q && (q'[id].status == Pending ==> q'[id].nextAttemptAt <= end + 3600))
            && (forall id :: id in q && q[id].status != Pending ==> q'[id] == q[id])
            && Measure(q', maxAttempts, n) + |batch| <= Measure(q, maxAttempts, n)
            && TotalSends(q', n) == TotalSends(q, n) + |batch|
  {
    assert AllDue(q, now, batch);
    DispatchKeepsValid(q, maxAttempts, now, batch, attempts, end);
    DispatchFrame(q, maxAttempts, now, batch, attempts, end);
    DispatchSpendsMeasure(q, maxAttempts, now, batch, attempts, end, n);
  }

  // ------------------------------------------------------------------------------ runs

  datatype Op =
    | Enqueue(id: nat, at: int)
    | Round(now: int, batch: seq<nat>, attempts: seq<Attempt>, end: int)

  predicate Enabled(q: Queue, op: Op, n: nat) {
    match op
    case Enqueue(id, _) => id !in q && id < n
    case Round(now, batch, attempts, end) => BatchOk(q, now, batch) && AttemptsOk(now, batch, attempts, end)
  }

  function Step(q: Queue, maxAttempts: nat, op: Op): Queue
    requires op.Round? ==> |op.attempts| == |op.batch|
  {
    match op
    case Enqueue(id, at) => q[id := Row(Pending, 0, at, [])]
    case Round(_, batch, attempts, _) => Dispatch(q, maxAttempts, batch, attempts)
  }

  predicate Possible(q: Queue, maxAttempts: nat, ops: seq<Op>, n: nat)
    decreases |ops|
  {
    ops == [] || (Enabled(q, ops[0], n) && Possible(Step(q, maxAttempts, ops[0]), maxAttempts, ops[1..], n))
  }

  function Run(q: Queue, maxAttempts: nat, ops: seq<Op>, n: nat): Queue
    requires Possible(q, maxAttempts, ops, n)
    decreases |ops|
  {
    if ops == [] then q else Run(Step(q, maxAttempts, ops[0]), maxAttempts, ops[1..], n)
  }

  function SendsIn(ops: seq<Op>): nat {
    if ops == [] then 0 else (if ops[0].Round? then |ops[0].batch| else 0) + SendsIn(ops[1..])
  }

  lemma StepIsSound(q: Queue, maxAttempts: nat, op: Op, n: nat)
    requires Valid(q, maxAttempts) && Within(q, n) && 1 <= maxAttempts && Enabled(q, op, n)
    ensures var q' := Step(q, maxAttempts, op);
            && Valid(q', maxAttempts) && Within(q', n) && q.Keys <= q'.Keys
            && (forall id :: id in q && q[id].status != Pending ==> q'[id] == q[id])
            && TotalSends(q', n) == TotalSends(q, n) + SendsIn([op])
  {
    match op
    case Enqueue(id, at) =>
      var q' := Step(q, maxAttempts, op);
      SumOfEquals(i => AttemptsOf(q, i), i => AttemptsOf(q', i), n);
      assert SendsIn([op]) == 0;
    case Round(now, batch, attempts, end) =>
      DispatchIsSound(q, maxAttempts, now, batch, attempts, end, n);
      assert [op][1..] == [];
  }

  /** In every run SENT and FAILED are final, and the sends made are exactly the attempts recorded. */
  lemma {:induction false} RunIsSound(q: Queue, maxAttempts: nat, ops: seq<Op>, n: nat)
    requires Valid(q, maxAttempts) && Within(q, n) && 1 <= maxAttempts && Possible(q, maxAttempts, ops, n)
    ensures var q' := Run(q, maxAttempts, ops, n);
            && Valid(q', maxAttempts) && Within(q', n) && q.Keys <= q'.Keys
            && (forall id :: id in q && q[id].status != Pending ==> q'[id] == q[id])
            && TotalSends(q', n) == TotalSends(q, n) + SendsIn(ops)
    decreases |ops|
  {
    if ops != [] {
      StepIsSound(q, maxAttempts, ops[0], n);
      assert [ops[0]][1..] == [];
      RunIsSound(Step(q, maxAttempts, ops[0]), maxAttempts, ops[1..], n);
    }
  }

  function Below(q: Queue, n: nat): set<nat> {
    set id | id in q && id < n
  }

  lemma BelowGrows(q: Queue, n: nat)
    requires 0 < n
    ensures |Below(q, n)| == |Below(q, n - 1)| + (if n - 1 in q then 1 else 0)
  {
    assert Below(q, n) == Below(q, n - 1) + (if n - 1 in q then {n - 1} else {});
  }

  lemma TotalSendsGrow(q: Queue, n: nat)
    requires 0 < n
    ensures TotalSends(q, n) == TotalSends(q, n - 1) + AttemptsOf(q, n - 1)
  {
    SumOfEquals(id => AttemptsOf(q, id), id => AttemptsOf(q, id), n - 1);
  }

  lemma {:induction false} SendsPerRow(q: Queue, maxAttempts: nat, n: nat)
    requires Valid(q, maxAttempts)
    ensures TotalSends(q, n) <= |Below(q, n)| * maxAttempts
    decreases n
  {
    if n > 0 {
      SendsPerRow(q, maxAttempts, n - 1);
      TotalSendsGrow(q, n);
      BelowGrows(q, n);
      if n - 1 in q {
        assert RowOk(q[n - 1], maxAttempts);
        StepsMultiply(|Below(q, n - 1)|, |Below(q, n)|, maxAttempts);
      }
    }
  }

  /** However a run unfolds, its rows are sent at most maxAttempts times each. */
  lemma SendsAreBounded(maxAttempts: nat, ops: seq<Op>, n: nat)
    requires 1 <= maxAttempts && Possible(map[], maxAttempts, ops, n)
    ensures SendsIn(ops) <= |Run(map[], maxAttempts, ops, n)| * maxAttempts
  {
    RunIsSound(map[], maxAttempts, ops, n);
    var q := Run(map[], maxAttempts, ops, n);
    SendsPerRow(q, maxAttempts, n);
    assert Below(q, n) == q.Keys;
    SumOfNothing(n);
  }

  lemma {:induction false} SumOfNothing(n: nat)
    ensures TotalSends(map[], n) == 0
    decreases n
  {
    if n > 0 {
      SumOfNothing(n - 1);
      SumOfEquals(id => AttemptsOf(map[], id), id => AttemptsOf(map[], id), n - 1);
    }
  }

  // ------------------------------------------------------------------ what becomes of a row

  /** What an attempt makes of a pending row: sent if it was delivered; else failed if it was the last
      one allowed; else pending again, due after 30 seconds, doubled with every attempt up to an hour. */
  predicate IsAfter(row: Row, maxAttempts: nat, a: Attempt, z: Row) {
    && z.attempts == row.attempts + 1 && z.sends == row.sends + [a.sentAt]
    && (z.status == Sent <==> a.delivered)
    && (z.status == Failed <==> !a.delivered && maxAttempts <= row.attempts + 1)
    && (z.status == Pending ==>
          var wait := 30 * Pow2(row.attempts);
          z.nextAttemptAt == a.markedAt + if wait < 3600 then wait else 3600)
  }

  lemma TriedIsAfter(row: Row, maxAttempts: nat, a: Attempt)
    requires row.status == Pending
    ensures IsAfter(row, maxAttempts, a, Tried(row, maxAttempts, a))
  {
  }

  /** A dispatch gives every row of its batch the outcome of its own attempt. */
  lemma {:induction false} DispatchOutcomes(
      q: Queue, maxAttempts: nat, now: int, batch: seq<nat>, attempts: seq<Attempt>, end: int, i: nat)
    requires AllDue(q, now, batch) && AttemptsOk(now, batch, attempts, end) && i < |batch|
    ensures var q' := Dispatch(q, maxAttempts, batch, attempts);
            && batch[i] in q && batch[i] in q' && q[batch[i]].status == Pending
            && IsAfter(q[batch[i]], maxAttempts, attempts[i], q'[batch[i]])
    decreases |batch|
  {
    var id := batch[0];
    var m := q[id := Tried(q[id], maxAttempts, attempts[0])];
    AllDueTail(q, maxAttempts, now, batch, attempts, end);
    if i == 0 {
      TriedIsAfter(q[id], maxAttempts, attempts[0]);
      DispatchFrame(m, maxAttempts, now, batch[1..], attempts[1..], end);
    } else {
      DispatchOutcomes(m, maxAttempts, now, batch[1..], attempts[1..], end, i - 1);
      assert batch[1..][i - 1] == batch[i] && batch[i] != id;
    }
  }

  predicate InBatch(op: Op, id: nat) {
    op.Round? && id in op.batch
  }

  /** A round in which an attempt on the row was delivered. */
  predicate DeliversIn(op: Op, id: nat) {
    op.Round? && exists i :: 0 <= i < |op.batch| && i < |op.attempts| && op.batch[i] == id && op.attempts[i].delivered
  }

  predicate Delivered(ops: seq<Op>, id: nat) {
    exists i :: 0 <= i < |ops| && DeliversIn(ops[i], id)
  }

  /** How many attempts the rounds of a run make on the row. */
  function AttemptsOn(ops: seq<Op>, id: nat): nat {
    if ops == [] then 0 else (if InBatch(ops[0], id) then 1 else 0) + AttemptsOn(ops[1..], id)
  }

  lemma DeliveredCons(ops: seq<Op>, id: nat)
    requires ops != []
    ensures Delivered(ops, id) <==> DeliversIn(ops[0], id) || Delivered(ops[1..], id)
  {
    assert forall i :: 0 <= i < |ops[1..]| ==> ops[1..][i] == ops[i + 1];
    if i :| 0 <= i < |ops| && DeliversIn(ops[i], id) {
      assert i > 0 ==> ops[1..][i - 1] == ops[i];
    }
  }

  lemma AttemptDecides(q: Queue, maxAttempts: nat, op: Op, id: nat)
    requires op.Round? && AllDue(q, op.now, op.batch) && AttemptsOk(op.now, op.batch, op.attempts, op.end) && id in op.batch
    requires id in q && q[id].attempts < maxAttempts
    ensures var q' := Dispatch(q, maxAttempts, op.batch, op.attempts);
            && id in q' && q[id].status == Pending && q'[id].attempts == q[id].attempts + 1
            && (q'[id].status == Sent <==> DeliversIn(op, id))
            && (q'[id].status == Failed <==> !DeliversIn(op, id) && q'[id].attempts == maxAttempts)
  {
    var i :| 0 <= i < |op.batch| && op.batch[i] == id;
    DispatchOutcomes(q, maxAttempts, op.now, op.batch, op.attempts, op.end, i);
    assert DeliversIn(op, id) <==> op.attempts[i].delivered;
  }

  /** What one step of a run does to a row. */
  lemma StepOutcome(q: Queue, maxAttempts: nat, op: Op, n: nat, id: nat)
    requires Enabled(q, op, n) && id in q && RowOk(q[id], maxAttempts)
    ensures var q' := Step(q, maxAttempts, op);
            && id in q'
            && (InBatch(op, id) ==> q[id].status == Pending && q'[id].attempts == q[id].attempts + 1)
            && (InBatch(op, id) ==> (q'[id].status == Sent <==> DeliversIn(op, id)))
            && (InBatch(op, id) ==> (q'[id].status == Failed <==> !DeliversIn(op, id) && q'[id].attempts == maxAttempts))
            && (!InBatch(op, id) ==> q'[id] == q[id] && !DeliversIn(op, id))
  {
    if op.Round? {
      assert AllDue(q, op.now, op.batch);
      DispatchFrame(q, maxAttempts, op.now, op.batch, op.attempts, op.end);
      if InBatch(op, id) {
        AttemptDecides(q, maxAttempts, op, id);
      }
    }
  }

  /** In every run a pending row ends up sent if and only if one of the attempts on it was delivered,
      and failed if and only if all the attempts allowed were made and none was; its attempts are
      exactly those the rounds made. */
  lemma {:induction false} SentIffDelivered(q: Queue, maxAttempts: nat, ops: seq<Op>, n: nat, id: nat)
    requires Valid(q, maxAttempts) && Within(q, n) && 1 <= maxAttempts && Possible(q, maxAttempts, ops, n)
    requires id in q && q[id].status == Pending
    ensures var z := Run(q, maxAttempts, ops, n);
            && id in z
            && z[id].attempts == q[id].attempts + AttemptsOn(ops, id)
            && (z[id].status == Sent <==> Delivered(ops, id))
            && (z[id].status == Failed <==> !Delivered(ops, id) && q[id].attempts + AttemptsOn(ops, id) == maxAttempts)
    decreases |ops|
  {
    if ops != [] {
      var q' := Step(q, maxAttempts, ops[0]);
      StepOutcome(q, maxAttempts, ops[0], n, id);
      StepIsSound(q, maxAttempts, ops[0], n);
      DeliveredCons(ops, id);
      if q'[id].status == Pending {
        SentIffDelivered(q', maxAttempts, ops[1..], n, id);
      } else {
        SettledIsLeftAlone(q', maxAttempts, ops[1..], n, id);
      }
    } else {
      assert RowOk(q[id], maxAttempts);
    }
  }

  /** The same for a row that is only enqueued during the run. */
  lemma {:induction false} EnqueuedIsSentIffDelivered(q: Queue, maxAttempts: nat, ops: seq<Op>, n: nat, id: nat)
    requires Valid(q, maxAttempts) && Within(q, n) && 1 <= maxAttempts && Possible(q, maxAttempts, ops, n) && id !in q
    ensures var z := Run(q, maxAttempts, ops, n);
            id in z ==>
              && z[id].attempts == AttemptsOn(ops, id)
              && (z[id].status == Sent <==> Delivered(ops, id))
              && (z[id].status == Failed <==> !Delivered(ops, id) && AttemptsOn(ops, id) == maxAttempts)
    decreases |ops|
  {
    if ops != [] {
      var q' := Step(q, maxAttempts, ops[0]);
      StepIsSound(q, maxAttempts, ops[0], n);
      DeliveredCons(ops, id);
      assert !InBatch(ops[0], id) && !DeliversIn(ops[0], id) by {
        assert ops[0].Round? ==> forall k :: k in ops[0].batch ==> k in Due(q, ops[0].now);
      }
      if id in q' {
        if ops[0].Round? {
          DispatchIsSound(q, maxAttempts, ops[0].now, ops[0].batch, ops[0].attempts, ops[0].end, n);
        }
        SentIffDelivered(q', maxAttempts, ops[1..], n, id);
      } else {
        EnqueuedIsSentIffDelivered(q', maxAttempts, ops[1..], n, id);
      }
    }
  }

  /** No round ever touches a row that has been sent or given up. */
  lemma {:induction false} SettledIsLeftAlone(q: Queue, maxAttempts: nat, ops: seq<Op>, n: nat, id: nat)
    requires Valid(q, maxAttempts) && Within(q, n) && 1 <= maxAttempts && Possible(q, maxAttempts, ops, n)
    requires id in q && q[id].status != Pending
    ensures id in Run(q, maxAttempts, ops, n) && Run(q, maxAttempts, ops, n)[id] == q[id]
    ensures AttemptsOn(ops, id) == 0 && !Delivered(ops, id) && forall i :: 0 <= i < |ops| ==> !InBatch(ops[i], id)
    decreases |ops|
  {
    if ops != [] {
      StepOutcome(q, maxAttempts, ops[0], n, id);
      StepIsSound(q, maxAttempts, ops[0], n);
      DeliveredCons(ops, id);
      SettledIsLeftAlone(Step(q, maxAttempts, ops[0]), maxAttempts, ops[1..], n, id);
      assert forall i :: 0 < i < |ops| ==> ops[i] == ops[1..][i - 1];
    }
  }

  /** A message that has been delivered is never sent again. */
  lemma {:induction false} DeliveredIsNeverResent(q: Queue, maxAttempts: nat, ops: seq<Op>, n: nat, id: nat, i: nat, j: nat)
    requires Valid(q, maxAttempts) && Within(q, n) && 1 <= maxAttempts && Possible(q, maxAttempts, ops, n)
    requires i < j < |ops| && DeliversIn(ops[i], id)
    ensures !InBatch(ops[j], id)
    decreases |ops|
  {
    var q' := Step(q, maxAttempts, ops[0]);
    StepIsSound(q, maxAttempts, ops[0], n);
    assert ops[j] == ops[1..][j - 1];
    if i > 0 {
      assert ops[i] == ops[1..][i - 1];
      DeliveredIsNeverResent(q', maxAttempts, ops[1..], n, id, i - 1, j - 1);
    } else {
      assert id in ops[0].batch;
      StepOutcome(q, maxAttempts, ops[0], n, id);
      SettledIsLeftAlone(q', maxAttempts, ops[1..], n, id);
    }
  }

  function Waiting(q: Queue, t: int): set<nat> {
    set id | id in q && q[id].status == Pending && q[id].nextAttemptAt <= t
  }

  /** Up to fifty messages that wait are all sent by a single round whose attempts are delivered. */
  lemma SmallBacklogIsSentAtOnce(q: Queue, maxAttempts: nat, op: Op, n: nat)
    requires Valid(q, maxAttempts) && op.Round? && Enabled(q, op, n)
    requires |Waiting(q, op.now)| <= 50 && forall i :: 0 <= i < |op.attempts| ==> op.attempts[i].delivered
    ensures forall id :: id in Waiting(q, op.now) ==>
              id in Step(q, maxAttempts, op) && Step(q, maxAttempts, op)[id].status == Sent
  {
    assert Due(q, op.now) == Waiting(q, op.now);
    DistinctSize(op.batch);
    EqualSize(Elements(op.batch), Waiting(q, op.now));
    forall id | id in Waiting(q, op.now) ensures id in Step(q, maxAttempts, op) && Step(q, maxAttempts, op)[id].status == Sent {
      assert id in Elements(op.batch);
      var i :| 0 <= i < |op.batch| && op.batch[i] == id;
      StepOutcome(q, maxAttempts, op, n, id);
      assert DeliversIn(op, id);
    }
  }

  function Elements(s: seq<nat>): set<nat> {
    set x | x in s
  }

  lemma {:induction false} DistinctSize(s: seq<nat>)
    requires forall i, j :: 0 <= i < j < |s| ==> s[i] != s[j]
    ensures |Elements(s)| == |s|
    decreases |s|
  {
    if s != [] {
      DistinctSize(s[1..]);
      assert s == [s[0]] + s[1..] && s[0] !in Elements(s[1..]);
      assert Elements(s) == {s[0]} + Elements(s[1..]);
    }
  }

  lemma EqualSize(a: set<nat>, b: set<nat>)
    requires a <= b && |a| == |b|
    ensures a == b
  {
    assert b == a + (b - a);
  }

  // -------------------------------------------------------------------------- draining

  ghost predicate Quiet(q: Queue) {
    forall id :: id in q ==> q[id].status != Pending
  }

  /** Every pending row is due at `t`. */
  ghost predicate DueBy(q: Queue, t: int) {
    forall id :: id in q && q[id].status == Pending ==> q[id].nextAttemptAt <= t
  }

  /** Rounds only, the first at `from` or later, each an hour or more after the previous one ended. */
  predicate Hourly(ops: seq<Op>, from: int) {
    ops == [] || (ops[0].Round? && from <= ops[0].now && Hourly(ops[1..], ops[0].end + 3600))
  }

  /** A round that finds every pending row due either finds none or processes at least one. */
  lemma EmptyRoundMeansQuiet(q: Queue, now: int, batch: seq<nat>)
    requires BatchOk(q, now, batch) && DueBy(q, now) && batch == []
    ensures Quiet(q)
  {
    forall id | id in q ensures q[id].status != Pending {
      assert id !in Due(q, now);
    }
  }

  lemma SpentMeansQuiet(q: Queue, maxAttempts: nat, n: nat)
    requires Valid(q, maxAttempts) && Within(q, n) && Measure(q, maxAttempts, n) == 0
    ensures Quiet(q)
  {
    forall id | id in q ensures q[id].status != Pending {
      assert RowOk(q[id], maxAttempts);
      SummandIsNoLarger(i => SendsLeft(q, maxAttempts, i), n, id);
    }
  }

  /** After a round every row is due within an hour. */
  lemma RoundKeepsDue(q: Queue, maxAttempts: nat, op: Op, n: nat)
    requires Valid(q, maxAttempts) && Within(q, n) && op.Round? && Enabled(q, op, n) && DueBy(q, op.now)
    ensures DueBy(Step(q, maxAttempts, op), op.end + 3600)
  {
    DispatchIsSound(q, maxAttempts, op.now, op.batch, op.attempts, op.end, n);
    var q' := Step(q, maxAttempts, op);
    forall id | id in q' && q'[id].status == Pending ensures q'[id].nextAttemptAt <= op.end + 3600 {
      if id !in op.batch {
        assert q'[id] == q[id];
      }
    }
  }

  /** With nothing new arriving, repeated rounds empty the queue, in spite of the batch limit and
      the unspecified order, after at most as many rounds as the initial measure. */
  lemma {:induction false} QueueDrains(q: Queue, maxAttempts: nat, ops: seq<Op>, n: nat, from: int)
    requires Valid(q, maxAttempts) && Within(q, n) && 1 <= maxAttempts && Possible(q, maxAttempts, ops, n)
    requires DueBy(q, from) && Hourly(ops, from) && Measure(q, maxAttempts, n) <= |ops|
    ensures Quiet(Run(q, maxAttempts, ops, n))
    decreases |ops|
  {
    if ops == [] {
      SpentMeansQuiet(q, maxAttempts, n);
    } else {
      var op := ops[0];
      assert DueBy(q, op.now);
      StepIsSound(q, maxAttempts, op, n);
      DispatchIsSound(q, maxAttempts, op.now, op.batch, op.attempts, op.end, n);
      if op.batch == [] {
        EmptyRoundMeansQuiet(q, op.now, op.batch);
        HourlyMeansRoundsOnly(ops, from);
        QuietStays(q, maxAttempts, ops, n);
      } else {
        RoundKeepsDue(q, maxAttempts, op, n);
        QueueDrains(Step(q, maxAttempts, op), maxAttempts, ops[1..], n, op.end + 3600);
      }
    }
  }

  predicate RoundsOnly(ops: seq<Op>) {
    forall op :: op in ops ==> op.Round?
  }

  lemma {:induction false} HourlyMeansRoundsOnly(ops: seq<Op>, from: int)
    requires Hourly(ops, from)
    ensures RoundsOnly(ops)
    decreases |ops|
  {
    if ops != [] {
      HourlyMeansRoundsOnly(ops[1..], ops[0].end + 3600);
    }
  }

  lemma {:induction false} QuietStays(q: Queue, maxAttempts: nat, ops: seq<Op>, n: nat)
    requires Valid(q, maxAttempts) && Within(q, n) && 1 <= maxAttempts && Quiet(q)
    requires Possible(q, maxAttempts, ops, n) && RoundsOnly(ops)
    ensures Quiet(Run(q, maxAttempts, ops, n))
    decreases |ops|
  {
    if ops != [] {
      assert ops[0] in ops;
      StepIsSound(q, maxAttempts, ops[0], n);
      assert Step(q, maxAttempts, ops[0]).Keys == q.Keys by {
        DispatchIsSound(q, maxAttempts, ops[0].now, ops[0].batch, ops[0].attempts, ops[0].end, n);
      }
      QuietStays(Step(q, maxAttempts, ops[0]), maxAttempts, ops[1..], n);
    }
  }

  /** Rounds only, each at most `gap` seconds after the previous one began and at most `length` long. */
  predicate Regular(ops: seq<Op>, previous: int, gap: nat, length: nat) {
    ops == [] || (&& ops[0].Round? && previous <= ops[0].now <= previous + gap && ops[0].end <= ops[0].now + length
                  && Regular(ops[1..], ops[0].now, gap, length))
  }

  function LastStart(ops: seq<Op>, previous: int): int
    requires RoundsOnly(ops)
  {
    if ops == [] then previous else assert ops[0] in ops; LastStart(ops[1..], ops[0].now)
  }

  /** A round never postpones the time by which all rows are due beyond an hour after its own end. */
  lemma RoundPostponesDue(q: Queue, maxAttempts: nat, op: Op, n: nat, due: int)
    requires Valid(q, maxAttempts) && Within(q, n) && op.Round? && Enabled(q, op, n) && DueBy(q, due)
    ensures DueBy(Step(q, maxAttempts, op), if op.batch == [] then due else Max(due, op.end + 3600))
  {
    DispatchIsSound(q, maxAttempts, op.now, op.batch, op.attempts, op.end, n);
    var q' := Step(q, maxAttempts, op);
    forall id | id in q' && q'[id].status == Pending && id !in op.batch ensures q'[id].nextAttemptAt <= due {
      assert q'[id] == q[id];
    }
  }

  /** The same in real time: rounds may come as often as they like, and once they have gone on for
      an hour, a gap and a round for every send left, the queue is empty. */
  lemma {:induction false} QueueDrainsInTime(
      q: Queue, maxAttempts: nat, ops: seq<Op>, n: nat, previous: int, due: int, gap: nat, length: nat)
    requires Valid(q, maxAttempts) && Within(q, n) && 1 <= maxAttempts && Possible(q, maxAttempts, ops, n)
    requires DueBy(q, due) && previous <= due && RoundsOnly(ops) && Regular(ops, previous, gap, length)
    requires due + Measure(q, maxAttempts, n) * (3600 + gap + length) <= LastStart(ops, previous)
    ensures Quiet(Run(q, maxAttempts, ops, n))
    decreases |ops|
  {
    var k := 3600 + gap + length;
    if ops == [] {
      NothingLeft(Measure(q, maxAttempts, n), k);
      SpentMeansQuiet(q, maxAttempts, n);
    } else if ops[0].batch == [] && due <= ops[0].now {
      EmptyRoundMeansQuiet(q, ops[0].now, ops[0].batch);
      QuietStays(q, maxAttempts, ops, n);
    } else {
      var op := ops[0];
      var q', due' := Step(q, maxAttempts, op), if op.batch == [] then due else Max(due, op.end + 3600);
      StepIsSound(q, maxAttempts, op, n);
      DispatchIsSound(q, maxAttempts, op.now, op.batch, op.attempts, op.end, n);
      RoundPostponesDue(q, maxAttempts, op, n, due);
      if op.batch != [] {
        StepsMultiply(Measure(q', maxAttempts, n), Measure(q, maxAttempts, n), k);
      }
      QueueDrainsInTime(q', maxAttempts, ops[1..], n, op.now, due', gap, length);
    }
  }

  lemma NothingLeft(m: nat, k: nat)
    requires m * k <= 0 < k
    ensures m == 0
  {
    if m > 0 {
      MulMonotone(k, 1, m);
    }
  }

  lemma StepsMultiply(m: nat, more: nat, k: nat)
    requires m + 1 <= more
    ensures m * k + k <= more * k
  {
    MulSucc(k, m);
    MulMonotone(k, m + 1, more);
  }

  // --------------------------------------------------------------------------- spacing

  /** The least time from the first send of a row to its j-th. */
  function LeastElapsed(j: nat): int
    requires 1 <= j
  {
    if j <= 8 then 30 * (Pow2(j - 1) - 1) else 3810 + 3600 * (j - 8)
  }

  lemma BackoffIsCapped(j: nat)
    requires 1 <= j
    ensures Backoff(j) == if j <= 7 then 30 * Pow2(j - 1) else 3600
  {
    if j <= 7 {
      Pow2IsMonotone(j - 1, 6);
      assert Pow2(6) == 64 by { assert Pow2(3) == 8; }
    } else {
      Pow2IsMonotone(7, j - 1);
      assert Pow2(7) == 128 by { assert Pow2(4) == 16; }
    }
  }

  lemma {:induction false} Pow2IsMonotone(a: nat, b: nat)
    requires a <= b
    ensures Pow2(a) <= Pow2(b)
    decreases b
  {
    if a < b {
      Pow2IsMonotone(a, b - 1);
    }
  }

  /** The j-th send of a row comes at least 30 * (2^(j-1) - 1) seconds after its first for j up to 8,
      and every later send at least an hour after the one before. */
  lemma {:induction false} SendsAreSpaced(row: Row, maxAttempts: nat, j: nat)
    requires RowOk(row, maxAttempts) && 1 <= j <= |row.sends|
    ensures row.sends[j - 1] - row.sends[0] >= LeastElapsed(j)
    ensures 9 <= j ==> row.sends[j - 1] - row.sends[j - 2] >= 3600
    decreases j
  {
    if j > 1 {
      SendsAreSpaced(row, maxAttempts, j - 1);
      BackoffIsCapped(j - 1);
      if j == 9 {
        assert Pow2(7) == 128 by { assert Pow2(4) == 16; }
      }
    }
  }
}
