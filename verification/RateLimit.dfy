/** Fixed-window counters and the cooldown of backend/app/core/rate_limit.py, over a model of
    the Redis commands they use.  A key with expiry `e` exists at `now` exactly when now < e. */
module RateLimit {
  import opened Arithmetic
  import opened Decimal
  import opened Wrappers

  datatype Entry = Entry(count: int, expiresAt: Option<int>)

  type Db = map<string, Entry>

  predicate Alive(db: Db, key: string, now: int) {
    key in db && (db[key].expiresAt.Some? ==> now < db[key].expiresAt.value)
  }

  function TtlOf(db: Db, key: string, now: int): int {
    if !Alive(db, key, now) then -2 else if db[key].expiresAt.None? then -1 else db[key].expiresAt.value - now
  }

  class Redis {
    var db: Db

    constructor ()
      ensures db == map[]
    {
      db := map[];
    }

    method Incr(key: string, now: int) returns (n: int)
      modifies this
      ensures n == (if Alive(old(db), key, now) then old(db)[key].count + 1 else 1)
      ensures db == old(db)[key := Entry(n, if Alive(old(db), key, now) then old(db)[key].expiresAt else None)]
    {
      if Alive(db, key, now) {
        db := db[key := db[key].(count := db[key].count + 1)];
      } else {
        db := db[key := Entry(1, None)];
      }
      n := db[key].count;
    }

    method Expire(key: string, seconds: int, now: int)
      modifies this
      ensures db == if Alive(old(db), key, now)
                    then old(db)[key := old(db)[key].(expiresAt := Some(now + seconds))] else old(db)
    {
      if Alive(db, key, now) {
        db := db[key := db[key].(expiresAt := Some(now + seconds))];
      }
    }

    method SetNxEx(key: string, seconds: int, now: int) returns (ok: bool)
      modifies this
      ensures ok == !Alive(old(db), key, now)
      ensures db == if ok then old(db)[key := Entry(1, Some(now + seconds))] else old(db)
    {
      ok := !Alive(db, key, now);
      if ok {
        db := db[key := Entry(1, Some(now + seconds))];
      }
    }
  }

  // -------------------------------------------------------------- one fixed window

  datatype Rule = Rule(prefix: string, limit: nat, window: int)

  datatype Exceeded = Exceeded(reason: string, retryAfter: int)

  function Key(prefix: string, identifier: string): string {
    prefix + ":" + identifier
  }

  /** max(ttl, 1), where a key without expiry has ttl -1. */
  function RetryAfter(e: Entry, now: int): (seconds: int)
    ensures 1 <= seconds
  {
    if e.expiresAt.None? then 1 else Max(e.expiresAt.value - now, 1)
  }

  /** The entry of a key after it has been counted once more at `now`. */
  function Counted(db: Db, key: string, window: int, now: int): Entry {
    if Alive(db, key, now) && db[key].count != 0
    then db[key].(count := db[key].count + 1)
    else Entry(1, Some(now + window))
  }

  function Accepts(db: Db, key: string, limit: nat, window: int, now: int): bool {
    Counted(db, key, window, now).count <= limit
  }

  method CheckFixedWindow(redis: Redis, identifier: string, rule: Rule, now: int) returns (r: Option<Exceeded>)
    requires 0 < rule.window
    modifies redis
    ensures var key := Key(rule.prefix, identifier);
            && redis.db == old(redis.db)[key := Counted(old(redis.db), key, rule.window, now)]
            && r == if Accepts(old(redis.db), key, rule.limit, rule.window, now) then None
                    else Some(Exceeded(rule.prefix, RetryAfter(redis.db[key], now)))
  {
    var key := Key(rule.prefix, identifier);
    var current := redis.Incr(key, now);
    if current == 1 {
      redis.Expire(key, rule.window, now);
    }
    if current > rule.limit {
      return Some(Exceeded(rule.prefix, Max(TtlOf(redis.db, key, now), 1)));
    }
    r := None;
  }

  method EnforceCooldown(redis: Redis, destination: string, cooldown: int, now: int) returns (r: Option<Exceeded>)
    requires 0 < cooldown
    modifies redis
    ensures var key := Key("otp:cooldown", destination);
            && r.None? == !Alive(old(redis.db), key, now)
            && redis.db == (if r.None? then old(redis.db)[key := Entry(1, Some(now + cooldown))] else old(redis.db))
            && (r.Some? ==> r.value == Exceeded("cooldown", Max(TtlOf(old(redis.db), key, now), 1)))
  {
    var key := Key("otp:cooldown", destination);
    var ok := redis.SetNxEx(key, cooldown, now);
    if !ok {
      return Some(Exceeded("cooldown", Max(TtlOf(redis.db, key, now), 1)));
    }
    r := None;
  }

  /** The retry time of a refusal is exact: with no other call, the next one is accepted if and only if
      it comes no earlier. */
  lemma RetryTimeIsExact(db: Db, key: string, limit: nat, window: int, now: int, t: int)
    requires 0 < window && 0 < limit && now <= t && (key in db ==> 1 <= db[key].count && db[key].expiresAt.Some?)
    requires !Accepts(db, key, limit, window, now)
    ensures var e := Counted(db, key, window, now);
            Accepts(db[key := e], key, limit, window, t) <==> now + RetryAfter(e, now) <= t
  {
  }

  lemma CooldownTimeIsExact(db: Db, key: string, now: int, t: int)
    requires Alive(db, key, now) && db[key].expiresAt.Some? && now <= t
    ensures !Alive(db, key, t) <==> now + Max(TtlOf(db, key, now), 1) <= t
  {
  }

  // ------------------------------------------------------------------ traces of calls

  datatype Call = Call(key: string, reason: string, limit: nat, window: int, now: int)

  function CallFor(rule: Rule, identifier: string, now: int): Call {
    Call(Key(rule.prefix, identifier), rule.prefix, rule.limit, rule.window, now)
  }

  function After(db: Db, c: Call): Db {
    db[c.key := Counted(db, c.key, c.window, c.now)]
  }

  predicate Accepted(db: Db, c: Call) {
    Accepts(db, c.key, c.limit, c.window, c.now)
  }

  /** How many calls on `key` at times in [from, until) the trace accepts. */
  function AcceptedCount(db: Db, calls: seq<Call>, key: string, from: int, until: int): nat
    decreases |calls|
  {
    if calls == [] then 0 else
    (if calls[0].key == key && from <= calls[0].now < until && Accepted(db, calls[0]) then 1 else 0)
    + AcceptedCount(After(db, calls[0]), calls[1..], key, from, until)
  }

  predicate Chronological(calls: seq<Call>) {
    forall i, j :: 0 <= i < j < |calls| ==> calls[i].now <= calls[j].now
  }

  predicate OneRule(calls: seq<Call>, key: string, limit: nat, window: int) {
    forall c :: c in calls && c.key == key ==> c.limit == limit && c.window == window
  }

  /** Counters only ever hold positive counts with an expiry. */
  predicate WellFormed(db: Db) {
    forall key :: key in db ==> 1 <= db[key].count && db[key].expiresAt.Some?
  }

  /** How many windows can still be opened at or after `from` and before `until`. */
  function WindowsLeft(from: int, until: int, window: int): nat
    requires 0 < window
    decreases until - from
  {
    if until <= from then 0 else 1 + WindowsLeft(from + window, until, window)
  }

  lemma {:induction false} WindowsLeftAntitone(a: int, b: int, until: int, window: int)
    requires 0 < window && a <= b
    ensures WindowsLeft(b, until, window) <= WindowsLeft(a, until, window)
    decreases until - a
  {
    if b < until {
      WindowsLeftAntitone(a + window, b + window, until, window);
    }
  }

  lemma {:induction false} WindowsLeftExact(from: int, k: nat, window: int)
    requires 0 < window
    ensures WindowsLeft(from, from + k * window, window) == k
    decreases k
  {
    if k > 0 {
      assert from + k * window == (from + window) + (k - 1) * window;
      assert 0 < k * window by { assert 0 <= (k - 1) * window; }
      WindowsLeftExact(from + window, k - 1, window);
    }
  }

  /** The number of further acceptances a key can give before `until`: what is left of the
      window it is in, plus a full limit for every window that can still be opened. */
  function Allowance(db: Db, key: string, limit: nat, window: int, now: int, until: int): nat
    requires 0 < window && WellFormed(db)
  {
    if until <= now then 0
    else if Alive(db, key, now)
    then Max(0, limit - db[key].count) + limit * WindowsLeft(db[key].expiresAt.value, until, window)
    else limit * WindowsLeft(now, until, window)
  }

  /** Waiting never increases the allowance. */
  lemma AllowanceFades(db: Db, key: string, limit: nat, window: int, now: int, later: int, until: int)
    requires 0 < window && WellFormed(db) && now <= later
    ensures Allowance(db, key, limit, window, later, until) <= Allowance(db, key, limit, window, now, until)
  {
    var e := if Alive(db, key, now) then db[key].expiresAt.value else now;
    if later < until && !Alive(db, key, later) {
      WindowsLeftAntitone(e, later, until, window);
      MulMonotone(limit, WindowsLeft(later, until, window), WindowsLeft(e, until, window));
    }
  }

  /** A call pays for its own acceptance out of the allowance, exactly. */
  lemma CallSpendsAllowance(db: Db, c: Call, until: int)
    requires 0 < c.window && WellFormed(db) && c.now < until
    ensures WellFormed(After(db, c))
    ensures Allowance(After(db, c), c.key, c.limit, c.window, c.now, until) + (if Accepted(db, c) then 1 else 0)
            == Allowance(db, c.key, c.limit, c.window, c.now, until)
  {
    if !Alive(db, c.key, c.now) {
      var rest := WindowsLeft(c.now + c.window, until, c.window);
      assert c.limit * (1 + rest) == c.limit + c.limit * rest;
    }
  }

  lemma {:induction false} AcceptedWithinAllowance(
      db: Db, calls: seq<Call>, key: string, limit: nat, window: int, from: int, now: int, until: int)
    requires 0 < window && WellFormed(db) && Chronological(calls) && OneRule(calls, key, limit, window)
    requires forall c :: c in calls ==> now <= c.now && 0 < c.window
    ensures AcceptedCount(db, calls, key, from, until) <= Allowance(db, key, limit, window, now, until)
    decreases |calls|
  {
    if calls != [] {
      var c := calls[0];
      var db' := After(db, c);
      assert WellFormed(db');
      assert forall d :: d in calls[1..] ==> c.now <= d.now;
      AcceptedWithinAllowance(db', calls[1..], key, limit, window, from, c.now, until);
      AllowanceFades(db, key, limit, window, now, c.now, until);
      if c.key == key && c.now < until {
        CallSpendsAllowance(db, c, until);
      }
    }
  }

  /** Any half-open interval of k windows accepts at most (k + 1) * limit calls of one identifier.
      Calls before the interval count for nothing; the first call inside it starts the bound. */
  lemma {:induction false} FixedWindowBound(
      db: Db, calls: seq<Call>, key: string, limit: nat, window: int, from: int, k: nat)
    requires 0 < window && WellFormed(db) && Chronological(calls) && OneRule(calls, key, limit, window)
    requires forall c :: c in calls ==> 0 < c.window
    ensures AcceptedCount(db, calls, key, from, from + k * window) <= (k + 1) * limit
    decreases |calls|
  {
    var until := from + k * window;
    if calls != [] {
      var c := calls[0];
      if c.now < from {
        assert WellFormed(After(db, c));
        FixedWindowBound(After(db, c), calls[1..], key, limit, window, from, k);
      } else {
        AcceptedWithinAllowance(db, calls, key, limit, window, from, c.now, until);
        FreshAllowance(db, key, limit, window, from, c.now, k);
      }
    }
  }

  /** From inside an interval of k windows, one window may be under way and k more be opened. */
  lemma FreshAllowance(db: Db, key: string, limit: nat, window: int, from: int, now: int, k: nat)
    requires 0 < window && WellFormed(db) && from <= now
    ensures Allowance(db, key, limit, window, now, from + k * window) <= (k + 1) * limit
  {
    var until := from + k * window;
    var e := if Alive(db, key, now) then db[key].expiresAt.value else now;
    WindowsLeftExact(from, k, window);
    WindowsLeftAntitone(from, e, until, window);
    MulMonotone(limit, WindowsLeft(e, until, window), k);
    assert (k + 1) * limit == limit * k + limit;
    assert limit * k >= 0;
  }

  // ------------------------------------------------------------- all limits of one request

  datatype Limits = Limits(perHour: nat, perDay: nat, ipPer10Minutes: nat)

  function DestinationChecks(destination: string, limits: Limits, now: int): seq<Call> {
    [CallFor(Rule("otp:count:hour", limits.perHour, 3600), destination, now),
     CallFor(Rule("otp:count:day", limits.perDay, 86400), destination, now)]
  }

  function RequesterChecks(ip: Option<string>, userId: Option<nat>, limits: Limits, now: int): seq<Call> {
    (if ip.Some? && ip.value != "" then [CallFor(Rule("otp:count:ip10m", limits.ipPer10Minutes, 600), ip.value, now)] else [])
    + (if userId.Some? then [CallFor(Rule("otp:count:user1h", limits.perHour, 3600), ToString(userId.value), now)] else [])
  }

  /** The checks of one OTP request, in order. */
  function ChecksFor(destination: string, ip: Option<string>, userId: Option<nat>, limits: Limits, now: int)
    : (calls: seq<Call>)
    ensures forall c :: c in calls ==> c.now == now && 0 < c.window && "otp:count:" <= c.key
  {
    DestinationChecks(destination, limits, now) + RequesterChecks(ip, userId, limits, now)
  }

  function Refusal(db: Db, c: Call): Exceeded {
    Exceeded(c.reason, RetryAfter(Counted(db, c.key, c.window, c.now), c.now))
  }

  /** Checks run until one refuses; those that ran, the refusing one included, have counted. */
  function Enforce(db: Db, calls: seq<Call>): (Db, Option<Exceeded>)
    decreases |calls|
  {
    if calls == [] then (db, None)
    else if !Accepted(db, calls[0]) then (After(db, calls[0]), Some(Refusal(db, calls[0])))
    else Enforce(After(db, calls[0]), calls[1..])
  }

  lemma EnforceOne(db: Db, c: Call, rest: seq<Call>)
    ensures Enforce(db, [c] + rest) == if Accepted(db, c) then Enforce(After(db, c), rest) else (After(db, c), Some(Refusal(db, c)))
  {
    assert ([c] + rest)[1..] == rest;
  }

  method EnforceOtpRequestLimits(redis: Redis, destination: string, ip: Option<string>, userId: Option<nat>,
                                 limits: Limits, now: int) returns (r: Option<Exceeded>)
    modifies redis
    ensures (redis.db, r) == Enforce(old(redis.db), ChecksFor(destination, ip, userId, limits, now))
  {
    ghost var hour, day := DestinationChecks(destination, limits, now)[0], DestinationChecks(destination, limits, now)[1];
    ghost var rest := RequesterChecks(ip, userId, limits, now);
    assert ChecksFor(destination, ip, userId, limits, now) == [hour] + ([day] + rest);
    EnforceOne(redis.db, hour, [day] + rest);
    r := CheckFixedWindow(redis, destination, Rule("otp:count:hour", limits.perHour, 3600), now);
    if r.None? {
      EnforceOne(redis.db, day, rest);
      r := CheckFixedWindow(redis, destination, Rule("otp:count:day", limits.perDay, 86400), now);
    }
    if r.None? {
      r := EnforceRequesterLimits(redis, ip, userId, limits, now);
    }
  }

  /** The checks that apply only when the address or the user is known. */
  method EnforceRequesterLimits(redis: Redis, ip: Option<string>, userId: Option<nat>, limits: Limits, now: int)
    returns (r: Option<Exceeded>)
    modifies redis
    ensures (redis.db, r) == Enforce(old(redis.db), RequesterChecks(ip, userId, limits, now))
  {
    ghost var byUser := RequesterChecks(None, userId, limits, now);
    r := None;
    if ip.Some? && ip.value != "" {
      ghost var byIp := CallFor(Rule("otp:count:ip10m", limits.ipPer10Minutes, 600), ip.value, now);
      assert RequesterChecks(ip, userId, limits, now) == [byIp] + byUser;
      EnforceOne(redis.db, byIp, byUser);
      r := CheckFixedWindow(redis, ip.value, Rule("otp:count:ip10m", limits.ipPer10Minutes, 600), now);
    } else {
      assert RequesterChecks(ip, userId, limits, now) == byUser;
    }
    if r.None? && userId.Some? {
      assert byUser == [CallFor(Rule("otp:count:user1h", limits.perHour, 3600), ToString(userId.value), now)] + [];
      EnforceOne(redis.db, byUser[0], []);
      r := CheckFixedWindow(redis, ToString(userId.value), Rule("otp:count:user1h", limits.perHour, 3600), now);
    }
  }

  /** A refusal is that of one of the checks, whose counter stands above its limit, and reports that
      check and the time its counter has left. */
  lemma {:induction false} RefusalNamesCounter(db: Db, calls: seq<Call>, now: int) returns (c: Call)
    requires WellFormed(db) && Enforce(db, calls).1.Some? && forall d :: d in calls ==> d.now == now && 0 < d.window
    ensures var (db', r) := Enforce(db, calls);
            && c in calls && c.key in db' && c.limit < db'[c.key].count
            && db'[c.key].expiresAt.Some? && now < db'[c.key].expiresAt.value
            && r == Some(Exceeded(c.reason, db'[c.key].expiresAt.value - now))
    decreases |calls|
  {
    if Accepted(db, calls[0]) {
      c := RefusalNamesCounter(After(db, calls[0]), calls[1..], now);
    } else {
      c := calls[0];
    }
  }

  /** While a counter stands at its limit, every series of checks that includes it refuses. */
  lemma {:induction false} SaturatedRefuses(db: Db, calls: seq<Call>, c: Call, t: int)
    requires WellFormed(db) && c in calls && Alive(db, c.key, t) && c.limit <= db[c.key].count
    requires OneRule(calls, c.key, c.limit, c.window) && forall d :: d in calls ==> d.now == t && 0 < d.window
    ensures Enforce(db, calls).1.Some?
    decreases |calls|
  {
    if Accepted(db, calls[0]) {
      assert calls[0].key != c.key;
      SaturatedRefuses(After(db, calls[0]), calls[1..], c, t);
    }
  }

  /** Whether the checks of one request include `key`, under the given limit and window. */
  predicate Charges(calls: seq<Call>, key: string) {
    exists c :: c in calls && c.key == key
  }

  /** A request that passes has paid one unit of allowance for every key it is checked against. */
  lemma {:induction false} EnforceSpendsAllowance(
      db: Db, calls: seq<Call>, key: string, limit: nat, window: int, now: int, until: int)
    requires 0 < window && WellFormed(db) && now < until && OneRule(calls, key, limit, window)
    requires forall c :: c in calls ==> c.now == now && 0 < c.window
    ensures WellFormed(Enforce(db, calls).0)
    ensures Allowance(Enforce(db, calls).0, key, limit, window, now, until)
            + (if Enforce(db, calls).1.None? && Charges(calls, key) then 1 else 0)
            <= Allowance(db, key, limit, window, now, until)
    decreases |calls|
  {
    if calls != [] {
      var c := calls[0];
      CallSpendsAllowance(db, c, until);
      if Accepted(db, c) {
        EnforceSpendsAllowance(After(db, c), calls[1..], key, limit, window, now, until);
      }
    }
  }

  // ------------------------------------------------------------- what a window accepts

  /** Reference semantics, without any store: call i belongs to the window opened by call
      `Opener(ts, window, i)`, the first call at least `window` after the previous opener. */
  function Opener(ts: seq<int>, window: int, i: nat): (o: nat)
    requires i < |ts|
    ensures o <= i
  {
    if i == 0 then 0
    else
      var o := Opener(ts, window, i - 1);
      if ts[i] < ts[o] + window then o else i
  }

  function Verdicts(db: Db, key: string, limit: nat, window: int, ts: seq<int>): (v: seq<bool>)
    ensures |v| == |ts|
    decreases |ts|
  {
    if ts == [] then [] else
    var c := Call(key, "", limit, window, ts[0]);
    [Accepted(db, c)] + Verdicts(After(db, c), key, limit, window, ts[1..])
  }

  function DbAfter(db: Db, key: string, window: int, ts: seq<int>): Db
    decreases |ts|
  {
    if ts == [] then db else DbAfter(db[key := Counted(db, key, window, ts[0])], key, window, ts[1..])
  }

  lemma {:induction false} VerdictIsLocal(db: Db, key: string, limit: nat, window: int, ts: seq<int>, i: nat)
    requires i < |ts|
    ensures Verdicts(db, key, limit, window, ts)[i]
            == Accepts(DbAfter(db, key, window, ts[..i]), key, limit, window, ts[i])
    decreases |ts|
  {
    if i > 0 {
      var db' := db[key := Counted(db, key, window, ts[0])];
      VerdictIsLocal(db', key, limit, window, ts[1..], i - 1);
      assert ts[..i][1..] == ts[1..][..i - 1];
    }
  }

  lemma {:induction false} DbAfterSnoc(db: Db, key: string, window: int, ts: seq<int>, t: int)
    ensures DbAfter(db, key, window, ts + [t])
            == var m := DbAfter(db, key, window, ts); m[key := Counted(m, key, window, t)]
    decreases |ts|
  {
    if ts == [] {
      assert ts + [t] == [t] && [t][1..] == [];
    } else {
      assert (ts + [t])[1..] == ts[1..] + [t];
      DbAfterSnoc(db[key := Counted(db, key, window, ts[0])], key, window, ts[1..], t);
    }
  }

  /** The store's entry records the opener of the current window and the calls counted in it. */
  lemma {:induction false} EntryRecordsWindow(db: Db, key: string, window: int, ts: seq<int>, i: nat)
    requires 0 < window && i < |ts| && !Alive(db, key, ts[0])
    requires forall a, b :: 0 <= a < b < |ts| ==> ts[a] <= ts[b]
    ensures var o := Opener(ts, window, i);
            var m := DbAfter(db, key, window, ts[..i + 1]);
            key in m && m[key] == Entry(i - o + 1, Some(ts[o] + window))
    decreases i
  {
    assert ts[..i + 1] == ts[..i] + [ts[i]];
    DbAfterSnoc(db, key, window, ts[..i], ts[i]);
    if i > 0 {
      EntryRecordsWindow(db, key, window, ts, i - 1);
    } else {
      assert ts[..0] == [];
    }
  }

  /** Each window accepts exactly its first `limit` calls: min(calls, limit) of them. */
  lemma WindowAcceptsFirstCalls(db: Db, key: string, limit: nat, window: int, ts: seq<int>, i: nat)
    requires 0 < window && i < |ts| && !Alive(db, key, ts[0])
    requires forall a, b :: 0 <= a < b < |ts| ==> ts[a] <= ts[b]
    ensures Verdicts(db, key, limit, window, ts)[i] <==> i - Opener(ts, window, i) < limit
  {
    VerdictIsLocal(db, key, limit, window, ts, i);
    EntryRecordsWindow(db, key, window, ts, i);
    assert ts[..i + 1] == ts[..i] + [ts[i]];
    DbAfterSnoc(db, key, window, ts[..i], ts[i]);
  }
}
