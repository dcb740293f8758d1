/** One-time-password challenges (backend/app/services/otp_service.py) on top of the limiter. */
module Otp {
  import opened Arithmetic
  import opened Counting
  import opened RateLimit
  import opened Validators
  import opened Wrappers

  datatype Status = Pending | Verified | Expired | Locked | Cancelled

  datatype Purpose = Login | AddContactChannel

  /** HMAC-SHA256 of the code and the challenge id, taken as injective. */
  datatype Hash = Hash(otp: string, salt: nat)

  datatype Challenge = Challenge(
    destination: string, channel: Channel, purpose: Purpose, ip: Option<string>,
    userId: Option<nat>, eventId: Option<nat>, otpHash: Hash,
    expiresAt: int, attemptCount: nat, maxAttempts: nat, status: Status, usedAt: Option<int>)

  /** The numeric settings, and the canonical form of destinations (Validators.NormalizeDestination). */
  datatype Settings = Settings(expiration: nat, maxAttempts: nat, cooldown: int, limits: Limits,
                               normalize: (string, Channel) -> Option<string>)

  datatype Store = Store(db: Db, challenges: map<nat, Challenge>, nextId: nat)

  datatype Ask = Ask(destination: string, channel: Channel, purpose: Purpose,
                     ip: Option<string>, userId: Option<nat>, eventId: Option<nat>)

  datatype OtpError = InvalidDestination | Throttled(retryAfter: int) | VerificationFailed

  // ------------------------------------------------------------------------- service

  function NewChallenge(cfg: Settings, destination: string, ask: Ask, id: nat, now: int, otp: string): Challenge {
    Challenge(destination, ask.channel, ask.purpose, ask.ip, ask.userId, ask.eventId, Hash(otp, id),
              now + cfg.expiration, 0, cfg.maxAttempts, Pending, None)
  }

  function RequestOtp(cfg: Settings, s: Store, ask: Ask, now: int, otp: string): (Store, Result<nat, OtpError>) {
    var d := cfg.normalize(ask.destination, ask.channel);
    if d.None? then (s, Failure(InvalidDestination)) else
    var key := Key("otp:cooldown", d.value);
    if Alive(s.db, key, now) then (s, Failure(Throttled(Max(TtlOf(s.db, key, now), 1)))) else
    var (db, refused) := Enforce(s.db[key := Entry(1, Some(now + cfg.cooldown))],
                            ChecksFor(d.value, ask.ip, ask.userId, cfg.limits, now));
    if refused.Some? then (s.(db := db), Failure(Throttled(refused.value.retryAfter))) else
    (Store(db, s.challenges[s.nextId := NewChallenge(cfg, d.value, ask, s.nextId, now, otp)], s.nextId + 1),
     Success(s.nextId))
  }

  /** Whether verifying `id` at `now` gets as far as comparing the code. */
  predicate Compares(s: Store, id: nat, now: int) {
    && id in s.challenges
    && s.challenges[id].status == Pending
    && now <= s.challenges[id].expiresAt
    && s.challenges[id].attemptCount < s.challenges[id].maxAttempts
  }

  function VerifyOtp(s: Store, id: nat, otp: string, now: int): (r: (Store, bool))
    ensures r.1 <==> Compares(s, id, now) && s.challenges[id].otpHash == Hash(otp, id)
    ensures r.1 ==> id in r.0.challenges && r.0.challenges[id].status == Verified
  {
    if id !in s.challenges || s.challenges[id].status != Pending then (s, false) else
    var c := s.challenges[id];
    if now > c.expiresAt then (s.(challenges := s.challenges[id := c.(status := Expired)]), false)
    else if c.attemptCount >= c.maxAttempts then (s.(challenges := s.challenges[id := c.(status := Locked)]), false)
    else if Hash(otp, id) != c.otpHash then
      var n := c.attemptCount + 1;
      (s.(challenges := s.challenges[id := c.(attemptCount := n,
                                              status := if n >= c.maxAttempts then Locked else Pending)]), false)
    else (s.(challenges := s.challenges[id := c.(status := Verified, usedAt := Some(now))]), true)
  }

  function Cancel(s: Store, id: nat): Store
    requires id in s.challenges
  {
    if s.challenges[id].status == Pending
    then s.(challenges := s.challenges[id := s.challenges[id].(status := Cancelled)]) else s
  }

  function AskAgain(c: Challenge): Ask {
    Ask(c.destination, c.channel, c.purpose, c.ip, c.userId, c.eventId)
  }

  function ResendOtp(cfg: Settings, s: Store, id: nat, now: int, otp: string): (Store, Result<nat, OtpError>) {
    if id !in s.challenges then (s, Failure(VerificationFailed))
    else RequestOtp(cfg, Cancel(s, id), AskAgain(s.challenges[id]), now, otp)
  }

  class OtpService {
    const redis: Redis
    const cfg: Settings
    var challenges: map<nat, Challenge>
    var nextId: nat

    ghost function State(): Store
      reads this, redis
    {
      Store(redis.db, challenges, nextId)
    }

    constructor (redis: Redis, cfg: Settings)
      ensures this.redis == redis && this.cfg == cfg && challenges == map[] && nextId == 1
    {
      this.redis, this.cfg := redis, cfg;
      challenges, nextId := map[], 1;
    }

    method Request(ask: Ask, now: int, otp: string) returns (r: Result<nat, OtpError>)
      requires 0 < cfg.cooldown
      modifies this, redis
      ensures (State(), r) == RequestOtp(cfg, old(State()), ask, now, otp)
    {
      var d := cfg.normalize(ask.destination, ask.channel);
      if d.None? {
        return Failure(InvalidDestination);
      }
      var refused := EnforceCooldown(redis, d.value, cfg.cooldown, now);
      if refused.None? {
        refused := EnforceOtpRequestLimits(redis, d.value, ask.ip, ask.userId, cfg.limits, now);
      }
      if refused.Some? {
        return Failure(Throttled(refused.value.retryAfter));
      }
      challenges := challenges[nextId := NewChallenge(cfg, d.value, ask, nextId, now, otp)];
      r := Success(nextId);
      nextId := nextId + 1;
    }

    method Verify(id: nat, otp: string, now: int) returns (ok: bool)
      modifies this
      ensures (State(), ok) == VerifyOtp(old(State()), id, otp, now)
    {
      if id !in challenges || challenges[id].status != Pending {
        return false;
      }
      if now > challenges[id].expiresAt {
        challenges := challenges[id := challenges[id].(status := Expired)];
        return false;
      }
      if challenges[id].attemptCount >= challenges[id].maxAttempts {
        challenges := challenges[id := challenges[id].(status := Locked)];
        return false;
      }
      if Hash(otp, id) != challenges[id].otpHash {
        challenges := challenges[id := challenges[id].(attemptCount := challenges[id].attemptCount + 1)];
        if challenges[id].attemptCount >= challenges[id].maxAttempts {
          challenges := challenges[id := challenges[id].(status := Locked)];
        }
        assert challenges == old(challenges)[id := challenges[id]];
        return false;
      }
      challenges := challenges[id := challenges[id].(status := Verified)];
      challenges := challenges[id := challenges[id].(usedAt := Some(now))];
      assert challenges == old(challenges)[id := challenges[id]];
      ok := true;
    }

    method Resend(id: nat, now: int, otp: string) returns (r: Result<nat, OtpError>)
      requires 0 < cfg.cooldown
      modifies this, redis
      ensures (State(), r) == ResendOtp(cfg, old(State()), id, now, otp)
    {
      if id !in challenges {
        return Failure(VerificationFailed);
      }
      var previous := challenges[id];
      if previous.status == Pending {
        challenges := challenges[id := previous.(status := Cancelled)];
      }
      r := Request(AskAgain(previous), now, otp);
    }
  }

  // ---------------------------------------------------------------------------- runs

  datatype Op =
    | Request(ask: Ask, now: int, otp: string)
    | Verify(id: nat, otp: string, now: int)
    | Resend(id: nat, now: int, otp: string)

  function Step(cfg: Settings, s: Store, op: Op): Store {
    match op
    case Request(ask, now, otp) => RequestOtp(cfg, s, ask, now, otp).0
    case Verify(id, otp, now) => VerifyOtp(s, id, otp, now).0
    case Resend(id, now, otp) => ResendOtp(cfg, s, id, now, otp).0
  }

  function Run(cfg: Settings, s: Store, ops: seq<Op>): Store
    decreases |ops|
  {
    if ops == [] then s else Run(cfg, Step(cfg, s, ops[0]), ops[1..])
  }

  predicate Chronological(ops: seq<Op>, from: int, until: int) {
    && (forall op :: op in ops ==> from <= op.now <= until)
    && (forall i, j :: 0 <= i < j < |ops| ==> ops[i].now <= ops[j].now)
  }

  const Start: Store := Store(map[], map[], 1)

  ghost predicate Valid(cfg: Settings, s: Store) {
    && WellFormed(s.db)
    && forall id :: id in s.challenges ==>
         var c := s.challenges[id];
         && id < s.nextId
         && c.maxAttempts == cfg.maxAttempts
         && c.attemptCount + (if c.status.Verified? then 1 else 0) <= c.maxAttempts
  }

  /** A request touches no existing challenge, and adds at most one. */
  lemma RequestFrame(cfg: Settings, s: Store, ask: Ask, now: int, otp: string)
    requires Valid(cfg, s) && 0 < cfg.cooldown
    ensures var (s', r) := RequestOtp(cfg, s, ask, now, otp);
            && Valid(cfg, s')
            && (r.Failure? ==> s'.challenges == s.challenges && s'.nextId == s.nextId)
            && (r.Success? ==>
                  && cfg.normalize(ask.destination, ask.channel).Some?
                  && !Alive(s.db, Key("otp:cooldown", cfg.normalize(ask.destination, ask.channel).value), now)
                  && s'.challenges == s.challenges[s.nextId := NewChallenge(
                       cfg, cfg.normalize(ask.destination, ask.channel).value, ask, s.nextId, now, otp)])
  {
    var d := cfg.normalize(ask.destination, ask.channel);
    if d.Some? {
      var db := s.db[Key("otp:cooldown", d.value) := Entry(1, Some(now + cfg.cooldown))];
      EnforceKeepsWellFormed(db, ChecksFor(d.value, ask.ip, ask.userId, cfg.limits, now));
    }
  }

  lemma {:induction false} EnforceKeepsWellFormed(db: Db, calls: seq<Call>)
    requires WellFormed(db)
    ensures WellFormed(Enforce(db, calls).0)
    decreases |calls|
  {
    if calls != [] && Accepted(db, calls[0]) {
      EnforceKeepsWellFormed(After(db, calls[0]), calls[1..]);
    }
  }

  lemma StepKeepsValid(cfg: Settings, s: Store, op: Op)
    requires Valid(cfg, s) && 0 < cfg.cooldown
    ensures Valid(cfg, Step(cfg, s, op))
  {
    match op
    case Request(ask, now, otp) => RequestFrame(cfg, s, ask, now, otp);
    case Verify(_, _, _) =>
    case Resend(id, now, otp) =>
      if id in s.challenges {
        CancelKeepsValid(cfg, s, id);
        RequestFrame(cfg, Cancel(s, id), AskAgain(s.challenges[id]), now, otp);
      }
  }

  /** A challenge that is no longer pending never changes again. */
  lemma TerminalStep(cfg: Settings, s: Store, op: Op, id: nat)
    requires Valid(cfg, s) && 0 < cfg.cooldown && id in s.challenges && s.challenges[id].status != Pending
    ensures var s' := Step(cfg, s, op); id in s'.challenges && s'.challenges[id] == s.challenges[id]
  {
    match op
    case Request(ask, now, otp) => RequestFrame(cfg, s, ask, now, otp);
    case Verify(_, _, _) =>
    case Resend(i, now, otp) =>
      if i in s.challenges {
        CancelKeepsValid(cfg, s, i);
        RequestFrame(cfg, Cancel(s, i), AskAgain(s.challenges[i]), now, otp);
      }
  }

  lemma {:induction false} TerminalIsForever(cfg: Settings, s: Store, ops: seq<Op>, id: nat)
    requires Valid(cfg, s) && 0 < cfg.cooldown && id in s.challenges && s.challenges[id].status != Pending
    ensures var s' := Run(cfg, s, ops); id in s'.challenges && s'.challenges[id] == s.challenges[id]
    decreases |ops|
  {
    if ops != [] {
      StepKeepsValid(cfg, s, ops[0]);
      TerminalStep(cfg, s, ops[0], id);
      TerminalIsForever(cfg, Step(cfg, s, ops[0]), ops[1..], id);
    }
  }

  // -------------------------------------------------------------- comparisons per challenge

  predicate ComparesOn(s: Store, op: Op, id: nat) {
    op.Verify? && op.id == id && Compares(s, id, op.now)
  }

  /** How often a run compares some code with the challenge. */
  function Comparisons(cfg: Settings, s: Store, ops: seq<Op>, id: nat): nat
    decreases |ops|
  {
    if ops == [] then 0 else
    (if ComparesOn(s, ops[0], id) then 1 else 0) + Comparisons(cfg, Step(cfg, s, ops[0]), ops[1..], id)
  }

  /** How often a run reports the challenge as verified. */
  function Verifications(cfg: Settings, s: Store, ops: seq<Op>, id: nat): nat
    decreases |ops|
  {
    if ops == [] then 0 else
    (if ops[0].Verify? && ops[0].id == id && VerifyOtp(s, id, ops[0].otp, ops[0].now).1 then 1 else 0)
    + Verifications(cfg, Step(cfg, s, ops[0]), ops[1..], id)
  }

  function IsVerified(s: Store, id: nat): nat {
    if id in s.challenges && s.challenges[id].status.Verified? then 1 else 0
  }

  /** Comparisons the row itself accounts for: the failed ones and the successful one. */
  function Spent(s: Store, id: nat): nat {
    (if id in s.challenges then s.challenges[id].attemptCount else 0) + IsVerified(s, id)
  }

  lemma StepSpends(cfg: Settings, s: Store, op: Op, id: nat)
    requires Valid(cfg, s) && 0 < cfg.cooldown
    ensures var s' := Step(cfg, s, op);
            && Spent(s', id) == Spent(s, id) + (if ComparesOn(s, op, id) then 1 else 0)
            && IsVerified(s', id) == IsVerified(s, id)
               + (if op.Verify? && op.id == id && VerifyOtp(s, id, op.otp, op.now).1 then 1 else 0)
  {
    match op
    case Request(ask, now, otp) => RequestFrame(cfg, s, ask, now, otp);
    case Verify(_, _, _) =>
    case Resend(i, now, otp) =>
      if i in s.challenges {
        CancelKeepsValid(cfg, s, i);
        RequestFrame(cfg, Cancel(s, i), AskAgain(s.challenges[i]), now, otp);
      }
  }

  lemma {:induction false} RunAccounts(cfg: Settings, s: Store, ops: seq<Op>, id: nat)
    requires Valid(cfg, s) && 0 < cfg.cooldown
    ensures var s' := Run(cfg, s, ops);
            && Valid(cfg, s')
            && Spent(s', id) == Spent(s, id) + Comparisons(cfg, s, ops, id)
            && IsVerified(s', id) == IsVerified(s, id) + Verifications(cfg, s, ops, id)
    decreases |ops|
  {
    if ops != [] {
      StepKeepsValid(cfg, s, ops[0]);
      StepSpends(cfg, s, ops[0], id);
      RunAccounts(cfg, Step(cfg, s, ops[0]), ops[1..], id);
    }
  }

  /** In every run each challenge is compared with at most `maxAttempts` codes and verified at most once. */
  lemma GuessesAreBounded(cfg: Settings, s: Store, ops: seq<Op>, id: nat)
    requires Valid(cfg, s) && 0 < cfg.cooldown
    ensures Comparisons(cfg, s, ops, id) <= cfg.maxAttempts && Verifications(cfg, s, ops, id) <= 1
  {
    RunAccounts(cfg, s, ops, id);
  }

  // ---------------------------------------------------------------- what the calls write

  /** What one verification makes of its challenge, and of nothing else. */
  lemma VerifyWrites(s: Store, id: nat, otp: string, now: int)
    requires id in s.challenges
    ensures var s' := VerifyOtp(s, id, otp, now).0;
            && s'.db == s.db && s'.nextId == s.nextId && id in s'.challenges
            && s'.challenges == s.challenges[id := s'.challenges[id]]
            && var c, z := s.challenges[id], s'.challenges[id];
               && z == c.(status := z.status, attemptCount := z.attemptCount, usedAt := z.usedAt)
               && (c.status != Pending ==> z == c)
               && (c.status == Pending ==>
                     var guessed := now <= c.expiresAt && c.attemptCount < c.maxAttempts;
                     && (z.status == Expired <==> c.expiresAt < now)
                     && (z.status == Verified <==> guessed && c.otpHash == Hash(otp, id))
                     && (z.status == Locked <==> now <= c.expiresAt && z.status != Verified && c.maxAttempts <= z.attemptCount)
                     && z.status != Cancelled
                     && z.attemptCount == c.attemptCount + (if guessed && z.status != Verified then 1 else 0)
                     && z.usedAt == if z.status == Verified then Some(now) else c.usedAt)
  {
  }

  /** A request that is granted adds one challenge, for the canonical destination and with the code sent. */
  lemma RequestWrites(cfg: Settings, s: Store, ask: Ask, now: int, otp: string)
    requires RequestOtp(cfg, s, ask, now, otp).1.Success?
    ensures var (s', r), d := RequestOtp(cfg, s, ask, now, otp), cfg.normalize(ask.destination, ask.channel);
            && d.Some? && r.value == s.nextId && s'.nextId == s.nextId + 1
            && s'.challenges == s.challenges[s.nextId := Challenge(
                 d.value, ask.channel, ask.purpose, ask.ip, ask.userId, ask.eventId, Hash(otp, s.nextId),
                 now + cfg.expiration, 0, cfg.maxAttempts, Pending, None)]
  {
  }

  /** What holds a refused request back: the cooldown of its destination, or a counter of one of its checks. */
  ghost predicate HoldsBack(cfg: Settings, db: Db, d: string, ask: Ask, key: string, until: int) {
    && key in db && db[key].expiresAt == Some(until)
    && (|| key == Key("otp:cooldown", d)
        || exists c :: c in ChecksFor(d, ask.ip, ask.userId, cfg.limits, 0) && c.key == key && c.limit < db[key].count)
  }

  /** The time reported with a throttled request is exactly what is left of one of the things that
      hold it back. */
  lemma ThrottleTimeIsExact(cfg: Settings, s: Store, ask: Ask, now: int, otp: string) returns (key: string)
    requires Valid(cfg, s) && 0 < cfg.cooldown
    requires var r := RequestOtp(cfg, s, ask, now, otp).1; r.Failure? && r.error.Throttled?
    ensures var (s', r), d := RequestOtp(cfg, s, ask, now, otp), cfg.normalize(ask.destination, ask.channel);
            && d.Some? && 0 < r.error.retryAfter && s'.challenges == s.challenges
            && HoldsBack(cfg, s'.db, d.value, ask, key, now + r.error.retryAfter)
  {
    var d := cfg.normalize(ask.destination, ask.channel).value;
    key := Key("otp:cooldown", d);
    if !Alive(s.db, key, now) {
      var db := s.db[key := Entry(1, Some(now + cfg.cooldown))];
      var c := RefusalNamesCounter(db, ChecksFor(d, ask.ip, ask.userId, cfg.limits, now), now);
      SameChecksLater(d, ask.ip, ask.userId, cfg.limits, now, 0, c);
      key := c.key;
    }
  }

  lemma SameChecksLater(d: string, ip: Option<string>, u: Option<nat>, limits: Limits, now: int, t: int, c: Call)
    requires c in ChecksFor(d, ip, u, limits, now)
    ensures c.(now := t) in ChecksFor(d, ip, u, limits, t)
  {
    assert c in DestinationChecks(d, limits, now) || c in RequesterChecks(ip, u, limits, now);
    assert c in DestinationChecks(d, limits, now) ==> c.(now := t) in DestinationChecks(d, limits, t);
    assert c in RequesterChecks(ip, u, limits, now) ==> c.(now := t) in RequesterChecks(ip, u, limits, t);
  }

  /** Whatever holds a request back does so until its time is over. */
  lemma HeldBackIsThrottled(cfg: Settings, s: Store, ask: Ask, key: string, until: int, t: int, otp: string)
    requires Valid(cfg, s) && 0 < cfg.cooldown && cfg.normalize(ask.destination, ask.channel).Some? && t < until
    requires HoldsBack(cfg, s.db, cfg.normalize(ask.destination, ask.channel).value, ask, key, until)
    ensures var r := RequestOtp(cfg, s, ask, t, otp).1; r.Failure? && r.error.Throttled?
  {
    var d := cfg.normalize(ask.destination, ask.channel).value;
    if !Alive(s.db, Key("otp:cooldown", d), t) {
      var c :| c in ChecksFor(d, ask.ip, ask.userId, cfg.limits, 0) && c.key == key && c.limit < s.db[key].count;
      CounterHoldsBack(cfg, s.db, d, ask, c, t);
    }
  }

  lemma CounterHoldsBack(cfg: Settings, db: Db, d: string, ask: Ask, c: Call, t: int)
    requires WellFormed(db) && c in ChecksFor(d, ask.ip, ask.userId, cfg.limits, 0)
    requires Alive(db, c.key, t) && c.limit < db[c.key].count
    ensures Enforce(db[Key("otp:cooldown", d) := Entry(1, Some(t + cfg.cooldown))],
                    ChecksFor(d, ask.ip, ask.userId, cfg.limits, t)).1.Some?
  {
    SameChecksLater(d, ask.ip, ask.userId, cfg.limits, 0, t, c);
    ChecksHaveOneRule(cfg, d, ask.ip, ask.userId, t, c.(now := t));
    assert "otp:count:" <= c.key && Key("otp:cooldown", d)[6] == 'o' && c.key[6] == "otp:count:"[6];
    SaturatedRefuses(db[Key("otp:cooldown", d) := Entry(1, Some(t + cfg.cooldown))],
                     ChecksFor(d, ask.ip, ask.userId, cfg.limits, t), c.(now := t), t);
  }

  /** Asking again earlier than told is refused again. */
  lemma AskingEarlyIsThrottled(cfg: Settings, s: Store, ask: Ask, now: int, otp: string, t: int, another: string)
    requires Valid(cfg, s) && 0 < cfg.cooldown
    requires var r := RequestOtp(cfg, s, ask, now, otp).1; r.Failure? && r.error.Throttled? && t < now + r.error.retryAfter
    ensures var r := RequestOtp(cfg, RequestOtp(cfg, s, ask, now, otp).0, ask, t, another).1; r.Failure? && r.error.Throttled?
  {
    RequestFrame(cfg, s, ask, now, otp);
    var key := ThrottleTimeIsExact(cfg, s, ask, now, otp);
    var (s', r) := RequestOtp(cfg, s, ask, now, otp);
    HeldBackIsThrottled(cfg, s', ask, key, now + r.error.retryAfter, t, another);
  }

  lemma ChecksHaveOneRule(cfg: Settings, d: string, ip: Option<string>, u: Option<nat>, now: int, c: Call)
    requires c in ChecksFor(d, ip, u, cfg.limits, now)
    ensures OneRule(ChecksFor(d, ip, u, cfg.limits, now), c.key, c.limit, c.window)
  {
    ChecksByKind(d, ip, u, cfg.limits, now);
  }

  /** How many of the calls of a run try a code on the challenge. */
  function Guesses(ops: seq<Op>, id: nat): nat {
    if ops == [] then 0 else (if ops[0].Verify? && ops[0].id == id then 1 else 0) + Guesses(ops[1..], id)
  }

  /** The challenge is not resent, and tried only in time and with other codes than the one sent. */
  predicate OnlyWrongGuesses(ops: seq<Op>, id: nat, otp: string, expiresAt: int) {
    forall op :: op in ops ==>
      && (op.Resend? ==> op.id != id)
      && (op.Verify? && op.id == id ==> op.otp != otp && op.now <= expiresAt)
  }

  lemma WrongGuessStep(cfg: Settings, s: Store, op: Op, id: nat, otp: string)
    requires Valid(cfg, s) && 0 < cfg.cooldown && id in s.challenges && s.challenges[id].status == Pending
    requires s.challenges[id].otpHash == Hash(otp, id) && OnlyWrongGuesses([op], id, otp, s.challenges[id].expiresAt)
    requires s.challenges[id].attemptCount + Guesses([op], id) < s.challenges[id].maxAttempts
    ensures var s' := Step(cfg, s, op);
            && id in s'.challenges
            && s'.challenges[id] == s.challenges[id].(attemptCount := s.challenges[id].attemptCount + Guesses([op], id))
  {
    assert op in [op] && [op][1..] == [];
    match op
    case Request(ask, now, guess) => RequestFrame(cfg, s, ask, now, guess);
    case Verify(_, _, _) =>
    case Resend(i, now, guess) =>
      if i in s.challenges {
        CancelKeepsValid(cfg, s, i);
        RequestFrame(cfg, Cancel(s, i), AskAgain(s.challenges[i]), now, guess);
      }
  }

  /** Fewer wrong guesses than allowed leave a challenge pending. */
  lemma {:induction false} WrongGuessesLeavePending(cfg: Settings, s: Store, ops: seq<Op>, id: nat, otp: string)
    requires Valid(cfg, s) && 0 < cfg.cooldown && id in s.challenges && s.challenges[id].status == Pending
    requires s.challenges[id].otpHash == Hash(otp, id) && OnlyWrongGuesses(ops, id, otp, s.challenges[id].expiresAt)
    requires s.challenges[id].attemptCount + Guesses(ops, id) < s.challenges[id].maxAttempts
    ensures var z := Run(cfg, s, ops);
            && id in z.challenges
            && z.challenges[id] == s.challenges[id].(attemptCount := s.challenges[id].attemptCount + Guesses(ops, id))
    decreases |ops|
  {
    if ops != [] {
      assert ops[0] in ops && [ops[0]][1..] == [];
      StepKeepsValid(cfg, s, ops[0]);
      WrongGuessStep(cfg, s, ops[0], id, otp);
      WrongGuessesLeavePending(cfg, Step(cfg, s, ops[0]), ops[1..], id, otp);
    }
  }

  /** The code that was sent verifies, and no other: after any run in which the challenge is not resent
      and is guessed wrongly less often than allowed, a guess succeeds if and only if it is the code
      and comes before the challenge expires. */
  lemma SentCodeVerifies(cfg: Settings, s: Store, ask: Ask, now: int, otp: string, ops: seq<Op>, guess: string, t: int)
    requires Valid(cfg, s) && 0 < cfg.cooldown && RequestOtp(cfg, s, ask, now, otp).1.Success?
    requires OnlyWrongGuesses(ops, s.nextId, otp, now + cfg.expiration) && Guesses(ops, s.nextId) < cfg.maxAttempts
    ensures VerifyOtp(Run(cfg, RequestOtp(cfg, s, ask, now, otp).0, ops), s.nextId, guess, t).1
            <==> guess == otp && t <= now + cfg.expiration
  {
    RequestWrites(cfg, s, ask, now, otp);
    RequestFrame(cfg, s, ask, now, otp);
    WrongGuessesLeavePending(cfg, RequestOtp(cfg, s, ask, now, otp).0, ops, s.nextId, otp);
  }

  // -------------------------------------------------------------- challenges per destination

  /** The challenges of a destination that a code could still verify at `t`, if pending. */
  function Unexpired(s: Store, destination: string, t: int): set<nat> {
    set id | id in s.challenges && s.challenges[id].destination == destination && t <= s.challenges[id].expiresAt
  }

  /** The challenge has been created by now, and the cooldown key outlasts its cooldown. */
  ghost predicate Guarded(cfg: Settings, db: Db, c: Challenge, now: int) {
    var key := Key("otp:cooldown", c.destination);
    && c.expiresAt <= now + cfg.expiration
    && key in db && db[key].expiresAt.Some?
    && c.expiresAt - cfg.expiration + cfg.cooldown <= db[key].expiresAt.value
  }

  /** Challenges of one destination are created at least a cooldown apart. */
  ghost predicate Spaced(cfg: Settings, s: Store, now: int) {
    && (forall id :: id in s.challenges ==> Guarded(cfg, s.db, s.challenges[id], now))
    && (forall i, j :: i in s.challenges && j in s.challenges && i < j
                       && s.challenges[i].destination == s.challenges[j].destination ==>
          s.challenges[i].expiresAt + cfg.cooldown <= s.challenges[j].expiresAt)
  }

  lemma KeysOfOnePrefixDiffer(prefix: string, a: string, b: string)
    requires Key(prefix, a) == Key(prefix, b)
    ensures a == b
  {
    assert Key(prefix, a)[|prefix| + 1..] == a && Key(prefix, b)[|prefix| + 1..] == b;
  }

  lemma {:induction false} EnforceLeavesCooldowns(db: Db, calls: seq<Call>, d: string)
    requires forall c :: c in calls ==> "otp:count:" <= c.key
    ensures var key := Key("otp:cooldown", d);
            var db' := Enforce(db, calls).0;
            (key in db' <==> key in db) && (key in db ==> db'[key] == db[key])
    decreases |calls|
  {
    if calls != [] {
      assert Key("otp:cooldown", d)[6] == 'o' && calls[0].key[6] == "otp:count:"[6];
      if Accepted(db, calls[0]) {
        EnforceLeavesCooldowns(After(db, calls[0]), calls[1..], d);
      }
    }
  }

  /** A request renews the cooldown of its own destination and leaves all others. */
  lemma RequestKeepsGuarded(cfg: Settings, db: Db, d: string, calls: seq<Call>, c: Challenge, now: int)
    requires 0 < cfg.cooldown && forall call :: call in calls ==> "otp:count:" <= call.key
    requires c.destination != d ==> Guarded(cfg, db, c, now)
    requires c.destination == d ==> c.expiresAt <= now + cfg.expiration
    ensures Guarded(cfg, Enforce(db[Key("otp:cooldown", d) := Entry(1, Some(now + cfg.cooldown))], calls).0, c, now)
  {
    EnforceLeavesCooldowns(db[Key("otp:cooldown", d) := Entry(1, Some(now + cfg.cooldown))], calls, c.destination);
    if Key("otp:cooldown", c.destination) == Key("otp:cooldown", d) {
      KeysOfOnePrefixDiffer("otp:cooldown", c.destination, d);
    }
  }

  lemma RequestKeepsSpaced(cfg: Settings, s: Store, ask: Ask, now: int, otp: string)
    requires Valid(cfg, s) && 0 < cfg.cooldown && Spaced(cfg, s, now)
    ensures Spaced(cfg, RequestOtp(cfg, s, ask, now, otp).0, now)
  {
    var d := cfg.normalize(ask.destination, ask.channel);
    RequestFrame(cfg, s, ask, now, otp);
    var s' := RequestOtp(cfg, s, ask, now, otp).0;
    if d.Some? && !Alive(s.db, Key("otp:cooldown", d.value), now) {
      var calls := ChecksFor(d.value, ask.ip, ask.userId, cfg.limits, now);
      forall id | id in s'.challenges ensures Guarded(cfg, s'.db, s'.challenges[id], now) {
        assert id in s.challenges ==> Guarded(cfg, s.db, s.challenges[id], now);
        RequestKeepsGuarded(cfg, s.db, d.value, calls, s'.challenges[id], now);
      }
    }
  }

  /** Spacing depends only on destinations, expiry times and the store of counters. */
  lemma SpacedFrame(cfg: Settings, s: Store, s': Store, now: int)
    requires Spaced(cfg, s, now) && s'.db == s.db && s'.challenges.Keys == s.challenges.Keys
    requires forall id :: id in s.challenges ==>
               && s'.challenges[id].destination == s.challenges[id].destination
               && s'.challenges[id].expiresAt == s.challenges[id].expiresAt
    ensures Spaced(cfg, s', now)
  {
  }

  lemma VerifyKeepsSpaced(cfg: Settings, s: Store, id: nat, otp: string, now: int)
    requires Spaced(cfg, s, now)
    ensures Spaced(cfg, VerifyOtp(s, id, otp, now).0, now)
  {
    SpacedFrame(cfg, s, VerifyOtp(s, id, otp, now).0, now);
  }

  lemma CancelKeepsSpaced(cfg: Settings, s: Store, id: nat, now: int)
    requires Spaced(cfg, s, now) && id in s.challenges
    ensures Spaced(cfg, Cancel(s, id), now)
  {
    SpacedFrame(cfg, s, Cancel(s, id), now);
  }

  lemma CancelKeepsValid(cfg: Settings, s: Store, id: nat)
    requires Valid(cfg, s) && id in s.challenges
    ensures Valid(cfg, Cancel(s, id))
  {
  }

  lemma StepKeepsSpaced(cfg: Settings, s: Store, op: Op)
    requires Valid(cfg, s) && 0 < cfg.cooldown && Spaced(cfg, s, op.now)
    ensures Spaced(cfg, Step(cfg, s, op), op.now)
  {
    match op
    case Request(ask, now, otp) => RequestKeepsSpaced(cfg, s, ask, now, otp);
    case Verify(id, otp, now) => VerifyKeepsSpaced(cfg, s, id, otp, now);
    case Resend(i, now, otp) =>
      if i in s.challenges {
        CancelKeepsValid(cfg, s, i);
        CancelKeepsSpaced(cfg, s, i, now);
        RequestKeepsSpaced(cfg, Cancel(s, i), AskAgain(s.challenges[i]), now, otp);
      }
  }

  lemma {:induction false} RunKeepsSpaced(cfg: Settings, s: Store, ops: seq<Op>, from: int, until: int)
    requires Valid(cfg, s) && 0 < cfg.cooldown && Spaced(cfg, s, from) && Chronological(ops, from, until) && from <= until
    ensures Valid(cfg, Run(cfg, s, ops)) && Spaced(cfg, Run(cfg, s, ops), until)
    decreases |ops|
  {
    if ops != [] {
      var op := ops[0];
      assert Spaced(cfg, s, op.now);
      StepKeepsValid(cfg, s, op);
      StepKeepsSpaced(cfg, s, op);
      RunKeepsSpaced(cfg, Step(cfg, s, op), ops[1..], op.now, until);
    }
  }

  /** At most k + 1 numbers, each at least `gap` above the one before, fit in a span below (k + 1) * gap. */
  lemma {:induction false} SpacedSetIsSmall(s: set<nat>, v: map<nat, int>, gap: int, low: int, high: int, k: nat)
    requires 0 < gap && s <= v.Keys && high - low < (k + 1) * gap
    requires forall i :: i in s ==> low <= v[i] <= high
    requires forall i, j :: i in s && j in s && i < j ==> v[i] + gap <= v[j]
    ensures |s| <= k + 1
    decreases k
  {
    if s != {} {
      var m := Greatest(s);
      var rest := s - {m};
      forall i | i in rest ensures v[i] <= high - gap {
        assert i < m;
      }
      if k > 0 {
        assert (k + 1) * gap == k * gap + gap;
        SpacedSetIsSmall(rest, v, gap, low, high - gap, k - 1);
      } else {
        forall i | i in rest ensures false {
        }
        assert rest == {};
      }
      assert s == rest + {m};
    }
  }

  lemma SpacedUnexpiredAreFew(cfg: Settings, s: Store, t: int, d: string, k: nat)
    requires 0 < cfg.cooldown && Spaced(cfg, s, t) && cfg.expiration < (k + 1) * cfg.cooldown
    ensures |Unexpired(s, d, t)| <= k + 1
  {
    var v := map id | id in s.challenges :: s.challenges[id].expiresAt;
    SpacedSetIsSmall(Unexpired(s, d, t), v, cfg.cooldown, t, t + cfg.expiration, k);
  }

  lemma StartIsSpaced(cfg: Settings, now: int)
    ensures Valid(cfg, Start) && Spaced(cfg, Start, now)
  {
  }

  /** At any instant a destination has at most expiration / cooldown + 1 unexpired challenges. */
  lemma UnexpiredAreFew(cfg: Settings, ops: seq<Op>, from: int, t: int, d: string)
    requires 0 < cfg.cooldown && from <= t && Chronological(ops, from, t)
    ensures |Unexpired(Run(cfg, Start, ops), d, t)| <= cfg.expiration / cfg.cooldown + 1
  {
    StartIsSpaced(cfg, from);
    RunKeepsSpaced(cfg, Start, ops, from, t);
    DivBound(cfg.expiration, cfg.cooldown);
    var k: nat := cfg.expiration / cfg.cooldown;
    SpacedUnexpiredAreFew(cfg, Run(cfg, Start, ops), t, d, k);
  }

  function ComparisonsAmong(cfg: Settings, s: Store, ops: seq<Op>, ids: set<nat>): nat
    decreases |ops|
  {
    if ops == [] then 0 else
    (if ops[0].Verify? && ops[0].id in ids && Compares(s, ops[0].id, ops[0].now) then 1 else 0)
    + ComparisonsAmong(cfg, Step(cfg, s, ops[0]), ops[1..], ids)
  }

  lemma {:induction false} ComparisonsSplit(cfg: Settings, s: Store, ops: seq<Op>, ids: set<nat>, id: nat)
    requires id in ids
    ensures ComparisonsAmong(cfg, s, ops, ids)
            == ComparisonsAmong(cfg, s, ops, ids - {id}) + Comparisons(cfg, s, ops, id)
    decreases |ops|
  {
    if ops != [] {
      ComparisonsSplit(cfg, Step(cfg, s, ops[0]), ops[1..], ids, id);
    }
  }

  lemma {:induction false} NoIdsNoComparisons(cfg: Settings, s: Store, ops: seq<Op>)
    ensures ComparisonsAmong(cfg, s, ops, {}) == 0
    decreases |ops|
  {
    if ops != [] {
      NoIdsNoComparisons(cfg, Step(cfg, s, ops[0]), ops[1..]);
    }
  }

  lemma {:induction false} ComparisonsAmongAreBounded(cfg: Settings, s: Store, ops: seq<Op>, ids: set<nat>)
    requires Valid(cfg, s) && 0 < cfg.cooldown
    ensures ComparisonsAmong(cfg, s, ops, ids) <= |ids| * cfg.maxAttempts
    decreases |ids|
  {
    if ids == {} {
      NoIdsNoComparisons(cfg, s, ops);
    } else {
      var id :| id in ids;
      var rest := ids - {id};
      ComparisonsSplit(cfg, s, ops, ids, id);
      GuessesAreBounded(cfg, s, ops, id);
      ComparisonsAmongAreBounded(cfg, s, ops, rest);
      calc {
        ComparisonsAmong(cfg, s, ops, ids);
      <=
        |rest| * cfg.maxAttempts + cfg.maxAttempts;
      ==
        (|rest| + 1) * cfg.maxAttempts;
      ==  { assert |ids| == |rest| + 1; }
        |ids| * cfg.maxAttempts;
      }
    }
  }

  /** So all the codes that could still be verified for a destination at an instant have, together,
      been compared with at most (expiration / cooldown + 1) * maxAttempts guesses. */
  lemma GuessesPerDestinationAreBounded(cfg: Settings, ops: seq<Op>, from: int, t: int, d: string)
    requires 0 < cfg.cooldown && from <= t && Chronological(ops, from, t)
    ensures ComparisonsAmong(cfg, Start, ops, Unexpired(Run(cfg, Start, ops), d, t))
            <= (cfg.expiration / cfg.cooldown + 1) * cfg.maxAttempts
  {
    var ids := Unexpired(Run(cfg, Start, ops), d, t);
    UnexpiredAreFew(cfg, ops, from, t, d);
    ComparisonsAmongAreBounded(cfg, Start, ops, ids);
    MulMonotone(cfg.maxAttempts, |ids|, cfg.expiration / cfg.cooldown + 1);
  }

  // ---------------------------------------------------------------- challenges per interval

  /** What a challenge can be counted by: where it was sent, whence it was asked for, for whom. */
  datatype Tag = To(destination: string) | From(ip: string) | For(userId: nat)

  predicate HasTag(c: Challenge, tag: Tag) {
    match tag
    case To(d) => c.destination == d
    case From(ip) => c.ip == Some(ip)
    case For(u) => c.userId == Some(u)
  }

  /** A step that adds a challenge with the tag. */
  ghost predicate Adds(cfg: Settings, s: Store, op: Op, tag: Tag) {
    exists id :: id !in s.challenges && id in Step(cfg, s, op).challenges && HasTag(Step(cfg, s, op).challenges[id], tag)
  }

  /** How many steps of a run, at times in [from, until), add a challenge with the tag. */
  ghost function AddedCount(cfg: Settings, s: Store, ops: seq<Op>, tag: Tag, from: int, until: int): nat
    decreases |ops|
  {
    if ops == [] then 0 else
    (if from <= ops[0].now < until && Adds(cfg, s, ops[0], tag) then 1 else 0)
    + AddedCount(cfg, Step(cfg, s, ops[0]), ops[1..], tag, from, until)
  }

  ghost function Added(cfg: Settings, ops: seq<Op>, tag: Tag, from: int, until: int): nat {
    AddedCount(cfg, Start, ops, tag, from, until)
  }

  /** Every challenge with the tag is charged to the key before it is created. */
  ghost predicate Charged(cfg: Settings, tag: Tag, key: string) {
    forall d, ask: Ask, id, now, otp ::
      HasTag(NewChallenge(cfg, d, ask, id, now, otp), tag) ==> Charges(ChecksFor(d, ask.ip, ask.userId, cfg.limits, now), key)
  }

  /** Every check ever made on the key uses this limit and window. */
  ghost predicate Governs(cfg: Settings, key: string, limit: nat, window: int) {
    && 0 < window && "otp:count:" <= key
    && forall d, ip, u, now :: OneRule(ChecksFor(d, ip, u, cfg.limits, now), key, limit, window)
  }

  lemma RequestSpendsAllowance(
      cfg: Settings, s: Store, ask: Ask, now: int, otp: string, key: string, limit: nat, window: int, until: int)
    requires Valid(cfg, s) && 0 < cfg.cooldown && Governs(cfg, key, limit, window) && now < until
    ensures var (s', r) := RequestOtp(cfg, s, ask, now, otp);
            var d := cfg.normalize(ask.destination, ask.channel);
            && WellFormed(s'.db)
            && Allowance(s'.db, key, limit, window, now, until)
               + (if r.Success? && d.Some? && Charges(ChecksFor(d.value, ask.ip, ask.userId, cfg.limits, now), key) then 1 else 0)
               <= Allowance(s.db, key, limit, window, now, until)
  {
    var d := cfg.normalize(ask.destination, ask.channel);
    if d.Some? && !Alive(s.db, Key("otp:cooldown", d.value), now) {
      var db := s.db[Key("otp:cooldown", d.value) := Entry(1, Some(now + cfg.cooldown))];
      assert Key("otp:cooldown", d.value)[6] == 'o' && key[6] == "otp:count:"[6];
      var calls := ChecksFor(d.value, ask.ip, ask.userId, cfg.limits, now);
      assert OneRule(calls, key, limit, window);
      assert Allowance(db, key, limit, window, now, until) == Allowance(s.db, key, limit, window, now, until);
      EnforceSpendsAllowance(db, calls, key, limit, window, now, until);
    }
  }

  /** A request that adds a challenge with the tag pays for it. */
  lemma RequestPays(
      cfg: Settings, s: Store, ask: Ask, now: int, otp: string, tag: Tag, key: string, limit: nat, window: int, until: int)
    requires Valid(cfg, s) && 0 < cfg.cooldown && Governs(cfg, key, limit, window) && Charged(cfg, tag, key) && now < until
    ensures var s' := RequestOtp(cfg, s, ask, now, otp).0;
            && WellFormed(s'.db)
            && Allowance(s'.db, key, limit, window, now, until)
               + (if exists id :: id !in s.challenges && id in s'.challenges && HasTag(s'.challenges[id], tag) then 1 else 0)
               <= Allowance(s.db, key, limit, window, now, until)
  {
    RequestFrame(cfg, s, ask, now, otp);
    RequestSpendsAllowance(cfg, s, ask, now, otp, key, limit, window, until);
  }

  lemma StepPays(cfg: Settings, s: Store, op: Op, tag: Tag, key: string, limit: nat, window: int, until: int)
    requires Valid(cfg, s) && 0 < cfg.cooldown && Governs(cfg, key, limit, window) && Charged(cfg, tag, key) && op.now < until
    ensures WellFormed(Step(cfg, s, op).db)
    ensures Allowance(Step(cfg, s, op).db, key, limit, window, op.now, until) + (if Adds(cfg, s, op, tag) then 1 else 0)
            <= Allowance(s.db, key, limit, window, op.now, until)
  {
    match op
    case Request(ask, now, otp) => RequestPays(cfg, s, ask, now, otp, tag, key, limit, window, until);
    case Verify(_, _, _) =>
    case Resend(i, now, otp) =>
      if i in s.challenges {
        CancelKeepsValid(cfg, s, i);
        RequestPays(cfg, Cancel(s, i), AskAgain(s.challenges[i]), now, otp, tag, key, limit, window, until);
      }
  }

  lemma {:induction false} AddedWithinAllowance(
      cfg: Settings, s: Store, ops: seq<Op>, tag: Tag, key: string, limit: nat, window: int, from: int, now: int, until: int)
    requires Valid(cfg, s) && 0 < cfg.cooldown && Governs(cfg, key, limit, window) && Charged(cfg, tag, key)
    requires exists last :: Chronological(ops, now, last)
    ensures AddedCount(cfg, s, ops, tag, from, until) <= Allowance(s.db, key, limit, window, now, until)
    decreases |ops|
  {
    if ops != [] {
      var op := ops[0];
      var last :| Chronological(ops, now, last);
      assert Chronological(ops[1..], op.now, last);
      StepKeepsValid(cfg, s, op);
      AddedWithinAllowance(cfg, Step(cfg, s, op), ops[1..], tag, key, limit, window, from, op.now, until);
      AllowanceFades(s.db, key, limit, window, now, op.now, until);
      if op.now < until {
        StepPays(cfg, s, op, tag, key, limit, window, until);
      }
    }
  }

  lemma {:induction false} AddedPerInterval(
      cfg: Settings, s: Store, ops: seq<Op>, tag: Tag, key: string, limit: nat, window: int,
      start: int, last: int, from: int, k: nat)
    requires Valid(cfg, s) && 0 < cfg.cooldown && Governs(cfg, key, limit, window) && Charged(cfg, tag, key)
    requires Chronological(ops, start, last)
    ensures AddedCount(cfg, s, ops, tag, from, from + k * window) <= (k + 1) * limit
    decreases |ops|
  {
    if ops != [] {
      var op := ops[0];
      if op.now < from {
        StepKeepsValid(cfg, s, op);
        AddedPerInterval(cfg, Step(cfg, s, op), ops[1..], tag, key, limit, window, op.now, last, from, k);
      } else {
        assert Chronological(ops, op.now, last);
        AddedWithinAllowance(cfg, s, ops, tag, key, limit, window, from, op.now, from + k * window);
        FreshAllowance(s.db, key, limit, window, from, op.now, k);
      }
    } else {
      assert (k + 1) * limit >= 0;
    }
  }

  /** Every challenge with the tag is charged to the key, under this limit and window. */
  ghost predicate Limited(cfg: Settings, tag: Tag, key: string, limit: nat, window: int) {
    Governs(cfg, key, limit, window) && Charged(cfg, tag, key)
  }

  lemma AddedFromStart(
      cfg: Settings, ops: seq<Op>, tag: Tag, key: string, limit: nat, window: int, start: int, last: int, from: int, k: nat)
    requires 0 < cfg.cooldown && Limited(cfg, tag, key, limit, window) && Chronological(ops, start, last)
    ensures Added(cfg, ops, tag, from, from + k * window) <= (k + 1) * limit
  {
    StartIsSpaced(cfg, start);
    AddedPerInterval(cfg, Start, ops, tag, key, limit, window, start, last, from, k);
  }

  // The four kinds of counters differ in the eleventh character of their keys.

  predicate IsOfKind(c: Call, limits: Limits) {
    && |c.key| > 10
    && match c.key[10]
       case 'h' => c.limit == limits.perHour && c.window == 3600
       case 'd' => c.limit == limits.perDay && c.window == 86400
       case 'i' => c.limit == limits.ipPer10Minutes && c.window == 600
       case 'u' => c.limit == limits.perHour && c.window == 3600
       case _ => false
  }

  lemma ChecksByKind(d: string, ip: Option<string>, u: Option<nat>, limits: Limits, now: int)
    ensures forall c :: c in ChecksFor(d, ip, u, limits, now) ==> IsOfKind(c, limits)
  {
    assert Key("otp:count:hour", d)[10] == 'h' && Key("otp:count:day", d)[10] == 'd';
    if ip.Some? { assert Key("otp:count:ip10m", ip.value)[10] == 'i'; }
    if u.Some? { assert Key("otp:count:user1h", Decimal.ToString(u.value))[10] == 'u'; }
  }

  lemma KindGoverns(cfg: Settings, key: string, limit: nat, window: int)
    requires 0 < window && "otp:count:" <= key && |key| > 10
    requires forall c: Call :: c.key == key && IsOfKind(c, cfg.limits) ==> c.limit == limit && c.window == window
    ensures Governs(cfg, key, limit, window)
  {
    forall d, ip, u, now ensures OneRule(ChecksFor(d, ip, u, cfg.limits, now), key, limit, window) {
      ChecksByKind(d, ip, u, cfg.limits, now);
    }
  }

  lemma DestinationIsLimited(cfg: Settings, d: string)
    ensures Limited(cfg, To(d), Key("otp:count:hour", d), cfg.limits.perHour, 3600)
    ensures Limited(cfg, To(d), Key("otp:count:day", d), cfg.limits.perDay, 86400)
  {
    assert Key("otp:count:hour", d)[10] == 'h' && Key("otp:count:day", d)[10] == 'd';
    KindGoverns(cfg, Key("otp:count:hour", d), cfg.limits.perHour, 3600);
    KindGoverns(cfg, Key("otp:count:day", d), cfg.limits.perDay, 86400);
    forall ask: Ask, now
      ensures Charges(ChecksFor(d, ask.ip, ask.userId, cfg.limits, now), Key("otp:count:hour", d))
      ensures Charges(ChecksFor(d, ask.ip, ask.userId, cfg.limits, now), Key("otp:count:day", d))
    {
      ChecksInclude(d, ask.ip, ask.userId, cfg.limits, now);
    }
  }

  lemma AddressIsLimited(cfg: Settings, ip: string)
    requires ip != ""
    ensures Limited(cfg, From(ip), Key("otp:count:ip10m", ip), cfg.limits.ipPer10Minutes, 600)
  {
    assert Key("otp:count:ip10m", ip)[10] == 'i';
    KindGoverns(cfg, Key("otp:count:ip10m", ip), cfg.limits.ipPer10Minutes, 600);
    forall d, u, now ensures Charges(ChecksFor(d, Some(ip), u, cfg.limits, now), Key("otp:count:ip10m", ip)) {
      ChecksInclude(d, Some(ip), u, cfg.limits, now);
    }
  }

  lemma UserIsLimited(cfg: Settings, u: nat)
    ensures Limited(cfg, For(u), Key("otp:count:user1h", Decimal.ToString(u)), cfg.limits.perHour, 3600)
  {
    var key := Key("otp:count:user1h", Decimal.ToString(u));
    assert key[10] == 'u';
    KindGoverns(cfg, key, cfg.limits.perHour, 3600);
    forall d, ip, now ensures Charges(ChecksFor(d, ip, Some(u), cfg.limits, now), key) {
      ChecksInclude(d, ip, Some(u), cfg.limits, now);
    }
  }

  lemma ChecksInclude(d: string, ip: Option<string>, u: Option<nat>, limits: Limits, now: int)
    ensures var calls := ChecksFor(d, ip, u, limits, now);
            && Charges(calls, Key("otp:count:hour", d)) && Charges(calls, Key("otp:count:day", d))
            && (ip.Some? && ip.value != "" ==> Charges(calls, Key("otp:count:ip10m", ip.value)))
            && (u.Some? ==> Charges(calls, Key("otp:count:user1h", Decimal.ToString(u.value))))
  {
    var first, rest := DestinationChecks(d, limits, now), RequesterChecks(ip, u, limits, now);
    var calls := first + rest;
    assert first[0] in calls && first[1] in calls;
    assert rest != [] ==> rest[0] in calls && rest[|rest| - 1] in calls;
  }

  /** In every run, whatever mix of requests and resends it makes, k consecutive hours add at most
      (k + 1) * perHour challenges for one destination. */
  lemma ChallengesPerHoursAreBounded(cfg: Settings, ops: seq<Op>, start: int, last: int, d: string, from: int, k: nat)
    requires 0 < cfg.cooldown && Chronological(ops, start, last)
    ensures Added(cfg, ops, To(d), from, from + k * 3600) <= (k + 1) * cfg.limits.perHour
  {
    DestinationIsLimited(cfg, d);
    AddedFromStart(cfg, ops, To(d), Key("otp:count:hour", d), cfg.limits.perHour, 3600, start, last, from, k);
  }

  /** Likewise for days. */
  lemma ChallengesPerDaysAreBounded(cfg: Settings, ops: seq<Op>, start: int, last: int, d: string, from: int, k: nat)
    requires 0 < cfg.cooldown && Chronological(ops, start, last)
    ensures Added(cfg, ops, To(d), from, from + k * 86400) <= (k + 1) * cfg.limits.perDay
  {
    DestinationIsLimited(cfg, d);
    AddedFromStart(cfg, ops, To(d), Key("otp:count:day", d), cfg.limits.perDay, 86400, start, last, from, k);
  }

  /** Likewise for one address, in spans of ten minutes. */
  lemma ChallengesPerAddressAreBounded(cfg: Settings, ops: seq<Op>, start: int, last: int, ip: string, from: int, k: nat)
    requires 0 < cfg.cooldown && Chronological(ops, start, last) && ip != ""
    ensures Added(cfg, ops, From(ip), from, from + k * 600) <= (k + 1) * cfg.limits.ipPer10Minutes
  {
    AddressIsLimited(cfg, ip);
    AddedFromStart(cfg, ops, From(ip), Key("otp:count:ip10m", ip), cfg.limits.ipPer10Minutes, 600, start, last, from, k);
  }

  /** Likewise for one user, in hours. */
  lemma ChallengesPerUserAreBounded(cfg: Settings, ops: seq<Op>, start: int, last: int, u: nat, from: int, k: nat)
    requires 0 < cfg.cooldown && Chronological(ops, start, last)
    ensures Added(cfg, ops, For(u), from, from + k * 3600) <= (k + 1) * cfg.limits.perHour
  {
    var key := Key("otp:count:user1h", Decimal.ToString(u));
    UserIsLimited(cfg, u);
    AddedFromStart(cfg, ops, For(u), key, cfg.limits.perHour, 3600, start, last, from, k);
  }

  // ---------------------------------------------------------------------------- resending

  /** Every stored destination is in canonical form. */
  ghost predicate Canonical(cfg: Settings, s: Store) {
    forall id :: id in s.challenges ==>
      cfg.normalize(s.challenges[id].destination, s.challenges[id].channel) == Some(s.challenges[id].destination)
  }

  ghost predicate Idempotent(normalize: (string, Channel) -> Option<string>) {
    forall raw, channel :: normalize(raw, channel).Some? ==>
      normalize(normalize(raw, channel).value, channel) == normalize(raw, channel)
  }

  lemma StandardNormalizerIsIdempotent()
    ensures Idempotent(NormalizeDestination)
  {
    forall raw, channel | NormalizeDestination(raw, channel).Some?
      ensures NormalizeDestination(NormalizeDestination(raw, channel).value, channel) == NormalizeDestination(raw, channel)
    {
      NormalizeIsIdempotent(raw, channel);
    }
  }

  lemma {:induction false} RunKeepsCanonical(cfg: Settings, s: Store, ops: seq<Op>)
    requires Valid(cfg, s) && 0 < cfg.cooldown && Canonical(cfg, s) && Idempotent(cfg.normalize)
    ensures Valid(cfg, Run(cfg, s, ops)) && Canonical(cfg, Run(cfg, s, ops))
    decreases |ops|
  {
    if ops != [] {
      var op := ops[0];
      StepKeepsValid(cfg, s, op);
      match op {
        case Request(ask, now, otp) => RequestFrame(cfg, s, ask, now, otp);
        case Verify(_, _, _) =>
        case Resend(i, now, otp) =>
          if i in s.challenges {
            CancelKeepsValid(cfg, s, i);
            RequestFrame(cfg, Cancel(s, i), AskAgain(s.challenges[i]), now, otp);
          }
      }
      RunKeepsCanonical(cfg, Step(cfg, s, op), ops[1..]);
    }
  }

  /** In every run, resending cancels the old challenge if it is pending, and either is refused by the
      limits of the very same destination or creates a pending challenge for it. */
  lemma ResendKeepsDestination(cfg: Settings, ops: seq<Op>, id: nat, now: int, otp: string)
    requires 0 < cfg.cooldown && Idempotent(cfg.normalize) && id in Run(cfg, Start, ops).challenges
    ensures var s := Run(cfg, Start, ops);
            var (s', r) := ResendOtp(cfg, s, id, now, otp);
            && id in s'.challenges
            && s'.challenges[id] == (if s.challenges[id].status == Pending then s.challenges[id].(status := Cancelled) else s.challenges[id])
            && (Alive(s.db, Key("otp:cooldown", s.challenges[id].destination), now) ==> r.Failure? && r.error.Throttled?)
            && (r.Success? ==>
                  && r.value !in s.challenges && r.value in s'.challenges
                  && var c := s.challenges[id];
                     s'.challenges[r.value] == Challenge(
                       c.destination, c.channel, c.purpose, c.ip, c.userId, c.eventId, Hash(otp, r.value),
                       now + cfg.expiration, 0, cfg.maxAttempts, Pending, None))
  {
    RunKeepsCanonical(cfg, Start, ops);
    var s := Run(cfg, Start, ops);
    CancelKeepsValid(cfg, s, id);
    RequestFrame(cfg, Cancel(s, id), AskAgain(s.challenges[id]), now, otp);
  }
}
