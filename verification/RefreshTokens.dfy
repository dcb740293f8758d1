/** Refresh-token rotation with reuse detection: backend/app/services/auth_service.py.

    A row of `refresh_tokens` is rotated by revoking it and pointing its `replacedBy`
    at the row that replaces it.  SHA-256 is modelled as injective, so a row stores
    the token itself where the program stores its hash. */
module RefreshTokens {
  import opened Counting
  import opened Wrappers

  datatype Row = Row(token: string, userId: nat, expiresAt: int,
                     revokedAt: Option<int>, replacedBy: Option<nat>)
  {
    predicate Active() { revokedAt.None? }
  }

  datatype User = User(suspended: bool, lastLoginAt: Option<int>)

  datatype Store = Store(rows: map<nat, Row>, nextId: nat, users: map<nat, User>, lifetime: int)

  datatype AuthError = Undecodable | UnknownToken | Reuse | Expired | Suspended | TokenCollision

  // ---------------------------------------------------------------- invariant

  /** A link leads from a revoked row to a strictly newer row of the same user. */
  ghost predicate LinkOk(s: Store, i: nat)
    requires i in s.rows
  {
    s.rows[i].replacedBy.Some? ==>
      var j := s.rows[i].replacedBy.value;
      i < j && j in s.rows && s.rows[j].userId == s.rows[i].userId && !s.rows[i].Active()
  }

  ghost predicate WellLinked(s: Store) {
    && 0 < s.nextId
    && forall i :: i in s.rows ==> 0 < i < s.nextId && LinkOk(s, i)
  }

  ghost predicate TokensUnique(rows: map<nat, Row>) {
    forall i, j :: i in rows && j in rows && rows[i].token == rows[j].token ==> i == j
  }

  ghost predicate PredecessorsUnique(rows: map<nat, Row>) {
    forall i, j :: (i in rows && j in rows && rows[i].replacedBy.Some? && rows[i].replacedBy == rows[j].replacedBy)
                   ==> i == j
  }

  ghost predicate Valid(s: Store) {
    WellLinked(s) && TokensUnique(s.rows) && PredecessorsUnique(s.rows)
  }

  // ------------------------------------------------------------------- chains

  /** The rows met by following `replacedBy` from `i`, `i` included. */
  ghost function Forward(s: Store, i: nat): (f: set<nat>)
    requires WellLinked(s) && i in s.rows
    ensures i in f && forall j :: j in f ==> i <= j && j in s.rows
    decreases s.nextId - i
  {
    {i} + match s.rows[i].replacedBy
          case None => {}
          case Some(j) => assert LinkOk(s, i); Forward(s, j)
  }

  /** The whole rotation chain of `i`: what it leads to and what leads to it. */
  ghost function Family(s: Store, i: nat): set<nat>
    requires WellLinked(s) && i in s.rows
  {
    set j | j in s.rows && (j in Forward(s, i) || i in Forward(s, j))
  }

  lemma {:induction false} ForwardIsTransitive(s: Store, i: nat, j: nat)
    requires WellLinked(s) && i in s.rows && j in Forward(s, i)
    ensures Forward(s, j) <= Forward(s, i)
    decreases s.nextId - i
  {
    if i != j {
      assert LinkOk(s, i);
      ForwardIsTransitive(s, s.rows[i].replacedBy.value, j);
    }
  }

  /** Two rows met from the same row lie on one line. */
  lemma {:induction false} ForwardIsLinear(s: Store, i: nat, j: nat, k: nat)
    requires WellLinked(s) && i in s.rows && j in Forward(s, i) && k in Forward(s, i)
    ensures k in Forward(s, j) || j in Forward(s, k)
    decreases s.nextId - i
  {
    if i != j && i != k {
      assert LinkOk(s, i);
      ForwardIsLinear(s, s.rows[i].replacedBy.value, j, k);
    }
  }

  lemma {:induction false} ForwardHasPredecessor(s: Store, i: nat, j: nat) returns (p: nat)
    requires WellLinked(s) && i in s.rows && j in Forward(s, i) && j != i
    ensures p in Forward(s, i) && s.rows[p].replacedBy == Some(j)
    decreases s.nextId - i
  {
    assert LinkOk(s, i);
    var n := s.rows[i].replacedBy.value;
    if n == j {
      p := i;
    } else {
      p := ForwardHasPredecessor(s, n, j);
    }
  }

  /** Two rows that lead to the same row lie on one line: chains never merge. */
  lemma {:induction false} BackwardIsLinear(s: Store, i: nat, j: nat, k: nat)
    requires Valid(s) && j in s.rows && k in s.rows && i in Forward(s, j) && i in Forward(s, k)
    ensures j in Forward(s, k) || k in Forward(s, j)
    decreases s.nextId - j
  {
    if i != j {
      assert LinkOk(s, j);
      var n := s.rows[j].replacedBy.value;
      BackwardIsLinear(s, i, n, k);
      if n in Forward(s, k) && n != k {
        var p := ForwardHasPredecessor(s, k, n);
        assert p == j;
      }
    }
  }

  lemma FamilyIsSymmetric(s: Store, i: nat, j: nat)
    requires Valid(s) && i in s.rows && j in Family(s, i)
    ensures i in Family(s, j)
  {
  }

  lemma FamilyIsTransitive(s: Store, i: nat, j: nat, k: nat)
    requires Valid(s) && i in s.rows && j in Family(s, i) && k in Family(s, j)
    ensures k in Family(s, i)
  {
    if j in Forward(s, i) {
      ForwardIsTransitive(s, i, j);
      if k !in Forward(s, j) {
        BackwardIsLinear(s, j, i, k);
      }
    } else if k in Forward(s, j) {
      ForwardIsLinear(s, j, i, k);
    } else {
      ForwardIsTransitive(s, k, j);
    }
  }

  /** The chains partition the rows. */
  lemma FamiliesPartition(s: Store, i: nat, j: nat)
    requires Valid(s) && i in s.rows && j in s.rows
    ensures j in Family(s, i) ==> Family(s, i) == Family(s, j)
    ensures j !in Family(s, i) ==> Family(s, i) !! Family(s, j)
  {
    if j in Family(s, i) {
      FamilyIsSymmetric(s, i, j);
      forall k | k in Family(s, i) ensures k in Family(s, j) { FamilyIsTransitive(s, j, i, k); }
      forall k | k in Family(s, j) ensures k in Family(s, i) { FamilyIsTransitive(s, i, j, k); }
    } else {
      forall k | k in Family(s, i) && k in Family(s, j) ensures false {
        FamilyIsSymmetric(s, j, k);
        FamilyIsTransitive(s, i, k, j);
      }
    }
  }

  /** A chain has at most one active row, and it is the row every other row leads to. */
  lemma ActiveRowIsTheOnlyTail(s: Store, i: nat, a: nat)
    requires Valid(s) && i in s.rows && a in Family(s, i) && s.rows[a].Active()
    ensures forall j :: j in Family(s, i) ==> a in Forward(s, j)
    ensures forall j :: j in Family(s, i) && s.rows[j].Active() ==> j == a
  {
    FamiliesPartition(s, i, a);
    assert LinkOk(s, a);
    assert Forward(s, a) == {a};
    forall j | j in Family(s, i) && s.rows[j].Active() ensures j == a {
      assert LinkOk(s, j);
      assert Forward(s, j) == {j};
    }
  }

  // ------------------------------------------------------------------- service

  ghost function Find(rows: map<nat, Row>, token: string): (r: Option<nat>)
    ensures r.Some? ==> r.value in rows && rows[r.value].token == token
    ensures r.None? ==> forall i :: i in rows ==> rows[i].token != token
  {
    if exists i :: i in rows && rows[i].token == token then
      var i :| i in rows && rows[i].token == token;
      Some(i)
    else None
  }

  function RevokeAll(rows: map<nat, Row>, ids: set<nat>, now: int): map<nat, Row> {
    map i | i in rows ::
      if i in ids && rows[i].Active() then rows[i].(revokedAt := Some(now)) else rows[i]
  }

  lemma RevokeAllAddsOne(rows: map<nat, Row>, ids: set<nat>, i: nat, now: int)
    requires i in rows
    ensures var m := RevokeAll(rows, ids, now);
            && m.Keys == rows.Keys
            && m[i].replacedBy == rows[i].replacedBy
            && RevokeAll(rows, ids + {i}, now)
               == if m[i].Active() then m[i := m[i].(revokedAt := Some(now))] else m
  {
  }

  ghost function Issue(s: Store, userId: nat, minted: string, now: int): (Store, Result<string, AuthError>)
    requires userId in s.users
  {
    if Find(s.rows, minted).Some? then (s, Failure(TokenCollision)) else
    (s.(rows := s.rows[s.nextId := Row(minted, userId, now + s.lifetime, None, None)],
        nextId := s.nextId + 1,
        users := s.users[userId := s.users[userId].(lastLoginAt := Some(now))]),
     Success(minted))
  }

  ghost function RefreshToken(s: Store, presented: string, decodes: bool, now: int, minted: string)
    : (Store, Result<string, AuthError>)
    requires Valid(s)
  {
    var found := Find(s.rows, presented);
    if !decodes then (s, Failure(Undecodable))
    else if found.None? then (s, Failure(UnknownToken))
    else
      var i := found.value;
      var row := s.rows[i];
      if !row.Active() then (s.(rows := RevokeAll(s.rows, Forward(s, i), now)), Failure(Reuse))
      else if now > row.expiresAt then (s, Failure(Expired))
      else if row.userId !in s.users || s.users[row.userId].suspended then (s, Failure(Suspended))
      else
        var (s', r) := Issue(s, row.userId, minted, now);
        if r.Failure? then (s', r) else
        (s'.(rows := s'.rows[i := row.(revokedAt := Some(now), replacedBy := Some(s.nextId))]), r)
  }

  ghost function RevokeOne(s: Store, presented: string, now: int): Store {
    var found := Find(s.rows, presented);
    if found.Some? then s.(rows := RevokeAll(s.rows, {found.value}, now)) else s
  }

  class AuthService {
    var rows: map<nat, Row>
    var nextId: nat
    var users: map<nat, User>
    const lifetime: int

    ghost function State(): Store
      reads this
    {
      Store(rows, nextId, users, lifetime)
    }

    constructor (lifetime: int)
      ensures State() == Store(map[], 1, map[], lifetime) && Valid(State())
    {
      this.lifetime := lifetime;
      rows, nextId, users := map[], 1, map[];
    }

    method FindByToken(token: string) returns (r: Option<nat>)
      requires TokensUnique(rows)
      ensures r == Find(rows, token)
    {
      if i :| i in rows && rows[i].token == token {
        r := Some(i);
      } else {
        r := None;
      }
    }

    method IssueTokenPair(userId: nat, minted: string, now: int) returns (r: Result<string, AuthError>)
      requires Valid(State()) && userId in users
      modifies this
      ensures (State(), r) == Issue(old(State()), userId, minted, now)
      ensures Valid(State())
    {
      IssueKeepsValid(State(), userId, minted, now);
      var clash := FindByToken(minted);
      if clash.Some? {
        return Failure(TokenCollision);
      }
      rows := rows[nextId := Row(minted, userId, now + lifetime, None, None)];
      nextId := nextId + 1;
      users := users[userId := users[userId].(lastLoginAt := Some(now))];
      r := Success(minted);
    }

    method Refresh(presented: string, decodes: bool, now: int, minted: string)
      returns (r: Result<string, AuthError>)
      requires Valid(State())
      modifies this
      ensures (State(), r) == RefreshToken(old(State()), presented, decodes, now, minted)
      ensures Valid(State())
    {
      StepKeepsValid(State(), Op.Refresh(presented, decodes, now, minted));
      if !decodes {
        return Failure(Undecodable);
      }
      var found := FindByToken(presented);
      if found.None? {
        return Failure(UnknownToken);
      }
      var row := rows[found.value];
      if row.revokedAt.Some? {
        RevokeChainForward(found.value, now);
        return Failure(Reuse);
      }
      if now > row.expiresAt {
        return Failure(Expired);
      }
      if row.userId !in users || users[row.userId].suspended {
        return Failure(Suspended);
      }
      r := IssueTokenPair(row.userId, minted, now);
      if r.Failure? {
        return;
      }
      var newRow := FindByToken(r.value);
      assert rows[old(nextId)].token == r.value;
      rows := rows[found.value := row.(revokedAt := Some(now), replacedBy := newRow)];
    }

    method Logout(presented: string, now: int)
      requires Valid(State())
      modifies this
      ensures State() == RevokeOne(old(State()), presented, now)
      ensures Valid(State())
    {
      StepKeepsValid(State(), Op.Logout(presented, now));
      var found := FindByToken(presented);
      if found.Some? && rows[found.value].revokedAt.None? {
        rows := rows[found.value := rows[found.value].(revokedAt := Some(now))];
      }
      assert found.Some? ==> rows == RevokeAll(old(rows), {found.value}, now);
    }

    /** The loop ends because every link leads to a newer row. */
    method RevokeChainForward(start: nat, now: int)
      requires Valid(State()) && start in rows
      modifies this`rows
      ensures rows == RevokeAll(old(rows), Forward(old(State()), start), now)
    {
      ghost var s := State();
      ghost var done: set<nat> := {};
      var current := Some(start);
      while current.Some?
        invariant current.Some? ==> current.value in s.rows
        invariant rows == RevokeAll(s.rows, done, now)
        invariant done + (if current.Some? then Forward(s, current.value) else {}) == Forward(s, start)
        decreases if current.Some? then s.nextId - current.value else -1
      {
        var id := current.value;
        assert LinkOk(s, id);
        RevokeAllAddsOne(s.rows, done, id, now);
        if rows[id].revokedAt.None? {
          rows := rows[id := rows[id].(revokedAt := Some(now))];
        }
        done := done + {id};
        var link := rows[id].replacedBy;
        assert link == s.rows[id].replacedBy;
        current := if link.Some? && link.value != 0 && link.value in rows then link else None;
      }
    }
  }

  // ---------------------------------------------------------------------- runs

  datatype Op =
    | Login(userId: nat, minted: string, now: int)
    | Refresh(presented: string, decodes: bool, now: int, minted: string)
    | Logout(presented: string, now: int)
    | SetUser(userId: nat, user: User)

  ghost function Step(s: Store, op: Op): Store
    requires Valid(s)
  {
    match op
    case Login(u, minted, now) => if u in s.users then Issue(s, u, minted, now).0 else s
    case Refresh(p, decodes, now, minted) => RefreshToken(s, p, decodes, now, minted).0
    case Logout(p, now) => RevokeOne(s, p, now)
    case SetUser(u, user) => s.(users := s.users[u := user])
  }

  ghost function Run(s: Store, ops: seq<Op>): (s': Store)
    requires Valid(s)
    ensures Valid(s') && Extends(s, s')
    decreases |ops|
  {
    if ops == [] then s else
    StepKeepsValid(s, ops[0]);
    StepExtends(s, ops[0]);
    var m := Step(s, ops[0]);
    var s' := Run(m, ops[1..]);
    ExtendsIsTransitive(s, m, s');
    s'
  }

  /** What any number of service calls may do to a row: nothing at all once it is revoked;
      otherwise at most revoke it, linking it only to a row that did not exist before. */
  ghost predicate RowExtends(s: Store, s': Store, i: nat)
    requires i in s.rows
  {
    && i in s'.rows
    && (s'.rows[i] == s.rows[i]
        || (s.rows[i].Active() && !s'.rows[i].Active()
            && s'.rows[i] == s.rows[i].(revokedAt := s'.rows[i].revokedAt, replacedBy := s'.rows[i].replacedBy)
            && (s'.rows[i].replacedBy.Some? ==> s.nextId <= s'.rows[i].replacedBy.value)))
  }

  ghost predicate Extends(s: Store, s': Store) {
    && s.nextId <= s'.nextId
    && (forall i :: i in s'.rows && i < s.nextId ==> i in s.rows)
    && (forall i :: i in s.rows ==> RowExtends(s, s', i))
  }

  lemma IssueKeepsValid(s: Store, userId: nat, minted: string, now: int)
    requires Valid(s) && userId in s.users
    ensures Valid(Issue(s, userId, minted, now).0)
  {
    var s' := Issue(s, userId, minted, now).0;
    forall i | i in s'.rows ensures 0 < i < s'.nextId && LinkOk(s', i) {
      if i in s.rows {
        assert LinkOk(s, i);
      }
    }
    assert forall i :: i in s.rows && s.rows[i].replacedBy.Some? ==> LinkOk(s, i);
  }

  lemma RevokeAllKeepsValid(s: Store, ids: set<nat>, now: int)
    requires Valid(s)
    ensures Valid(s.(rows := RevokeAll(s.rows, ids, now)))
  {
    var s' := s.(rows := RevokeAll(s.rows, ids, now));
    forall i | i in s'.rows ensures 0 < i < s'.nextId && LinkOk(s', i) {
      assert LinkOk(s, i);
    }
  }

  /** The store after `i` has been replaced by a newly issued row. */
  function Rotated(s: Store, i: nat, minted: string, now: int): Store
    requires i in s.rows && s.rows[i].userId in s.users
  {
    var row := s.rows[i];
    s.(rows := s.rows[s.nextId := Row(minted, row.userId, now + s.lifetime, None, None)]
                     [i := row.(revokedAt := Some(now), replacedBy := Some(s.nextId))],
       nextId := s.nextId + 1,
       users := s.users[row.userId := s.users[row.userId].(lastLoginAt := Some(now))])
  }

  lemma RotationKeepsValid(s: Store, i: nat, minted: string, now: int)
    requires Valid(s) && i in s.rows && s.rows[i].Active() && s.rows[i].userId in s.users
    requires forall k :: k in s.rows ==> s.rows[k].token != minted
    ensures Valid(Rotated(s, i, minted, now))
  {
    var s' := Rotated(s, i, minted, now);
    assert forall k :: k in s.rows ==> LinkOk(s, k);
    forall k | k in s'.rows ensures 0 < k < s'.nextId && LinkOk(s', k) {
    }
    RotationKeepsPredecessorsUnique(s, i, minted, now);
  }

  lemma RotationKeepsPredecessorsUnique(s: Store, i: nat, minted: string, now: int)
    requires Valid(s) && i in s.rows && s.rows[i].userId in s.users
    ensures PredecessorsUnique(Rotated(s, i, minted, now).rows)
  {
    var s' := Rotated(s, i, minted, now);
    forall k | k in s'.rows && k != i && s'.rows[k].replacedBy.Some?
      ensures k in s.rows && s'.rows[k] == s.rows[k] && s.rows[k].replacedBy.value < s.nextId
    {
      assert LinkOk(s, k);
    }
  }

  lemma StepKeepsValid(s: Store, op: Op)
    requires Valid(s)
    ensures Valid(Step(s, op))
  {
    match op
    case Login(u, minted, now) =>
      if u in s.users { IssueKeepsValid(s, u, minted, now); }
    case Refresh(p, decodes, now, minted) =>
      var found := Find(s.rows, p);
      var (s', r) := RefreshToken(s, p, decodes, now, minted);
      if found.Some? && decodes {
        var i := found.value;
        if !s.rows[i].Active() {
          RevokeAllKeepsValid(s, Forward(s, i), now);
        } else if r.Success? {
          RotationKeepsValid(s, i, minted, now);
        }
      }
    case Logout(p, now) =>
      if Find(s.rows, p).Some? { RevokeAllKeepsValid(s, {Find(s.rows, p).value}, now); }
    case SetUser(u, user) =>
      var s' := Step(s, op);
      forall i | i in s'.rows ensures 0 < i < s'.nextId && LinkOk(s', i) {
        assert LinkOk(s, i);
      }
  }

  lemma StepExtends(s: Store, op: Op)
    requires Valid(s)
    ensures Extends(s, Step(s, op))
  {
    var s' := Step(s, op);
    forall i | i in s.rows ensures RowExtends(s, s', i) {
      assert LinkOk(s, i);
    }
  }

  /** A call leaves alone every row its token does not lead to. */
  lemma OnlyForwardChanges(s: Store, op: Op, i: nat)
    requires Valid(s) && i in s.rows
    requires op.Refresh? || op.Logout? ==>
               var found := Find(s.rows, op.presented); found.None? || i !in Forward(s, found.value)
    ensures i in Step(s, op).rows && Step(s, op).rows[i] == s.rows[i]
  {
    if op.Refresh? || op.Logout? {
      var found := Find(s.rows, op.presented);
      assert found.Some? ==> found.value in Forward(s, found.value);
    }
  }

  lemma ExtendsIsTransitive(s: Store, m: Store, s': Store)
    requires Extends(s, m) && Extends(m, s')
    ensures Extends(s, s')
  {
    forall i | i in s.rows ensures RowExtends(s, s', i) {
      assert RowExtends(s, m, i) && RowExtends(m, s', i);
    }
  }

  /** A chain whose rows are all revoked is the same chain, row for row, after any further run. */
  lemma {:induction false} DeadForwardIsFrozen(s: Store, s': Store, i: nat)
    requires Valid(s) && Valid(s') && Extends(s, s') && i in s.rows
    requires forall j :: j in Forward(s, i) ==> !s.rows[j].Active()
    ensures i in s'.rows && Forward(s', i) == Forward(s, i)
    decreases s.nextId - i
  {
    assert RowExtends(s, s', i) && LinkOk(s, i);
    if s.rows[i].replacedBy.Some? {
      DeadForwardIsFrozen(s, s', s.rows[i].replacedBy.value);
    }
  }

  /** No old row acquires a new predecessor among the old rows. */
  lemma {:induction false} OldForwardIsKept(s: Store, s': Store, i: nat, j: nat)
    requires Valid(s) && Valid(s') && Extends(s, s') && i in s.rows && j in s.rows
    requires i in s'.rows
    ensures j in Forward(s', i) <==> j in Forward(s, i)
    decreases s.nextId - i
  {
    assert RowExtends(s, s', i) && LinkOk(s, i) && LinkOk(s', i);
    if s'.rows[i] == s.rows[i] {
      if s.rows[i].replacedBy.Some? {
        assert RowExtends(s, s', s.rows[i].replacedBy.value);
        OldForwardIsKept(s, s', s.rows[i].replacedBy.value, j);
      }
    } else {
      assert Forward(s, i) == {i};
      if s'.rows[i].replacedBy.Some? {
        assert forall k :: k in Forward(s', s'.rows[i].replacedBy.value) ==> s.nextId <= k;
      }
    }
  }

  lemma DeadFamilyIsFrozen(s: Store, s': Store, i: nat)
    requires Valid(s) && Valid(s') && Extends(s, s') && i in s.rows
    requires forall j :: j in Family(s, i) ==> !s.rows[j].Active()
    ensures i in s'.rows && Family(s', i) == Family(s, i)
    ensures forall j :: j in Family(s, i) ==> s'.rows[j] == s.rows[j]
  {
    DeadForwardIsFrozen(s, s', i);
    forall j ensures j in Family(s', i) <==> j in Family(s, i) {
      if j in s.rows {
        assert RowExtends(s, s', j);
        OldForwardIsKept(s, s', j, i);
      } else if j in s'.rows {
        assert s.nextId <= j;
      }
    }
    assert forall j :: j in Family(s, i) ==> RowExtends(s, s', j);
  }

  /** Presenting a revoked token revokes its whole chain, the rows before it included,
      although the loop only walks forward; no other row changes. */
  lemma ReuseRevokesWholeFamily(s: Store, i: nat, now: int, minted: string)
    requires Valid(s) && i in s.rows && !s.rows[i].Active()
    ensures var (s', r) := RefreshToken(s, s.rows[i].token, true, now, minted);
            && r == Failure(Reuse)
            && s'.rows.Keys == s.rows.Keys
            && (forall j :: j in Family(s, i) ==> !s'.rows[j].Active())
            && (forall j :: j in s.rows && (j !in Family(s, i) || !s.rows[j].Active()) ==> s'.rows[j] == s.rows[j])
  {
    forall j | j in Family(s, i) && j !in Forward(s, i) ensures !s.rows[j].Active() {
      assert LinkOk(s, j);
    }
  }

  /** Whether two old rows share a chain never changes. */
  lemma OldFamilyIsKept(s: Store, s': Store, i: nat, j: nat)
    requires Valid(s) && Valid(s') && Extends(s, s') && i in s.rows && j in s.rows
    ensures i in s'.rows && (j in Family(s', i) <==> j in Family(s, i))
  {
    assert RowExtends(s, s', i) && RowExtends(s, s', j);
    OldForwardIsKept(s, s', i, j);
    OldForwardIsKept(s, s', j, i);
  }

  lemma FamilyIsKept(s: Store, m: Store, i: nat)
    requires Valid(s) && Valid(m) && Extends(s, m) && m.rows.Keys == s.rows.Keys && i in s.rows
    ensures Family(m, i) == Family(s, i)
  {
    forall j | j in s.rows ensures j in Family(m, i) <==> j in Family(s, i) {
      OldFamilyIsKept(s, m, i, j);
    }
  }

  /** After a reuse the chain is dead for good: in every later state it has the same rows,
      all revoked, and every further attempt with any of its tokens is again refused. */
  lemma ReuseIsPermanent(s: Store, i: nat, now: int, minted: string, ops: seq<Op>, k: nat, later: int, other: string)
    requires Valid(s) && i in s.rows && !s.rows[i].Active() && k in Family(s, i)
    ensures Valid(RefreshToken(s, s.rows[i].token, true, now, minted).0)
    ensures var s' := Run(RefreshToken(s, s.rows[i].token, true, now, minted).0, ops);
            && i in s'.rows && Family(s', i) == Family(s, i)
            && (forall j :: j in Family(s, i) ==> !s'.rows[j].Active())
            && RefreshToken(s', s.rows[k].token, true, later, other).1 == Failure(Reuse)
  {
    var op := Refresh(s.rows[i].token, true, now, minted);
    StepKeepsValid(s, op);
    StepExtends(s, op);
    var m := Step(s, op);
    ReuseRevokesWholeFamily(s, i, now, minted);
    FamilyIsKept(s, m, i);
    var s' := Run(m, ops);
    DeadFamilyIsFrozen(m, s', i);
    assert RowExtends(s, m, k) && RowExtends(m, s', k);
    assert s'.rows[k].token == s.rows[k].token;
  }

  /** The times written by a reuse: every active row from the presented one on is revoked now. */
  lemma ReuseStampsRows(s: Store, i: nat, now: int, minted: string, j: nat)
    requires Valid(s) && i in s.rows && !s.rows[i].Active() && j in Family(s, i) && s.rows[j].Active()
    ensures var s' := RefreshToken(s, s.rows[i].token, true, now, minted).0;
            j in s'.rows && s'.rows[j] == s.rows[j].(revokedAt := Some(now))
  {
    ActiveRowIsTheOnlyTail(s, i, j);
    assert j in Forward(s, i);
  }

  // ------------------------------------------------------------- revoked rows and sessions over runs

  /** A revoked token is refused as reuse in every later state. */
  lemma RevokedIsRefusedForever(s: Store, i: nat, ops: seq<Op>, later: int, other: string)
    requires Valid(s) && i in s.rows && !s.rows[i].Active()
    ensures RefreshToken(Run(s, ops), s.rows[i].token, true, later, other).1 == Failure(Reuse)
  {
    var s' := Run(s, ops);
    assert RowExtends(s, s', i);
    assert Find(s'.rows, s.rows[i].token) == Some(i);
  }

  /** Logging out revokes the row that the token names, if it is active, and changes nothing else. */
  lemma LogoutRevokes(s: Store, token: string, now: int)
    requires Valid(s)
    ensures var s' := Step(s, Logout(token, now));
            && s'.rows.Keys == s.rows.Keys && s'.users == s.users && s'.nextId == s.nextId
            && (forall i :: i in s.rows && s.rows[i].token == token ==>
                  && !s'.rows[i].Active()
                  && (s.rows[i].Active() ==> s'.rows[i] == s.rows[i].(revokedAt := Some(now)))
                  && (!s.rows[i].Active() ==> s'.rows[i] == s.rows[i]))
            && (forall i :: i in s.rows && s.rows[i].token != token ==> s'.rows[i] == s.rows[i])
  {
  }

  /** After a logout, and whatever happens next, the token is refused as reuse. */
  lemma LogoutIsPermanent(s: Store, i: nat, now: int, ops: seq<Op>, later: int, other: string)
    requires Valid(s) && i in s.rows
    ensures Valid(Step(s, Logout(s.rows[i].token, now)))
    ensures RefreshToken(Run(Step(s, Logout(s.rows[i].token, now)), ops), s.rows[i].token, true, later, other).1 == Failure(Reuse)
  {
    var op := Op.Logout(s.rows[i].token, now);
    StepKeepsValid(s, op);
    LogoutRevokes(s, s.rows[i].token, now);
    assert Step(s, op).rows[i].token == s.rows[i].token;
    RevokedIsRefusedForever(Step(s, op), i, ops, later, other);
  }

  /** What a successful refresh writes. */
  lemma RotationWrites(s: Store, i: nat, now: int, minted: string)
    requires Valid(s) && i in s.rows && RefreshToken(s, s.rows[i].token, true, now, minted).1.Success?
    ensures var s', u := RefreshToken(s, s.rows[i].token, true, now, minted).0, s.rows[i].userId;
            && s.nextId in s'.rows && s'.rows[s.nextId] == Row(minted, u, now + s.lifetime, None, None)
            && i in s'.rows && s'.rows[i] == s.rows[i].(revokedAt := Some(now), replacedBy := Some(s.nextId))
            && u in s.users && s'.users == s.users[u := s.users[u].(lastLoginAt := Some(now))]
  {
    assert Find(s.rows, s.rows[i].token) == Some(i);
  }

  ghost predicate Unlinked(s: Store, i: nat) {
    i in s.rows && s.rows[i].Active() && forall j :: j in s.rows ==> s.rows[j].replacedBy != Some(i)
  }

  /** A row that no other row leads to is untouched as long as its own token is not presented. */
  lemma UnlinkedStep(s: Store, op: Op, i: nat)
    requires Valid(s) && Unlinked(s, i) && (op.Refresh? || op.Logout? ==> op.presented != s.rows[i].token)
    ensures Unlinked(Step(s, op), i) && Step(s, op).rows[i] == s.rows[i]
  {
    var s' := Step(s, op);
    if op.Refresh? || op.Logout? {
      var found := Find(s.rows, op.presented);
      if found.Some? && i in Forward(s, found.value) {
        var p := ForwardHasPredecessor(s, found.value, i);
      }
    }
    OnlyForwardChanges(s, op, i);
    StepExtends(s, op);
    forall j | j in s'.rows ensures s'.rows[j].replacedBy != Some(i) {
      assert j in s.rows ==> RowExtends(s, s', j);
    }
  }

  lemma {:induction false} UnlinkedRun(s: Store, ops: seq<Op>, i: nat)
    requires Valid(s) && Unlinked(s, i)
    requires forall op :: op in ops && (op.Refresh? || op.Logout?) ==> op.presented != s.rows[i].token
    ensures Unlinked(Run(s, ops), i) && Run(s, ops).rows[i] == s.rows[i]
    decreases |ops|
  {
    if ops != [] {
      assert ops[0] in ops;
      StepKeepsValid(s, ops[0]);
      UnlinkedStep(s, ops[0], i);
      UnlinkedRun(Step(s, ops[0]), ops[1..], i);
    }
  }

  lemma LoginIsUnlinked(s: Store, userId: nat, minted: string, now: int)
    requires Valid(s) && userId in s.users && forall i :: i in s.rows ==> s.rows[i].token != minted
    ensures Valid(Step(s, Login(userId, minted, now)))
    ensures var s' := Step(s, Login(userId, minted, now));
            && Unlinked(s', s.nextId) && s'.rows[s.nextId] == Row(minted, userId, now + s.lifetime, None, None)
            && (forall i :: i in s.rows ==> i in s'.rows && s'.rows[i] == s.rows[i])
  {
    StepKeepsValid(s, Login(userId, minted, now));
    forall i | i in s.rows ensures s.rows[i].replacedBy != Some(s.nextId) {
      assert LinkOk(s, i);
    }
  }

  /** A session lasts exactly its lifetime: whatever other tokens are presented in between, the token
      of a login can be refreshed at time t if and only if t is no later than login plus lifetime and
      the user is then in good standing. */
  lemma SessionLastsItsLifetime(s: Store, userId: nat, minted: string, now: int, ops: seq<Op>, t: int, other: string)
    requires Valid(s) && userId in s.users && forall i :: i in s.rows ==> s.rows[i].token != minted
    requires forall op :: op in ops && (op.Refresh? || op.Logout?) ==> op.presented != minted
    ensures Valid(Step(s, Login(userId, minted, now)))
    ensures var z := Run(Step(s, Login(userId, minted, now)), ops);
            (forall i :: i in z.rows ==> z.rows[i].token != other) ==>
              (RefreshToken(z, minted, true, t, other).1.Success?
               <==> t <= now + s.lifetime && userId in z.users && !z.users[userId].suspended)
  {
    LoginIsUnlinked(s, userId, minted, now);
    var s' := Step(s, Login(userId, minted, now));
    UnlinkedRun(s', ops, s.nextId);
    var z := Run(s', ops);
    if forall i :: i in z.rows ==> z.rows[i].token != other {
      RefreshSucceedsIff(z, minted, true, t, other);
      assert Exchangeable(z, s.nextId, t) <==> t <= now + s.lifetime && userId in z.users && !z.users[userId].suspended;
    }
  }

  /** A row whose token may be exchanged now. */
  ghost predicate Exchangeable(s: Store, i: nat, now: int) {
    && i in s.rows && s.rows[i].Active() && now <= s.rows[i].expiresAt
    && s.rows[i].userId in s.users && !s.users[s.rows[i].userId].suspended
  }

  /** A refresh succeeds exactly when the token names an active, unexpired row of a user in good
      standing; every other refresh but a reuse leaves the store unchanged. */
  lemma RefreshSucceedsIff(s: Store, presented: string, decodes: bool, now: int, minted: string)
    requires Valid(s) && forall i :: i in s.rows ==> s.rows[i].token != minted
    ensures var (s', r) := RefreshToken(s, presented, decodes, now, minted);
            && (r.Success? <==> decodes && exists i :: Exchangeable(s, i, now) && s.rows[i].token == presented)
            && (r == Failure(Reuse) <==> decodes && exists i :: i in s.rows && !s.rows[i].Active() && s.rows[i].token == presented)
            && (r.Failure? && r != Failure(Reuse) ==> s' == s)
  {
    var found := Find(s.rows, presented);
    if found.Some? {
      assert forall i :: i in s.rows && s.rows[i].token == presented ==> i == found.value;
      assert s.rows[found.value].token == presented;
    }
  }

  /** A successful rotation adds exactly the new row to the chain, and it is the active tail. */
  lemma RotationExtendsFamily(s: Store, i: nat, now: int, minted: string)
    requires Valid(s) && i in s.rows
    requires RefreshToken(s, s.rows[i].token, true, now, minted).1.Success?
    ensures var (s', r) := RefreshToken(s, s.rows[i].token, true, now, minted);
            && Valid(s')
            && s'.rows.Keys == s.rows.Keys + {s.nextId}
            && Family(s', s.nextId) == Family(s, i) + {s.nextId}
            && s'.rows[s.nextId].Active() && s'.rows[s.nextId].token == r.value == minted
            && !s'.rows[i].Active()
            && (forall j :: j in s.rows && j != i ==> s'.rows[j] == s.rows[j])
  {
    var op := Refresh(s.rows[i].token, true, now, minted);
    StepKeepsValid(s, op);
    StepExtends(s, op);
    var s' := Step(s, op);
    var n := s.nextId;
    assert Find(s.rows, s.rows[i].token) == Some(i);
    assert LinkOk(s, i) && Forward(s, i) == {i};
    assert Forward(s', n) == {n};
    assert Forward(s', i) == {i, n};
    FamiliesPartition(s', i, n);
    forall j ensures j in Family(s', i) <==> j in Family(s, i) + {n} {
      if j in s.rows {
        OldForwardIsKept(s, s', j, i);
      }
    }
  }

  /** Rotation never multiplies sessions: active rows are at most the initial ones plus the logins. */
  function Logins(ops: seq<Op>): nat {
    if ops == [] then 0 else (if ops[0].Login? then 1 else 0) + Logins(ops[1..])
  }

  ghost function ActiveRows(s: Store): set<nat> {
    set i | i in s.rows && s.rows[i].Active()
  }

  lemma NewActiveRows(s: Store, op: Op)
    requires Valid(s)
    ensures ActiveRows(Step(s, op)) <= ActiveRows(s) + {s.nextId}
    ensures s.nextId in ActiveRows(Step(s, op)) ==> op.Login? || op.Refresh?
    ensures s.nextId in ActiveRows(Step(s, op)) && op.Refresh? ==>
              var i := Find(s.rows, op.presented);
              i.Some? && i.value in ActiveRows(s) && i.value !in ActiveRows(Step(s, op))
  {
    StepExtends(s, op);
    var s' := Step(s, op);
    forall i | i in ActiveRows(s') && i != s.nextId ensures i in ActiveRows(s) {
      assert i in s.rows ==> RowExtends(s, s', i);
    }
  }

  lemma ActiveRowsStep(s: Store, op: Op)
    requires Valid(s)
    ensures |ActiveRows(Step(s, op))| <= |ActiveRows(s)| + (if op.Login? then 1 else 0)
  {
    NewActiveRows(s, op);
    var before, after := ActiveRows(s), ActiveRows(Step(s, op));
    if s.nextId !in after {
      SubsetIsNoLarger(after, before);
    } else if op.Login? {
      SubsetIsNoLarger(after, before + {s.nextId});
    } else {
      SubsetIsNoLarger(after, before - {Find(s.rows, op.presented).value} + {s.nextId});
    }
  }

  lemma {:induction false} ActiveSessionsAreBounded(s: Store, ops: seq<Op>)
    requires Valid(s)
    ensures |ActiveRows(Run(s, ops))| <= |ActiveRows(s)| + Logins(ops)
    decreases |ops|
  {
    if ops != [] {
      StepKeepsValid(s, ops[0]);
      ActiveRowsStep(s, ops[0]);
      ActiveSessionsAreBounded(Step(s, ops[0]), ops[1..]);
    }
  }
}
