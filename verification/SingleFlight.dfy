/** The browser client (frontend/src/lib/api-client.ts) composed with the rotating
    refresh-token server of RefreshTokens: a state machine over every interleaving of
    concurrent requests, network messages and server steps. */
module SingleFlight {
  import opened Wrappers
  import Tokens = RefreshTokens

  /** What a response's Set-Cookie header does to the refresh cookie. */
  datatype CookieChange = Keep | Clear | Put(token: string)

  /** Traffic of POST /auth/refresh; a request carries the cookie it was sent with. */
  datatype Message = Request(cookie: Option<string>) | Response(change: CookieChange, ok: bool)

  /** The module variable `refreshPromise`: settled means resolved but not yet reset by `finally`. */
  datatype Promise = Absent | InFlight | Settled(ok: bool)

  /** Where one call of `request` or `uploadFileWithProgress` stands. */
  datatype Phase = Fetching(authorized: bool) | Awaiting | Resuming(ok: bool) | Retrying | Finished

  datatype Caller = Caller(phase: Phase, fetches: nat)

  /** `wire` is the traffic the client waits for; `strays` are the cookies of requests whose fetch has
      rejected although they are still on their way to the server. */
  datatype World = World(server: Tokens.Store, cookie: Option<string>, promise: Promise,
                         wire: seq<Message>, strays: seq<Option<string>>, callers: map<nat, Caller>)

  datatype Event =
    | Start(c: nat, authorized: bool)          // a request begins with its first fetch
    | Bootstrap                                // refreshAccessToken called outside any request
    | Reply(c: nat, unauthorized: bool)        // the answer to a caller's fetch arrives
    | Handle(k: nat, decodes: bool, now: int, minted: string, clears: bool)
    | Receive(k: nat, whole: bool)             // the browser receives a refresh response, or only its headers
    | Drop(k: nat)                             // a refresh message is lost: fetch rejects
    | Abandon(k: nat)                          // fetch rejects, but the request will still reach the server
    | HandleStray(k: nat, decodes: bool, now: int, minted: string)
    | Finish                                   // `finally` resets refreshPromise
    | Resume(c: nat)                           // an awaiting caller continues
    | Elsewhere(op: Tokens.Op)                 // any server call not made by this client

  // ------------------------------------------------------------------ transitions

  function RefreshAccessToken(w: World): World {
    if w.promise.Absent? then w.(promise := InFlight, wire := w.wire + [Request(w.cookie)]) else w
  }

  function Without<T>(s: seq<T>, k: nat): seq<T>
    requires k < |s|
  {
    s[..k] + s[k + 1..]
  }

  ghost predicate Named(s: Tokens.Store, token: string, i: nat) {
    i in s.rows && s.rows[i].token == token
  }

  ghost predicate IsActive(s: Tokens.Store, token: string) {
    exists i :: Named(s, token, i) && s.rows[i].Active()
  }

  ghost predicate IsRevoked(s: Tokens.Store, token: string) {
    exists i :: Named(s, token, i) && !s.rows[i].Active()
  }

  /** The tokens this client holds: its cookie, and one being delivered to it. */
  ghost predicate Holds(w: World, token: string) {
    w.cookie == Some(token) || exists ok :: Response(Put(token), ok) in w.wire
  }

  /** A call by somebody else that presents no token of this client's own rotation chain. */
  ghost predicate Spares(w: World, op: Tokens.Op)
    requires Tokens.Valid(w.server)
  {
    op.Refresh? || op.Logout? ==>
      forall t, i, j :: Holds(w, t) && Named(w.server, t, i) && Named(w.server, op.presented, j)
                        ==> j !in Tokens.Family(w.server, i)
  }

  ghost predicate Enabled(w: World, e: Event)
    requires Tokens.Valid(w.server)
  {
    match e
    case Start(c, _) => c !in w.callers
    case Bootstrap => true
    case Reply(c, _) => c in w.callers && (w.callers[c].phase.Fetching? || w.callers[c].phase.Retrying?)
    case Handle(k, _, _, _, _) => k < |w.wire| && w.wire[k].Request?
    case Receive(k, _) => k < |w.wire| && w.wire[k].Response?
    case Drop(k) => k < |w.wire|
    case Abandon(k) => k < |w.wire| && w.wire[k].Request?
    case HandleStray(k, _, _, _) => k < |w.strays|
    case Finish => w.promise.Settled?
    case Resume(c) => c in w.callers && w.callers[c].phase.Resuming?
    case Elsewhere(op) => Spares(w, op)
  }

  /** What the server does with a refresh request. */
  ghost function Serve(s: Tokens.Store, cookie: Option<string>, decodes: bool, now: int, minted: string)
    : (r: (Tokens.Store, Result<string, Tokens.AuthError>))
    requires Tokens.Valid(s)
    ensures Tokens.Valid(r.0)
  {
    match cookie
    case None => (s, Failure(Tokens.UnknownToken))
    case Some(t) =>
      Tokens.StepKeepsValid(s, Tokens.Refresh(t, decodes, now, minted));
      Tokens.RefreshToken(s, t, decodes, now, minted)
  }

  /** A failure clears the cookie or leaves it, since the exception may drop the header. */
  function Answer(r: Result<string, Tokens.AuthError>, clears: bool): Message {
    match r
    case Success(t) => Response(Put(t), true)
    case Failure(_) => Response(if clears then Clear else Keep, false)
  }

  ghost function Next(w: World, e: Event): (w': World)
    requires Tokens.Valid(w.server) && Enabled(w, e)
    ensures Tokens.Valid(w'.server)
  {
    match e
    case Start(c, authorized) => w.(callers := w.callers[c := Caller(Fetching(authorized), 1)])
    case Bootstrap => RefreshAccessToken(w)
    case Reply(c, unauthorized) =>
      var caller := w.callers[c];
      if unauthorized && caller.phase == Fetching(true)
      then RefreshAccessToken(w.(callers := w.callers[c := caller.(phase := Awaiting)]))
      else w.(callers := w.callers[c := caller.(phase := Finished)])
    case Handle(k, decodes, now, minted, clears) =>
      var (s', r) := Serve(w.server, w.wire[k].cookie, decodes, now, minted);
      w.(server := s', wire := w.wire[k := Answer(r, clears)])
    case Receive(k, whole) =>
      var m := w.wire[k];
      w.(wire := Without(w.wire, k), promise := Settled(m.ok && whole),
         cookie := match m.change case Keep => w.cookie case Clear => None case Put(t) => Some(t))
    case Drop(k) => w.(wire := Without(w.wire, k), promise := Settled(false))
    case Abandon(k) =>
      w.(wire := Without(w.wire, k), promise := Settled(false), strays := w.strays + [w.wire[k].cookie])
    case HandleStray(k, decodes, now, minted) =>
      w.(server := Serve(w.server, w.strays[k], decodes, now, minted).0, strays := Without(w.strays, k))
    case Finish =>
      w.(promise := Absent,
         callers := map c | c in w.callers ::
           if w.callers[c].phase.Awaiting? then w.callers[c].(phase := Resuming(w.promise.ok)) else w.callers[c])
    case Resume(c) =>
      var caller := w.callers[c];
      w.(callers := w.callers[c := if caller.phase.ok then Caller(Retrying, caller.fetches + 1)
                                   else caller.(phase := Finished)])
    case Elsewhere(op) =>
      Tokens.StepKeepsValid(w.server, op);
      w.(server := Tokens.Step(w.server, op))
  }

  // ------------------------------------------------------------------- properties

  /** What the server answers to the request it handles in this step, if it handles one. */
  ghost function Outcome(w: World, e: Event): Option<Result<string, Tokens.AuthError>>
    requires Tokens.Valid(w.server) && Enabled(w, e)
  {
    match e
    case Handle(k, decodes, now, minted, _) => Some(Serve(w.server, w.wire[k].cookie, decodes, now, minted).1)
    case HandleStray(k, decodes, now, minted) => Some(Serve(w.server, w.strays[k], decodes, now, minted).1)
    case _ => None
  }

  /** The server treats this step as the reuse of a revoked token. */
  ghost predicate HitsReuse(w: World, e: Event)
    requires Tokens.Valid(w.server) && Enabled(w, e)
  {
    Outcome(w, e) == Some(Failure(Tokens.Reuse))
  }

  /** The server has rotated the token, but the answer that carries the new one is lost. */
  predicate LosesRotation(w: World, e: Event) {
    e.Drop? && e.k < |w.wire| && w.wire[e.k].Response? && w.wire[e.k].change.Put?
  }

  /** A request the client has given up on takes effect: it rotates its token or counts as reuse. */
  ghost predicate StrayTakesEffect(w: World, e: Event)
    requires Tokens.Valid(w.server) && Enabled(w, e)
  {
    e.HandleStray? && (Outcome(w, e).value.Success? || HitsReuse(w, e))
  }

  ghost predicate Harms(w: World, e: Event)
    requires Tokens.Valid(w.server) && Enabled(w, e)
  {
    LosesRotation(w, e) || StrayTakesEffect(w, e)
  }

  /** The token carried by the message on the wire, if it carries one. */
  function Incoming(w: World): Option<string> {
    if w.wire != [] && w.wire[0].Response? && w.wire[0].change.Put? then Some(w.wire[0].change.token) else None
  }

  /** The newest token meant for the client. */
  function Current(w: World): Option<string> {
    if Incoming(w).Some? then Incoming(w) else w.cookie
  }

  /** At most one refresh is in flight, exactly while the promise is pending; the token the
      client holds, or is about to receive, names an active row; while a new token is on its
      way the cookie still names the revoked row it replaces. */
  ghost predicate Sound(w: World) {
    && Tokens.Valid(w.server)
    && |w.wire| == (if w.promise.InFlight? then 1 else 0)
    && match Incoming(w)
       case None =>
         && (w.cookie.Some? ==> IsActive(w.server, w.cookie.value))
         && (w.wire != [] && w.wire[0].Request? ==> w.wire[0].cookie == w.cookie)
       case Some(t) =>
         && IsActive(w.server, t)
         && w.wire[0].ok
         && w.cookie.Some? && IsRevoked(w.server, w.cookie.value)
  }

  ghost predicate SameChain(s: Tokens.Store, t: string, u: string)
    requires Tokens.Valid(s)
  {
    exists i, j :: Named(s, t, i) && Named(s, u, j) && j in Tokens.Family(s, i)
  }

  /** Strays carry the client's cookie, or an older token of the same chain. */
  ghost predicate StraysOk(w: World)
    requires Tokens.Valid(w.server)
  {
    w.cookie.Some? ==>
      forall t :: Some(t) in w.strays ==>
        SameChain(w.server, Current(w).value, t) && (w.cookie == Some(t) || IsRevoked(w.server, t))
  }

  ghost predicate Safe(w: World) {
    Sound(w) && StraysOk(w)
  }

  ghost predicate OnlyRevoked(s: Tokens.Store, token: Option<string>) {
    token.Some? ==> IsRevoked(s, token.value)
  }

  /** Every token the client holds, sends or is about to receive is revoked. */
  ghost predicate Dead(w: World) {
    && Tokens.Valid(w.server)
    && OnlyRevoked(w.server, w.cookie)
    && (forall m :: m in w.wire ==> OnlyRevoked(w.server, TokenIn(m)))
  }

  function TokenIn(m: Message): Option<string> {
    match m
    case Request(cookie) => cookie
    case Response(Put(t), _) => Some(t)
    case Response(_, _) => None
  }

  /** One retry per request; a pending promise has a message on its way; nobody waits for a promise
      that is gone. */
  ghost predicate CallersOk(w: World) {
    && |w.wire| == (if w.promise.InFlight? then 1 else 0)
    && (forall c :: c in w.callers ==> CallerOk(w, w.callers[c]))
  }

  predicate CallerOk(w: World, caller: Caller) {
    && 1 <= caller.fetches <= 2
    && (caller.phase.Finished? || caller.phase.Retrying? || caller.fetches == 1)
    && (caller.phase.Awaiting? ==> !w.promise.Absent?)
  }

  // ---------------------------------------------------------------- what the server keeps

  lemma RevocationLasts(s: Tokens.Store, op: Tokens.Op, token: string)
    requires Tokens.Valid(s) && IsRevoked(s, token)
    ensures IsRevoked(Tokens.Step(s, op), token)
  {
    Tokens.StepExtends(s, op);
    var i :| Named(s, token, i) && !s.rows[i].Active();
    assert Tokens.RowExtends(s, Tokens.Step(s, op), i);
    assert Named(Tokens.Step(s, op), token, i);
  }

  lemma ChainLasts(s: Tokens.Store, op: Tokens.Op, t: string, u: string)
    requires Tokens.Valid(s) && SameChain(s, t, u)
    ensures Tokens.Valid(Tokens.Step(s, op)) && SameChain(Tokens.Step(s, op), t, u)
  {
    var s' := Tokens.Step(s, op);
    Tokens.StepKeepsValid(s, op);
    Tokens.StepExtends(s, op);
    var i, j :| Named(s, t, i) && Named(s, u, j) && j in Tokens.Family(s, i);
    assert Tokens.RowExtends(s, s', i) && Tokens.RowExtends(s, s', j);
    Tokens.OldFamilyIsKept(s, s', i, j);
    assert Named(s', t, i) && Named(s', u, j);
  }

  /** A rotation carries its chain over to the new token. */
  lemma RotationCarriesChain(s: Tokens.Store, t: string, decodes: bool, now: int, minted: string, u: string)
    requires Tokens.Valid(s) && SameChain(s, t, u) && Tokens.RefreshToken(s, t, decodes, now, minted).1.Success?
    ensures var s' := Serve(s, Some(t), decodes, now, minted).0; SameChain(s', minted, u)
  {
    var i, j :| Named(s, t, i) && Named(s, u, j) && j in Tokens.Family(s, i);
    var s' := Serve(s, Some(t), decodes, now, minted).0;
    Tokens.RotationExtendsFamily(s, i, now, minted);
    assert j in Tokens.Family(s', s.nextId);
    assert Named(s', minted, s.nextId) && Named(s', u, j);
  }

  /** Calls on other chains leave an active row active. */
  lemma OthersKeepActive(s: Tokens.Store, op: Tokens.Op, token: string)
    requires Tokens.Valid(s) && IsActive(s, token)
    requires op.Refresh? || op.Logout? ==>
               forall i, j :: Named(s, token, i) && Named(s, op.presented, j) ==> j !in Tokens.Family(s, i)
    ensures IsActive(Tokens.Step(s, op), token)
  {
    var i :| Named(s, token, i) && s.rows[i].Active();
    if op.Refresh? || op.Logout? {
      var found := Tokens.Find(s.rows, op.presented);
      assert found.Some? ==> Named(s, op.presented, found.value) && found.value !in Tokens.Family(s, i);
    }
    Tokens.OnlyForwardChanges(s, op, i);
    assert Named(Tokens.Step(s, op), token, i);
  }

  /** Presenting an active token never trips the reuse check; it either rotates it or leaves it active. */
  lemma ActiveTokenIsHonoured(s: Tokens.Store, token: string, decodes: bool, now: int, minted: string)
    requires Tokens.Valid(s) && IsActive(s, token)
    ensures var (s', r) := Serve(s, Some(token), decodes, now, minted);
            && r != Failure(Tokens.Reuse)
            && (r.Failure? ==> s' == s)
            && (r.Success? ==> r.value == minted && IsActive(s', minted) && IsRevoked(s', token))
  {
    var i :| Named(s, token, i) && s.rows[i].Active();
    var (s', r) := Serve(s, Some(token), decodes, now, minted);
    if r.Success? {
      assert Named(s', minted, s.nextId);
      assert Named(s', token, i);
    }
  }

  /** Presenting a revoked token is reuse whenever it decodes, and revokes every token of its chain. */
  lemma RevokedTokenKillsChain(s: Tokens.Store, token: string, decodes: bool, now: int, minted: string, u: string)
    requires Tokens.Valid(s) && IsRevoked(s, token)
    ensures var (s', r) := Serve(s, Some(token), decodes, now, minted);
            && r == Failure(if decodes then Tokens.Reuse else Tokens.Undecodable)
            && (!decodes ==> s' == s)
            && (decodes && SameChain(s, u, token) ==> IsRevoked(s', u))
  {
    var j :| Named(s, token, j) && !s.rows[j].Active();
    assert Tokens.Find(s.rows, token) == Some(j);
    if decodes && SameChain(s, u, token) {
      var i, k :| Named(s, u, i) && Named(s, token, k) && k in Tokens.Family(s, i);
      Tokens.FamilyIsSymmetric(s, i, j);
      Tokens.ReuseRevokesWholeFamily(s, j, now, minted);
      assert Named(Serve(s, Some(token), decodes, now, minted).0, u, i);
    }
  }

  lemma ActiveIsNotRevoked(s: Tokens.Store, token: string)
    requires Tokens.Valid(s)
    ensures !(IsActive(s, token) && IsRevoked(s, token))
  {
  }

  // ------------------------------------------------------------------- steps that keep Sound

  lemma SoundHandle(w: World, e: Event)
    requires Sound(w) && Enabled(w, e) && e.Handle?
    ensures !HitsReuse(w, e) && Sound(Next(w, e))
  {
    if w.cookie.Some? {
      ActiveTokenIsHonoured(w.server, w.cookie.value, e.decodes, e.now, e.minted);
    }
  }

  lemma SoundDelivery(w: World, e: Event)
    requires Sound(w) && Enabled(w, e) && (e.Receive? || e.Drop? || e.Abandon?) && !LosesRotation(w, e)
    ensures Sound(Next(w, e))
  {
    assert w.wire == [w.wire[e.k]];
    assert Next(w, e).wire == [];
  }

  /** A step of the server alone keeps the client sound if it keeps the client's tokens as they are. */
  lemma SoundUnderServerStep(w: World, s': Tokens.Store)
    requires Sound(w) && Tokens.Valid(s')
    requires forall t :: Holds(w, t) && IsActive(w.server, t) ==> IsActive(s', t)
    requires forall t :: IsRevoked(w.server, t) ==> IsRevoked(s', t)
    ensures Sound(w.(server := s'))
  {
    if Incoming(w).Some? {
      assert w.wire[0] == Response(Put(Incoming(w).value), true);
      assert w.wire[0] in w.wire;
    }
  }

  lemma SparedTokenStaysActive(w: World, op: Tokens.Op, token: string)
    requires Tokens.Valid(w.server) && Spares(w, op) && Holds(w, token) && IsActive(w.server, token)
    ensures IsActive(Tokens.Step(w.server, op), token)
  {
    OthersKeepActive(w.server, op, token);
  }

  lemma SoundElsewhere(w: World, op: Tokens.Op)
    requires Sound(w) && Spares(w, op)
    ensures Sound(Next(w, Elsewhere(op)))
  {
    var s' := Tokens.Step(w.server, op);
    Tokens.StepKeepsValid(w.server, op);
    forall t | Holds(w, t) && IsActive(w.server, t) ensures IsActive(s', t) {
      SparedTokenStaysActive(w, op, t);
    }
    forall t | IsRevoked(w.server, t) ensures IsRevoked(s', t) {
      RevocationLasts(w.server, op, t);
    }
    SoundUnderServerStep(w, s');
  }

  /** A stray without effect changes nothing on the server. */
  lemma IdleStray(w: World, e: Event)
    requires Sound(w) && Enabled(w, e) && e.HandleStray? && !StrayTakesEffect(w, e)
    ensures Next(w, e) == w.(strays := Without(w.strays, e.k))
  {
  }

  lemma SoundStep(w: World, e: Event)
    requires Sound(w) && Enabled(w, e) && !Harms(w, e)
    ensures Sound(Next(w, e)) && !HitsReuse(w, e)
  {
    match e
    case Handle(_, _, _, _, _) => SoundHandle(w, e);
    case Elsewhere(op) => SoundElsewhere(w, op);
    case Receive(_, _) => SoundDelivery(w, e);
    case Drop(_) => SoundDelivery(w, e);
    case Abandon(_) => SoundDelivery(w, e);
    case HandleStray(_, _, _, _) => IdleStray(w, e);
    case _ =>
  }

  // ----------------------------------------------------------------- steps that keep StraysOk

  lemma StraysFrame(w: World, w': World)
    requires Tokens.Valid(w.server) && StraysOk(w) && w'.server == w.server && w'.cookie == w.cookie && Current(w') == Current(w)
    requires forall t :: Some(t) in w'.strays ==> Some(t) in w.strays
    ensures StraysOk(w')
  {
  }

  lemma RotationCarriesStray(s: Tokens.Store, t: string, decodes: bool, now: int, minted: string, u: string)
    requires Tokens.Valid(s) && Tokens.RefreshToken(s, t, decodes, now, minted).1.Success?
    requires SameChain(s, t, u) && (u == t || IsRevoked(s, u))
    ensures var s' := Serve(s, Some(t), decodes, now, minted).0; SameChain(s', minted, u) && (u == t || IsRevoked(s', u))
  {
    RotationCarriesChain(s, t, decodes, now, minted, u);
    if u != t {
      RevocationLasts(s, Tokens.Refresh(t, decodes, now, minted), u);
    }
  }

  lemma StraysHandle(w: World, e: Event)
    requires Safe(w) && Enabled(w, e) && e.Handle?
    ensures StraysOk(Next(w, e))
  {
    var w' := Next(w, e);
    if w.cookie.Some? {
      var t := w.cookie.value;
      if Serve(w.server, w.cookie, e.decodes, e.now, e.minted).1.Success? {
        assert Current(w') == Some(e.minted);
        forall u | Some(u) in w.strays ensures SameChain(w'.server, e.minted, u) && (u == t || IsRevoked(w'.server, u)) {
          RotationCarriesStray(w.server, t, e.decodes, e.now, e.minted, u);
        }
      } else {
        ActiveTokenIsHonoured(w.server, t, e.decodes, e.now, e.minted);
        StraysFrame(w, w');
      }
    }
  }

  lemma StraysDelivery(w: World, e: Event)
    requires Safe(w) && Enabled(w, e) && (e.Receive? || e.Drop?) && !LosesRotation(w, e)
    ensures StraysOk(Next(w, e))
  {
    assert Next(w, e).wire == [];
  }

  lemma StraysAbandon(w: World, e: Event)
    requires Safe(w) && Enabled(w, e) && e.Abandon?
    ensures StraysOk(Next(w, e))
  {
    var w' := Next(w, e);
    assert w.wire == [w.wire[0]] && w'.wire == [];
    if w.cookie.Some? {
      var i :| Named(w.server, w.cookie.value, i) && w.server.rows[i].Active();
      assert SameChain(w.server, w.cookie.value, w.cookie.value);
    }
  }

  lemma StraysElsewhere(w: World, op: Tokens.Op)
    requires Safe(w) && Spares(w, op)
    ensures StraysOk(Next(w, Elsewhere(op)))
  {
    if w.cookie.Some? {
      forall t | Some(t) in w.strays ensures SameChain(Next(w, Elsewhere(op)).server, Current(w).value, t) {
        ChainLasts(w.server, op, Current(w).value, t);
      }
      forall t | IsRevoked(w.server, t) ensures IsRevoked(Tokens.Step(w.server, op), t) {
        RevocationLasts(w.server, op, t);
      }
    }
  }

  lemma StraysStep(w: World, e: Event)
    requires Safe(w) && Enabled(w, e) && !Harms(w, e)
    ensures StraysOk(Next(w, e))
  {
    match e
    case Handle(_, _, _, _, _) => StraysHandle(w, e);
    case Elsewhere(op) => StraysElsewhere(w, op);
    case Receive(_, _) => StraysDelivery(w, e);
    case Drop(_) => StraysDelivery(w, e);
    case Abandon(_) => StraysAbandon(w, e);
    case HandleStray(k, _, _, _) =>
      IdleStray(w, e);
      StraysFrame(w, Next(w, e));
    case _ => StraysFrame(w, Next(w, e));
  }

  // -------------------------------------------------------------------------- harmful steps

  lemma LostRotationIsFatal(w: World, e: Event)
    requires Sound(w) && Enabled(w, e) && LosesRotation(w, e)
    ensures Dead(Next(w, e))
  {
    assert w.wire == [w.wire[e.k]];
    assert Next(w, e).wire == [];
  }

  lemma DeadUnderServerStep(w: World, s': Tokens.Store, strays: seq<Option<string>>)
    requires Sound(w) && Tokens.Valid(s') && OnlyRevoked(s', Current(w))
    requires forall t :: IsRevoked(w.server, t) ==> IsRevoked(s', t)
    ensures Dead(w.(server := s', strays := strays))
  {
    assert w.wire != [] ==> w.wire == [w.wire[0]];
  }

  /** A stray with an active token carries the client's own cookie, and rotates it behind its back. */
  lemma ActiveStrayIsFatal(w: World, e: Event, t: string)
    requires Safe(w) && Enabled(w, e) && StrayTakesEffect(w, e) && w.cookie.Some?
    requires w.strays[e.k] == Some(t) && IsActive(w.server, t)
    ensures Dead(Next(w, e))
  {
    assert Some(t) in w.strays;
    StraysNameRows(w, t);
    ActiveIsNotRevoked(w.server, t);
    ActiveTokenIsHonoured(w.server, t, e.decodes, e.now, e.minted);
    RevokedStayRevoked(w, e);
    DeadUnderServerStep(w, Next(w, e).server, Next(w, e).strays);
  }

  /** A stray with a revoked token counts as reuse and revokes the client's current token. */
  lemma RevokedStrayIsFatal(w: World, e: Event, t: string)
    requires Safe(w) && Enabled(w, e) && StrayTakesEffect(w, e) && w.cookie.Some?
    requires w.strays[e.k] == Some(t) && IsRevoked(w.server, t)
    ensures Dead(Next(w, e))
  {
    assert Some(t) in w.strays;
    RevokedTokenKillsChain(w.server, t, e.decodes, e.now, e.minted, Current(w).value);
    RevokedStayRevoked(w, e);
    DeadUnderServerStep(w, Next(w, e).server, Next(w, e).strays);
  }

  lemma HarmIsFatal(w: World, e: Event)
    requires Safe(w) && Enabled(w, e) && Harms(w, e)
    ensures Dead(Next(w, e))
  {
    if LosesRotation(w, e) {
      LostRotationIsFatal(w, e);
    } else if w.cookie.Some? {
      var t := w.strays[e.k].value;
      assert w.strays[e.k] in w.strays;
      if IsActive(w.server, t) {
        ActiveStrayIsFatal(w, e, t);
      } else {
        RevokedStrayIsFatal(w, e, t);
      }
    }
  }

  /** From a safe state exactly the harmful steps end safety, and only they can trip reuse detection. */
  lemma SafeStep(w: World, e: Event)
    requires Safe(w) && Enabled(w, e)
    ensures !Harms(w, e) ==> Safe(Next(w, e)) && !HitsReuse(w, e)
    ensures Harms(w, e) ==> Dead(Next(w, e))
  {
    if Harms(w, e) {
      HarmIsFatal(w, e);
    } else {
      SoundStep(w, e);
      StraysStep(w, e);
    }
  }

  /** What an abandoned request does when it is handled after all: if its token has been rotated in
      the meantime it is reuse and kills the session; if not, it kills the session exactly when it
      is answered with a new token that nobody receives. */
  lemma AbandonedRequestDecides(w: World, e: Event, t: string)
    requires Safe(w) && Enabled(w, e) && e.HandleStray? && w.cookie.Some? && w.strays[e.k] == Some(t)
    ensures IsRevoked(w.server, t) || (IsActive(w.server, t) && w.cookie == Some(t))
    ensures IsRevoked(w.server, t) ==> (HitsReuse(w, e) <==> e.decodes)
    ensures IsActive(w.server, t) ==> !HitsReuse(w, e)
    ensures Dead(Next(w, e)) <==> HitsReuse(w, e) || Outcome(w, e).value.Success?
    ensures Safe(Next(w, e)) <==> !HitsReuse(w, e) && Outcome(w, e).value.Failure?
  {
    assert w.strays[e.k] in w.strays;
    SafeStep(w, e);
    if IsRevoked(w.server, t) {
      RevokedTokenKillsChain(w.server, t, e.decodes, e.now, e.minted, t);
    } else {
      assert w.cookie == Some(t) && IsActive(w.server, t) by { StraysNameRows(w, t); }
      ActiveTokenIsHonoured(w.server, t, e.decodes, e.now, e.minted);
    }
    SafeIsNotDead(Next(w, e));
  }

  lemma StraysNameRows(w: World, t: string)
    requires Safe(w) && w.cookie.Some? && Some(t) in w.strays
    ensures IsRevoked(w.server, t) || (w.cookie == Some(t) && IsActive(w.server, t))
  {
  }

  /** A client with a cookie is not both safe and dead. */
  lemma SafeIsNotDead(w: World)
    requires w.cookie.Some?
    ensures !(Safe(w) && Dead(w))
  {
    if Tokens.Valid(w.server) {
      ActiveIsNotRevoked(w.server, Current(w).value);
      assert w.wire != [] ==> w.wire[0] in w.wire;
    }
  }

  lemma RevokedStayRevoked(w: World, e: Event)
    requires Tokens.Valid(w.server) && Enabled(w, e)
    ensures forall t :: IsRevoked(w.server, t) ==> IsRevoked(Next(w, e).server, t)
  {
    forall t | IsRevoked(w.server, t) ensures IsRevoked(Next(w, e).server, t) {
      match e
      case Handle(k, decodes, now, minted, _) =>
        if w.wire[k].cookie.Some? {
          RevocationLasts(w.server, Tokens.Refresh(w.wire[k].cookie.value, decodes, now, minted), t);
        }
      case HandleStray(k, decodes, now, minted) =>
        if w.strays[k].Some? {
          RevocationLasts(w.server, Tokens.Refresh(w.strays[k].value, decodes, now, minted), t);
        }
      case Elsewhere(op) => RevocationLasts(w.server, op, t);
      case _ =>
    }
  }

  /** A message that is new on the wire carries no token, or the cookie. */
  lemma DeadMessages(w: World, e: Event, m: Message)
    requires Dead(w) && Enabled(w, e) && m in Next(w, e).wire
    ensures m in w.wire || TokenIn(m).None? || TokenIn(m) == w.cookie
  {
    if e.Handle? {
      assert w.wire[e.k] in w.wire;
      if w.wire[e.k].cookie.Some? {
        RevokedTokenKillsChain(w.server, w.wire[e.k].cookie.value, e.decodes, e.now, e.minted, "");
      }
    }
  }

  lemma DeadStep(w: World, e: Event)
    requires Dead(w) && Enabled(w, e)
    ensures Dead(Next(w, e))
  {
    var w' := Next(w, e);
    RevokedStayRevoked(w, e);
    forall m | m in w'.wire ensures OnlyRevoked(w'.server, TokenIn(m)) {
      DeadMessages(w, e, m);
    }
    if e.Receive? {
      assert w.wire[e.k] in w.wire;
    }
  }

  // ------------------------------------------------------------------------- runs

  ghost predicate Possible(w: World, es: seq<Event>)
    requires Tokens.Valid(w.server)
    decreases |es|
  {
    es == [] || (Enabled(w, es[0]) && Possible(Next(w, es[0]), es[1..]))
  }

  ghost function End(w: World, es: seq<Event>): (w': World)
    requires Tokens.Valid(w.server) && Possible(w, es)
    ensures Tokens.Valid(w'.server)
    decreases |es|
  {
    if es == [] then w else End(Next(w, es[0]), es[1..])
  }

  ghost predicate NeverHarms(w: World, es: seq<Event>)
    requires Tokens.Valid(w.server) && Possible(w, es)
    decreases |es|
  {
    es == [] || (!Harms(w, es[0]) && NeverHarms(Next(w, es[0]), es[1..]))
  }

  ghost predicate NeverLosesRotation(w: World, es: seq<Event>)
    requires Tokens.Valid(w.server) && Possible(w, es)
    decreases |es|
  {
    es == [] || (!LosesRotation(w, es[0]) && NeverLosesRotation(Next(w, es[0]), es[1..]))
  }

  predicate NeverAbandons(es: seq<Event>) {
    forall e :: e in es ==> !e.Abandon?
  }

  lemma {:induction false} DeadForever(w: World, es: seq<Event>)
    requires Dead(w) && Possible(w, es)
    ensures Dead(End(w, es))
    decreases |es|
  {
    if es != [] {
      DeadStep(w, es[0]);
      DeadForever(Next(w, es[0]), es[1..]);
    }
  }

  /** Every interleaving keeps the client safe exactly as long as no answer that carries a rotated
      token is lost and no abandoned request takes effect; from then on the client never again holds
      a token that is not revoked. */
  lemma {:induction false} SafeUntilHarmed(w: World, es: seq<Event>)
    requires Safe(w) && Possible(w, es)
    ensures NeverHarms(w, es) ==> Safe(End(w, es))
    ensures !NeverHarms(w, es) ==> Dead(End(w, es))
    decreases |es|
  {
    if es != [] {
      SafeStep(w, es[0]);
      if Harms(w, es[0]) {
        DeadForever(Next(w, es[0]), es[1..]);
      } else {
        SafeUntilHarmed(Next(w, es[0]), es[1..]);
      }
    }
  }

  lemma {:induction false} NothingAbandonedNothingStray(w: World, es: seq<Event>)
    requires Tokens.Valid(w.server) && Possible(w, es) && w.strays == []
    requires NeverAbandons(es) && NeverLosesRotation(w, es)
    ensures NeverHarms(w, es) && End(w, es).strays == []
    decreases |es|
  {
    if es != [] {
      assert es[0] in es;
      NothingAbandonedNothingStray(Next(w, es[0]), es[1..]);
    }
  }

  /** The composed guarantee: for any number of concurrent requests, in every interleaving in which
      no request to refresh is abandoned and no answer that rotates the token is lost, at most one
      refresh is in flight, an idle client's cookie names an active row, and no step trips reuse
      detection. */
  lemma SingleFlightIsSafe(w: World, es: seq<Event>, e: Event)
    requires Safe(w) && w.strays == [] && Possible(w, es) && NeverAbandons(es) && NeverLosesRotation(w, es)
    requires Enabled(End(w, es), e)
    ensures var w' := End(w, es);
            && |w'.wire| <= 1
            && (!w'.promise.InFlight? && w'.cookie.Some? ==> IsActive(w'.server, w'.cookie.value))
            && !HitsReuse(w', e)
  {
    NothingAbandonedNothingStray(w, es);
    SafeUntilHarmed(w, es);
    SafeStep(End(w, es), e);
  }

  /** After a harmful step, every refresh of this client that reaches the server is taken for reuse. */
  lemma HarmTripsReuse(w: World, es: seq<Event>, e: Event)
    requires Safe(w) && Possible(w, es) && !NeverHarms(w, es)
    requires Enabled(End(w, es), e) && e.Handle? && e.decodes && End(w, es).wire[e.k].cookie.Some?
    ensures HitsReuse(End(w, es), e)
  {
    SafeUntilHarmed(w, es);
    var w' := End(w, es);
    assert w'.wire[e.k] in w'.wire;
    RevokedTokenKillsChain(w'.server, w'.wire[e.k].cookie.value, e.decodes, e.now, e.minted, "");
  }

  /** Every request fetches at most twice, and whoever waits for a refresh waits for one that is on
      its way or over. */
  lemma {:induction false} RequestsRetryAtMostOnce(w: World, es: seq<Event>)
    requires Tokens.Valid(w.server) && CallersOk(w) && Possible(w, es)
    ensures CallersOk(End(w, es))
    decreases |es|
  {
    if es != [] {
      CallersStep(w, es[0]);
      RequestsRetryAtMostOnce(Next(w, es[0]), es[1..]);
    }
  }

  lemma CallersStep(w: World, e: Event)
    requires Tokens.Valid(w.server) && CallersOk(w) && Enabled(w, e)
    ensures CallersOk(Next(w, e))
  {
  }

  /** A refresh is asked for only when there is no promise, and with the client's cookie; a promise that
      has settled is shared by whoever comes until it is reset. */
  lemma PromiseIsShared(w: World, e: Event)
    requires Tokens.Valid(w.server) && CallersOk(w) && Enabled(w, e)
    ensures var w' := Next(w, e);
            && (|w'.wire| > |w.wire| ==> w.promise.Absent? && w'.promise.InFlight? && w'.wire == [Request(w.cookie)])
            && (w.promise.Settled? && !e.Finish? ==> w'.promise == w.promise && w'.wire == [])
            && (e.Finish? ==> w'.promise.Absent?)
  {
  }

  /** The answer to a fetch finishes the request, unless it is the refusal of a first, authorised
      fetch; nothing but that request and possibly the promise is affected. */
  lemma AnswerFinishes(w: World, c: nat, unauthorized: bool)
    requires Tokens.Valid(w.server) && Enabled(w, Reply(c, unauthorized))
    ensures var w', caller := Next(w, Reply(c, unauthorized)), w.callers[c];
            && c in w'.callers && w'.callers[c].fetches == caller.fetches
            && (w'.callers[c].phase.Finished? <==> !unauthorized || caller.phase.Retrying? || caller.phase == Fetching(false))
            && (w'.callers[c].phase.Finished? ==> w' == w.(callers := w'.callers))
            && (forall d :: d in w.callers && d != c ==> d in w'.callers && w'.callers[d] == w.callers[d])
  {
  }

  // ------------------------------------------------------------------- what a caller is told

  /** What a run shows one caller: whether the latest refresh to come to an end delivered a token,
      whether the refresh the caller waited for did, and whether its authorised fetch was refused. */
  datatype History = History(latest: Option<bool>, told: Option<bool>, refused: bool)

  ghost function Observe(h: History, w: World, e: Event, c: nat): History
    requires Tokens.Valid(w.server) && Enabled(w, e)
  {
    History(
      match e
      case Receive(k, whole) => Some(w.wire[k].change.Put? && whole)
      case Drop(_) => Some(false)
      case Abandon(_) => Some(false)
      case _ => h.latest,
      if e.Finish? && c in w.callers && w.callers[c].phase.Awaiting? then h.latest else h.told,
      h.refused || (e == Reply(c, true) && w.callers[c].phase == Fetching(true)))
  }

  ghost function Watch(h: History, w: World, es: seq<Event>, c: nat): History
    requires Tokens.Valid(w.server) && Possible(w, es)
    decreases |es|
  {
    if es == [] then h else Watch(Observe(h, w, es[0], c), Next(w, es[0]), es[1..], c)
  }

  /** Only answers with a token count as success; a settled promise repeats the latest outcome. */
  ghost predicate OutcomesMatch(w: World, h: History) {
    && (forall m :: m in w.wire && m.Response? ==> (m.ok <==> m.change.Put?))
    && (w.promise.Settled? ==> h.latest == Some(w.promise.ok))
  }

  /** The phase of a caller follows from what it has seen. */
  ghost predicate PhaseMatches(w: World, h: History, c: nat) {
    if c !in w.callers then h.told == None && !h.refused else
    match w.callers[c].phase
    case Fetching(_) => w.callers[c].fetches == 1 && h.told == None && !h.refused
    case Awaiting => w.callers[c].fetches == 1 && h.told == None && h.refused && !w.promise.Absent?
    case Resuming(ok) => w.callers[c].fetches == 1 && h.told == Some(ok) && h.refused
    case Retrying => w.callers[c].fetches == 2 && h.told == Some(true) && h.refused
    case Finished =>
      if h.refused then h.told == Some(w.callers[c].fetches == 2) && 1 <= w.callers[c].fetches <= 2
      else w.callers[c].fetches == 1 && h.told == None
  }

  lemma OutcomesStep(w: World, e: Event, h: History, c: nat)
    requires Tokens.Valid(w.server) && Enabled(w, e) && OutcomesMatch(w, h)
    ensures OutcomesMatch(Next(w, e), Observe(h, w, e, c))
  {
    var w' := Next(w, e);
    forall m | m in w'.wire && m.Response? ensures m.ok <==> m.change.Put? {
      if m !in w.wire && e.Handle? {
        assert m == w'.wire[e.k];
      }
    }
    if e.Receive? {
      assert w.wire[e.k] in w.wire;
    }
  }

  lemma PhaseStep(w: World, e: Event, h: History, c: nat)
    requires Tokens.Valid(w.server) && Enabled(w, e) && OutcomesMatch(w, h) && PhaseMatches(w, h, c)
    ensures PhaseMatches(Next(w, e), Observe(h, w, e, c), c)
  {
  }

  /** In every interleaving, a caller that begins in the run sends its request a second time if and
      only if its authorised fetch was refused and the refresh it then waited for delivered a token; a
      caller that is done after a refusal and one fetch was told that the refresh delivered none. */
  lemma {:induction false} RetriesIffTokenDelivered(w: World, es: seq<Event>, h: History, c: nat)
    requires Tokens.Valid(w.server) && Possible(w, es) && OutcomesMatch(w, h) && PhaseMatches(w, h, c)
    ensures var w', h' := End(w, es), Watch(h, w, es, c);
            && OutcomesMatch(w', h') && PhaseMatches(w', h', c)
            && (c in w'.callers && (w'.callers[c].phase.Retrying? || w'.callers[c].phase.Finished?) ==>
                  (w'.callers[c].fetches == 2 <==> h'.refused && h'.told == Some(true)))
            && (c in w'.callers && w'.callers[c].fetches == 2 ==> h'.refused && h'.told == Some(true))
            && (c in w'.callers && w'.callers[c] == Caller(Finished, 1) && h'.refused ==> h'.told == Some(false))
    decreases |es|
  {
    if es != [] {
      OutcomesStep(w, es[0], h, c);
      PhaseStep(w, es[0], h, c);
      RetriesIffTokenDelivered(Next(w, es[0]), es[1..], Observe(h, w, es[0], c), c);
    }
  }

  function Idle(server: Tokens.Store, cookie: Option<string>): World {
    World(server, cookie, Absent, [], [], map[])
  }

  /** Every run of a client begins safely: without a cookie, or with the one of a new login. */
  lemma ClientsBeginSafe(s: Tokens.Store, userId: nat, minted: string, now: int)
    requires Tokens.Valid(s) && userId in s.users
    ensures Safe(Idle(s, None)) && CallersOk(Idle(s, None))
    ensures var (s', r) := Tokens.Issue(s, userId, minted, now);
            r.Success? ==> Safe(Idle(s', Some(r.value))) && CallersOk(Idle(s', Some(r.value)))
  {
    Tokens.IssueKeepsValid(s, userId, minted, now);
    var (s', r) := Tokens.Issue(s, userId, minted, now);
    assert r.Success? ==> Named(s', minted, s.nextId);
  }

  // --------------------------------------------------------------------------- witnesses

  lemma OneMore(w: World, e: Event, es: seq<Event>)
    requires Tokens.Valid(w.server) && Enabled(w, e) && Possible(Next(w, e), es)
    ensures Possible(w, [e] + es) && End(w, [e] + es) == End(Next(w, e), es)
  {
    assert ([e] + es)[1..] == es;
  }

  /** The session behind a token can be renewed at `now` under a token not used before. */
  ghost predicate Renewable(s: Tokens.Store, token: string, now: int, minted: string)
    requires Tokens.Valid(s)
  {
    && (exists i :: Tokens.Exchangeable(s, i, now) && s.rows[i].token == token)
    && (forall j :: j in s.rows ==> s.rows[j].token != minted)
  }

  lemma RenewableIsRotated(s: Tokens.Store, token: string, now: int, minted: string)
    requires Tokens.Valid(s) && Renewable(s, token, now, minted)
    ensures Serve(s, Some(token), true, now, minted).1 == Success(minted)
  {
    Tokens.RefreshSucceedsIff(s, token, true, now, minted);
  }

  function Asked(w: World): World {
    w.(promise := InFlight, wire := [Request(w.cookie)])
  }

  /** The refresh of a safe idle client reaches the server and is answered with the next token. */
  lemma AskAndServe(w: World, now: int, minted: string, es: seq<Event>)
    requires Safe(w) && w.promise.Absent? && w.cookie.Some? && Renewable(w.server, w.cookie.value, now, minted)
    requires var s' := Serve(w.server, w.cookie, true, now, minted).0;
             Possible(w.(server := s', promise := InFlight, wire := [Response(Put(minted), true)]), es)
    ensures var s' := Serve(w.server, w.cookie, true, now, minted).0;
            var all := [Bootstrap] + ([Handle(0, true, now, minted, true)] + es);
            && Possible(w, all)
            && End(w, all) == End(w.(server := s', promise := InFlight, wire := [Response(Put(minted), true)]), es)
  {
    RenewableIsRotated(w.server, w.cookie.value, now, minted);
    var w1 := Asked(w);
    assert Next(w, Bootstrap) == w1;
    var e := Handle(0, true, now, minted, true);
    assert w1.wire[0 := Response(Put(minted), true)] == [Response(Put(minted), true)];
    OneMore(w1, e, es);
    OneMore(w, Bootstrap, [e] + es);
  }

  /** A safe, idle client whose session has not expired does get its token renewed. */
  lemma SafeClientRenews(w: World, now: int, minted: string)
    requires Safe(w) && w.promise.Absent? && w.cookie.Some? && Renewable(w.server, w.cookie.value, now, minted)
    ensures var es := Renewal(now, minted);
            && Possible(w, es) && Safe(End(w, es))
            && End(w, es) == w.(server := Serve(w.server, w.cookie, true, now, minted).0, cookie := Some(minted), callers := End(w, es).callers)
  {
    var s' := Serve(w.server, w.cookie, true, now, minted).0;
    var w2 := w.(server := s', promise := InFlight, wire := [Response(Put(minted), true)]);
    var w3 := w.(server := s', promise := Settled(true), cookie := Some(minted));
    assert Next(w2, Receive(0, true)) == w3;
    OneMore(w3, Finish, []);
    OneMore(w2, Receive(0, true), [Finish] + []);
    AskAndServe(w, now, minted, [Receive(0, true)] + ([Finish] + []));
    TamelyHarmless(w, Renewal(now, minted));
    SafeUntilHarmed(w, Renewal(now, minted));
  }

  function Renewal(now: int, minted: string): seq<Event> {
    [Bootstrap] + ([Handle(0, true, now, minted, true)] + ([Receive(0, true)] + ([Finish] + [])))
  }

  lemma {:induction false} TamelyHarmless(w: World, es: seq<Event>)
    requires Tokens.Valid(w.server) && Possible(w, es) && forall e :: e in es ==> !e.Drop? && !e.HandleStray?
    ensures NeverHarms(w, es)
    decreases |es|
  {
    if es != [] {
      assert es[0] in es;
      TamelyHarmless(Next(w, es[0]), es[1..]);
    }
  }

  function DropAndAsk(): seq<Event> {
    [Drop(0)] + ([Finish] + ([Bootstrap] + []))
  }

  lemma LoseAndAskAgain(w: World)
    requires Tokens.Valid(w.server) && w.promise.InFlight? && |w.wire| == 1
    ensures Possible(w, DropAndAsk())
    ensures End(w, DropAndAsk()) == w.(wire := [Request(w.cookie)], callers := End(w, DropAndAsk()).callers)
  {
    var w1 := w.(promise := Settled(false), wire := []);
    assert Next(w, Drop(0)) == w1;
    var w2 := Next(w1, Finish);
    OneMore(w2, Bootstrap, []);
    OneMore(w1, Finish, [Bootstrap] + []);
    OneMore(w, Drop(0), [Finish] + ([Bootstrap] + []));
  }

  lemma RevokedCookieTripsReuse(w: World, e: Event)
    requires Tokens.Valid(w.server) && w.cookie.Some? && IsRevoked(w.server, w.cookie.value)
    requires w.wire == [Request(w.cookie)] && e.Handle? && e.k == 0 && e.decodes
    ensures Enabled(w, e) && HitsReuse(w, e)
  {
    RevokedTokenKillsChain(w.server, w.cookie.value, e.decodes, e.now, e.minted, "");
  }

  /** A run that loses one rotation, from any safe idle client that could be renewed: when the client
      asks again, its session is killed. */
  lemma LostRotationTripsReuse(w: World, now: int, minted: string, later: int, other: string, clears: bool)
    requires Safe(w) && w.promise.Absent? && w.cookie.Some? && Renewable(w.server, w.cookie.value, now, minted)
    ensures var es := [Bootstrap] + ([Handle(0, true, now, minted, true)] + DropAndAsk());
            var e := Handle(0, true, later, other, clears);
            Possible(w, es) && Enabled(End(w, es), e) && HitsReuse(End(w, es), e)
  {
    var s' := Serve(w.server, w.cookie, true, now, minted).0;
    var w2 := w.(server := s', promise := InFlight, wire := [Response(Put(minted), true)]);
    LoseAndAskAgain(w2);
    AskAndServe(w, now, minted, DropAndAsk());
    RenewableIsRotated(w.server, w.cookie.value, now, minted);
    ActiveTokenIsHonoured(w.server, w.cookie.value, true, now, minted);
    RevokedCookieTripsReuse(End(w2, DropAndAsk()), Handle(0, true, later, other, clears));
  }

  function GivenUp(es: seq<Event>): seq<Event> {
    [Bootstrap] + ([Abandon(0)] + ([Finish] + es))
  }

  /** A client that gives up on a request is safe and idle again, with the request as a stray. */
  lemma GiveUp(w: World, es: seq<Event>) returns (v: World)
    requires Safe(w) && w.promise.Absent?
    ensures v == w.(strays := w.strays + [w.cookie], callers := v.callers) && Safe(v)
    ensures Possible(v, es) ==> Possible(w, GivenUp(es)) && End(w, GivenUp(es)) == End(v, es)
  {
    SafeStep(w, Bootstrap);
    var w1 := Asked(w);
    assert Next(w, Bootstrap) == w1;
    SafeStep(w1, Abandon(0));
    var w2 := w.(promise := Settled(false), strays := w.strays + [w.cookie]);
    assert Next(w1, Abandon(0)) == w2;
    SafeStep(w2, Finish);
    v := Next(w2, Finish);
    if Possible(v, es) {
      OneMore(w2, Finish, es);
      OneMore(w1, Abandon(0), [Finish] + es);
      OneMore(w, Bootstrap, [Abandon(0)] + ([Finish] + es));
    }
  }

  lemma OvertakenStrayTripsReuse(w: World, e: Event, t: string)
    requires Safe(w) && e.HandleStray? && e.k < |w.strays| && e.decodes
    requires w.strays[e.k] == Some(t) && w.cookie.Some? && w.cookie != Some(t)
    ensures Enabled(w, e) && HitsReuse(w, e) && Dead(Next(w, e))
  {
    AbandonedRequestDecides(w, e, t);
  }

  lemma RenewedIsOvertaking(w: World, now: int, minted: string, k: nat, later: int, other: string)
    requires Safe(w) && w.promise.Absent? && w.cookie.Some? && Renewable(w.server, w.cookie.value, now, minted)
    requires k < |w.strays| && w.strays[k] == w.cookie
    ensures var es, e := Renewal(now, minted), HandleStray(k, true, later, other);
            && Possible(w, es) && Safe(End(w, es)) && End(w, es).cookie == Some(minted)
            && Enabled(End(w, es), e) && HitsReuse(End(w, es), e) && Dead(Next(End(w, es), e))
  {
    SafeClientRenews(w, now, minted);
    assert w.cookie.value != minted;
    OvertakenStrayTripsReuse(End(w, Renewal(now, minted)), HandleStray(k, true, later, other), w.cookie.value);
  }

  lemma NothingDropped(now: int, minted: string)
    ensures forall e :: e in GivenUp(Renewal(now, minted)) ==> !e.Drop?
  {
  }

  /** A run that loses no answer, from any safe idle client that could be renewed: it gives up on one
      request, is renewed by the next, and the first, when it arrives, kills the session. */
  lemma AbandonedRequestTripsReuse(w: World, now: int, minted: string, later: int, other: string)
    requires Safe(w) && w.promise.Absent? && w.cookie.Some? && Renewable(w.server, w.cookie.value, now, minted)
    ensures var es, e := GivenUp(Renewal(now, minted)), HandleStray(|w.strays|, true, later, other);
            && Possible(w, es) && (forall d :: d in es ==> !d.Drop?)
            && Safe(End(w, es)) && End(w, es).cookie == Some(minted)
            && Enabled(End(w, es), e) && HitsReuse(End(w, es), e) && Dead(Next(End(w, es), e))
  {
    NothingDropped(now, minted);
    var es := Renewal(now, minted);
    var v := GiveUp(w, es);
    RenewedIsOvertaking(v, now, minted, |w.strays|, later, other);
    assert Possible(v, es) && End(w, GivenUp(es)) == End(v, es);
  }

  /** If the abandoned request arrives first, it takes the session along unnoticed. */
  lemma AbandonedRequestStealsRotation(w: World, now: int, minted: string)
    requires Safe(w) && w.promise.Absent? && w.cookie.Some? && Renewable(w.server, w.cookie.value, now, minted)
    ensures var es, e := GivenUp([]), HandleStray(|w.strays|, true, now, minted);
            && Possible(w, es) && Enabled(End(w, es), e) && !HitsReuse(End(w, es), e) && Dead(Next(End(w, es), e))
  {
    var v := GiveUp(w, []);
    var e := HandleStray(|w.strays|, true, now, minted);
    RenewableIsRotated(w.server, w.cookie.value, now, minted);
    AbandonedRequestDecides(v, e, w.cookie.value);
  }

  // A caller whose fetch is refused, from a safe idle client, in three runs.

  function Refused(c: nat, es: seq<Event>): seq<Event> {
    [Start(c, true)] + ([Reply(c, true)] + es)
  }

  function WithCaller(w: World, c: nat, caller: Caller): World {
    w.(callers := w.callers[c := caller])
  }

  lemma RefusedAsks(w: World, c: nat, es: seq<Event>)
    requires Safe(w) && w.promise.Absent? && c !in w.callers
    requires Possible(Asked(WithCaller(w, c, Caller(Awaiting, 1))), es)
    ensures Possible(w, Refused(c, es)) && End(w, Refused(c, es)) == End(Asked(WithCaller(w, c, Caller(Awaiting, 1))), es)
  {
    var w1 := WithCaller(w, c, Caller(Fetching(true), 1));
    assert Next(w, Start(c, true)) == w1;
    assert w1.callers[c := Caller(Awaiting, 1)] == w.callers[c := Caller(Awaiting, 1)];
    assert Next(w1, Reply(c, true)) == Asked(WithCaller(w, c, Caller(Awaiting, 1)));
    OneMore(w1, Reply(c, true), es);
    OneMore(w, Start(c, true), [Reply(c, true)] + es);
  }

  function Wake(c: nat): seq<Event> {
    [Finish] + ([Resume(c)] + [])
  }

  /** When the refresh has ended, the caller retries if it delivered a token and is done if not. */
  lemma WakesUp(w: World, c: nat, ok: bool)
    requires Tokens.Valid(w.server) && w.promise == Settled(ok) && c in w.callers && w.callers[c] == Caller(Awaiting, 1)
    ensures Possible(w, Wake(c))
    ensures var z := End(w, Wake(c));
            && c in z.callers && z.callers[c] == (if ok then Caller(Retrying, 2) else Caller(Finished, 1))
            && z.cookie == w.cookie && z.server == w.server && z.promise.Absent? && z.wire == w.wire
  {
    var w1 := Next(w, Finish);
    assert w1.callers[c] == Caller(Resuming(ok), 1);
    OneMore(w1, Resume(c), []);
    OneMore(w, Finish, [Resume(c)] + []);
  }

  /** The refresh delivers a token: the client holds it and the request is sent again. */
  lemma RefusedRequestIsRetried(w: World, c: nat, now: int, minted: string)
    requires Safe(w) && w.promise.Absent? && c !in w.callers
    requires w.cookie.Some? && Renewable(w.server, w.cookie.value, now, minted)
    ensures var es := Refused(c, [Handle(0, true, now, minted, true)] + ([Receive(0, true)] + Wake(c)));
            && Possible(w, es)
            && var z := End(w, es); c in z.callers && z.callers[c] == Caller(Retrying, 2) && z.cookie == Some(minted)
  {
    var v := WithCaller(w, c, Caller(Awaiting, 1));
    var w1 := Asked(v);
    var s' := Serve(w.server, w.cookie, true, now, minted).0;
    RenewableIsRotated(w.server, w.cookie.value, now, minted);
    var w2 := w1.(server := s', wire := [Response(Put(minted), true)]);
    assert Next(w1, Handle(0, true, now, minted, true)) == w2;
    var w3 := w2.(promise := Settled(true), cookie := Some(minted), wire := []);
    assert Next(w2, Receive(0, true)) == w3;
    WakesUp(w3, c, true);
    OneMore(w2, Receive(0, true), Wake(c));
    OneMore(w1, Handle(0, true, now, minted, true), [Receive(0, true)] + Wake(c));
    RefusedAsks(w, c, [Handle(0, true, now, minted, true)] + ([Receive(0, true)] + Wake(c)));
  }

  /** The refresh is lost: the request is not sent again. */
  lemma RefusedRequestGivesUpOnLoss(w: World, c: nat)
    requires Safe(w) && w.promise.Absent? && c !in w.callers
    ensures var es := Refused(c, [Drop(0)] + Wake(c));
            && Possible(w, es)
            && var z := End(w, es); c in z.callers && z.callers[c] == Caller(Finished, 1) && z.cookie == w.cookie
  {
    var w1 := Asked(WithCaller(w, c, Caller(Awaiting, 1)));
    var w2 := w1.(promise := Settled(false), wire := []);
    assert Next(w1, Drop(0)) == w2;
    WakesUp(w2, c, false);
    OneMore(w1, Drop(0), Wake(c));
    RefusedAsks(w, c, [Drop(0)] + Wake(c));
  }

  /** The refresh is refused: the request is not sent again, and the cookie is cleared if the answer says so. */
  lemma RefusedRequestGivesUpOnFailure(w: World, c: nat, decodes: bool, now: int, minted: string, clears: bool)
    requires Safe(w) && w.promise.Absent? && c !in w.callers && Serve(w.server, w.cookie, decodes, now, minted).1.Failure?
    ensures var es := Refused(c, [Handle(0, decodes, now, minted, clears)] + ([Receive(0, true)] + Wake(c)));
            && Possible(w, es)
            && var z := End(w, es); c in z.callers && z.callers[c] == Caller(Finished, 1) && z.cookie == if clears then None else w.cookie
  {
    var w1 := Asked(WithCaller(w, c, Caller(Awaiting, 1)));
    var s' := Serve(w.server, w.cookie, decodes, now, minted).0;
    var e := Handle(0, decodes, now, minted, clears);
    var w2 := w1.(server := s', wire := [Response(if clears then Clear else Keep, false)]);
    assert Next(w1, e) == w2;
    var w3 := w2.(promise := Settled(false), cookie := if clears then None else w.cookie, wire := []);
    assert Next(w2, Receive(0, true)) == w3;
    WakesUp(w3, c, false);
    OneMore(w2, Receive(0, true), Wake(c));
    OneMore(w1, e, [Receive(0, true)] + Wake(c));
    RefusedAsks(w, c, [e] + ([Receive(0, true)] + Wake(c)));
  }
}
