/** Build sessions and the registry credential a build uses.

    A session registers one bridge under its id; a solve finds the bridge, claims it through an atomic
    flag, fixes its deadline, obtains a credential, exposes it on the bridge while the build runs and,
    in deferred steps, clears it, attempts to revoke it and releases the flag. Sessions and solves
    interleave freely; calls to the registry may fail with or without having taken effect. */
module BuildSessions {
  import opened Common

  type Identity = string
  type SessionId = string
  type BridgeId = nat
  type Solve = nat
  type User = string

  const LIFETIME := 3600
  const MINUTE := 60

  datatype Credential = Credential(user: User, owner: Identity, expiresAt: int)

  /** A bridge outlives its registration while solves still hold it. `claimed` is the `solving` flag,
      together with the solve that set it. */
  datatype Bridge = Bridge(id: Identity, open: bool, ready: bool, claimed: Option<Solve>, credential: Option<Credential>)

  datatype Pc =
    | Asking(id: Identity, session: SessionId)
    | Found(id: Identity, bridge: BridgeId)                                         // waiting until it is ready
    | Holding(id: Identity, bridge: BridgeId)                                       // from getBridge
    | Claimed(id: Identity, bridge: BridgeId)                                       // flag set
    | Timed(id: Identity, bridge: BridgeId, deadline: int)                          // deadline fixed
    | Issued(id: Identity, bridge: BridgeId, deadline: int, cred: Credential)
    | Exposed(id: Identity, bridge: BridgeId, deadline: int, cred: Credential)      // the build runs
    | Cleared(id: Identity, bridge: BridgeId, deadline: int, cred: Credential)
    | Finished(id: Identity, bridge: BridgeId)                                      // only the flag is left
    | Ended(id: Identity)

  /** `live` holds the credentials the registry would accept, with the solve they were issued to;
      `obtained` the credential each solve was given; `lost` those whose issue or revocation reported a
      failure; `attempted` the revocations tried. */
  datatype State = State(now: int, sessions: map<SessionId, BridgeId>, bridges: map<BridgeId, Bridge>,
                         solves: map<Solve, Pc>, live: map<User, Solve>, users: set<User>,
                         obtained: map<Solve, User>, lost: set<User>, attempted: set<User>)

  // ----- sessions

  ghost predicate Register(s: State, s': State, session: SessionId, id: Identity, b: BridgeId) {
    && session !in s.sessions && b !in s.bridges
    && s' == s.(sessions := s.sessions[session := b], bridges := s.bridges[b := Bridge(id, true, false, None, None)])
  }

  ghost predicate BecomeReady(s: State, s': State, b: BridgeId) {
    b in s.bridges && s' == s.(bridges := s.bridges[b := s.bridges[b].(ready := true)])
  }

  /** The connection ends: its context is cancelled, or its entry goes. */
  ghost predicate Disconnect(s: State, s': State, session: SessionId, b: BridgeId) {
    || (b in s.bridges && s' == s.(bridges := s.bridges[b := s.bridges[b].(open := false)]))
    || s' == s.(sessions := s.sessions - {session})
  }

  // ----- one solve

  function Goto(s: State, t: Solve, pc: Pc): State {
    s.(solves := s.solves[t := pc])
  }

  ghost predicate Begin(s: State, s': State, t: Solve, id: Identity, session: SessionId) {
    t !in s.solves && s' == Goto(s, t, Asking(id, session))
  }

  /** `getBridge` finds the bridge of its session ... */
  ghost predicate GetBridge(s: State, s': State, t: Solve) {
    && t in s.solves && s.solves[t].Asking?
    && var pc := s.solves[t];
       || s' == Goto(s, t, Ended(pc.id))
       || (pc.session in s.sessions && s.sessions[pc.session] in s.bridges &&
           var b := s.sessions[pc.session];
           s.bridges[b].id == pc.id && s' == Goto(s, t, Found(pc.id, b)))
  }

  /** ... and waits for it. Meanwhile the session may have gone from the map. */
  ghost predicate AwaitBridge(s: State, s': State, t: Solve) {
    && t in s.solves && s.solves[t].Found? && s.solves[t].bridge in s.bridges
    && var pc := s.solves[t];
       || s' == Goto(s, t, Ended(pc.id))
       || (s.bridges[pc.bridge].ready && s.bridges[pc.bridge].open && s' == Goto(s, t, Holding(pc.id, pc.bridge)))
  }

  ghost predicate Claim(s: State, s': State, t: Solve) {
    && t in s.solves && s.solves[t].Holding? && s.solves[t].bridge in s.bridges
    && var id, b := s.solves[t].id, s.solves[t].bridge;
       if s.bridges[b].claimed.None? then
         s' == Goto(s, t, Claimed(id, b)).(bridges := s.bridges[b := s.bridges[b].(claimed := Some(t))])
       else s' == Goto(s, t, Ended(id))
  }

  ghost predicate FixDeadline(s: State, s': State, t: Solve) {
    && t in s.solves && s.solves[t].Claimed?
    && s' == Goto(s, t, Timed(s.solves[t].id, s.solves[t].bridge, s.now + LIFETIME - MINUTE))
  }

  function WithCredential(s: State, t: Solve, user: User): State {
    s.(live := s.live[user := t], users := s.users + {user})
  }

  /** The registry makes a credential with a new user name ... */
  ghost predicate IssueCredential(s: State, s': State, t: Solve, user: User) {
    && t in s.solves && s.solves[t].Timed? && user !in s.users
    && var pc := s.solves[t];
       s' == Goto(WithCredential(s, t, user), t, Issued(pc.id, pc.bridge, pc.deadline, Credential(user, pc.id, s.now + LIFETIME)))
               .(obtained := s.obtained[t := user])
  }

  /** ... but its answer may be lost. */
  ghost predicate LoseCredential(s: State, s': State, t: Solve, user: User) {
    && t in s.solves && s.solves[t].Timed? && user !in s.users
    && s' == Goto(WithCredential(s, t, user), t, Finished(s.solves[t].id, s.solves[t].bridge)).(lost := s.lost + {user})
  }

  /** The build needs no credential, or was refused before one was made. */
  ghost predicate SkipCredential(s: State, s': State, t: Solve) {
    && t in s.solves && s.solves[t].Timed?
    && s' == Goto(s, t, Finished(s.solves[t].id, s.solves[t].bridge))
  }

  ghost predicate Expose(s: State, s': State, t: Solve) {
    && t in s.solves && s.solves[t].Issued? && s.solves[t].bridge in s.bridges
    && var pc := s.solves[t];
       s' == Goto(s, t, Exposed(pc.id, pc.bridge, pc.deadline, pc.cred))
               .(bridges := s.bridges[pc.bridge := s.bridges[pc.bridge].(credential := Some(pc.cred))])
  }

  ghost predicate Clear(s: State, s': State, t: Solve) {
    && t in s.solves && s.solves[t].Exposed? && s.solves[t].bridge in s.bridges
    && var pc := s.solves[t];
       s' == Goto(s, t, Cleared(pc.id, pc.bridge, pc.deadline, pc.cred))
               .(bridges := s.bridges[pc.bridge := s.bridges[pc.bridge].(credential := None)])
  }

  ghost predicate AttemptRevoke(s: State, s': State, t: Solve) {
    && t in s.solves && s.solves[t].Cleared?
    && var pc := s.solves[t];
       var tried := Goto(s, t, Finished(pc.id, pc.bridge)).(attempted := s.attempted + {pc.cred.user});
       || s' == tried.(live := s.live - {pc.cred.user})
       || s' == tried.(lost := s.lost + {pc.cred.user})
       || s' == tried.(live := s.live - {pc.cred.user}, lost := s.lost + {pc.cred.user})
  }

  ghost predicate ReleaseFlag(s: State, s': State, t: Solve) {
    && t in s.solves && s.solves[t].Finished? && s.solves[t].bridge in s.bridges
    && var pc := s.solves[t];
       s' == Goto(s, t, Ended(pc.id))
               .(bridges := s.bridges[pc.bridge := s.bridges[pc.bridge].(claimed := None)])
  }

  ghost predicate Elapse(s: State, s': State) {
    s.now <= s'.now && s' == s.(now := s'.now)
  }

  ghost predicate SolveStep(s: State, s': State, t: Solve) {
    || GetBridge(s, s', t) || AwaitBridge(s, s', t) || Claim(s, s', t) || FixDeadline(s, s', t) || SkipCredential(s, s', t)
    || (exists user :: IssueCredential(s, s', t, user) || LoseCredential(s, s', t, user))
    || Expose(s, s', t) || Clear(s, s', t) || AttemptRevoke(s, s', t) || ReleaseFlag(s, s', t)
  }

  ghost predicate Next(s: State, s': State) {
    || (exists session, id, b :: Register(s, s', session, id, b))
    || (exists b :: BecomeReady(s, s', b))
    || (exists session, b :: Disconnect(s, s', session, b))
    || (exists t, id, session :: Begin(s, s', t, id, session))
    || (exists t :: SolveStep(s, s', t))
    || Elapse(s, s')
  }

  ghost predicate Init(s: State) {
    && s.sessions == map[] && s.bridges == map[] && s.solves == map[] && s.live == map[] && s.users == {}
    && s.obtained == map[] && s.lost == {} && s.attempted == {}
  }

  ghost predicate Trace(tr: seq<State>) {
    |tr| > 0 && Init(tr[0]) && forall i :: 0 <= i < |tr| - 1 ==> Next(tr[i], tr[i + 1])
  }

  // ----- the invariant

  predicate HasBridge(pc: Pc) {
    !pc.Asking? && !pc.Ended?
  }

  predicate HasFlag(pc: Pc) {
    HasBridge(pc) && !pc.Found? && !pc.Holding?
  }

  predicate HasCredential(pc: Pc) {
    pc.Issued? || pc.Exposed? || pc.Cleared?
  }

  ghost predicate SolveOk(s: State, t: Solve, pc: Pc) {
    && (HasBridge(pc) ==> pc.bridge in s.bridges && s.bridges[pc.bridge].id == pc.id)
    && (HasFlag(pc) ==> s.bridges[pc.bridge].claimed == Some(t))
    && (pc.Timed? ==> pc.deadline <= s.now + LIFETIME - MINUTE)
    && (HasCredential(pc) ==> pc.cred.owner == pc.id && pc.deadline + MINUTE <= pc.cred.expiresAt && pc.cred.user in s.users)
    && (pc.Exposed? ==> s.bridges[pc.bridge].credential == Some(pc.cred))
    && (pc.Asking? || pc.Found? || pc.Holding? || pc.Claimed? || pc.Timed? ==> t !in s.obtained)
    && (HasCredential(pc) ==> t in s.obtained && s.obtained[t] == pc.cred.user)
    && (t in s.obtained && !HasCredential(pc) ==> s.obtained[t] in s.attempted)
  }

  /** The flag of a bridge is set by a solve that still has it, and its credential is that solve's. */
  ghost predicate BridgeOk(s: State, b: BridgeId, bridge: Bridge) {
    && (bridge.claimed.Some? ==>
          bridge.claimed.value in s.solves && HasFlag(s.solves[bridge.claimed.value]) && s.solves[bridge.claimed.value].bridge == b)
    && (bridge.credential.Some? ==> bridge.claimed.Some? && s.solves[bridge.claimed.value].Exposed?)
  }

  /** A credential the registry accepts belongs to a solve that still has to revoke it, or is lost. */
  ghost predicate LiveOk(s: State, user: User, t: Solve) {
    user in s.users && (user in s.lost || (t in s.solves && HasCredential(s.solves[t]) && s.solves[t].cred.user == user))
  }

  ghost predicate Inv(s: State) {
    && s.obtained.Keys <= s.solves.Keys
    && (forall t :: t in s.solves ==> SolveOk(s, t, s.solves[t]))
    && (forall b :: b in s.bridges ==> BridgeOk(s, b, s.bridges[b]))
    && (forall u :: u in s.live ==> LiveOk(s, u, s.live[u]))
  }

  lemma SessionKeeps(s: State, s': State, session: SessionId, id: Identity, b: BridgeId)
    requires Inv(s)
    requires Register(s, s', session, id, b) || BecomeReady(s, s', b) || Disconnect(s, s', session, b)
    ensures Inv(s')
  {
    BridgesMoved(s, s', session, id, b);
    forall t | t in s'.solves
      ensures SolveOk(s', t, s'.solves[t])
    {
      assert SolveOk(s, t, s.solves[t]);
    }
    forall c | c in s'.bridges
      ensures BridgeOk(s', c, s'.bridges[c])
    {
      if c in s.bridges { assert BridgeOk(s, c, s.bridges[c]); }
    }
    forall u | u in s'.live
      ensures LiveOk(s', u, s'.live[u])
    {
      assert LiveOk(s, u, s.live[u]);
    }
  }

  /** Sessions come and go without touching a claimed bridge's owner, flag or credential. */
  lemma BridgesMoved(s: State, s': State, session: SessionId, id: Identity, b: BridgeId)
    requires Register(s, s', session, id, b) || BecomeReady(s, s', b) || Disconnect(s, s', session, b)
    ensures s' == s.(sessions := s'.sessions, bridges := s'.bridges)
    ensures forall c :: c in s.bridges ==>
              c in s'.bridges &&
              s'.bridges[c] == s.bridges[c].(ready := s'.bridges[c].ready, open := s'.bridges[c].open)
    ensures forall c :: c in s'.bridges && c !in s.bridges ==> s'.bridges[c].claimed == None && s'.bridges[c].credential == None
  {
  }

  /** The shape of every step of a solve: it moves itself, and on its own bridge, once it has the flag
      or takes it, changes the flag and the credential. */
  ghost predicate Shape(s: State, s': State, t: Solve) {
    && t in s.solves && t in s'.solves && s'.solves == s.solves[t := s'.solves[t]]
    && s'.bridges.Keys == s.bridges.Keys && s'.now == s.now && s.users <= s'.users && s.lost <= s'.lost && s.attempted <= s'.attempted
    && (forall b :: b in s.bridges ==>
          s'.bridges[b].id == s.bridges[b].id &&
          (s'.bridges[b] == s.bridges[b] ||
           (HasBridge(s.solves[t]) && s.solves[t].bridge == b &&
            (s.bridges[b].claimed == None || s.bridges[b].claimed == Some(t)))))
    && (forall u :: u in s'.live && s'.live[u] != t ==> u in s.live && s'.live[u] == s.live[u])
    && (s'.obtained == s.obtained || (t in s'.obtained && s'.obtained == s.obtained[t := s'.obtained[t]]))
  }

  /** What a step leaves of its own: the solve itself, its bridge and the credentials it has. */
  ghost predicate Own(s: State, s': State, t: Solve)
    requires Shape(s, s', t)
  {
    && SolveOk(s', t, s'.solves[t])
    && (HasBridge(s.solves[t]) ==>
          s.solves[t].bridge in s'.bridges && BridgeOk(s', s.solves[t].bridge, s'.bridges[s.solves[t].bridge]))
    && (forall u :: u in s'.live && s'.live[u] == t ==> LiveOk(s', u, t))
  }

  ghost predicate OwnBefore(s: State, t: Solve) {
    && t in s.solves && SolveOk(s, t, s.solves[t])
    && (HasBridge(s.solves[t]) ==> BridgeOk(s, s.solves[t].bridge, s.bridges[s.solves[t].bridge]))
    && (forall u :: u in s.live ==> LiveOk(s, u, s.live[u]))
  }

  lemma GetOwn(s: State, s': State, t: Solve)
    requires OwnBefore(s, t) && GetBridge(s, s', t)
    ensures Shape(s, s', t) && Own(s, s', t)
  {
  }

  lemma AwaitOwn(s: State, s': State, t: Solve)
    requires OwnBefore(s, t) && AwaitBridge(s, s', t)
    ensures Shape(s, s', t) && Own(s, s', t)
  {
  }

  lemma ClaimOwn(s: State, s': State, t: Solve)
    requires OwnBefore(s, t) && Claim(s, s', t)
    ensures Shape(s, s', t) && Own(s, s', t)
  {
    var b := s.solves[t].bridge;
    if s.bridges[b].claimed.Some? {
      assert s'.bridges == s.bridges;
    } else {
      assert s'.solves[t] == Claimed(s.solves[t].id, b) && s'.bridges[b] == s.bridges[b].(claimed := Some(t));
    }
  }

  lemma QuietOwn(s: State, s': State, t: Solve)
    requires OwnBefore(s, t) && (FixDeadline(s, s', t) || SkipCredential(s, s', t))
    ensures Shape(s, s', t) && Own(s, s', t)
  {
  }

  lemma IssueOwn(s: State, s': State, t: Solve, user: User)
    requires OwnBefore(s, t) && IssueCredential(s, s', t, user)
    ensures Shape(s, s', t) && Own(s, s', t)
  {
  }

  lemma LoseOwn(s: State, s': State, t: Solve, user: User)
    requires OwnBefore(s, t) && LoseCredential(s, s', t, user)
    ensures Shape(s, s', t) && Own(s, s', t)
  {
  }

  lemma ExposeOwn(s: State, s': State, t: Solve)
    requires OwnBefore(s, t) && (Expose(s, s', t) || Clear(s, s', t))
    ensures Shape(s, s', t) && Own(s, s', t)
  {
  }

  lemma RevokeOwn(s: State, s': State, t: Solve)
    requires OwnBefore(s, t) && AttemptRevoke(s, s', t)
    ensures Shape(s, s', t) && Own(s, s', t)
  {
  }

  lemma ReleaseOwn(s: State, s': State, t: Solve)
    requires OwnBefore(s, t) && ReleaseFlag(s, s', t)
    ensures Shape(s, s', t) && Own(s, s', t)
  {
  }

  lemma StepOwn(s: State, s': State, t: Solve)
    requires OwnBefore(s, t) && SolveStep(s, s', t)
    ensures Shape(s, s', t) && Own(s, s', t)
  {
    if GetBridge(s, s', t) {
      GetOwn(s, s', t);
    } else if AwaitBridge(s, s', t) {
      AwaitOwn(s, s', t);
    } else if Claim(s, s', t) {
      ClaimOwn(s, s', t);
    } else if FixDeadline(s, s', t) || SkipCredential(s, s', t) {
      QuietOwn(s, s', t);
    } else if Expose(s, s', t) || Clear(s, s', t) {
      ExposeOwn(s, s', t);
    } else if AttemptRevoke(s, s', t) {
      RevokeOwn(s, s', t);
    } else if ReleaseFlag(s, s', t) {
      ReleaseOwn(s, s', t);
    } else if user :| IssueCredential(s, s', t, user) {
      IssueOwn(s, s', t, user);
    } else {
      var user :| LoseCredential(s, s', t, user);
      LoseOwn(s, s', t, user);
    }
  }

  lemma OtherSolve(s: State, s': State, t: Solve, o: Solve)
    requires Inv(s) && Shape(s, s', t) && o in s.solves && o != t
    ensures SolveOk(s', o, s'.solves[o])
  {
  }

  lemma OtherBridge(s: State, s': State, t: Solve, b: BridgeId)
    requires Inv(s) && Shape(s, s', t) && b in s.bridges && s'.bridges[b] == s.bridges[b] && s.bridges[b].claimed != Some(t)
    ensures BridgeOk(s', b, s'.bridges[b])
  {
  }

  lemma OtherLive(s: State, s': State, t: Solve, u: User)
    requires Inv(s) && Shape(s, s', t) && u in s'.live && s'.live[u] != t
    ensures LiveOk(s', u, s'.live[u])
  {
    assert LiveOk(s, u, s.live[u]);
  }

  /** A step that leaves its own in order leaves everything in order. */
  lemma ShapeKeeps(s: State, s': State, t: Solve)
    requires Inv(s) && Shape(s, s', t) && Own(s, s', t)
    ensures Inv(s')
  {
    forall o | o in s'.solves
      ensures SolveOk(s', o, s'.solves[o])
    {
      if o != t { OtherSolve(s, s', t, o); }
    }
    forall b | b in s'.bridges
      ensures BridgeOk(s', b, s'.bridges[b])
    {
      if !(HasBridge(s.solves[t]) && s.solves[t].bridge == b) {
        assert BridgeOk(s, b, s.bridges[b]) && SolveOk(s, t, s.solves[t]);
        OtherBridge(s, s', t, b);
      }
    }
    forall u | u in s'.live
      ensures LiveOk(s', u, s'.live[u])
    {
      if s'.live[u] != t { OtherLive(s, s', t, u); }
    }
  }

  lemma MayStep(s: State, t: Solve)
    requires Inv(s) && t in s.solves
    ensures OwnBefore(s, t)
  {
    assert SolveOk(s, t, s.solves[t]);
  }

  lemma SolveKeeps(s: State, s': State, t: Solve)
    requires Inv(s) && SolveStep(s, s', t)
    ensures Inv(s')
  {
    MayStep(s, t);
    StepOwn(s, s', t);
    ShapeKeeps(s, s', t);
  }

  lemma RestKeeps(s: State, s': State)
    requires Inv(s) && ((exists t, id, session :: Begin(s, s', t, id, session)) || Elapse(s, s'))
    ensures Inv(s')
  {
    forall t | t in s'.solves
      ensures SolveOk(s', t, s'.solves[t])
    {
      if t in s.solves { assert SolveOk(s, t, s.solves[t]); }
    }
    forall b | b in s'.bridges
      ensures BridgeOk(s', b, s'.bridges[b])
    {
      assert BridgeOk(s, b, s.bridges[b]);
    }
    forall u | u in s'.live
      ensures LiveOk(s', u, s'.live[u])
    {
      assert LiveOk(s, u, s.live[u]);
    }
  }

  lemma {:induction false} TraceKeeps(tr: seq<State>, i: nat)
    requires Trace(tr) && i < |tr|
    ensures Inv(tr[i])
  {
    if i > 0 {
      TraceKeeps(tr, i - 1);
      var s, s' := tr[i - 1], tr[i];
      assert Next(tr[i - 1], tr[i - 1 + 1]);
      if t :| SolveStep(s, s', t) {
        SolveKeeps(s, s', t);
      } else if session, id, b :| Register(s, s', session, id, b) {
        SessionKeeps(s, s', session, id, b);
      } else if b :| BecomeReady(s, s', b) {
        SessionKeeps(s, s', "", "", b);
      } else if session, b :| Disconnect(s, s', session, b) {
        SessionKeeps(s, s', session, "", b);
      } else {
        RestKeeps(s, s');
      }
    }
  }

  // ----- what is promised

  /** A credential shows on a bridge only while a solve of the bridge's own identity has the flag, and
      it is that solve's. */
  ghost predicate ExposedOnlyToOwner(s: State) {
    forall b :: b in s.bridges && s.bridges[b].credential.Some? ==>
      && s.bridges[b].claimed.Some? && s.bridges[b].claimed.value in s.solves
      && var pc := s.solves[s.bridges[b].claimed.value];
         pc.Exposed? && pc.bridge == b && s.bridges[b].credential == Some(pc.cred) && pc.cred.owner == pc.id == s.bridges[b].id
  }

  ghost predicate OneSolvePerBridge(s: State) {
    forall t, o :: (t in s.solves && o in s.solves && HasFlag(s.solves[t]) && HasFlag(s.solves[o]) &&
                    s.solves[t].bridge == s.solves[o].bridge) ==> t == o
  }

  /** A solve that was given a credential still has that one and the flag, or has tried to revoke it. */
  ghost predicate RevokedInTime(s: State, t: Solve)
    requires t in s.obtained
  {
    && t in s.solves
    && (s.obtained[t] in s.attempted ||
        (HasFlag(s.solves[t]) && HasCredential(s.solves[t]) && s.solves[t].cred.user == s.obtained[t]))
  }

  /** In every state of every interleaving of sessions and solves: credentials show only to their
      owner's running solve; one solve per bridge runs; a solve that has, or had, a credential ends
      before it expires at its deadline, and has cleared it and tried to revoke it before it gives the
      flag up; and a credential the registry still accepts belongs to a solve that has yet to revoke
      it, unless the registry reported a failure about it. */
  lemma SessionsSafe(tr: seq<State>, i: nat)
    requires Trace(tr) && i < |tr|
    ensures ExposedOnlyToOwner(tr[i]) && OneSolvePerBridge(tr[i])
    ensures forall t :: t in tr[i].solves && HasBridge(tr[i].solves[t]) ==>
              tr[i].solves[t].bridge in tr[i].bridges && tr[i].bridges[tr[i].solves[t].bridge].id == tr[i].solves[t].id
    ensures forall t :: t in tr[i].solves && HasCredential(tr[i].solves[t]) ==>
              tr[i].solves[t].deadline < tr[i].solves[t].cred.expiresAt
    ensures forall t :: t in tr[i].obtained ==> RevokedInTime(tr[i], t)
    ensures forall u :: u in tr[i].live ==> LiveOk(tr[i], u, tr[i].live[u])
  {
    TraceKeeps(tr, i);
    var s := tr[i];
    assert forall t :: t in s.solves ==> SolveOk(s, t, s.solves[t]);
    forall b | b in s.bridges && s.bridges[b].credential.Some?
      ensures s.bridges[b].claimed.Some? && s.bridges[b].claimed.value in s.solves
      ensures var pc := s.solves[s.bridges[b].claimed.value];
              pc.Exposed? && pc.bridge == b && s.bridges[b].credential == Some(pc.cred) && pc.cred.owner == pc.id == s.bridges[b].id
    {
      assert BridgeOk(s, b, s.bridges[b]);
      assert SolveOk(s, s.bridges[b].claimed.value, s.solves[s.bridges[b].claimed.value]);
    }
    forall t, o | t in s.solves && o in s.solves && HasFlag(s.solves[t]) && HasFlag(s.solves[o]) && s.solves[t].bridge == s.solves[o].bridge
      ensures t == o
    {
      assert SolveOk(s, t, s.solves[t]) && SolveOk(s, o, s.solves[o]);
    }
  }

  // ----- what a solve achieves when nothing comes in between

  ghost predicate Steps(tr: seq<State>) {
    |tr| > 0 && forall i :: 0 <= i < |tr| - 1 ==> Next(tr[i], tr[i + 1])
  }

  ghost predicate Reaches(s: State, s': State) {
    exists tr :: Steps(tr) && tr[0] == s && tr[|tr| - 1] == s'
  }

  lemma Stays(s: State)
    ensures Reaches(s, s)
  {
    assert Steps([s]);
  }

  lemma Goes(s: State, mid: State, s': State)
    requires Reaches(s, mid) && Next(mid, s')
    ensures Reaches(s, s')
  {
    var tr :| Steps(tr) && tr[0] == s && tr[|tr| - 1] == mid;
    var longer := tr + [s'];
    forall i | 0 <= i < |longer| - 1
      ensures Next(longer[i], longer[i + 1])
    {
      if i < |tr| - 1 { assert longer[i] == tr[i] && longer[i + 1] == tr[i + 1]; }
    }
    assert Steps(longer);
  }

  lemma Solves(s: State, mid: State, t: Solve, s': State)
    requires Reaches(s, mid) && SolveStep(mid, s', t)
    ensures Reaches(s, s')
  {
    Goes(s, mid, s');
  }

  /** A session that is connected, ready and has no build. */
  ghost predicate Available(s: State, session: SessionId, id: Identity, b: BridgeId) {
    && session in s.sessions && s.sessions[session] == b && b in s.bridges
    && s.bridges[b].id == id && s.bridges[b].ready && s.bridges[b].open && s.bridges[b].claimed == None
  }

  /** Whenever a session of its identity is available, a solve can get it, with a new credential that
      shows on its bridge, is good for an hour and outlasts the deadline by a minute. */
  lemma BuildGetsCredential(s: State, t: Solve, id: Identity, session: SessionId, b: BridgeId, user: User)
    requires Available(s, session, id, b) && t !in s.solves && user !in s.users
    ensures exists s' :: Reaches(s, s') && Building(s', t, id, b, s.now + 59 * 60, Credential(user, id, s.now + 60 * 60))
  {
    var s1 := BuildClaims(s, t, id, session, b);
    var timed := Goto(s1, t, Timed(id, b, s.now + LIFETIME - MINUTE));
    assert FixDeadline(s1, timed, t);
    Solves(s, s1, t, timed);
    var cred := Credential(user, id, s.now + LIFETIME);
    var issued := Goto(WithCredential(timed, t, user), t, Issued(id, b, s.now + LIFETIME - MINUTE, cred))
                    .(obtained := timed.obtained[t := user]);
    assert IssueCredential(timed, issued, t, user);
    Solves(s, timed, t, issued);
    var exposed := Goto(issued, t, Exposed(id, b, s.now + LIFETIME - MINUTE, cred))
                     .(bridges := issued.bridges[b := issued.bridges[b].(credential := Some(cred))]);
    assert Expose(issued, exposed, t);
    Solves(s, issued, t, exposed);
    assert Building(exposed, t, id, b, s.now + 59 * 60, cred);
  }

  ghost predicate Building(s: State, t: Solve, id: Identity, b: BridgeId, deadline: int, cred: Credential) {
    && t in s.solves && s.solves[t] == Exposed(id, b, deadline, cred)
    && b in s.bridges && s.bridges[b].credential == Some(cred) && s.bridges[b].claimed == Some(t)
    && cred.user in s.live && s.live[cred.user] == t
  }

  lemma BuildClaims(s: State, t: Solve, id: Identity, session: SessionId, b: BridgeId) returns (claimed: State)
    requires Available(s, session, id, b) && t !in s.solves
    ensures Reaches(s, claimed) && t in claimed.solves && claimed.solves[t] == Claimed(id, b)
    ensures claimed == s.(solves := claimed.solves, bridges := s.bridges[b := s.bridges[b].(claimed := Some(t))])
  {
    Stays(s);
    var asking := Goto(s, t, Asking(id, session));
    assert Begin(s, asking, t, id, session);
    Goes(s, s, asking);
    var found := Goto(asking, t, Found(id, b));
    assert GetBridge(asking, found, t);
    Solves(s, asking, t, found);
    var holding := Goto(found, t, Holding(id, b));
    assert AwaitBridge(found, holding, t);
    Solves(s, found, t, holding);
    claimed := Goto(holding, t, Claimed(id, b)).(bridges := s.bridges[b := s.bridges[b].(claimed := Some(t))]);
    assert Claim(holding, claimed, t);
    Solves(s, holding, t, claimed);
  }

  /** A build that has ended, with a registry that answers, leaves no credential and frees its bridge. */
  lemma BuildCleansUp(s: State, t: Solve, id: Identity, b: BridgeId, deadline: int, cred: Credential)
    requires Building(s, t, id, b, deadline, cred)
    ensures exists s' :: Reaches(s, s') && t in s'.solves && s'.solves[t] == Ended(id) && cred.user !in s'.live && s'.lost == s.lost &&
                         b in s'.bridges && s'.bridges[b].credential == None && s'.bridges[b].claimed == None
  {
    Stays(s);
    var cleared := Goto(s, t, Cleared(id, b, deadline, cred)).(bridges := s.bridges[b := s.bridges[b].(credential := None)]);
    assert Clear(s, cleared, t);
    Solves(s, s, t, cleared);
    var revoked := Goto(cleared, t, Finished(id, b)).(attempted := cleared.attempted + {cred.user}, live := cleared.live - {cred.user});
    assert AttemptRevoke(cleared, revoked, t);
    Solves(s, cleared, t, revoked);
    var ended := Goto(revoked, t, Ended(id)).(bridges := revoked.bridges[b := revoked.bridges[b].(claimed := None)]);
    assert ReleaseFlag(revoked, ended, t);
    Solves(s, revoked, t, ended);
  }

  /** A solve goes on only with the bridge of its own session and identity, once that is ready and while
      it is connected. */
  lemma OwnReadyBridge(tr: seq<State>, i: nat, t: Solve)
    requires Trace(tr) && i + 1 < |tr| && t in tr[i].solves
    ensures t in tr[i + 1].solves
    ensures tr[i].solves[t].Asking? && tr[i + 1].solves[t] != tr[i].solves[t] ==>
              tr[i + 1].solves[t].Ended? || (tr[i + 1].solves[t].Found? && IsBridgeOf(tr[i], tr[i].solves[t], tr[i + 1].solves[t].bridge))
    ensures tr[i].solves[t].Found? && tr[i + 1].solves[t] != tr[i].solves[t] ==>
              tr[i + 1].solves[t].Ended? || (tr[i + 1].solves[t].Holding? && IsReady(tr[i], tr[i].solves[t], tr[i + 1].solves[t].bridge))
  {
    TraceKeeps(tr, i);
    assert Next(tr[i], tr[i + 1]);
    NextWaiting(tr[i], tr[i + 1], t);
  }

  lemma NextWaiting(s: State, s': State, t: Solve)
    requires Inv(s) && Next(s, s') && t in s.solves
    ensures t in s'.solves
    ensures s'.solves[t] == s.solves[t] || SolveStep(s, s', t)
    ensures s'.solves[t] != s.solves[t] && s.solves[t].Asking? ==> GetBridge(s, s', t)
    ensures s'.solves[t] != s.solves[t] && s.solves[t].Found? ==> AwaitBridge(s, s', t)
  {
    if o :| SolveStep(s, s', o) {
      MayStep(s, o);
      StepOwn(s, s', o);
      if o == t { WaitingStep(s, s', t); }
    }
  }

  ghost predicate IsBridgeOf(s: State, pc: Pc, b: BridgeId)
    requires pc.Asking?
  {
    pc.session in s.sessions && s.sessions[pc.session] == b && b in s.bridges && s.bridges[b].id == pc.id
  }

  ghost predicate IsReady(s: State, pc: Pc, b: BridgeId)
    requires pc.Found?
  {
    pc.bridge == b && b in s.bridges && s.bridges[b].ready && s.bridges[b].open
  }

  lemma WaitingStep(s: State, s': State, t: Solve)
    requires SolveStep(s, s', t)
    ensures s.solves[t].Asking? ==> GetBridge(s, s', t)
    ensures s.solves[t].Found? ==> AwaitBridge(s, s', t)
  {
  }
}
