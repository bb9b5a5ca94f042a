/** Docker names of the containers of one namespace, as one server manages them.

    Creation, rename, alias changes and the last part of removal run under one name mutex; rename,
    alias changes and removal also hold the lock of their container. Each API call is a step, other
    threads move between any two of them, any call may fail, and Kubernetes ends one-shot
    containers, finishes deletions and collects Services whose owner is gone whenever it likes. */
module ContainerNames {
  import opened Common
  import opened AliasServices

  /** `Creating` until creation has reported success, `Removing` once a deletion was accepted. */
  datatype Life = Creating | Live | Removing

  datatype Container = Container(w: Workload, life: Life)

  datatype Namespace = Namespace(containers: map<Uid, Container>, services: Services)

  type Thread = nat

  /** Where a thread is. The workload in a program counter is the thread's own copy, read when it
      took the container's lock. */
  datatype Pc =
    | Idle
    | Locked(w: Workload)
    // under the name mutex
    | RenameNames(w: Workload, to: Name)                  // no other container has the name
    | RenameReady(w: Workload, to: Name)                  // nor has another workload its Service
    | RenameServed(w: Workload, to: Name, created: bool)  // the Service of the new name is there
    | RenameUndo(w: Workload, to: Name)                   // the new name was not written
    | Reconcile(w: Workload)                              // adjusting Services to the current name
    | CreateNames(name: Name)
    | CreateReady(name: Name)
    | CreateWorkload(w: Workload)
    | CreateServed(w: Workload)
    | RemoveServices(w: Workload)
    // deletion accepted, waiting for the container to stop
    | RemoveStarted(w: Workload)

  predicate HasMutex(pc: Pc) {
    !pc.Idle? && !pc.Locked? && !pc.RemoveStarted?
  }

  /** The container whose lock the thread holds; creation holds none. */
  function LockOf(pc: Pc): Option<Uid> {
    if pc.Idle? || pc.CreateNames? || pc.CreateReady? || pc.CreateWorkload? || pc.CreateServed? then None else Some(pc.w.uid)
  }

  datatype State = State(ns: Namespace, threads: map<Thread, Pc>, used: set<Uid>)

  // ----- the steps

  ghost predicate NameFree(ns: Namespace, name: Name, except: Option<Uid>) {
    forall u :: u in ns.containers && Some(u) != except ==> ns.containers[u].w.dockerName != name
  }

  ghost predicate RenameMove(n: Naming, a: Namespace, pc: Pc, b: Namespace, pc': Pc) {
    match pc
    case Locked(w) => b == a && pc'.RenameNames? && pc'.w == w && NameFree(a, pc'.to, Some(w.uid))
    case RenameNames(w, to) =>
      b == a && pc' == RenameReady(w, to) &&
      (n.ServiceName(to) in a.services ==> Owns(w, a.services[n.ServiceName(to)]))
    case RenameReady(w, to) =>
      var key := n.ServiceName(to);
      if key in a.services then b == a && pc' == RenameServed(w, to, false) && Owns(w, a.services[key])
      else exists s :: Owns(w, s) && b == a.(services := a.services[key := s]) && pc' == RenameServed(w, to, true)
    case RenameServed(w, to, created) =>
      || (&& w.uid in a.containers && a.containers[w.uid].w.dockerName == w.dockerName
          && b == a.(containers := a.containers[w.uid := Container(w.(dockerName := to), a.containers[w.uid].life)])
          && pc' == Reconcile(w.(dockerName := to)))
      || (created && b == a && pc' == RenameUndo(w, to))
    case RenameUndo(w, to) =>
      var key := n.ServiceName(to);
      && key in a.services && Owns(w, a.services[key])
      && b == a.(services := a.services - {key}) && pc' == Idle
    case _ => false
  }

  /** Connecting, disconnecting and starting reconcile aliases; so does a rename after the switch,
      which also marks the primary Service and removes stale ones. */
  ghost predicate ReconcileMove(n: Naming, a: Namespace, pc: Pc, b: Namespace, pc': Pc) {
    match pc
    case Locked(w) => b == a && pc' == Reconcile(w)
    case Reconcile(w) =>
      && pc' == pc && b == a.(services := b.services)
      && ReconcileStep(n, w, a.services, b.services)
    case _ => false
  }

  ghost predicate CreateMove(n: Naming, a: Namespace, pc: Pc, b: Namespace, pc': Pc) {
    match pc
    case Idle => b == a && pc'.CreateNames? && NameFree(a, pc'.name, None)
    case CreateNames(name) => b == a && pc' == CreateReady(name) && n.ServiceName(name) !in a.services
    case CreateReady(name) =>
      && pc'.CreateWorkload? && pc'.w.dockerName == name
      && b == a.(containers := a.containers[pc'.w.uid := Container(pc'.w, Creating)])
    case CreateWorkload(w) =>
      || (exists s :: Owns(w, s) && w.Primary(n) !in a.services && pc' == CreateServed(w) &&
            b == a.(services := a.services[w.Primary(n) := s]))
      || (pc' == Idle && b == Deleting(a, w.uid))
    case CreateServed(w) =>
      // the published ports get a Service of their own; failing that, the primary one goes by name
      || (exists key, s :: Owns(w, s) && key !in a.services && pc' == pc && b == a.(services := a.services[key := s]))
      || (pc' == CreateWorkload(w) && b == a.(services := a.services - {w.Primary(n)}))
      || (pc' == Idle && b == Deleting(a, w.uid))
      || (pc' == Idle && b == Finished(a, w.uid))
    case _ => false
  }

  ghost predicate RemoveMove(n: Naming, a: Namespace, pc: Pc, b: Namespace, pc': Pc) {
    match pc
    case Locked(w) => pc' == RemoveStarted(w) && b == Deleting(a, w.uid)
    case RemoveStarted(w) => b == a && pc' == RemoveServices(w)
    case RemoveServices(w) =>
      pc' == pc && exists key :: key in a.services && Owns(w, a.services[key]) && b == a.(services := a.services - {key})
    case _ => false
  }

  function Deleting(a: Namespace, u: Uid): Namespace {
    if u in a.containers then a.(containers := a.containers[u := a.containers[u].(life := Removing)]) else a
  }

  function Finished(a: Namespace, u: Uid): Namespace {
    if u in a.containers && a.containers[u].life == Creating
    then a.(containers := a.containers[u := a.containers[u].(life := Live)]) else a
  }

  /** Any operation may end early, at a call that failed, at a refused check or at its end. */
  ghost predicate Leave(a: Namespace, b: Namespace, pc': Pc) {
    b == a && pc' == Idle
  }

  /** Taking a container's lock reads the container under the lock. */
  ghost predicate Lock(a: Namespace, pc: Pc, b: Namespace, pc': Pc) {
    pc == Idle && b == a && pc'.Locked? && pc'.w.uid in a.containers && a.containers[pc'.w.uid].w == pc'.w
  }

  ghost predicate Move(n: Naming, a: Namespace, pc: Pc, b: Namespace, pc': Pc) {
    || RenameMove(n, a, pc, b, pc') || ReconcileMove(n, a, pc, b, pc') || CreateMove(n, a, pc, b, pc')
    || RemoveMove(n, a, pc, b, pc') || Leave(a, b, pc') || Lock(a, pc, b, pc')
  }

  /** The mutex and the container locks admit one thread each; a new workload gets a new UID. */
  ghost predicate ThreadStep(n: Naming, s: State, s': State, t: Thread) {
    && t in s.threads && t in s'.threads && s'.threads == s.threads[t := s'.threads[t]]
    && Move(n, s.ns, s.threads[t], s'.ns, s'.threads[t])
    && (HasMutex(s'.threads[t]) ==> forall o :: o in s.threads && o != t ==> !HasMutex(s.threads[o]))
    && (LockOf(s'.threads[t]).Some? ==>
          forall o :: o in s.threads && o != t ==> LockOf(s.threads[o]) != LockOf(s'.threads[t]))
    && (s.threads[t].CreateReady? && s'.threads[t].CreateWorkload? ==> s'.threads[t].w.uid !in s.used)
    && s'.used == s.used + if s'.threads[t].CreateWorkload? then {s'.threads[t].w.uid} else {}
  }

  /** Kubernetes: containers start or finish being removed, Services without an owner are collected. */
  ghost predicate Shrinks(a: Namespace, b: Namespace) {
    && b.containers.Keys <= a.containers.Keys
    && (forall u :: u in b.containers ==> b.containers[u].w == a.containers[u].w &&
                                          (b.containers[u].life == a.containers[u].life || b.containers[u].life == Removing))
    && b.services.Keys <= a.services.Keys
    && (forall key :: key in b.services ==> b.services[key] == a.services[key])
    && (forall key :: key in a.services && a.services[key].owner.Some? && a.services[key].owner.value.uid in b.containers ==>
                      key in b.services)
  }

  ghost predicate Next(n: Naming, s: State, s': State) {
    || (exists t :: ThreadStep(n, s, s', t))
    || (s' == s.(ns := s'.ns) && Shrinks(s.ns, s'.ns))
  }

  // ----- what is promised

  ghost predicate NamesDistinct(ns: Namespace) {
    forall u, v :: u in ns.containers && v in ns.containers && u != v ==>
      ns.containers[u].w.dockerName != ns.containers[v].w.dockerName
  }

  ghost predicate Served(n: Naming, ns: Namespace, w: Workload) {
    w.Primary(n) in ns.services && Owns(w, ns.services[w.Primary(n)])
  }

  ghost predicate LiveServed(n: Naming, ns: Namespace) {
    forall u :: u in ns.containers && ns.containers[u].life == Live ==> Served(n, ns, ns.containers[u].w)
  }

  ghost predicate Good(n: Naming, ns: Namespace) {
    && NamesDistinct(ns) && LiveServed(n, ns)
    && forall u :: u in ns.containers ==> ns.containers[u].w.uid == u
  }

  // ----- what each thread may rely on

  ghost predicate Current(ns: Namespace, w: Workload) {
    w.uid in ns.containers ==> ns.containers[w.uid].w == w
  }

  ghost predicate ThreadOk(n: Naming, ns: Namespace, pc: Pc) {
    match pc
    case Idle => true
    case Locked(w) => Current(ns, w)
    case RenameNames(w, to) => Current(ns, w) && NameFree(ns, to, Some(w.uid))
    case RenameReady(w, to) => Current(ns, w) && NameFree(ns, to, Some(w.uid))
    case RenameServed(w, to, created) =>
      && Current(ns, w) && NameFree(ns, to, Some(w.uid))
      && (w.uid in ns.containers ==> Served(n, ns, w.(dockerName := to)))
      && (created ==> OldNameKept(n, ns, w, to))
    case RenameUndo(w, to) => Current(ns, w) && OldNameKept(n, ns, w, to)
    case Reconcile(w) => Current(ns, w)
    case CreateNames(name) => NameFree(ns, name, None)
    case CreateReady(name) => NameFree(ns, name, None)
    case CreateWorkload(w) => Current(ns, w) && NotLive(ns, w)
    case CreateServed(w) =>
      && Current(ns, w) && NotLive(ns, w)
      && (w.uid in ns.containers ==> Served(n, ns, w))
      && (w.Primary(n) in ns.services ==> Owns(w, ns.services[w.Primary(n)]))
    case RemoveStarted(w) => Current(ns, w) && Going(ns, w)
    case RemoveServices(w) => Current(ns, w) && Going(ns, w)
  }

  ghost predicate NotLive(ns: Namespace, w: Workload) {
    w.uid in ns.containers ==> ns.containers[w.uid].life != Live
  }

  ghost predicate Going(ns: Namespace, w: Workload) {
    w.uid in ns.containers ==> ns.containers[w.uid].life == Removing
  }

  /** Deleting the Service of the new name does not take the one of the old name away. */
  ghost predicate OldNameKept(n: Naming, ns: Namespace, w: Workload, to: Name) {
    w.uid in ns.containers && ns.containers[w.uid].life == Live ==> w.Primary(n) != n.ServiceName(to)
  }

  ghost predicate Inv(n: Naming, s: State) {
    && Good(n, s.ns)
    && s.ns.containers.Keys <= s.used
    && (forall t :: t in s.threads ==> ThreadOk(n, s.ns, s.threads[t]) && Known(s.used, s.threads[t]))
    && (forall t, o :: t in s.threads && o in s.threads && t != o ==> Compatible(s.threads[t], s.threads[o]))
  }

  ghost predicate Known(used: set<Uid>, pc: Pc) {
    LockOf(pc).Some? ==> LockOf(pc).value in used
  }

  ghost predicate Compatible(p: Pc, q: Pc) {
    !(HasMutex(p) && HasMutex(q)) && (LockOf(p).Some? ==> LockOf(p) != LockOf(q))
  }

  // ----- Kubernetes keeps it

  lemma ShrinkKeeps(n: Naming, a: Namespace, b: Namespace)
    requires Good(n, a) && Shrinks(a, b)
    ensures Good(n, b)
  {
  }

  lemma ShrinkKeepsThread(n: Naming, a: Namespace, b: Namespace, pc: Pc)
    requires Shrinks(a, b) && ThreadOk(n, a, pc)
    ensures ThreadOk(n, b, pc)
  {
  }

  lemma DeletingShrinks(a: Namespace, u: Uid)
    ensures Shrinks(a, Deleting(a, u))
  {
  }

  // ----- an operation keeps it

  /** Only Services of `w` were removed or rewritten. */
  ghost predicate TouchesOnly(w: Workload, a: Services, b: Services) {
    forall key :: key in a && !Owns(w, a[key]) ==> key in b && b[key] == a[key]
  }

  lemma ServicesKeep(n: Naming, a: Namespace, b: Namespace, w: Workload)
    requires Good(n, a) && b == a.(services := b.services) && TouchesOnly(w, a.services, b.services)
    requires w.uid in a.containers && a.containers[w.uid].life == Live ==> Served(n, b, a.containers[w.uid].w)
    ensures Good(n, b)
  {
  }

  lemma RenameKeeps(n: Naming, a: Namespace, pc: Pc, b: Namespace, pc': Pc)
    requires Good(n, a) && ThreadOk(n, a, pc) && RenameMove(n, a, pc, b, pc')
    ensures Good(n, b) && ThreadOk(n, b, pc')
  {
    match pc
    case RenameReady(w, to) =>
      ServicesKeep(n, a, b, w);
    case RenameServed(w, to, created) =>
      if pc'.Reconcile? { SwitchKeeps(n, a, w, to, b); }
    case RenameUndo(w, to) =>
      ServicesKeep(n, a, b, w);
    case _ =>
  }

  /** The switch: the new name is free and its Service already belongs to the container. */
  lemma SwitchKeeps(n: Naming, a: Namespace, w: Workload, to: Name, b: Namespace)
    requires Good(n, a) && w.uid in a.containers && NameFree(a, to, Some(w.uid)) && Served(n, a, w.(dockerName := to))
    requires b == a.(containers := a.containers[w.uid := Container(w.(dockerName := to), a.containers[w.uid].life)])
    ensures Good(n, b)
  {
  }

  lemma ReconcileKeeps(n: Naming, a: Namespace, pc: Pc, b: Namespace, pc': Pc)
    requires Good(n, a) && ThreadOk(n, a, pc) && ReconcileMove(n, a, pc, b, pc')
    ensures Good(n, b) && ThreadOk(n, b, pc')
  {
    if pc.Reconcile? {
      var w := pc.w;
      if AliasStep(n, w, a.services, b.services) {
        var name, s :| AliasStepAt(n, w, a.services, b.services, name, s);
        ServicesKeep(n, a, b, w);
      } else {
        ServicesKeep(n, a, b, w);
      }
    }
  }

  lemma CreateKeeps(n: Naming, a: Namespace, pc: Pc, b: Namespace, pc': Pc)
    requires Good(n, a) && ThreadOk(n, a, pc) && CreateMove(n, a, pc, b, pc')
    requires pc.CreateReady? && pc'.CreateWorkload? ==> pc'.w.uid !in a.containers
    ensures Good(n, b) && ThreadOk(n, b, pc')
  {
    match pc
    case CreateReady(name) =>
      CreatedKeeps(n, a, pc'.w, b);
    case CreateWorkload(w) =>
      if pc' == Idle {
        DeletingShrinks(a, w.uid);
        ShrinkKeeps(n, a, b);
      } else {
        ServicesKeep(n, a, b, w);
      }
    case CreateServed(w) =>
      if pc' == Idle && b == Deleting(a, w.uid) {
        DeletingShrinks(a, w.uid);
        ShrinkKeeps(n, a, b);
      } else if pc' == Idle {
        FinishedKeeps(n, a, w, b);
      } else {
        ServicesKeep(n, a, b, w);
      }
    case _ =>
  }

  lemma CreatedKeeps(n: Naming, a: Namespace, w: Workload, b: Namespace)
    requires Good(n, a) && NameFree(a, w.dockerName, None) && w.uid !in a.containers
    requires b == a.(containers := a.containers[w.uid := Container(w, Creating)])
    ensures Good(n, b) && ThreadOk(n, b, CreateWorkload(w))
  {
  }

  lemma FinishedKeeps(n: Naming, a: Namespace, w: Workload, b: Namespace)
    requires Good(n, a) && ThreadOk(n, a, CreateServed(w)) && b == Finished(a, w.uid)
    ensures Good(n, b)
  {
  }

  lemma RemoveKeeps(n: Naming, a: Namespace, pc: Pc, b: Namespace, pc': Pc)
    requires Good(n, a) && ThreadOk(n, a, pc) && RemoveMove(n, a, pc, b, pc')
    ensures Good(n, b) && ThreadOk(n, b, pc')
  {
    if pc.Locked? {
      DeletingShrinks(a, pc.w.uid);
      ShrinkKeeps(n, a, b);
    } else if pc.RemoveServices? {
      ServicesKeep(n, a, b, pc.w);
    }
  }

  lemma MoveKeeps(n: Naming, a: Namespace, pc: Pc, b: Namespace, pc': Pc)
    requires Good(n, a) && ThreadOk(n, a, pc) && Move(n, a, pc, b, pc')
    requires pc.CreateReady? && pc'.CreateWorkload? ==> pc'.w.uid !in a.containers
    ensures Good(n, b) && ThreadOk(n, b, pc')
  {
    if RenameMove(n, a, pc, b, pc') {
      RenameKeeps(n, a, pc, b, pc');
    } else if ReconcileMove(n, a, pc, b, pc') {
      ReconcileKeeps(n, a, pc, b, pc');
    } else if CreateMove(n, a, pc, b, pc') {
      CreateKeeps(n, a, pc, b, pc');
    } else if RemoveMove(n, a, pc, b, pc') {
      RemoveKeeps(n, a, pc, b, pc');
    }
  }

  // ----- and leaves other threads what they rely on

  predicate Creates(pc: Pc, pc': Pc, u: Uid) {
    pc.CreateReady? && pc'.CreateWorkload? && pc'.w.uid == u
  }

  /** What a step may do to containers: it changes the one its thread has locked, adds the one it
      creates, and of all others keeps the name and never revives one that is being removed. */
  ghost predicate Local(a: Namespace, pc: Pc, b: Namespace, pc': Pc) {
    && (LockOf(pc').Some? ==> LockOf(pc') == LockOf(pc) || LockOf(pc').value in a.containers)
    && (forall u :: u in b.containers && !Creates(pc, pc', u) ==>
          && u in a.containers
          && (LockOf(pc) != Some(u) ==> b.containers[u].w == a.containers[u].w)
          && (a.containers[u].life == Removing ==> b.containers[u].life == Removing))
  }

  lemma RenameIsLocal(n: Naming, a: Namespace, pc: Pc, b: Namespace, pc': Pc)
    requires RenameMove(n, a, pc, b, pc')
    ensures Local(a, pc, b, pc')
  {
  }

  lemma CreateIsLocal(n: Naming, a: Namespace, pc: Pc, b: Namespace, pc': Pc)
    requires CreateMove(n, a, pc, b, pc')
    ensures Local(a, pc, b, pc')
  {
  }

  lemma MoveIsLocal(n: Naming, a: Namespace, pc: Pc, b: Namespace, pc': Pc)
    requires Move(n, a, pc, b, pc')
    ensures Local(a, pc, b, pc')
  {
    if RenameMove(n, a, pc, b, pc') {
      RenameIsLocal(n, a, pc, b, pc');
    } else if CreateMove(n, a, pc, b, pc') {
      CreateIsLocal(n, a, pc, b, pc');
    } else if RemoveMove(n, a, pc, b, pc') {
      RemoveIsLocal(n, a, pc, b, pc');
    } else if ReconcileMove(n, a, pc, b, pc') {
      ReconcileIsLocal(n, a, pc, b, pc');
    }
  }

  lemma RemoveIsLocal(n: Naming, a: Namespace, pc: Pc, b: Namespace, pc': Pc)
    requires RemoveMove(n, a, pc, b, pc')
    ensures Local(a, pc, b, pc')
  {
  }

  lemma ReconcileIsLocal(n: Naming, a: Namespace, pc: Pc, b: Namespace, pc': Pc)
    requires ReconcileMove(n, a, pc, b, pc')
    ensures Local(a, pc, b, pc')
  {
  }

  lemma MutexOrShrinks(n: Naming, a: Namespace, pc: Pc, b: Namespace, pc': Pc)
    requires Move(n, a, pc, b, pc') && !HasMutex(pc)
    ensures Shrinks(a, b)
  {
    if RemoveMove(n, a, pc, b, pc') && pc.Locked? { DeletingShrinks(a, pc.w.uid); }
  }

  lemma OthersKeep(n: Naming, s: State, s': State, t: Thread, o: Thread)
    requires Inv(n, s) && ThreadStep(n, s, s', t) && o in s.threads && o != t
    ensures ThreadOk(n, s'.ns, s.threads[o])
  {
    var pc, q := s.threads[t], s.threads[o];
    assert Compatible(pc, q) && ThreadOk(n, s.ns, q) && Known(s.used, q);
    if !HasMutex(pc) {
      MutexOrShrinks(n, s.ns, pc, s'.ns, s'.threads[t]);
      ShrinkKeepsThread(n, s.ns, s'.ns, q);
    } else {
      MoveIsLocal(n, s.ns, pc, s'.ns, s'.threads[t]);
    }
  }

  lemma ThreadStepKeeps(n: Naming, s: State, s': State, t: Thread)
    requires Inv(n, s) && ThreadStep(n, s, s', t)
    ensures Inv(n, s')
  {
    MoveKeeps(n, s.ns, s.threads[t], s'.ns, s'.threads[t]);
    MoveIsLocal(n, s.ns, s.threads[t], s'.ns, s'.threads[t]);
    forall o | o in s'.threads
      ensures ThreadOk(n, s'.ns, s'.threads[o]) && Known(s'.used, s'.threads[o])
    {
      if o != t {
        OthersKeep(n, s, s', t, o);
        assert Known(s.used, s.threads[o]);
      } else {
        assert Known(s.used, s.threads[t]);
      }
    }
    forall o, q | o in s'.threads && q in s'.threads && o != q
      ensures Compatible(s'.threads[o], s'.threads[q])
    {
      if o != t && q != t { assert Compatible(s.threads[o], s.threads[q]); }
    }
  }

  lemma NextKeeps(n: Naming, s: State, s': State)
    requires Inv(n, s) && Next(n, s, s')
    ensures Inv(n, s')
  {
    if t :| ThreadStep(n, s, s', t) {
      ThreadStepKeeps(n, s, s', t);
    } else {
      ShrinkKeeps(n, s.ns, s'.ns);
      forall t | t in s'.threads
        ensures ThreadOk(n, s'.ns, s'.threads[t]) && Known(s'.used, s'.threads[t])
      {
        assert Known(s.used, s.threads[t]);
        ShrinkKeepsThread(n, s.ns, s'.ns, s.threads[t]);
      }
    }
  }

  ghost predicate Init(n: Naming, s: State) {
    Good(n, s.ns) && s.ns.containers.Keys <= s.used && forall t :: t in s.threads ==> s.threads[t] == Idle
  }

  ghost predicate Trace(n: Naming, tr: seq<State>) {
    |tr| > 0 && Init(n, tr[0]) && forall i :: 0 <= i < |tr| - 1 ==> Next(n, tr[i], tr[i + 1])
  }

  lemma {:induction false} TraceKeeps(n: Naming, tr: seq<State>, i: nat)
    requires Trace(n, tr) && i < |tr|
    ensures Inv(n, tr[i])
  {
    if i > 0 {
      TraceKeeps(n, tr, i - 1);
      assert Next(n, tr[i - 1], tr[i - 1 + 1]);
      NextKeeps(n, tr[i - 1], tr[i]);
    }
  }

  /** In every state of every interleaving, between any two calls and after any failure: the Docker
      names of a namespace are pairwise distinct, and every container whose creation succeeded and
      whose removal has not begun has a Service of its own under its current name (under the name
      itself if that is a DNS label) whose selector is its workload. */
  lemma NamesHold(n: Naming, tr: seq<State>, i: nat)
    requires Trace(n, tr) && i < |tr|
    ensures NamesDistinct(tr[i].ns)
    ensures forall u :: u in tr[i].ns.containers && tr[i].ns.containers[u].life == Live ==>
              Resolves(n, tr[i].ns.services, tr[i].ns.containers[u].w, u)
  {
    TraceKeeps(n, tr, i);
    assert LiveServed(n, tr[i].ns);
  }

  /** The Docker name of `w` leads to the Pods of `w`, through a Service that goes with `u`. */
  ghost predicate Resolves(n: Naming, services: Services, w: Workload, u: Uid) {
    var key := if n.isLabel(w.dockerName) then w.dockerName else "container-" + n.hash(w.dockerName);
    key in services && services[key].selector == w.name && services[key].owner == Some(Owner(u, w.oneShot, w.name))
  }

  // ----- where names come from

  /** A thread is renaming `u` to `to`. */
  ghost predicate Renaming(pc: Pc, u: Uid, to: Name) {
    pc.RenameServed? && pc.w.uid == u && pc.to == to
  }

  /** In any step a container keeps its Docker name unless a rename of it to just the new name has
      found that name free and its Service in place, and a container that appears has the name its
      creation found free. Nothing else about a workload ever changes. */
  lemma NameComesFromCall(n: Naming, s: State, s': State, u: Uid)
    requires Inv(n, s) && Next(n, s, s') && u in s'.ns.containers
    ensures u !in s.ns.containers ==>
              exists t :: t in s.threads && s.threads[t] == CreateReady(s'.ns.containers[u].w.dockerName)
    ensures u in s.ns.containers && s'.ns.containers[u].w != s.ns.containers[u].w ==>
              && s'.ns.containers[u].w == s.ns.containers[u].w.(dockerName := s'.ns.containers[u].w.dockerName)
              && exists t :: t in s.threads && Renaming(s.threads[t], u, s'.ns.containers[u].w.dockerName)
  {
    if t :| ThreadStep(n, s, s', t) {
      assert ThreadOk(n, s.ns, s.threads[t]);
      MoveNamed(n, s.ns, s.threads[t], s'.ns, s'.threads[t], u);
      assert t in s.threads;
    }
  }

  ghost predicate NamedByCall(a: Namespace, pc: Pc, b: Namespace, pc': Pc, u: Uid)
    requires u in b.containers
  {
    && (u !in a.containers ==> pc == CreateReady(b.containers[u].w.dockerName))
    && (u in a.containers && b.containers[u].w != a.containers[u].w && !Creates(pc, pc', u) ==>
          && b.containers[u].w == a.containers[u].w.(dockerName := b.containers[u].w.dockerName)
          && Renaming(pc, u, b.containers[u].w.dockerName))
  }

  lemma MoveNamed(n: Naming, a: Namespace, pc: Pc, b: Namespace, pc': Pc, u: Uid)
    requires Move(n, a, pc, b, pc') && ThreadOk(n, a, pc) && u in b.containers
    ensures NamedByCall(a, pc, b, pc', u)
  {
    if RenameMove(n, a, pc, b, pc') {
      RenameNamed(n, a, pc, b, pc', u);
    } else if CreateMove(n, a, pc, b, pc') {
      CreateNamed(n, a, pc, b, pc', u);
    } else if RemoveMove(n, a, pc, b, pc') {
      RemoveNamed(n, a, pc, b, pc', u);
    } else if ReconcileMove(n, a, pc, b, pc') {
    }
  }

  lemma RenameNamed(n: Naming, a: Namespace, pc: Pc, b: Namespace, pc': Pc, u: Uid)
    requires RenameMove(n, a, pc, b, pc') && ThreadOk(n, a, pc) && u in b.containers
    ensures NamedByCall(a, pc, b, pc', u)
  {
  }

  lemma CreateNamed(n: Naming, a: Namespace, pc: Pc, b: Namespace, pc': Pc, u: Uid)
    requires CreateMove(n, a, pc, b, pc') && u in b.containers
    ensures NamedByCall(a, pc, b, pc', u)
  {
  }

  lemma RemoveNamed(n: Naming, a: Namespace, pc: Pc, b: Namespace, pc': Pc, u: Uid)
    requires RemoveMove(n, a, pc, b, pc') && u in b.containers
    ensures NamedByCall(a, pc, b, pc', u)
  {
  }

  /** A rename that goes on to reconcile Services has changed the name, of its container alone. */
  lemma SwitchRenames(n: Naming, s: State, s': State, t: Thread)
    requires Inv(n, s) && ThreadStep(n, s, s', t) && s.threads[t].RenameServed? && s'.threads[t].Reconcile?
    ensures var u := s.threads[t].w.uid;
            && u in s'.ns.containers && s'.ns.containers[u].w.dockerName == s.threads[t].to
            && s'.ns.containers[u].w == s'.threads[t].w && Resolves(n, s'.ns.services, s'.threads[t].w, u)
            && s'.ns.containers.Keys == s.ns.containers.Keys
            && forall v :: v in s.ns.containers && v != u ==> s'.ns.containers[v] == s.ns.containers[v]
  {
    assert ThreadOk(n, s.ns, s.threads[t]);
  }

  // ----- what a call achieves when nothing comes in between

  ghost predicate Steps(n: Naming, tr: seq<State>) {
    |tr| > 0 && forall i :: 0 <= i < |tr| - 1 ==> Next(n, tr[i], tr[i + 1])
  }

  ghost predicate Reaches(n: Naming, s: State, s': State) {
    exists tr :: Steps(n, tr) && tr[0] == s && tr[|tr| - 1] == s'
  }

  lemma Stays(n: Naming, s: State)
    ensures Reaches(n, s, s)
  {
    assert Steps(n, [s]);
  }

  ghost predicate AllIdle(s: State) {
    forall t :: t in s.threads ==> s.threads[t] == Idle
  }

  /** `s` after thread `t` alone has moved. */
  ghost function At(s: State, t: Thread, ns: Namespace, pc: Pc, used: set<Uid>): State {
    State(ns, s.threads[t := pc], used)
  }

  ghost function UsedBy(pc: Pc): set<Uid> {
    if pc.CreateWorkload? then {pc.w.uid} else {}
  }

  lemma Goes(n: Naming, s: State, t: Thread, a: Namespace, pc: Pc, used: set<Uid>, b: Namespace, pc': Pc)
    requires AllIdle(s) && t in s.threads && Reaches(n, s, At(s, t, a, pc, used)) && Move(n, a, pc, b, pc')
    requires pc'.CreateWorkload? ==> pc'.w.uid !in used
    ensures Reaches(n, s, At(s, t, b, pc', used + UsedBy(pc')))
  {
    var mid, end := At(s, t, a, pc, used), At(s, t, b, pc', used + UsedBy(pc'));
    assert ThreadStep(n, mid, end, t) by {
      assert end.threads == mid.threads[t := end.threads[t]];
    }
    var tr :| Steps(n, tr) && tr[0] == s && tr[|tr| - 1] == mid;
    var longer := tr + [end];
    forall i | 0 <= i < |longer| - 1
      ensures Next(n, longer[i], longer[i + 1])
    {
      if i < |tr| - 1 { assert longer[i] == tr[i] && longer[i + 1] == tr[i + 1]; }
    }
    assert Steps(n, longer);
  }

  /** When no other operation runs, a container can be renamed to any name that is free. */
  lemma RenameCanHappen(n: Naming, s: State, t: Thread, u: Uid, to: Name)
    requires AllIdle(s) && t in s.threads && u in s.ns.containers && s.ns.containers[u].w.uid == u
    requires NameFree(s.ns, to, Some(u))
    requires n.ServiceName(to) in s.ns.services ==> Owns(s.ns.containers[u].w, s.ns.services[n.ServiceName(to)])
    ensures exists s' :: Reaches(n, s, s') && u in s'.ns.containers && s'.ns.containers[u].w.dockerName == to
  {
    var w, key := s.ns.containers[u].w, n.ServiceName(to);
    RenameChecks(n, s, t, w, to);
    var created := key !in s.ns.services;
    var served := if created then s.ns.(services := s.ns.services[key := AnyService(w)]) else s.ns;
    assert Move(n, s.ns, RenameReady(w, to), served, RenameServed(w, to, created)) by {
      assert RenameMove(n, s.ns, RenameReady(w, to), served, RenameServed(w, to, created));
    }
    Goes(n, s, t, s.ns, RenameReady(w, to), s.used, served, RenameServed(w, to, created));
    var switched := served.(containers := served.containers[u := Container(w.(dockerName := to), served.containers[u].life)]);
    assert Move(n, served, RenameServed(w, to, created), switched, Reconcile(w.(dockerName := to))) by {
      assert RenameMove(n, served, RenameServed(w, to, created), switched, Reconcile(w.(dockerName := to)));
    }
    Goes(n, s, t, served, RenameServed(w, to, created), s.used, switched, Reconcile(w.(dockerName := to)));
  }

  lemma RenameChecks(n: Naming, s: State, t: Thread, w: Workload, to: Name)
    requires AllIdle(s) && t in s.threads && w.uid in s.ns.containers && s.ns.containers[w.uid].w == w
    requires NameFree(s.ns, to, Some(w.uid))
    requires n.ServiceName(to) in s.ns.services ==> Owns(w, s.ns.services[n.ServiceName(to)])
    ensures Reaches(n, s, At(s, t, s.ns, RenameReady(w, to), s.used))
  {
    Stays(n, s);
    assert s == At(s, t, s.ns, Idle, s.used);
    assert Lock(s.ns, Idle, s.ns, Locked(w));
    Goes(n, s, t, s.ns, Idle, s.used, s.ns, Locked(w));
    assert RenameMove(n, s.ns, Locked(w), s.ns, RenameNames(w, to));
    Goes(n, s, t, s.ns, Locked(w), s.used, s.ns, RenameNames(w, to));
    assert RenameMove(n, s.ns, RenameNames(w, to), s.ns, RenameReady(w, to));
    Goes(n, s, t, s.ns, RenameNames(w, to), s.used, s.ns, RenameReady(w, to));
  }

  ghost function AnyService(w: Workload): (s: Service)
    ensures Owns(w, s)
  {
    Service(Some(w.Reference()), w.name, map[], map[], [], "")
  }

  /** So can a container be created under a name that neither a container nor a Service has, and its
      creation then succeeds. */
  lemma CreateCanHappen(n: Naming, s: State, t: Thread, w: Workload)
    requires AllIdle(s) && t in s.threads && w.uid !in s.used
    requires NameFree(s.ns, w.dockerName, None) && n.ServiceName(w.dockerName) !in s.ns.services
    ensures exists s' :: Reaches(n, s, s') && w.uid in s'.ns.containers && s'.ns.containers[w.uid] == Container(w, Live)
  {
    var made := s.ns.(containers := s.ns.containers[w.uid := Container(w, Creating)]);
    var used := s.used + {w.uid};
    CreateChecks(n, s, t, w);
    var served := made.(services := made.services[w.Primary(n) := AnyService(w)]);
    assert CreateMove(n, made, CreateWorkload(w), served, CreateServed(w));
    Goes(n, s, t, made, CreateWorkload(w), used, served, CreateServed(w));
    assert used + UsedBy(CreateServed(w)) == used;
    assert CreateMove(n, served, CreateServed(w), Finished(served, w.uid), Idle);
    Goes(n, s, t, served, CreateServed(w), used, Finished(served, w.uid), Idle);
  }

  lemma CreateChecks(n: Naming, s: State, t: Thread, w: Workload)
    requires AllIdle(s) && t in s.threads && w.uid !in s.used
    requires NameFree(s.ns, w.dockerName, None) && n.ServiceName(w.dockerName) !in s.ns.services
    ensures var made := s.ns.(containers := s.ns.containers[w.uid := Container(w, Creating)]);
            Reaches(n, s, At(s, t, made, CreateWorkload(w), s.used + {w.uid}))
  {
    var a, name := s.ns, w.dockerName;
    Stays(n, s);
    assert s == At(s, t, a, Idle, s.used);
    assert CreateMove(n, a, Idle, a, CreateNames(name));
    Goes(n, s, t, a, Idle, s.used, a, CreateNames(name));
    assert CreateMove(n, a, CreateNames(name), a, CreateReady(name));
    Goes(n, s, t, a, CreateNames(name), s.used, a, CreateReady(name));
    var made := a.(containers := a.containers[w.uid := Container(w, Creating)]);
    assert CreateMove(n, a, CreateReady(name), made, CreateWorkload(w));
    Goes(n, s, t, a, CreateReady(name), s.used, made, CreateWorkload(w));
  }

  /** A rename that could not write the name can take the Service it created back. */
  lemma UndoCanHappen(n: Naming, s: State, t: Thread)
    requires Inv(n, s) && t in s.threads && s.threads[t].RenameUndo?
    requires var key := n.ServiceName(s.threads[t].to); key in s.ns.services && Owns(s.threads[t].w, s.ns.services[key])
    ensures var s' := s.(ns := s.ns.(services := s.ns.services - {n.ServiceName(s.threads[t].to)}), threads := s.threads[t := Idle]);
            ThreadStep(n, s, s', t)
  {
    var pc := s.threads[t];
    var b := s.ns.(services := s.ns.services - {n.ServiceName(pc.to)});
    var s' := s.(ns := b, threads := s.threads[t := Idle]);
    assert RenameMove(n, s.ns, pc, b, Idle);
    assert s'.threads == s.threads[t := s'.threads[t]];
  }

  ghost function OwnedKeys(services: Services, w: Workload): set<Name> {
    set key | key in services && Owns(w, services[key])
  }

  /** With no other operation under way a container can be removed, and none of its Services is left. */
  lemma RemoveCanHappen(n: Naming, s: State, t: Thread, u: Uid)
    requires AllIdle(s) && t in s.threads && u in s.ns.containers && s.ns.containers[u].w.uid == u
    ensures exists s' :: Reaches(n, s, s') && OwnedKeys(s'.ns.services, s.ns.containers[u].w) == {} && s'.ns.containers == Deleting(s.ns, u).containers &&
                         (forall key :: key in s.ns.services && !Owns(s.ns.containers[u].w, s.ns.services[key]) ==>
                            key in s'.ns.services && s'.ns.services[key] == s.ns.services[key])
  {
    var w, a := s.ns.containers[u].w, Deleting(s.ns, u);
    Stays(n, s);
    assert s == At(s, t, s.ns, Idle, s.used);
    assert Lock(s.ns, Idle, s.ns, Locked(w));
    Goes(n, s, t, s.ns, Idle, s.used, s.ns, Locked(w));
    assert RemoveMove(n, s.ns, Locked(w), a, RemoveStarted(w));
    Goes(n, s, t, s.ns, Locked(w), s.used, a, RemoveStarted(w));
    assert RemoveMove(n, a, RemoveStarted(w), a, RemoveServices(w));
    Goes(n, s, t, a, RemoveStarted(w), s.used, a, RemoveServices(w));
    var b := ServicesGo(n, s, t, a, w);
    assert Reaches(n, s, At(s, t, b, RemoveServices(w), s.used));
  }

  lemma {:induction false} ServicesGo(n: Naming, s: State, t: Thread, a: Namespace, w: Workload) returns (b: Namespace)
    requires AllIdle(s) && t in s.threads && Reaches(n, s, At(s, t, a, RemoveServices(w), s.used))
    ensures Reaches(n, s, At(s, t, b, RemoveServices(w), s.used)) && OwnedKeys(b.services, w) == {}
    ensures b == a.(services := b.services) && TouchesOnly(w, a.services, b.services)
    decreases OwnedKeys(a.services, w)
  {
    if OwnedKeys(a.services, w) == {} {
      b := a;
    } else {
      var key :| key in OwnedKeys(a.services, w);
      var fewer := a.(services := a.services - {key});
      assert RemoveMove(n, a, RemoveServices(w), fewer, RemoveServices(w));
      Goes(n, s, t, a, RemoveServices(w), s.used, fewer, RemoveServices(w));
      assert OwnedKeys(fewer.services, w) == OwnedKeys(a.services, w) - {key};
      b := ServicesGo(n, s, t, fewer, w);
    }
  }
}
