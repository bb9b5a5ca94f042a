/** The per-container operation lock: a map from workload keys to reference-counted locks whose
    token is a channel of capacity one. The map and the counters change under one mutex, so each
    such section is a single step; taking and returning the token are steps of their own. */
module ContainerLock {

  type Key = string
  type Thread = nat
  type LockId = nat

  /** Where a thread is in `lockContainer` and in the unlock function it returned. */
  datatype Pc =
    | Outside
    | Waiting(key: Key, lock: LockId)
    | Confirming(key: Key, lock: LockId)   // token taken, looking the container up again
    | Inside(key: Key, lock: LockId)       // the caller runs under the lock
    | Leaving(key: Key, lock: LockId)      // token returned, still counted as a user

  datatype State = State(locks: map<Key, LockId>, users: map<LockId, int>, full: map<LockId, bool>,
                         threads: map<Thread, Pc>)

  ghost predicate Init(s: State) {
    s.locks == map[] && s.users == map[] && s.full == map[] && forall t :: t in s.threads ==> s.threads[t] == Outside
  }

  // ----- the steps of thread `t`

  /** Look up or create the lock of `key` and join its users; a new lock is a new object. */
  ghost predicate Register(s: State, s': State, t: Thread, key: Key, created: LockId) {
    && t in s.threads && s.threads[t] == Outside
    && if key in s.locks then
         var l := s.locks[key];
         l in s.users && s' == s.(users := s.users[l := s.users[l] + 1], threads := s.threads[t := Waiting(key, l)])
       else
         && created !in s.users
         && s' == State(s.locks[key := created], s.users[created := 1], s.full[created := false],
                        s.threads[t := Waiting(key, created)])
  }

  ghost predicate Acquire(s: State, s': State, t: Thread) {
    && t in s.threads && s.threads[t].Waiting?
    && var l := s.threads[t].lock;
       l in s.full && !s.full[l] &&
       s' == s.(full := s.full[l := true], threads := s.threads[t := Confirming(s.threads[t].key, l)])
  }

  /** `releaseUser`: leave the users and drop the map entry with the last one. */
  ghost predicate Release(s: State, s': State, t: Thread) {
    && t in s.threads && (s.threads[t].Waiting? || s.threads[t].Leaving?)
    && var l := s.threads[t].lock;
       l in s.users &&
       s' == s.(users := s.users[l := s.users[l] - 1],
                locks := if s.users[l] - 1 == 0 then s.locks - {s.threads[t].key} else s.locks,
                threads := s.threads[t := Outside])
  }

  ghost predicate Confirm(s: State, s': State, t: Thread) {
    && t in s.threads && s.threads[t].Confirming?
    && s' == s.(threads := s.threads[t := Inside(s.threads[t].key, s.threads[t].lock)])
  }

  /** Return the token, after the work or because the container is gone. */
  ghost predicate ReturnToken(s: State, s': State, t: Thread) {
    && t in s.threads && (s.threads[t].Confirming? || s.threads[t].Inside?)
    && var l := s.threads[t].lock;
       l in s.full && s.full[l] &&
       s' == s.(full := s.full[l := false], threads := s.threads[t := Leaving(s.threads[t].key, l)])
  }

  ghost predicate Step(s: State, s': State, t: Thread) {
    || (exists key, created :: Register(s, s', t, key, created))
    || Acquire(s, s', t) || Release(s, s', t) || Confirm(s, s', t) || ReturnToken(s, s', t)
  }

  ghost predicate Next(s: State, s': State) {
    exists t :: Step(s, s', t)
  }

  ghost predicate Trace(tr: seq<State>) {
    |tr| > 0 && Init(tr[0]) && forall i :: 0 <= i < |tr| - 1 ==> Next(tr[i], tr[i + 1])
  }

  // ----- the invariant

  ghost predicate On(pc: Pc, l: LockId) {
    !pc.Outside? && pc.lock == l
  }

  ghost predicate Holds(pc: Pc, l: LockId) {
    (pc.Confirming? || pc.Inside?) && pc.lock == l
  }

  ghost function Users(s: State, l: LockId): set<Thread> {
    set t | t in s.threads && On(s.threads[t], l)
  }

  ghost function Holders(s: State, l: LockId): set<Thread> {
    set t | t in s.threads && Holds(s.threads[t], l)
  }

  ghost predicate Inv(s: State) {
    && s.users.Keys == s.full.Keys
    && (forall l :: l in s.users ==> Counted(s, l))
    && MapInv(s)
  }

  ghost predicate Counted(s: State, l: LockId)
    requires l in s.users && l in s.full
  {
    s.users[l] == |Users(s, l)| && |Holders(s, l)| == if s.full[l] then 1 else 0
  }

  ghost predicate MapInv(s: State) {
    && (forall t :: t in s.threads && !s.threads[t].Outside? ==>
          s.threads[t].key in s.locks && s.locks[s.threads[t].key] == s.threads[t].lock)
    && (forall k :: k in s.locks ==> s.locks[k] in s.users && s.users[s.locks[k]] > 0)
    && (forall k, k' :: k in s.locks && k' in s.locks && s.locks[k] == s.locks[k'] ==> k == k')
  }

  lemma Swapped(s: set<Thread>, s': set<Thread>, t: Thread)
    requires forall u :: u != t ==> (u in s <==> u in s')
    ensures |s'| == |s| - (if t in s then 1 else 0) + if t in s' then 1 else 0
  {
    assert s - {t} == s' - {t};
    assert |s - {t}| == |s| - (if t in s then 1 else 0);
    assert |s' - {t}| == |s'| - (if t in s' then 1 else 0);
  }

  /** Moving one thread moves it in and out of the users and holders of locks, and nobody else. */
  lemma Moved(s: State, s': State, t: Thread, pc: Pc, l: LockId)
    requires t in s.threads && s'.threads == s.threads[t := pc]
    ensures |Users(s', l)| == |Users(s, l)| - (if On(s.threads[t], l) then 1 else 0) + if On(pc, l) then 1 else 0
    ensures |Holders(s', l)| == |Holders(s, l)| - (if Holds(s.threads[t], l) then 1 else 0) + if Holds(pc, l) then 1 else 0
  {
    Swapped(Users(s, l), Users(s', l), t);
    Swapped(Holders(s, l), Holders(s', l), t);
  }

  lemma NobodyOn(s: State, l: LockId)
    requires Inv(s) && l !in s.users
    ensures |Users(s, l)| == 0 && |Holders(s, l)| == 0
  {
  }

  lemma RegisterCounts(s: State, s': State, t: Thread, key: Key, created: LockId, l: LockId)
    requires Inv(s) && Register(s, s', t, key, created) && l in s'.users
    ensures l in s'.full && Counted(s', l)
  {
    Moved(s, s', t, s'.threads[t], l);
    if l in s.users { assert Counted(s, l); } else { NobodyOn(s, l); }
  }

  lemma RegisterMaps(s: State, s': State, t: Thread, key: Key, created: LockId)
    requires s.users.Keys == s.full.Keys && MapInv(s) && Register(s, s', t, key, created)
    ensures s'.users.Keys == s'.full.Keys && MapInv(s')
  {
  }

  lemma RegisterKeeps(s: State, s': State, t: Thread, key: Key, created: LockId)
    requires Inv(s) && Register(s, s', t, key, created)
    ensures Inv(s')
  {
    RegisterMaps(s, s', t, key, created);
    forall l | l in s'.users
      ensures Counted(s', l)
    {
      RegisterCounts(s, s', t, key, created, l);
    }
  }

  lemma AcquireKeeps(s: State, s': State, t: Thread)
    requires Inv(s) && Acquire(s, s', t)
    ensures Inv(s')
  {
    forall l | l in s'.users
      ensures Counted(s', l)
    {
      assert Counted(s, l);
      Moved(s, s', t, s'.threads[t], l);
    }
  }

  lemma ReleaseKeeps(s: State, s': State, t: Thread)
    requires Inv(s) && Release(s, s', t)
    ensures Inv(s')
  {
    forall l | l in s'.users
      ensures Counted(s', l)
    {
      ReleaseCounts(s, s', t, l);
    }
    ReleaseMaps(s, s', t);
  }

  lemma ReleaseCounts(s: State, s': State, t: Thread, l: LockId)
    requires Inv(s) && Release(s, s', t) && l in s'.users
    ensures l in s'.full && Counted(s', l)
  {
    assert Counted(s, l);
    Moved(s, s', t, Outside, l);
  }

  lemma ReleaseMaps(s: State, s': State, t: Thread)
    requires Inv(s) && Release(s, s', t)
    ensures MapInv(s')
  {
    var l, key := s.threads[t].lock, s.threads[t].key;
    if s'.users[l] == 0 {
      ReleaseCounts(s, s', t, l);
      forall u | u in s'.threads && !s'.threads[u].Outside?
        ensures s'.threads[u].key != key
      {
        assert u !in Users(s', l);
      }
    } else {
      ReleaseCounts(s, s', t, l);
    }
  }

  lemma HolderKeeps(s: State, s': State, t: Thread)
    requires Inv(s) && (Confirm(s, s', t) || ReturnToken(s, s', t))
    ensures Inv(s')
  {
    forall l | l in s'.users
      ensures Counted(s', l)
    {
      assert Counted(s, l);
      Moved(s, s', t, s'.threads[t], l);
    }
  }

  lemma StepKeeps(s: State, s': State, t: Thread)
    requires Inv(s) && Step(s, s', t)
    ensures Inv(s')
  {
    if Acquire(s, s', t) {
      AcquireKeeps(s, s', t);
    } else if Release(s, s', t) {
      ReleaseKeeps(s, s', t);
    } else if Confirm(s, s', t) || ReturnToken(s, s', t) {
      HolderKeeps(s, s', t);
    } else {
      var key, created :| Register(s, s', t, key, created);
      RegisterKeeps(s, s', t, key, created);
    }
  }

  lemma {:induction false} TraceKeeps(tr: seq<State>, i: nat)
    requires Trace(tr) && i < |tr|
    ensures Inv(tr[i])
  {
    if i > 0 {
      TraceKeeps(tr, i - 1);
      assert Next(tr[i - 1], tr[i - 1 + 1]);
      var t :| Step(tr[i - 1], tr[i], t);
      StepKeeps(tr[i - 1], tr[i], t);
    }
  }

  ghost predicate UnderLock(pc: Pc, key: Key) {
    (pc.Confirming? || pc.Inside?) && pc.key == key
  }

  ghost predicate Exclusive(s: State) {
    forall t, u, key ::
      t in s.threads && u in s.threads && UnderLock(s.threads[t], key) && UnderLock(s.threads[u], key) ==> t == u
  }

  ghost predicate OneLockPerKey(s: State) {
    forall t, u ::
      (t in s.threads && u in s.threads && !s.threads[t].Outside? && !s.threads[u].Outside? &&
       s.threads[t].key == s.threads[u].key) ==> s.threads[t].lock == s.threads[u].lock
  }

  lemma SingletonMember<T>(s: set<T>, a: T, b: T)
    requires |s| <= 1 && a in s && b in s
    ensures a == b
  {
    assert |s - {a}| == |s| - 1;
  }

  /** In every state of every interleaving of lock, cancel and unlock: at most one thread is under the
      lock of a key; the counter of a lock is the number of threads registered on it; a lock with users
      is the one in the map, which holds no others, so two threads registered for one key share one lock object; and the
      holder can always return the token without blocking. */
  lemma LockIsExclusive(tr: seq<State>, i: nat)
    requires Trace(tr) && i < |tr|
    ensures Exclusive(tr[i])
    ensures tr[i].users.Keys == tr[i].full.Keys && forall l :: l in tr[i].users ==> Counted(tr[i], l)
    ensures forall l :: l in tr[i].users && tr[i].users[l] > 0 ==> exists k :: k in tr[i].locks && tr[i].locks[k] == l
    ensures forall k :: k in tr[i].locks ==> tr[i].locks[k] in tr[i].users && tr[i].users[tr[i].locks[k]] > 0
    ensures OneLockPerKey(tr[i])
    ensures forall t :: t in tr[i].threads && (tr[i].threads[t].Inside? || tr[i].threads[t].Confirming?) ==>
              exists s' :: ReturnToken(tr[i], s', t)
  {
    TraceKeeps(tr, i);
    var s := tr[i];
    forall t, u, key | t in s.threads && u in s.threads && UnderLock(s.threads[t], key) && UnderLock(s.threads[u], key)
      ensures t == u
    {
      var l := s.threads[t].lock;
      assert Counted(s, l);
      SingletonMember(Holders(s, l), t, u);
    }
    forall l | l in s.users && s.users[l] > 0
      ensures exists k :: k in s.locks && s.locks[k] == l
    {
      assert Counted(s, l);
      var t :| t in Users(s, l);
      assert s.locks[s.threads[t].key] == l;
    }
    forall t | t in s.threads && (s.threads[t].Inside? || s.threads[t].Confirming?)
      ensures exists s' :: ReturnToken(s, s', t)
    {
      var l := s.threads[t].lock;
      assert Counted(s, l) && t in Holders(s, l);
      var s' := s.(full := s.full[l := false], threads := s.threads[t := Leaving(s.threads[t].key, l)]);
      assert ReturnToken(s, s', t);
    }
  }

  // ----- what a call achieves when nothing comes in between

  ghost predicate Reaches(s: State, s': State) {
    exists tr :: Steps(tr) && tr[0] == s && tr[|tr| - 1] == s'
  }

  ghost predicate Steps(tr: seq<State>) {
    |tr| > 0 && forall i :: 0 <= i < |tr| - 1 ==> Next(tr[i], tr[i + 1])
  }

  lemma Goes(s: State, mid: State, s': State, t: Thread)
    requires Reaches(s, mid) && Step(mid, s', t)
    ensures Reaches(s, s')
  {
    var tr :| Steps(tr) && tr[0] == s && tr[|tr| - 1] == mid;
    var longer := tr + [s'];
    forall i | 0 <= i < |longer| - 1
      ensures Next(longer[i], longer[i + 1])
    {
      if i < |tr| - 1 { assert longer[i] == tr[i] && longer[i + 1] == tr[i + 1]; }
    }
    assert Steps(longer);
  }

  ghost predicate Free(s: State, key: Key) {
    forall t :: t in s.threads ==> !UnderLock(s.threads[t], key)
  }

  lemma FreeIsNotFull(s: State, key: Key)
    requires Inv(s) && Free(s, key) && key in s.locks
    ensures s.locks[key] in s.users && s.locks[key] in s.full && !s.full[s.locks[key]]
  {
    assert Counted(s, s.locks[key]);
    assert Holders(s, s.locks[key]) == {};
  }

  /** In every reachable state a container that nobody has locked can be locked, whoever else waits. */
  lemma LockCanBeTaken(tr: seq<State>, t: Thread, key: Key, unused: LockId)
    requires Trace(tr) && t in tr[|tr| - 1].threads && tr[|tr| - 1].threads[t] == Outside && Free(tr[|tr| - 1], key)
    requires unused !in tr[|tr| - 1].users
    ensures exists s', l :: Reaches(tr[|tr| - 1], s') && s'.threads == tr[|tr| - 1].threads[t := Inside(key, l)]
  {
    var s := tr[|tr| - 1];
    TraceKeeps(tr, |tr| - 1);
    var l, registered := LockCanBeJoined(s, t, key, unused);
    var acquired := registered.(full := registered.full[l := true], threads := s.threads[t := Confirming(key, l)]);
    assert Acquire(registered, acquired, t) by {
      assert registered.threads[t := Confirming(key, l)] == s.threads[t := Confirming(key, l)];
    }
    Goes(s, registered, acquired, t);
    var inside := acquired.(threads := s.threads[t := Inside(key, l)]);
    assert Confirm(acquired, inside, t) by {
      assert acquired.threads[t := Inside(key, l)] == s.threads[t := Inside(key, l)];
    }
    Goes(s, acquired, inside, t);
  }

  lemma LockCanBeJoined(s: State, t: Thread, key: Key, unused: LockId) returns (l: LockId, s': State)
    requires Inv(s) && t in s.threads && s.threads[t] == Outside && Free(s, key) && unused !in s.users
    ensures Reaches(s, s') && s'.threads == s.threads[t := Waiting(key, l)] && l in s'.full && !s'.full[l]
  {
    assert Steps([s]);
    if key in s.locks {
      FreeIsNotFull(s, key);
      l := s.locks[key];
      s' := s.(users := s.users[l := s.users[l] + 1], threads := s.threads[t := Waiting(key, l)]);
    } else {
      l := unused;
      s' := State(s.locks[key := l], s.users[l := 1], s.full[l := false], s.threads[t := Waiting(key, l)]);
    }
    assert Register(s, s', t, key, unused);
    Goes(s, s, s', t);
  }

  ghost predicate Alone(s: State, t: Thread)
    requires t in s.threads && s.threads[t].Inside?
  {
    forall u :: u in s.threads && u != t ==> !On(s.threads[u], s.threads[t].lock)
  }

  /** A holder that nobody waits for can leave, and no entry is left. */
  lemma LockCanBeLeft(tr: seq<State>, t: Thread)
    requires Trace(tr) && t in tr[|tr| - 1].threads && tr[|tr| - 1].threads[t].Inside? && Alone(tr[|tr| - 1], t)
    ensures exists s' :: Reaches(tr[|tr| - 1], s') && s'.threads == tr[|tr| - 1].threads[t := Outside] &&
                         s'.locks == tr[|tr| - 1].locks - {tr[|tr| - 1].threads[t].key}
  {
    var s := tr[|tr| - 1];
    TraceKeeps(tr, |tr| - 1);
    var key, l := s.threads[t].key, s.threads[t].lock;
    OneUser(s, t);
    assert Steps([s]);
    var returned := s.(full := s.full[l := false], threads := s.threads[t := Leaving(key, l)]);
    assert ReturnToken(s, returned, t);
    Goes(s, s, returned, t);
    var left := returned.(users := s.users[l := 0], locks := s.locks - {key}, threads := s.threads[t := Outside]);
    assert Release(returned, left, t) by {
      assert returned.threads[t := Outside] == s.threads[t := Outside];
    }
    Goes(s, returned, left, t);
  }

  lemma OneUser(s: State, t: Thread)
    requires Inv(s) && t in s.threads && s.threads[t].Inside? && Alone(s, t)
    ensures var l := s.threads[t].lock; l in s.users && s.users[l] == 1 && l in s.full && s.full[l]
  {
    var l := s.threads[t].lock;
    assert Counted(s, l);
    assert Users(s, l) == {t} && Holders(s, l) == {t};
  }
}
