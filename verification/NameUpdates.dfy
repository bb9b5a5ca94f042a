/** Writing a container's Docker name from several replicas.

    `setContainerName` reads the workload, checks its UID and name, and writes it back under the
    resource version it read, retrying after a conflict. No lock is shared between replicas. Other
    writers change other fields, and workloads are deleted and created under reused object names. */
module NameUpdates {
  import opened Common

  type Name = string
  type Uid = nat
  type Thread = nat

  datatype Object = Object(uid: Uid, version: nat, dockerName: Name, rest: nat)

  /** One call of `setContainerName`: the workload, and the names it replaces and writes. */
  datatype Job = Job(key: Name, uid: Uid, oldName: Name, newName: Name)

  datatype Pc = Idle | Reading(job: Job) | Writing(job: Job, read: Object) | Ended(job: Job, ok: bool)

  /** History: workloads come into being with a name, and names are replaced. */
  datatype Entry = Born(uid: Uid, name: Name) | Renamed(job: Job)

  datatype State = State(objects: map<Name, Object>, version: nat, threads: map<Thread, Pc>, log: seq<Entry>)

  /** The name that the history gives to a UID. */
  function NameIn(log: seq<Entry>, uid: Uid): Option<Name> {
    if log == [] then None
    else match log[|log| - 1]
      case Born(u, name) => if u == uid then Some(name) else NameIn(log[..|log| - 1], uid)
      case Renamed(job) => if job.uid == uid then Some(job.newName) else NameIn(log[..|log| - 1], uid)
  }

  // ----- the steps

  function With(s: State, t: Thread, pc: Pc): State {
    s.(threads := s.threads[t := pc])
  }

  ghost predicate Start(s: State, s': State, t: Thread, job: Job) {
    t in s.threads && (s.threads[t].Idle? || s.threads[t].Ended?) && s' == With(s, t, Reading(job))
  }

  ghost predicate Get(s: State, s': State, t: Thread) {
    && t in s.threads && s.threads[t].Reading?
    && var job := s.threads[t].job;
       || s' == With(s, t, Ended(job, false))
       || (job.key in s.objects && s.objects[job.key].uid == job.uid &&
           s' == With(s, t, Writing(job, s.objects[job.key])))
  }

  /** What the mutation makes of the object that was read; None is "renamed concurrently". */
  function Mutate(job: Job, read: Object): Option<Object> {
    if read.dockerName == job.newName then Some(read)
    else if read.dockerName != job.oldName then None
    else Some(read.(dockerName := job.newName))
  }

  ghost predicate Update(s: State, s': State, t: Thread) {
    && t in s.threads && s.threads[t].Writing?
    && var job, read := s.threads[t].job, s.threads[t].read;
       || s' == With(s, t, Ended(job, false))
       || (Mutate(job, read).Some? &&
           if job.key in s.objects && s.objects[job.key].version == read.version then
             var written := Mutate(job, read).value;
             s' == State(s.objects[job.key := written.(version := s.version)], s.version + 1,
                         s.threads[t := Ended(job, true)],
                         if written.dockerName != s.objects[job.key].dockerName then s.log + [Renamed(job)] else s.log)
           else s' == With(s, t, Reading(job)))
  }

  /** Another writer: aliases, replicas, annotations; anything but the name. */
  ghost predicate WriteElse(s: State, s': State, key: Name, rest: nat) {
    && key in s.objects
    && s' == s.(objects := s.objects[key := s.objects[key].(version := s.version, rest := rest)], version := s.version + 1)
  }

  ghost predicate Delete(s: State, s': State, key: Name) {
    s' == s.(objects := s.objects - {key})
  }

  ghost predicate Create(s: State, s': State, key: Name, uid: Uid, name: Name, rest: nat) {
    && key !in s.objects && NameIn(s.log, uid) == None
    && s' == s.(objects := s.objects[key := Object(uid, s.version, name, rest)], version := s.version + 1,
                log := s.log + [Born(uid, name)])
  }

  ghost predicate ThreadStep(s: State, s': State, t: Thread) {
    (exists job :: Start(s, s', t, job)) || Get(s, s', t) || Update(s, s', t)
  }

  ghost predicate OtherStep(s: State, s': State, key: Name) {
    || (exists rest :: WriteElse(s, s', key, rest)) || Delete(s, s', key)
    || (exists uid, name, rest :: Create(s, s', key, uid, name, rest))
  }

  ghost predicate Next(s: State, s': State) {
    (exists t :: ThreadStep(s, s', t)) || (exists key :: OtherStep(s, s', key))
  }

  ghost predicate Init(s: State) {
    s.objects == map[] && s.log == [] && forall t :: t in s.threads ==> s.threads[t] == Idle
  }

  ghost predicate Trace(tr: seq<State>) {
    |tr| > 0 && Init(tr[0]) && forall i :: 0 <= i < |tr| - 1 ==> Next(tr[i], tr[i + 1])
  }

  // ----- the invariant

  /** A copy under a version that is still current is the object itself. */
  ghost predicate CopyOk(s: State, pc: Pc) {
    pc.Writing? ==>
      && pc.read.uid == pc.job.uid && pc.read.version < s.version
      && (pc.job.key in s.objects && s.objects[pc.job.key].version == pc.read.version ==> s.objects[pc.job.key] == pc.read)
  }

  ghost predicate Chained(log: seq<Entry>) {
    forall i :: 0 <= i < |log| && log[i].Renamed? ==> NameIn(log[..i], log[i].job.uid) == Some(log[i].job.oldName)
  }

  ghost predicate Inv(s: State) {
    && (forall o :: o in s.objects ==> s.objects[o].version < s.version && NameIn(s.log, s.objects[o].uid) == Some(s.objects[o].dockerName))
    && (forall o, p :: o in s.objects && p in s.objects && o != p ==> s.objects[o].uid != s.objects[p].uid)
    && (forall t :: t in s.threads ==> CopyOk(s, s.threads[t]))
    && Chained(s.log)
  }

  lemma AppendEntry(log: seq<Entry>, e: Entry)
    requires Chained(log) && (e.Renamed? ==> NameIn(log, e.job.uid) == Some(e.job.oldName))
    ensures Chained(log + [e])
    ensures forall uid :: NameIn(log + [e], uid) ==
              if (if e.Born? then e.uid else e.job.uid) == uid then Some(if e.Born? then e.name else e.job.newName) else NameIn(log, uid)
  {
    var longer := log + [e];
    assert longer[..|log|] == log;
    forall i | 0 <= i < |longer| && longer[i].Renamed?
      ensures NameIn(longer[..i], longer[i].job.uid) == Some(longer[i].job.oldName)
    {
      if i < |log| { assert longer[..i] == log[..i]; }
    }
  }

  lemma UpdateKeeps(s: State, s': State, t: Thread)
    requires Inv(s) && Update(s, s', t)
    ensures Inv(s')
  {
    var job, read := s.threads[t].job, s.threads[t].read;
    assert CopyOk(s, s.threads[t]);
    forall u | u in s'.threads
      ensures CopyOk(s', s'.threads[u])
    {
      if u != t { assert CopyOk(s, s.threads[u]); }
    }
    if s'.log != s.log { AppendEntry(s.log, Renamed(job)); }
  }

  lemma StartGetKeeps(s: State, s': State, t: Thread)
    requires Inv(s) && ((exists job :: Start(s, s', t, job)) || Get(s, s', t))
    ensures Inv(s')
  {
    forall u | u in s'.threads
      ensures CopyOk(s', s'.threads[u])
    {
      if u != t { assert CopyOk(s, s.threads[u]); }
    }
  }

  lemma OtherKeeps(s: State, s': State, key: Name)
    requires Inv(s) && OtherStep(s, s', key)
    ensures Inv(s')
  {
    forall u | u in s'.threads
      ensures CopyOk(s', s'.threads[u])
    {
      assert CopyOk(s, s.threads[u]);
    }
    if s'.log != s.log {
      AppendEntry(s.log, s'.log[|s.log|]);
    }
  }

  lemma {:induction false} TraceKeeps(tr: seq<State>, i: nat)
    requires Trace(tr) && i < |tr|
    ensures Inv(tr[i])
  {
    if i > 0 {
      TraceKeeps(tr, i - 1);
      var s, s' := tr[i - 1], tr[i];
      assert Next(tr[i - 1], tr[i - 1 + 1]);
      if t :| ThreadStep(s, s', t) {
        if Update(s, s', t) { UpdateKeeps(s, s', t); } else { StartGetKeeps(s, s', t); }
      } else {
        var key :| OtherStep(s, s', key);
        OtherKeeps(s, s', key);
      }
    }
  }

  /** However replicas interleave, a step that changes the name of an object is the write of one call,
      on the UID of that call, and replaces exactly the old name of that call by its new one. */
  lemma NameChangeIsExact(tr: seq<State>, i: nat, key: Name)
    requires Trace(tr) && i + 1 < |tr| && key in tr[i].objects && key in tr[i + 1].objects
    requires tr[i + 1].objects[key].dockerName != tr[i].objects[key].dockerName
    ensures exists t :: t in tr[i].threads && tr[i].threads[t].Writing? && Update(tr[i], tr[i + 1], t) &&
              var job := tr[i].threads[t].job;
              job.key == key && job.uid == tr[i].objects[key].uid && job.uid == tr[i + 1].objects[key].uid &&
              job.oldName == tr[i].objects[key].dockerName && job.newName == tr[i + 1].objects[key].dockerName
  {
    TraceKeeps(tr, i);
    assert Next(tr[i], tr[i + 1]);
    var t :| ThreadStep(tr[i], tr[i + 1], t);
    assert Update(tr[i], tr[i + 1], t);
    assert CopyOk(tr[i], tr[i].threads[t]);
  }

  /** Over a whole run every rename starts from the name the previous one left, and the stored name is
      the one the last rename wrote: no completed rename is ever overwritten by one that had read an
      older name. */
  lemma RenamesChain(tr: seq<State>, i: nat)
    requires Trace(tr) && i < |tr|
    ensures Chained(tr[i].log)
    ensures forall o :: o in tr[i].objects ==> NameIn(tr[i].log, tr[i].objects[o].uid) == Some(tr[i].objects[o].dockerName)
  {
    TraceKeeps(tr, i);
  }

  /** A call that reports success has done what it was asked: the object is there, under the UID of the
      call, it had the old name, or already the new one, and it has the new name and all else as it was. */
  lemma OkMeansRenamed(tr: seq<State>, i: nat, t: Thread, job: Job)
    requires Trace(tr) && i + 1 < |tr| && t in tr[i].threads && t in tr[i + 1].threads
    requires tr[i].threads[t].Writing? && tr[i].threads[t].job == job && tr[i + 1].threads[t] == Ended(job, true)
    ensures job.key in tr[i].objects && job.key in tr[i + 1].objects
    ensures tr[i].objects[job.key].uid == job.uid && tr[i + 1].objects[job.key].uid == job.uid
    ensures tr[i].objects[job.key].dockerName in {job.oldName, job.newName}
    ensures tr[i + 1].objects[job.key].dockerName == job.newName && tr[i + 1].objects[job.key].rest == tr[i].objects[job.key].rest
  {
    TraceKeeps(tr, i);
    assert Next(tr[i], tr[i + 1]);
    var u :| ThreadStep(tr[i], tr[i + 1], u);
    assert u == t && CopyOk(tr[i], tr[i].threads[t]);
  }

  /** A call that has read any other name can only fail, whatever happens next. */
  lemma ThirdNameFails(tr: seq<State>, i: nat, t: Thread)
    requires Trace(tr) && i + 1 < |tr| && t in tr[i].threads && tr[i].threads[t].Writing?
    requires tr[i].threads[t].read.dockerName !in {tr[i].threads[t].job.oldName, tr[i].threads[t].job.newName}
    ensures t in tr[i + 1].threads
    ensures tr[i + 1].threads[t] == tr[i].threads[t] || tr[i + 1].threads[t] == Ended(tr[i].threads[t].job, false)
  {
    assert Next(tr[i], tr[i + 1]);
  }

  /** Left alone, a call whose object has the old name, or already the new one, succeeds in two steps. */
  lemma UndisturbedRename(tr: seq<State>, t: Thread, job: Job) returns (longer: seq<State>)
    requires Trace(tr) && t in tr[|tr| - 1].threads && tr[|tr| - 1].threads[t] == Reading(job)
    requires var s := tr[|tr| - 1]; job.key in s.objects && s.objects[job.key].uid == job.uid && s.objects[job.key].dockerName in {job.oldName, job.newName}
    ensures Trace(longer) && tr <= longer
    ensures var s := longer[|longer| - 1];
            t in s.threads && s.threads[t] == Ended(job, true) && job.key in s.objects && s.objects[job.key].dockerName == job.newName
  {
    var s := tr[|tr| - 1];
    var read := s.objects[job.key];
    var got := With(s, t, Writing(job, read));
    assert Get(s, got, t) && ThreadStep(s, got, t);
    longer := Appended(tr, got);
    var written := Mutate(job, read).value;
    var done := State(s.objects[job.key := written.(version := s.version)], s.version + 1, got.threads[t := Ended(job, true)],
                      if written.dockerName != read.dockerName then s.log + [Renamed(job)] else s.log);
    assert Update(got, done, t) && ThreadStep(got, done, t);
    longer := Appended(longer, done);
  }

  lemma Appended(tr: seq<State>, s: State) returns (longer: seq<State>)
    requires Trace(tr) && Next(tr[|tr| - 1], s)
    ensures longer == tr + [s] && Trace(longer)
  {
    longer := tr + [s];
    forall i | 0 <= i < |longer| - 1
      ensures Next(longer[i], longer[i + 1])
    {
      if i < |tr| - 1 { assert Next(tr[i], tr[i + 1]); }
    }
  }
}
