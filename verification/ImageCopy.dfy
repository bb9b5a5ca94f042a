/** Copying a list of descriptors into a destination repository.

    `copyBlobs` hands the blobs of the list to at most three concurrent workers; only when it
    returns without an error does `pushManifests` push the manifests in list order, setting the
    tag in the same call as the root manifest. Every call may fail, with or without having taken
    effect, the request may be cancelled at any time, and other clients may add content. */
module ImageCopy {
  import opened Common
  import opened ImageGraph

  type Tag = string

  /** What the manifest with a given digest names: its blobs and its child manifests. */
  datatype Names = Names(blobs: set<Digest>, children: set<Digest>)

  datatype Store = Store(blobs: set<Digest>, manifests: set<Digest>, tags: map<Tag, Digest>)

  /** One copy: the list, the root and the tag it is to get, and what manifests name, which by
      content addressing depends on the digest alone. */
  datatype Run = Run(descs: seq<Descriptor>, root: Digest, tag: Option<Tag>, names: Digest -> Names)

  /** A blob worker: about to ask whether the blob exists, about to push it, having recorded an
      error but not yet cancelled the context, or about to give its slot back. */
  datatype Worker = Checking | Pushing | Recorded | Leaving

  datatype Phase = Scheduling | Draining | PushingManifests(k: nat) | Done | Failed

  datatype State = State(dest: Store, next: nat, workers: map<nat, Worker>, copyErr: bool, cancelled: bool,
                         phase: Phase)

  const MAX_WORKERS := 3

  function BlobsOf(descs: seq<Descriptor>): seq<Descriptor> {
    if descs == [] then []
    else (if descs[0].IsBlob() then [descs[0]] else []) + BlobsOf(descs[1..])
  }

  function ManifestDigests(descs: seq<Descriptor>): set<Digest> {
    set d | d in descs && !d.IsBlob() :: d.digest
  }

  function BlobDigests(descs: seq<Descriptor>): set<Digest> {
    set d | d in descs && d.IsBlob() :: d.digest
  }

  // ----- the steps

  ghost predicate Init(s: State) {
    s == State(s.dest, 0, map[], false, false, Scheduling)
  }

  ghost predicate Schedule(run: Run, s: State, s': State) {
    && s.phase == Scheduling && s.next < |BlobsOf(run.descs)| && |s.workers| < MAX_WORKERS
    && s' == s.(next := s.next + 1, workers := s.workers[s.next := Checking])
  }

  /** A cancelled context may win the select against a free slot. */
  ghost predicate StopScheduling(run: Run, s: State, s': State) {
    s.phase == Scheduling && s.next < |BlobsOf(run.descs)| && s.cancelled && s' == s.(phase := Draining)
  }

  ghost predicate Exhausted(run: Run, s: State, s': State) {
    s.phase == Scheduling && s.next == |BlobsOf(run.descs)| && s' == s.(phase := Draining)
  }

  function Blob(run: Run, i: nat): Digest {
    if i < |BlobsOf(run.descs)| then BlobsOf(run.descs)[i].digest else ""
  }

  ghost predicate WorkerStep(run: Run, s: State, s': State, i: nat) {
    && i in s.workers
    && match s.workers[i]
       case Checking =>
         if Blob(run, i) in s.dest.blobs then s' == s.(workers := s.workers[i := Leaving]) || WorkerFails(s, s', i)
         else s' == s.(workers := s.workers[i := Pushing]) || WorkerFails(s, s', i)
       case Pushing =>
         || s' == s.(workers := s.workers[i := Leaving], dest := WithBlob(s.dest, Blob(run, i)))
         || WorkerFails(s, s', i)
         || WorkerFails(s.(dest := WithBlob(s.dest, Blob(run, i))), s', i)
       case Recorded => s' == s.(workers := s.workers[i := Leaving], cancelled := true)
       case Leaving => s' == s.(workers := s.workers - {i})
  }

  function WithBlob(dest: Store, d: Digest): Store {
    dest.(blobs := dest.blobs + {d})
  }

  ghost predicate WorkerFails(s: State, s': State, i: nat) {
    s' == s.(workers := s.workers[i := Recorded], copyErr := true)
  }

  ghost predicate Cancel(s: State, s': State) {
    s' == s.(cancelled := true)
  }

  ghost predicate CopyReturns(s: State, s': State) {
    && s.phase == Draining && s.workers == map[]
    && s' == s.(phase := if s.copyErr || s.cancelled then Failed else PushingManifests(0))
  }

  /** The store after manifest `d` was pushed: the tag goes with the root and with nothing else. */
  function WithManifest(run: Run, dest: Store, d: Digest): Store {
    dest.(manifests := dest.manifests + {d},
          tags := if run.tag.Some? && d == run.root then dest.tags[run.tag.value := d] else dest.tags)
  }

  ghost predicate PushStep(run: Run, s: State, s': State) {
    && s.phase.PushingManifests?
    && var k := s.phase.k;
       if k >= |run.descs| then s' == s.(phase := Done)
       else if run.descs[k].IsBlob() then s' == s.(phase := PushingManifests(k + 1))
       else
         var pushed := WithManifest(run, s.dest, run.descs[k].digest);
         || s' == s.(phase := PushingManifests(k + 1), dest := pushed)
         || s' == s.(phase := Failed)
         || s' == s.(phase := Failed, dest := pushed)
  }

  /** Other clients add content, leave the run's tag alone and push no manifest before what it names. */
  ghost predicate OtherClients(run: Run, s: State, s': State) {
    && s' == s.(dest := s'.dest)
    && s.dest.blobs <= s'.dest.blobs && s.dest.manifests <= s'.dest.manifests
    && (forall m :: m in s'.dest.manifests - s.dest.manifests ==> Whole(s'.dest, run.names(m)))
    && (run.tag.Some? ==> SameTag(s.dest, s'.dest, run.tag.value))
  }

  ghost predicate SameTag(a: Store, b: Store, tag: Tag) {
    (tag in a.tags <==> tag in b.tags) && (tag in a.tags ==> a.tags[tag] == b.tags[tag])
  }

  ghost predicate Next(run: Run, s: State, s': State) {
    || Schedule(run, s, s') || StopScheduling(run, s, s') || Exhausted(run, s, s')
    || (exists i :: WorkerStep(run, s, s', i))
    || Cancel(s, s') || CopyReturns(s, s') || PushStep(run, s, s') || OtherClients(run, s, s')
  }

  ghost predicate Trace(run: Run, tr: seq<State>) {
    |tr| > 0 && Init(tr[0]) && forall i :: 0 <= i < |tr| - 1 ==> StepAt(run, tr, i)
  }

  ghost predicate StepAt(run: Run, tr: seq<State>, i: nat) {
    i + 1 < |tr| && Next(run, tr[i], tr[i + 1])
  }

  // ----- what is promised

  ghost predicate Whole(dest: Store, n: Names) {
    n.blobs <= dest.blobs && n.children <= dest.manifests
  }

  /** Everything the manifest names that this run lists is in the destination. */
  ghost predicate ListedWhole(run: Run, dest: Store, m: Digest) {
    && run.names(m).blobs * BlobDigests(run.descs) <= dest.blobs
    && run.names(m).children * ManifestDigests(run.descs) <= dest.manifests
  }

  /** Referential integrity, as far as this run's list goes, of all manifests that came after `start`. */
  ghost predicate Safe(run: Run, start: Store, dest: Store) {
    forall m :: m in dest.manifests - start.manifests ==> ListedWhole(run, dest, m)
  }

  ghost predicate Closed(run: Run, dest: Store) {
    forall m :: m in dest.manifests ==> Whole(dest, run.names(m))
  }

  ghost predicate TagFollowsRoot(run: Run, start: Store, dest: Store) {
    run.tag.Some? ==>
      || SameTag(start, dest, run.tag.value)
      || (run.tag.value in dest.tags && dest.tags[run.tag.value] == run.root &&
          run.root in dest.manifests && ListedWhole(run, dest, run.root))
  }

  /** The list puts every child manifest it holds no later than the manifest that names it. */
  ghost predicate InOrder(run: Run) {
    forall i :: 0 <= i < |run.descs| && !run.descs[i].IsBlob() ==> InOrderAt(run, i)
  }

  ghost predicate InOrderAt(run: Run, i: nat)
    requires i < |run.descs|
  {
    run.names(run.descs[i].digest).children * ManifestDigests(run.descs) <= ManifestDigests(run.descs[..i + 1])
  }

  /** The list holds everything its manifests name. */
  ghost predicate Complete(run: Run) {
    forall m :: m in ManifestDigests(run.descs) ==>
      run.names(m).blobs <= BlobDigests(run.descs) && run.names(m).children <= ManifestDigests(run.descs)
  }

  // ----- the invariant

  ghost predicate Handled(run: Run, s: State, i: nat) {
    Blob(run, i) in s.dest.blobs
  }

  ghost predicate CopyInv(run: Run, s: State) {
    && s.next <= |BlobsOf(run.descs)| && |s.workers| <= MAX_WORKERS
    && (forall i :: i in s.workers ==> i < s.next)
    && (forall i :: i in s.workers && s.workers[i] == Recorded ==> s.copyErr)
    && (!s.copyErr ==> forall i :: 0 <= i < s.next && (i in s.workers ==> s.workers[i] == Leaving) ==> Handled(run, s, i))
    && (s.phase == Draining ==> s.cancelled || s.next == |BlobsOf(run.descs)|)
    && (s.phase.PushingManifests? || s.phase.Done? ==>
          s.workers == map[] && !s.copyErr && s.next == |BlobsOf(run.descs)|)
  }

  ghost predicate PushInv(run: Run, s: State) {
    && (s.phase.PushingManifests? ==> s.phase.k <= |run.descs| && ManifestDigests(run.descs[..s.phase.k]) <= s.dest.manifests)
    && (s.phase.Done? ==> ManifestDigests(run.descs) <= s.dest.manifests)
  }

  ghost predicate Inv(run: Run, start: Store, s: State) {
    && start.blobs <= s.dest.blobs && start.manifests <= s.dest.manifests
    && CopyInv(run, s) && PushInv(run, s)
    && Safe(run, start, s.dest) && TagFollowsRoot(run, start, s.dest)
  }

  lemma {:induction false} BlobsOfDigests(descs: seq<Descriptor>)
    ensures Digests(BlobsOf(descs)) == BlobDigests(descs)
    ensures forall b :: b in BlobsOf(descs) ==> b.IsBlob()
  {
    if descs != [] {
      BlobsOfDigests(descs[1..]);
      assert descs == [descs[0]] + descs[1..];
      var first := if descs[0].IsBlob() then [descs[0]] else [];
      assert Digests(BlobsOf(descs)) == Digests(first) + Digests(BlobsOf(descs[1..]));
      assert BlobDigests(descs) == Digests(first) + BlobDigests(descs[1..]);
    }
  }

  lemma AllHandled(run: Run, s: State)
    requires CopyInv(run, s) && s.workers == map[] && !s.copyErr && s.next == |BlobsOf(run.descs)|
    ensures BlobDigests(run.descs) <= s.dest.blobs
  {
    BlobsOfDigests(run.descs);
    forall d | d in BlobDigests(run.descs)
      ensures d in s.dest.blobs
    {
      var i :| 0 <= i < |BlobsOf(run.descs)| && BlobsOf(run.descs)[i].digest == d;
      assert Handled(run, s, i);
    }
  }

  lemma WorkerHandles(run: Run, s: State, s': State, i: nat, j: nat)
    requires CopyInv(run, s) && WorkerStep(run, s, s', i) && !s'.copyErr
    requires j < s'.next && (j in s'.workers ==> s'.workers[j] == Leaving)
    ensures Handled(run, s', j)
  {
    if j != i { assert Handled(run, s, j); }
  }

  lemma WorkerFrame(run: Run, s: State, s': State, i: nat)
    requires WorkerStep(run, s, s', i)
    ensures s'.next == s.next && s'.phase == s.phase && (s.cancelled ==> s'.cancelled) && s.workers != map[]
    ensures s'.dest.manifests == s.dest.manifests && s'.dest.tags == s.dest.tags && s.dest.blobs <= s'.dest.blobs
    ensures s'.workers.Keys <= s.workers.Keys
    ensures forall j :: j in s'.workers && s'.workers[j] == Recorded ==>
              s'.copyErr || (s.workers[j] == Recorded && s'.copyErr == s.copyErr)
  {
    if s.workers[i] == Leaving {
      assert s'.workers.Keys == s.workers.Keys - {i};
    } else {
      assert s'.workers.Keys == s.workers.Keys;
    }
  }

  lemma WorkerKeeps(run: Run, start: Store, s: State, s': State, i: nat)
    requires Inv(run, start, s) && WorkerStep(run, s, s', i)
    ensures Inv(run, start, s')
  {
    WorkerCopies(run, s, s', i);
    WorkerFrame(run, s, s', i);
    GrowthKeeps(run, start, s, s');
  }

  lemma WorkerCopies(run: Run, s: State, s': State, i: nat)
    requires CopyInv(run, s) && WorkerStep(run, s, s', i)
    ensures CopyInv(run, s')
  {
    WorkerFrame(run, s, s', i);
    SubsetSize(s'.workers.Keys, s.workers.Keys);
    if !s'.copyErr {
      forall j | 0 <= j < s'.next && (j in s'.workers ==> s'.workers[j] == Leaving)
        ensures Handled(run, s', j)
      {
        WorkerHandles(run, s, s', i, j);
      }
    }
  }

  lemma GrowthKeeps(run: Run, start: Store, s: State, s': State)
    requires Inv(run, start, s)
    requires s'.dest.manifests == s.dest.manifests && s.dest.blobs <= s'.dest.blobs && s'.dest.tags == s.dest.tags
    ensures Safe(run, start, s'.dest) && TagFollowsRoot(run, start, s'.dest)
  {
  }

  lemma PrefixManifests(descs: seq<Descriptor>, k: nat)
    requires k < |descs|
    ensures ManifestDigests(descs[..k + 1]) ==
            ManifestDigests(descs[..k]) + if descs[k].IsBlob() then {} else {descs[k].digest}
  {
  }

  lemma PushedKeeps(run: Run, start: Store, dest: Store, k: nat)
    requires k < |run.descs| && !run.descs[k].IsBlob() && InOrder(run)
    requires start.manifests <= dest.manifests && Safe(run, start, dest) && TagFollowsRoot(run, start, dest)
    requires BlobDigests(run.descs) <= dest.blobs && ManifestDigests(run.descs[..k]) <= dest.manifests
    ensures var pushed := WithManifest(run, dest, run.descs[k].digest);
            && ManifestDigests(run.descs[..k + 1]) <= pushed.manifests
            && Safe(run, start, pushed) && TagFollowsRoot(run, start, pushed)
  {
    var d := run.descs[k].digest;
    var pushed := WithManifest(run, dest, d);
    PrefixManifests(run.descs, k);
    assert InOrderAt(run, k);
    assert ListedWhole(run, pushed, d);
    forall m | m in pushed.manifests - start.manifests
      ensures ListedWhole(run, pushed, m)
    {
      if m != d { assert ListedWhole(run, dest, m); }
    }
  }

  lemma PushKeeps(run: Run, start: Store, s: State, s': State)
    requires InOrder(run) && Inv(run, start, s) && PushStep(run, s, s')
    ensures Inv(run, start, s')
  {
    var k := s.phase.k;
    AllHandled(run, s);
    if k >= |run.descs| {
      assert run.descs[..k] == run.descs;
    } else if run.descs[k].IsBlob() {
      PrefixManifests(run.descs, k);
    } else {
      PushedKeeps(run, start, s.dest, k);
    }
    HandledStays(run, s, s');
  }

  /** Steps that touch neither the workers nor the scheduler keep what is handled. */
  lemma HandledStays(run: Run, s: State, s': State)
    requires CopyInv(run, s) && s.dest.blobs <= s'.dest.blobs
    requires s'.next == s.next && s'.workers == s.workers && s'.copyErr == s.copyErr
    ensures !s'.copyErr ==>
              forall i :: 0 <= i < s'.next && (i in s'.workers ==> s'.workers[i] == Leaving) ==> Handled(run, s', i)
  {
  }

  lemma OthersKeep(run: Run, start: Store, s: State, s': State)
    requires Inv(run, start, s) && OtherClients(run, s, s')
    ensures Inv(run, start, s')
  {
    forall m | m in s'.dest.manifests - start.manifests
      ensures ListedWhole(run, s'.dest, m)
    {
      if m in s.dest.manifests { assert ListedWhole(run, s.dest, m); }
    }
    HandledStays(run, s, s');
  }

  lemma ScheduleCopies(run: Run, s: State, s': State)
    requires CopyInv(run, s) && Schedule(run, s, s')
    ensures CopyInv(run, s')
  {
    assert s'.workers.Keys == s.workers.Keys + {s.next};
    if !s'.copyErr {
      forall i | 0 <= i < s'.next && (i in s'.workers ==> s'.workers[i] == Leaving)
        ensures Handled(run, s', i)
      {
        assert Handled(run, s, i);
      }
    }
  }

  lemma ScheduleKeeps(run: Run, start: Store, s: State, s': State)
    requires Inv(run, start, s) && Schedule(run, s, s')
    ensures Inv(run, start, s')
  {
    ScheduleCopies(run, s, s');
    assert s'.dest == s.dest;
  }

  lemma ControlKeeps(run: Run, start: Store, s: State, s': State)
    requires Inv(run, start, s)
    requires StopScheduling(run, s, s') || Exhausted(run, s, s') || Cancel(s, s') || CopyReturns(s, s')
    ensures Inv(run, start, s')
  {
    HandledStays(run, s, s');
    assert run.descs[..0] == [];
  }

  lemma NextKeeps(run: Run, start: Store, s: State, s': State)
    requires InOrder(run) && Inv(run, start, s) && Next(run, s, s')
    ensures Inv(run, start, s')
  {
    if Schedule(run, s, s') {
      ScheduleKeeps(run, start, s, s');
    } else if StopScheduling(run, s, s') || Exhausted(run, s, s') || Cancel(s, s') || CopyReturns(s, s') {
      ControlKeeps(run, start, s, s');
    } else if PushStep(run, s, s') {
      PushKeeps(run, start, s, s');
    } else if OtherClients(run, s, s') {
      OthersKeep(run, start, s, s');
    } else {
      var i :| WorkerStep(run, s, s', i);
      WorkerKeeps(run, start, s, s', i);
    }
  }

  lemma Stepped(run: Run, tr: seq<State>, i: nat)
    requires Trace(run, tr) && 0 < i < |tr|
    ensures Next(run, tr[i - 1], tr[i])
  {
    assert StepAt(run, tr, i - 1);
  }

  lemma {:induction false} TraceKeeps(run: Run, tr: seq<State>, i: nat)
    requires Trace(run, tr) && i < |tr| && InOrder(run)
    ensures Inv(run, tr[0].dest, tr[i])
  {
    if i == 0 {
      assert Inv(run, tr[0].dest, tr[0]);
    } else {
      TraceKeeps(run, tr, i - 1);
      Stepped(run, tr, i);
      NextKeeps(run, tr[0].dest, tr[i - 1], tr[i]);
    }
  }

  /** In every state of a copy whose list is in order: at most three workers are in flight, no
      manifest is in the destination before what it names and the list holds, the tag moves only
      to the root manifest and only together with it, manifests are pushed only after every blob
      was handled, and a run that ends well has stored the whole list. */
  lemma CopySafe(run: Run, tr: seq<State>, i: nat)
    requires Trace(run, tr) && i < |tr| && InOrder(run)
    ensures |tr[i].workers| <= MAX_WORKERS
    ensures Safe(run, tr[0].dest, tr[i].dest) && TagFollowsRoot(run, tr[0].dest, tr[i].dest)
    ensures tr[i].phase.PushingManifests? || tr[i].phase.Done? ==> BlobDigests(run.descs) <= tr[i].dest.blobs
    ensures tr[i].phase.Done? ==> ManifestDigests(run.descs) <= tr[i].dest.manifests
  {
    TraceKeeps(run, tr, i);
    if tr[i].phase.PushingManifests? || tr[i].phase.Done? { AllHandled(run, tr[i]); }
  }

  // ----- the tag is set

  /** The run's tag names its root. */
  ghost predicate Tagged(run: Run, dest: Store) {
    run.tag.Some? ==> run.tag.value in dest.tags && dest.tags[run.tag.value] == run.root
  }

  /** Once the root has been pushed the tag names it, and at the end if the root is listed at all. */
  ghost predicate TagInv(run: Run, s: State) {
    && (s.phase.PushingManifests? ==> s.phase.k <= |run.descs| && (run.root in ManifestDigests(run.descs[..s.phase.k]) ==> Tagged(run, s.dest)))
    && (s.phase.Done? ==> run.root in ManifestDigests(run.descs) ==> Tagged(run, s.dest))
  }

  lemma PushTags(run: Run, s: State, s': State)
    requires TagInv(run, s) && PushStep(run, s, s')
    ensures TagInv(run, s')
  {
    if s.phase.k < |run.descs| {
      PrefixManifests(run.descs, s.phase.k);
    } else {
      assert run.descs[..s.phase.k] == run.descs;
    }
  }

  lemma NextTags(run: Run, s: State, s': State)
    requires TagInv(run, s) && Next(run, s, s')
    ensures TagInv(run, s')
  {
    if PushStep(run, s, s') {
      PushTags(run, s, s');
    } else if CopyReturns(s, s') {
      assert run.descs[..0] == [];
    } else if i :| WorkerStep(run, s, s', i) {
      WorkerFrame(run, s, s', i);
    }
  }

  /** In every state of every run, in whatever order the list is: once the push of the root has succeeded
      the tag names it, and a run that ends well with the root on its list has set the tag. */
  lemma {:induction false} TagIsSet(run: Run, tr: seq<State>, i: nat)
    requires Trace(run, tr) && i < |tr|
    ensures TagInv(run, tr[i])
    ensures tr[i].phase.Done? && run.tag.Some? && run.root in ManifestDigests(run.descs) ==>
              run.tag.value in tr[i].dest.tags && tr[i].dest.tags[run.tag.value] == run.root
    ensures tr[i].phase.PushingManifests? && run.tag.Some? ==>
              forall j :: 0 <= j < tr[i].phase.k && j < |run.descs| && run.descs[j].digest == run.root && !run.descs[j].IsBlob() ==>
                run.tag.value in tr[i].dest.tags && tr[i].dest.tags[run.tag.value] == run.root
  {
    if i > 0 {
      TagIsSet(run, tr, i - 1);
      Stepped(run, tr, i);
      NextTags(run, tr[i - 1], tr[i]);
    }
    if tr[i].phase.PushingManifests? {
      forall j | 0 <= j < tr[i].phase.k && run.descs[j].digest == run.root && !run.descs[j].IsBlob()
        ensures run.root in ManifestDigests(run.descs[..tr[i].phase.k])
      {
        assert run.descs[..tr[i].phase.k][j] == run.descs[j];
      }
    }
  }

  // ----- a complete list keeps the whole destination closed

  lemma PushStaysClosed(run: Run, s: State, s': State)
    requires InOrder(run) && Complete(run) && CopyInv(run, s) && PushInv(run, s)
    requires Closed(run, s.dest) && PushStep(run, s, s')
    ensures Closed(run, s'.dest)
  {
    AllHandled(run, s);
    var k := s.phase.k;
    forall m | m in s'.dest.manifests
      ensures Whole(s'.dest, run.names(m))
    {
      if m in s.dest.manifests {
        assert Whole(s.dest, run.names(m));
      } else {
        assert m == run.descs[k].digest && run.descs[k] in run.descs;
        assert InOrderAt(run, k);
        PrefixManifests(run.descs, k);
      }
    }
  }

  /** Apart from the pushes, content only grows, and new manifests come whole. */
  lemma OtherGrowth(run: Run, s: State, s': State)
    requires Next(run, s, s') && !PushStep(run, s, s')
    ensures s.dest.blobs <= s'.dest.blobs && s.dest.manifests <= s'.dest.manifests
    ensures forall m :: m in s'.dest.manifests - s.dest.manifests ==> Whole(s'.dest, run.names(m))
  {
  }

  lemma ClosedStep(run: Run, s: State, s': State)
    requires InOrder(run) && Complete(run) && CopyInv(run, s) && PushInv(run, s) && Closed(run, s.dest) && Next(run, s, s')
    ensures Closed(run, s'.dest)
  {
    if PushStep(run, s, s') {
      PushStaysClosed(run, s, s');
    } else {
      OtherGrowth(run, s, s');
      forall m | m in s'.dest.manifests
        ensures Whole(s'.dest, run.names(m))
      {
        if m in s.dest.manifests { assert Whole(s.dest, run.names(m)); }
      }
    }
  }

  /** A complete list in order copied into a closed repository: the repository is closed in every
      state of every run, whatever fails and whenever. */
  lemma {:induction false} CopyStaysClosed(run: Run, tr: seq<State>, i: nat)
    requires Trace(run, tr) && i < |tr| && InOrder(run) && Complete(run) && Closed(run, tr[0].dest)
    ensures Closed(run, tr[i].dest)
  {
    if i > 0 {
      CopyStaysClosed(run, tr, i - 1);
      ClosedAt(run, tr, i);
    }
  }

  lemma ClosedAt(run: Run, tr: seq<State>, i: nat)
    requires Trace(run, tr) && 0 < i < |tr| && InOrder(run) && Complete(run) && Closed(run, tr[i - 1].dest)
    ensures Closed(run, tr[i].dest)
  {
    TraceKeeps(run, tr, i - 1);
    Stepped(run, tr, i);
    ClosedStep(run, tr[i - 1], tr[i]);
  }

  // ----- a list that is not in order has a run that breaks integrity

  lemma AppendStep(run: Run, tr: seq<State>, s: State)
    requires Trace(run, tr) && Next(run, tr[|tr| - 1], s)
    ensures Trace(run, tr + [s])
  {
    var longer := tr + [s];
    forall i | 0 <= i < |longer| - 1
      ensures StepAt(run, longer, i)
    {
      if i < |tr| - 1 { assert StepAt(run, tr, i); }
    }
  }

  lemma OneWorkerStep(run: Run, tr: seq<State>, i: nat, before: Worker, after: Worker, dest: Store)
    requires Trace(run, tr) && tr[|tr| - 1].workers == map[i := before]
    requires WorkerStep(run, tr[|tr| - 1], tr[|tr| - 1].(workers := map[i := before][i := after], dest := dest), i)
    ensures Trace(run, tr + [tr[|tr| - 1].(workers := map[i := after], dest := dest)])
  {
    assert map[i := before][i := after] == map[i := after];
    AppendStep(run, tr, tr[|tr| - 1].(workers := map[i := after], dest := dest));
  }

  /** One worker takes the next blob, pushes it unless it is in the destination and gives its slot back. */
  lemma OneBlob(run: Run, tr: seq<State>) returns (longer: seq<State>)
    requires Trace(run, tr)
    requires var s := tr[|tr| - 1]; s.phase == Scheduling && s.workers == map[] && s.next < |BlobsOf(run.descs)|
    ensures Trace(run, longer) && longer[0] == tr[0]
    ensures var s := tr[|tr| - 1];
            longer[|longer| - 1] == s.(next := s.next + 1, dest := s.dest.(blobs := s.dest.blobs + {Blob(run, s.next)}))
  {
    var s := tr[|tr| - 1];
    var i := s.next;
    var stored := WithBlob(s.dest, Blob(run, i));
    var scheduled := s.(next := i + 1, workers := map[i := Checking]);
    assert Schedule(run, s, scheduled);
    AppendStep(run, tr, scheduled);
    longer := tr + [scheduled];
    if Blob(run, i) in s.dest.blobs {
      assert stored == s.dest;
      OneWorkerStep(run, longer, i, Checking, Leaving, stored);
    } else {
      OneWorkerStep(run, longer, i, Checking, Pushing, s.dest);
      longer := longer + [scheduled.(workers := map[i := Pushing])];
      OneWorkerStep(run, longer, i, Pushing, Leaving, stored);
    }
    longer := longer + [scheduled.(workers := map[i := Leaving], dest := stored)];
    var left := scheduled.(workers := map[], dest := stored);
    assert map[i := Leaving] - {i} == map[];
    assert WorkerStep(run, longer[|longer| - 1], left, i);
    AppendStep(run, longer, left);
    longer := longer + [left];
  }

  lemma {:induction false} UndisturbedBlobs(run: Run, start: Store, j: nat) returns (tr: seq<State>)
    requires j <= |BlobsOf(run.descs)|
    ensures Trace(run, tr) && tr[0].dest == start
    ensures tr[|tr| - 1] == State(start.(blobs := start.blobs + Digests(BlobsOf(run.descs)[..j])), j, map[], false, false, Scheduling)
  {
    var blobs := BlobsOf(run.descs);
    if j == 0 {
      assert start.blobs + Digests(blobs[..0]) == start.blobs;
      tr := [State(start, 0, map[], false, false, Scheduling)];
    } else {
      tr := UndisturbedBlobs(run, start, j - 1);
      tr := OneBlob(run, tr);
      assert blobs[..j] == blobs[..j - 1] + [blobs[j - 1]];
      assert Digests(blobs[..j]) == Digests(blobs[..j - 1]) + {blobs[j - 1].digest};
      assert start.blobs + Digests(blobs[..j]) == start.blobs + Digests(blobs[..j - 1]) + {Blob(run, j - 1)};
    }
  }

  /** Undisturbed, a run gets to the manifests with all of its blobs stored ... */
  lemma UndisturbedCopy(run: Run, start: Store) returns (tr: seq<State>)
    ensures Trace(run, tr) && tr[0].dest == start
    ensures tr[|tr| - 1] == State(start.(blobs := start.blobs + BlobDigests(run.descs)), |BlobsOf(run.descs)|, map[],
                                  false, false, PushingManifests(0))
  {
    var n := |BlobsOf(run.descs)|;
    tr := UndisturbedBlobs(run, start, n);
    assert BlobsOf(run.descs)[..n] == BlobsOf(run.descs);
    BlobsOfDigests(run.descs);
    var drained := tr[|tr| - 1].(phase := Draining);
    assert Exhausted(run, tr[|tr| - 1], drained);
    AppendStep(run, tr, drained);
    var returned := drained.(phase := PushingManifests(0));
    assert CopyReturns(drained, returned);
    AppendStep(run, tr + [drained], returned);
    tr := tr + [drained] + [returned];
  }

  /** ... then to every prefix of its manifests ... */
  lemma {:induction false} UndisturbedPush(run: Run, start: Store, k: nat) returns (tr: seq<State>)
    requires k <= |run.descs|
    ensures Trace(run, tr) && tr[0].dest == start && tr[|tr| - 1].phase == PushingManifests(k)
    ensures tr[|tr| - 1].dest.blobs == start.blobs + BlobDigests(run.descs)
    ensures tr[|tr| - 1].dest.manifests == start.manifests + ManifestDigests(run.descs[..k])
  {
    if k == 0 {
      tr := UndisturbedCopy(run, start);
    } else {
      tr := UndisturbedPush(run, start, k - 1);
      var s := tr[|tr| - 1];
      var desc := run.descs[k - 1];
      var pushed := s.(phase := PushingManifests(k),
                       dest := if desc.IsBlob() then s.dest else WithManifest(run, s.dest, desc.digest));
      assert PushStep(run, s, pushed);
      AppendStep(run, tr, pushed);
      tr := tr + [pushed];
      PrefixManifests(run.descs, k - 1);
    }
  }

  /** ... and to its end, from any destination: exactly the list has been added, and the tag names the
      root. */
  lemma UndisturbedRun(run: Run, start: Store) returns (tr: seq<State>)
    ensures Trace(run, tr) && tr[0].dest == start && tr[|tr| - 1].phase == Done
    ensures tr[|tr| - 1].dest.blobs == start.blobs + BlobDigests(run.descs)
    ensures tr[|tr| - 1].dest.manifests == start.manifests + ManifestDigests(run.descs)
    ensures run.root in ManifestDigests(run.descs) ==> Tagged(run, tr[|tr| - 1].dest)
  {
    tr := UndisturbedPush(run, start, |run.descs|);
    var done := tr[|tr| - 1].(phase := Done);
    assert PushStep(run, tr[|tr| - 1], done);
    AppendStep(run, tr, done);
    tr := tr + [done];
    assert run.descs[..|run.descs|] == run.descs;
    TagIsSet(run, tr, |tr| - 1);
  }

  /** A run that was cancelled, or met an error, while it copied blobs. */
  ghost predicate Spoilt(s: State) {
    (s.phase == Scheduling || s.phase == Draining) && (s.copyErr || s.cancelled)
  }

  /** From then on it pushes no manifest and does not end well, and a run that has failed stays failed. */
  lemma {:induction false} SpoiltNeverEndsWell(run: Run, tr: seq<State>, i: nat, j: nat)
    requires Trace(run, tr) && i <= j < |tr| && (Spoilt(tr[i]) || tr[i].phase == Failed)
    ensures Spoilt(tr[j]) || tr[j].phase == Failed
    decreases j
  {
    if i < j {
      SpoiltNeverEndsWell(run, tr, i, j - 1);
      assert StepAt(run, tr, j - 1);
      SpoiltStays(run, tr[j - 1], tr[j]);
    }
  }

  lemma SpoiltStays(run: Run, s: State, s': State)
    requires Next(run, s, s') && (Spoilt(s) || s.phase == Failed)
    ensures Spoilt(s') || s'.phase == Failed
  {
  }

  /** A list is in order exactly when no run of it, from any destination, ever holds a manifest
      without what it names and the list holds. */
  lemma OrderIsSafety(run: Run)
    ensures InOrder(run) <==> forall tr: seq<State>, i: nat :: Trace(run, tr) && 0 <= i < |tr| ==> Safe(run, tr[0].dest, tr[i].dest)
  {
    if InOrder(run) {
      forall tr: seq<State>, i: nat | Trace(run, tr) && 0 <= i < |tr|
        ensures Safe(run, tr[0].dest, tr[i].dest)
      {
        CopySafe(run, tr, i);
      }
    } else {
      var i :| 0 <= i < |run.descs| && !run.descs[i].IsBlob() && !InOrderAt(run, i);
      var tr := UndisturbedPush(run, Store(BlobDigests(run.descs), {}, map[]), i + 1);
      var last := tr[|tr| - 1].dest;
      assert last.manifests == ManifestDigests(run.descs[..i + 1]);
      assert run.descs[..i + 1][i] == run.descs[i];
      assert run.descs[i].digest in last.manifests;
      assert !ListedWhole(run, last, run.descs[i].digest);
      assert !Safe(run, tr[0].dest, last);
    }
  }
}
