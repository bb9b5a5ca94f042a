/** The walk that lists the content of an image before it is copied.

    A registry repository is read as a finite map from digests to manifests. The walk
    is depth first, shares one set of seen digests between manifests and blobs, refuses
    to nest more than 32 levels and emits a manifest after everything it names. */
module ImageGraph {
  import opened Common

  type Digest = string

  /** The only distinction the copy draws between media types. */
  datatype Media = IndexMedia | ManifestMedia | OtherMedia

  datatype Descriptor = Descriptor(digest: Digest, media: Media) {
    predicate IsBlob() { media == OtherMedia }
  }

  /** An index child. `matches` is the verdict of the platform matcher; `attests` is the
      digest in the attestation annotation, when the child carries one. */
  datatype Entry = Entry(desc: Descriptor, matches: bool, attests: Option<Digest>)

  /** What a stored manifest decodes to. `Unreadable` stands for bytes that do not decode
      and for media types that are neither an index nor a manifest. */
  datatype Content =
    | Index(entries: seq<Entry>)
    | Image(layers: seq<Descriptor>, config: Option<Descriptor>)
    | Unreadable

  /** `Broken` is a read that fails with an error other than "not found". */
  datatype Fetch = Found(content: Content) | Broken

  datatype BlobFetch = Present | Unresolved

  /** A repository that does not change while it is read. A digest outside the maps is
      reported as not found. */
  datatype Source = Source(manifests: map<Digest, Fetch>,
                           blobs: map<Digest, BlobFetch>,
                           referrers: map<Digest, seq<Descriptor>>)

  datatype WalkError = TooDeep | NotFound(digest: Digest) | ReadFailed(digest: Digest) | Several(errors: seq<WalkError>)

  datatype WalkState = WalkState(seen: set<Digest>, out: seq<Descriptor>)

  const MAX_DEPTH := 32

  function Blobs(layers: seq<Descriptor>, config: Option<Descriptor>): seq<Descriptor> {
    layers + if config.Some? then [config.value] else []
  }

  /** Everything a manifest names. */
  function Refs(content: Content): seq<Descriptor> {
    match content
    case Index(entries) => seq(|entries|, i requires 0 <= i < |entries| => entries[i].desc)
    case Image(layers, config) => Blobs(layers, config)
    case Unreadable => []
  }

  function MediaOf(content: Content): Media {
    match content
    case Index(_) => IndexMedia
    case Image(_, _) => ManifestMedia
    case Unreadable => OtherMedia
  }

  function Digests(descs: seq<Descriptor>): set<Digest> {
    set d | d in descs :: d.digest
  }

  // ----- the walk, as a function of the state it updates

  function Walk(src: Source, allowMissing: bool, d: Digest, depth: nat, st: WalkState): Result<WalkState, WalkError>
    requires depth <= MAX_DEPTH + 1
    decreases MAX_DEPTH + 1 - depth, 0
  {
    if depth > MAX_DEPTH then Failure(TooDeep)
    else if d in st.seen then Success(st)
    else
      var entered := st.(seen := st.seen + {d});
      if d !in src.manifests then
        if allowMissing && depth > 0 then Success(entered) else Failure(NotFound(d))
      else if src.manifests[d].Broken? || src.manifests[d].content.Unreadable? then Failure(ReadFailed(d))
      else
        var content := src.manifests[d].content;
        var below :-
          if content.Index? then WalkChildren(src, allowMissing, content.entries, depth + 1, entered)
          else AddBlobs(src, allowMissing, Blobs(content.layers, content.config), entered);
        Success(below.(out := below.out + [Descriptor(d, MediaOf(content))]))
  }

  function WalkChildren(src: Source, allowMissing: bool, entries: seq<Entry>, depth: nat, st: WalkState)
    : Result<WalkState, WalkError>
    requires depth <= MAX_DEPTH + 1
    decreases MAX_DEPTH + 1 - depth, 1 + |entries|
  {
    if entries == [] then Success(st)
    else
      var next :- Walk(src, allowMissing, entries[0].desc.digest, depth, st);
      WalkChildren(src, allowMissing, entries[1..], depth, next)
  }

  function AddBlob(src: Source, allowMissing: bool, blob: Descriptor, st: WalkState): Result<WalkState, WalkError> {
    if blob.digest in st.seen then Success(st)
    else if blob.digest !in src.blobs then
      if allowMissing then Success(st) else Failure(NotFound(blob.digest))
    else if src.blobs[blob.digest].Unresolved? then Failure(ReadFailed(blob.digest))
    else Success(WalkState(st.seen + {blob.digest}, st.out + [blob]))
  }

  function AddBlobs(src: Source, allowMissing: bool, blobs: seq<Descriptor>, st: WalkState): Result<WalkState, WalkError>
    decreases |blobs|
  {
    if blobs == [] then Success(st)
    else
      var next :- AddBlob(src, allowMissing, blobs[0], st);
      AddBlobs(src, allowMissing, blobs[1..], next)
  }

  /** `imageDescriptors`: the walk from the root over empty state. */
  function ImageDescriptors(src: Source, root: Digest, allowMissing: bool): Result<seq<Descriptor>, WalkError> {
    var st :- Walk(src, allowMissing, root, 0, WalkState({}, []));
    Success(st.out)
  }

  // ----- the walk, as the closure that mutates `seen` and `descriptors`

  class Walker {
    const src: Source
    const allowMissing: bool
    var seen: set<Digest>
    var descriptors: seq<Descriptor>

    ghost function State(): WalkState
      reads this
    {
      WalkState(seen, descriptors)
    }

    constructor (src: Source, allowMissing: bool)
      ensures this.src == src && this.allowMissing == allowMissing
      ensures State() == WalkState({}, [])
    {
      this.src, this.allowMissing := src, allowMissing;
      seen, descriptors := {}, [];
    }

    method Visit(d: Digest, depth: nat) returns (err: Option<WalkError>)
      requires depth <= MAX_DEPTH + 1
      modifies this
      ensures Walk(src, allowMissing, d, depth, old(State())) ==
              if err.None? then Success(State()) else Failure(err.value)
      decreases MAX_DEPTH + 1 - depth
    {
      if depth > MAX_DEPTH { return Some(TooDeep); }
      if d in seen { return None; }
      seen := seen + {d};
      if d !in src.manifests {
        if allowMissing && depth > 0 { return None; }
        return Some(NotFound(d));
      }
      if src.manifests[d].Broken? || src.manifests[d].content.Unreadable? { return Some(ReadFailed(d)); }
      var content := src.manifests[d].content;
      ghost var entered := State();
      if content.Index? {
        var entries := content.entries;
        for i := 0 to |entries|
          invariant WalkChildren(src, allowMissing, entries, depth + 1, entered) ==
                    WalkChildren(src, allowMissing, entries[i..], depth + 1, State())
        {
          err := Visit(entries[i].desc.digest, depth + 1);
          assert entries[i..][1..] == entries[i + 1..];
          if err.Some? { return; }
        }
      } else {
        var blobs := Blobs(content.layers, content.config);
        for i := 0 to |blobs|
          invariant AddBlobs(src, allowMissing, blobs, entered) ==
                    AddBlobs(src, allowMissing, blobs[i..], State())
        {
          assert blobs[i..][1..] == blobs[i + 1..];
          var blob := blobs[i];
          if blob.digest in seen { continue; }
          if blob.digest !in src.blobs {
            if allowMissing { continue; }
            return Some(NotFound(blob.digest));
          }
          if src.blobs[blob.digest].Unresolved? { return Some(ReadFailed(blob.digest)); }
          seen := seen + {blob.digest};
          descriptors := descriptors + [blob];
        }
      }
      descriptors := descriptors + [Descriptor(d, MediaOf(content))];
      return None;
    }
  }

  method ListImage(src: Source, root: Digest, allowMissing: bool) returns (r: Result<seq<Descriptor>, WalkError>)
    ensures r == ImageDescriptors(src, root, allowMissing)
  {
    var walker := new Walker(src, allowMissing);
    var err := walker.Visit(root, 0);
    return if err.Some? then Failure(err.value) else Success(walker.descriptors);
  }

  // ----- what the list means

  ghost predicate Edge(src: Source, a: Digest, b: Digest) {
    a in src.manifests && src.manifests[a].Found? && b in Digests(Refs(src.manifests[a].content))
  }

  ghost predicate Path(src: Source, p: seq<Digest>) {
    |p| > 0 && forall i :: 0 <= i < |p| - 1 ==> Edge(src, p[i], p[i + 1])
  }

  ghost predicate Reach(src: Source, root: Digest, d: Digest) {
    exists p :: Path(src, p) && p[0] == root && p[|p| - 1] == d
  }

  /** No digest is used both as a blob and as a manifest: `blobs` holds every digest named
      as a layer or configuration, and none of them is the root, an index child or a stored
      manifest. Blob descriptors carry a blob media type and children a manifest one. */
  ghost predicate RolesApart(src: Source, root: Digest, blobs: set<Digest>) {
    && root !in blobs
    && src.manifests.Keys !! blobs
    && forall m :: m in src.manifests && src.manifests[m].Found? ==> RolesApartIn(src.manifests[m].content, blobs)
  }

  ghost predicate RolesApartIn(content: Content, blobs: set<Digest>) {
    forall r :: r in Refs(content) ==> (r.digest in blobs <==> content.Image?) && (r.IsBlob() <==> content.Image?)
  }

  /** Content addressing: a manifest is named by the digest of bytes that contain the digests
      of its children, so following references always descends. */
  ghost predicate Acyclic(src: Source, rank: Digest -> nat) {
    forall a, b {:trigger Edge(src, a, b)} :: Edge(src, a, b) ==> rank(b) < rank(a)
  }

  ghost predicate Stored(src: Source, blobs: set<Digest>, d: Digest) {
    if d in blobs then d in src.blobs else d in src.manifests
  }

  ghost predicate Distinct(descs: seq<Descriptor>) {
    forall i, j :: 0 <= i < j < |descs| ==> descs[i].digest != descs[j].digest
  }

  /** Every stored digest that a listed manifest names stands before that manifest. */
  ghost predicate ChildrenFirst(src: Source, blobs: set<Digest>, descs: seq<Descriptor>) {
    forall i :: 0 <= i < |descs| ==> NamedBefore(src, blobs, descs, i)
  }

  ghost predicate NamedBefore(src: Source, blobs: set<Digest>, descs: seq<Descriptor>, i: nat)
    requires i < |descs|
  {
    forall r {:trigger Edge(src, descs[i].digest, r)} ::
      Edge(src, descs[i].digest, r) && Stored(src, blobs, r) ==> r in Digests(descs[..i])
  }

  /** The context of a walk: hypotheses, the digests whose visit is still open, and, when the
      graph is known to be acyclic, a rank that references descend. */
  datatype Context = Context(src: Source, allowMissing: bool, root: Digest, blobs: set<Digest>,
                             ranked: bool, rank: Digest -> nat)

  ghost predicate ContextOk(c: Context) {
    RolesApart(c.src, c.root, c.blobs) && (c.ranked ==> Acyclic(c.src, c.rank))
  }

  ghost predicate Inv(c: Context, open: set<Digest>, st: WalkState) {
    && Distinct(st.out)
    && open <= st.seen
    && Digests(st.out) <= st.seen - open
    && (forall d :: d in st.seen - open ==> (d in Digests(st.out) <==> Stored(c.src, c.blobs, d)))
    && (forall d :: d in st.seen - open && !c.allowMissing ==> Stored(c.src, c.blobs, d))
    && (forall d :: d in st.seen ==> Reach(c.src, c.root, d))
    && (forall d :: d in st.seen - open ==> Settled(c, st.seen, d))
    && (forall d :: d in st.out ==> Typed(c, d))
    && (c.ranked ==> ChildrenFirst(c.src, c.blobs, st.out))
  }

  /** A descriptor's media type agrees with what its digest stands for. */
  ghost predicate Typed(c: Context, d: Descriptor) {
    if d.digest in c.blobs then d.IsBlob()
    else d.digest in c.src.manifests && c.src.manifests[d.digest].Found? &&
         match c.src.manifests[d.digest].content
         case Index(_) => d.media == IndexMedia
         case Image(_, _) => d.media == ManifestMedia
         case Unreadable => false
  }

  /** What a finished digest names has been seen, unless it is a blob that is not stored. */
  ghost predicate Settled(c: Context, seen: set<Digest>, d: Digest) {
    forall r {:trigger Edge(c.src, d, r)} ::
      Edge(c.src, d, r) ==> r in seen || (c.allowMissing && r in c.blobs && !Stored(c.src, c.blobs, r))
  }

  lemma ReachStep(src: Source, root: Digest, a: Digest, b: Digest)
    requires Reach(src, root, a) && Edge(src, a, b)
    ensures Reach(src, root, b)
  {
    var p :| Path(src, p) && p[0] == root && p[|p| - 1] == a;
    var q := p + [b];
    assert forall i :: 0 <= i < |q| - 1 ==> Edge(src, q[i], q[i + 1]);
    assert Path(src, q) && q[0] == root && q[|q| - 1] == b;
  }

  lemma AppendKeepsOrder(src: Source, blobs: set<Digest>, out: seq<Descriptor>, d: Descriptor)
    requires ChildrenFirst(src, blobs, out)
    requires forall r {:trigger Edge(src, d.digest, r)} ::
               Edge(src, d.digest, r) && Stored(src, blobs, r) ==> r in Digests(out)
    ensures ChildrenFirst(src, blobs, out + [d])
  {
    var longer := out + [d];
    forall i | 0 <= i < |longer|
      ensures NamedBefore(src, blobs, longer, i)
    {
      if i < |out| {
        assert NamedBefore(src, blobs, out, i);
        assert longer[..i] == out[..i];
      } else {
        assert longer[..i] == out;
      }
    }
  }

  lemma AddBlobKeeps(c: Context, open: set<Digest>, blob: Descriptor, st: WalkState)
    requires ContextOk(c) && Inv(c, open, st)
    requires blob.digest in c.blobs && blob.IsBlob() && Reach(c.src, c.root, blob.digest)
    requires open !! c.blobs
    requires AddBlob(c.src, c.allowMissing, blob, st).Success?
    ensures var st' := AddBlob(c.src, c.allowMissing, blob, st).value;
            && Inv(c, open, st') && st.seen <= st'.seen && st.out <= st'.out
            && (blob.digest in st'.seen || (c.allowMissing && !Stored(c.src, c.blobs, blob.digest)))
  {
    var st' := AddBlob(c.src, c.allowMissing, blob, st).value;
    if st' != st {
      assert st'.out == st.out + [blob];
      assert Digests(st'.out) == Digests(st.out) + {blob.digest};
      forall d | d in st'.seen - open
        ensures Settled(c, st'.seen, d)
      {
        if d != blob.digest { assert Settled(c, st.seen, d); }
      }
      if c.ranked { AppendKeepsOrder(c.src, c.blobs, st.out, blob); }
    }
  }

  lemma {:induction false} AddBlobsKeeps(c: Context, open: set<Digest>, blobs: seq<Descriptor>, st: WalkState)
    requires ContextOk(c) && Inv(c, open, st) && open !! c.blobs
    requires forall b :: b in blobs ==> b.digest in c.blobs && b.IsBlob() && Reach(c.src, c.root, b.digest)
    requires AddBlobs(c.src, c.allowMissing, blobs, st).Success?
    ensures var st' := AddBlobs(c.src, c.allowMissing, blobs, st).value;
            && Grown(c, open, st, st')
            && forall b :: b in blobs ==>
                 b.digest in st'.seen || (c.allowMissing && !Stored(c.src, c.blobs, b.digest))
    decreases |blobs|
  {
    if blobs != [] {
      AddBlobKeeps(c, open, blobs[0], st);
      AddBlobsKeeps(c, open, blobs[1..], AddBlob(c.src, c.allowMissing, blobs[0], st).value);
    }
  }

  /** `d` is a reachable manifest below all open ones. */
  ghost predicate Below(c: Context, open: set<Digest>, d: Digest) {
    d !in c.blobs && Reach(c.src, c.root, d) && (c.ranked ==> forall o :: o in open ==> c.rank(d) < c.rank(o))
  }

  ghost predicate Walking(c: Context, open: set<Digest>, st: WalkState) {
    ContextOk(c) && Inv(c, open, st) && open !! c.blobs
  }

  /** A walk went on from one state to another and kept the invariant. */
  ghost predicate Grown(c: Context, open: set<Digest>, st: WalkState, st': WalkState) {
    Inv(c, open, st') && st.seen <= st'.seen && st.out <= st'.out
  }

  lemma {:induction false} WalkKeeps(c: Context, open: set<Digest>, d: Digest, depth: nat, st: WalkState)
    requires depth <= MAX_DEPTH + 1 && Walking(c, open, st) && Below(c, open, d)
    requires Walk(c.src, c.allowMissing, d, depth, st).Success?
    ensures var st' := Walk(c.src, c.allowMissing, d, depth, st).value;
            && Grown(c, open, st, st') && d in st'.seen
            && (d !in st.seen && (depth == 0 || !c.allowMissing) ==> EndsWith(st'.out, d))
    decreases MAX_DEPTH + 1 - depth, 1
  {
    if d !in st.seen {
      if d !in c.src.manifests {
        SkipKeeps(c, open, d, st);
      } else if c.src.manifests[d].content.Index? {
        WalkIndexKeeps(c, open, d, depth, st);
      } else {
        WalkImageKeeps(c, open, d, depth, st);
      }
    }
  }

  lemma {:induction false} WalkIndexKeeps(c: Context, open: set<Digest>, d: Digest, depth: nat, st: WalkState)
    requires depth <= MAX_DEPTH + 1 && Walking(c, open, st) && Below(c, open, d) && d !in st.seen
    requires d in c.src.manifests && c.src.manifests[d].Found? && c.src.manifests[d].content.Index?
    requires Walk(c.src, c.allowMissing, d, depth, st).Success?
    ensures var st' := Walk(c.src, c.allowMissing, d, depth, st).value;
            Grown(c, open, st, st') && d in st'.seen && EndsWith(st'.out, d)
    decreases MAX_DEPTH + 1 - depth, 0
  {
    var entries := c.src.manifests[d].content.entries;
    var entered := st.(seen := st.seen + {d});
    Entered(c, open, d, st);
    IndexWalk(c, d, depth, st);
    WalkChildrenKeeps(c, open + {d}, entries, depth + 1, entered);
    Left(c, open, d, st, WalkChildren(c.src, c.allowMissing, entries, depth + 1, entered).value);
  }

  lemma IndexWalk(c: Context, d: Digest, depth: nat, st: WalkState)
    requires depth <= MAX_DEPTH + 1 && d !in st.seen && Walk(c.src, c.allowMissing, d, depth, st).Success?
    requires d in c.src.manifests && c.src.manifests[d].Found? && c.src.manifests[d].content.Index?
    ensures depth <= MAX_DEPTH
    ensures var content := c.src.manifests[d].content;
            var below := WalkChildren(c.src, c.allowMissing, content.entries, depth + 1, st.(seen := st.seen + {d}));
            && below.Success?
            && Walk(c.src, c.allowMissing, d, depth, st).value == below.value.(out := below.value.out + [Descriptor(d, MediaOf(content))])
  {
  }

  lemma WalkImageKeeps(c: Context, open: set<Digest>, d: Digest, depth: nat, st: WalkState)
    requires depth <= MAX_DEPTH + 1 && Walking(c, open, st) && Below(c, open, d) && d !in st.seen
    requires d in c.src.manifests && c.src.manifests[d].Found? && c.src.manifests[d].content.Image?
    requires Walk(c.src, c.allowMissing, d, depth, st).Success?
    ensures var st' := Walk(c.src, c.allowMissing, d, depth, st).value;
            Grown(c, open, st, st') && d in st'.seen && EndsWith(st'.out, d)
  {
    Entered(c, open, d, st);
    var blobs := Refs(c.src.manifests[d].content);
    var entered := st.(seen := st.seen + {d});
    AddBlobsKeeps(c, open + {d}, blobs, entered);
    Left(c, open, d, st, AddBlobs(c.src, c.allowMissing, blobs, entered).value);
  }

  ghost predicate EndsWith(out: seq<Descriptor>, d: Digest) {
    out != [] && out[|out| - 1].digest == d
  }

  /** What the manifest names has been dealt with. */
  ghost predicate NamesSeen(c: Context, seen: set<Digest>, content: Content) {
    if content.Index? then forall e :: e in content.entries ==> e.desc.digest in seen
    else forall b :: b in Refs(content) ==> b.digest in seen || (c.allowMissing && b.digest in c.blobs && !Stored(c.src, c.blobs, b.digest))
  }

  /** A manifest that is left, after what it names, is listed. */
  lemma Left(c: Context, open: set<Digest>, d: Digest, st: WalkState, below: WalkState)
    requires ContextOk(c) && Inv(c, open, st) && Inv(c, open + {d}, below) && d !in st.seen && d !in c.blobs
    requires st.seen + {d} <= below.seen && st.out <= below.out
    requires d in c.src.manifests && c.src.manifests[d].Found? && !c.src.manifests[d].content.Unreadable?
    requires c.ranked ==> forall o :: o in open ==> c.rank(d) < c.rank(o)
    requires NamesSeen(c, below.seen, c.src.manifests[d].content)
    ensures var left := below.(out := below.out + [Descriptor(d, MediaOf(c.src.manifests[d].content))]);
            Grown(c, open, st, left) && d in left.seen && EndsWith(left.out, d)
  {
    LeaveKeeps(c, open, d, below);
  }

  /** A manifest that is entered: what it names may be visited. */
  lemma Entered(c: Context, open: set<Digest>, d: Digest, st: WalkState)
    requires Walking(c, open, st) && Below(c, open, d) && d !in st.seen
    requires d in c.src.manifests && c.src.manifests[d].Found?
    ensures Walking(c, open + {d}, st.(seen := st.seen + {d}))
    ensures c.src.manifests[d].content.Index? ==>
              forall e :: e in c.src.manifests[d].content.entries ==> Below(c, open + {d}, e.desc.digest)
    ensures c.src.manifests[d].content.Image? ==>
              forall b :: b in Refs(c.src.manifests[d].content) ==> b.digest in c.blobs && b.IsBlob() && Reach(c.src, c.root, b.digest)
  {
    EnterKeeps(c, open, d, st);
    NamedReached(c, d);
  }

  lemma SkipKeeps(c: Context, open: set<Digest>, d: Digest, st: WalkState)
    requires Inv(c, open, st) && c.allowMissing && d !in c.blobs && d !in c.src.manifests
    requires d !in st.seen && Reach(c.src, c.root, d)
    ensures Inv(c, open, st.(seen := st.seen + {d}))
  {
    forall x | x in st.seen + {d} - open
      ensures Settled(c, st.seen + {d}, x)
    {
      if x != d { assert Settled(c, st.seen, x); }
    }
  }

  /** What a reachable manifest names is reachable, has the role its manifest gives it and,
      in a ranked graph, a smaller rank. */
  lemma NamedReached(c: Context, d: Digest)
    requires ContextOk(c) && Reach(c.src, c.root, d)
    requires d in c.src.manifests && c.src.manifests[d].Found?
    ensures forall r :: r in Refs(c.src.manifests[d].content) ==> Named(c, d, r)
    ensures c.src.manifests[d].content.Index? ==>
              forall e :: e in c.src.manifests[d].content.entries ==> Named(c, d, e.desc)
  {
    var content := c.src.manifests[d].content;
    assert RolesApartIn(content, c.blobs);
    forall r | r in Refs(content)
      ensures Named(c, d, r)
    {
      assert r.digest in Digests(Refs(content));
      ReachStep(c.src, c.root, d, r.digest);
    }
    if content.Index? {
      forall e | e in content.entries
        ensures Named(c, d, e.desc)
      {
        var i :| 0 <= i < |content.entries| && content.entries[i] == e;
        assert Refs(content)[i] == e.desc;
      }
    }
  }

  ghost predicate Named(c: Context, d: Digest, r: Descriptor)
    requires d in c.src.manifests && c.src.manifests[d].Found?
  {
    && Edge(c.src, d, r.digest) && Reach(c.src, c.root, r.digest)
    && (r.digest in c.blobs <==> c.src.manifests[d].content.Image?)
    && (r.IsBlob() <==> c.src.manifests[d].content.Image?)
    && (c.ranked ==> c.rank(r.digest) < c.rank(d))
  }

  lemma EnterKeeps(c: Context, open: set<Digest>, d: Digest, st: WalkState)
    requires Inv(c, open, st) && d !in st.seen && Reach(c.src, c.root, d)
    ensures Inv(c, open + {d}, st.(seen := st.seen + {d}))
  {
    var entered := st.(seen := st.seen + {d});
    assert entered.seen - (open + {d}) == st.seen - open;
    forall x | x in st.seen - open
      ensures Settled(c, entered.seen, x)
    {
      assert Settled(c, st.seen, x);
    }
  }

  lemma SettledByContent(c: Context, seen: set<Digest>, d: Digest)
    requires d in c.src.manifests && c.src.manifests[d].Found?
    requires NamesSeen(c, seen, c.src.manifests[d].content)
    ensures Settled(c, seen, d)
  {
  }

  lemma LeaveKeeps(c: Context, open: set<Digest>, d: Digest, st: WalkState)
    requires ContextOk(c) && Inv(c, open + {d}, st) && d !in open && d !in c.blobs
    requires d in c.src.manifests && c.src.manifests[d].Found? && !c.src.manifests[d].content.Unreadable?
    requires c.ranked ==> forall o :: o in open ==> c.rank(d) < c.rank(o)
    requires NamesSeen(c, st.seen, c.src.manifests[d].content)
    ensures Inv(c, open, st.(out := st.out + [Descriptor(d, MediaOf(c.src.manifests[d].content))]))
  {
    var desc := Descriptor(d, MediaOf(c.src.manifests[d].content));
    var left := st.(out := st.out + [desc]);
    SettledByContent(c, st.seen, d);
    assert Digests(left.out) == Digests(st.out) + {d};
    assert st.seen - open == (st.seen - (open + {d})) + {d};
    if c.ranked {
      forall r: Digest | Edge(c.src, d, r) && Stored(c.src, c.blobs, r)
        ensures r in Digests(st.out)
      {
        assert c.rank(r) < c.rank(d);
      }
      AppendKeepsOrder(c.src, c.blobs, st.out, desc);
    }
  }

  lemma {:induction false} WalkChildrenKeeps(c: Context, open: set<Digest>, entries: seq<Entry>, depth: nat, st: WalkState)
    requires depth <= MAX_DEPTH + 1
    requires Walking(c, open, st) && forall e :: e in entries ==> Below(c, open, e.desc.digest)
    requires WalkChildren(c.src, c.allowMissing, entries, depth, st).Success?
    ensures var st' := WalkChildren(c.src, c.allowMissing, entries, depth, st).value;
            Grown(c, open, st, st') && forall e :: e in entries ==> e.desc.digest in st'.seen
    decreases MAX_DEPTH + 1 - depth, 2 + |entries|
  {
    if entries != [] {
      WalkKeeps(c, open, entries[0].desc.digest, depth, st);
      WalkChildrenKeeps(c, open, entries[1..], depth, Walk(c.src, c.allowMissing, entries[0].desc.digest, depth, st).value);
    }
  }

  lemma {:induction false} ReachedIsSeen(c: Context, st: WalkState, p: seq<Digest>)
    requires ContextOk(c) && Inv(c, {}, st) && c.root in st.seen
    requires Path(c.src, p) && p[0] == c.root
    ensures p[|p| - 1] in st.seen || (c.allowMissing && p[|p| - 1] in c.blobs && !Stored(c.src, c.blobs, p[|p| - 1]))
    decreases |p|
  {
    if |p| > 1 {
      var q := p[..|p| - 1];
      ReachedIsSeen(c, st, q);
      assert Edge(c.src, p[|p| - 2], p[|p| - 1]);
      assert Settled(c, st.seen, p[|p| - 2]);
    }
  }

  /** `imageDescriptors` on any graph, cyclic ones included: the list holds every stored digest
      reachable from the root exactly once and nothing else, with the root last; without
      `allowMissing` that is everything reachable. On an acyclic graph whatever a listed manifest
      names stands before it. */
  lemma ImageDescriptorsExact(c: Context)
    requires ContextOk(c)
    requires ImageDescriptors(c.src, c.root, c.allowMissing).Success?
    ensures var list := ImageDescriptors(c.src, c.root, c.allowMissing).value;
            && Distinct(list)
            && (forall d :: d in Digests(list) <==> Reach(c.src, c.root, d) && Stored(c.src, c.blobs, d))
            && (!c.allowMissing ==> forall d :: Reach(c.src, c.root, d) ==> Stored(c.src, c.blobs, d))
            && list != [] && list[|list| - 1].digest == c.root
            && (forall d :: d in list ==> Typed(c, d))
            && (c.ranked ==> ChildrenFirst(c.src, c.blobs, list))
  {
    var start := WalkState({}, []);
    assert Path(c.src, [c.root]);
    WalkKeeps(c, {}, c.root, 0, start);
    var st := Walk(c.src, c.allowMissing, c.root, 0, start).value;
    forall d | Reach(c.src, c.root, d)
      ensures d in st.seen || (c.allowMissing && d in c.blobs && !Stored(c.src, c.blobs, d))
    {
      var p :| Path(c.src, p) && p[0] == c.root && p[|p| - 1] == d;
      ReachedIsSeen(c, st, p);
    }
  }

  // ----- when the walk fails

  /** Named by something reachable, or the root, and not there; children and blobs may be missing if that
      is allowed. */
  ghost predicate Missing(c: Context, x: Digest) {
    Reach(c.src, c.root, x) && !Stored(c.src, c.blobs, x) && (!c.allowMissing || x == c.root)
  }

  /** Reachable and stored, but it cannot be read. */
  ghost predicate Faulty(c: Context, x: Digest) {
    && Reach(c.src, c.root, x)
    && if x in c.blobs then x in c.src.blobs && c.src.blobs[x] == Unresolved
       else x in c.src.manifests && (c.src.manifests[x] == Broken || c.src.manifests[x] == Found(Unreadable))
  }

  /** A path from the root with more than 32 edges. */
  ghost predicate Deep(c: Context) {
    exists p :: Path(c.src, p) && p[0] == c.root && |p| - 1 > 32
  }

  ghost predicate Explained(c: Context, error: WalkError) {
    match error
    case TooDeep => Deep(c)
    case NotFound(x) => Missing(c, x)
    case ReadFailed(x) => Faulty(c, x)
    case Several(_) => false
  }

  /** A path from the root to `d`. */
  ghost predicate Trail(c: Context, p: seq<Digest>, d: Digest) {
    Path(c.src, p) && p[0] == c.root && p[|p| - 1] == d
  }

  lemma LongerTrail(c: Context, p: seq<Digest>, d: Digest, r: Digest)
    requires Trail(c, p, d) && Edge(c.src, d, r)
    ensures Trail(c, p + [r], r) && Reach(c.src, c.root, r)
  {
    var q := p + [r];
    assert forall i :: 0 <= i < |q| - 1 ==> Edge(c.src, q[i], q[i + 1]);
    assert Path(c.src, q) && q[0] == c.root && q[|q| - 1] == r;
  }

  lemma {:induction false} WalkFails(c: Context, p: seq<Digest>, d: Digest, depth: nat, st: WalkState)
    requires depth <= MAX_DEPTH + 1 && ContextOk(c) && d !in c.blobs
    requires Trail(c, p, d) && |p| == depth + 1 && Walk(c.src, c.allowMissing, d, depth, st).Failure?
    ensures Explained(c, Walk(c.src, c.allowMissing, d, depth, st).error)
    decreases MAX_DEPTH + 1 - depth, 0
  {
    if depth > MAX_DEPTH {
      assert |p| - 1 > 32;
    } else if d in c.src.manifests && c.src.manifests[d].Found? && !c.src.manifests[d].content.Unreadable? {
      var content := c.src.manifests[d].content;
      var entered := st.(seen := st.seen + {d});
      NamedReached(c, d);
      if content.Index? {
        WalkChildrenFails(c, p, d, content.entries, depth + 1, entered);
      } else {
        AddBlobsFails(c, Refs(content), entered);
      }
    } else {
      assert Reach(c.src, c.root, d);
    }
  }

  lemma {:induction false} WalkChildrenFails(c: Context, p: seq<Digest>, d: Digest, entries: seq<Entry>, depth: nat, st: WalkState)
    requires depth <= MAX_DEPTH + 1 && ContextOk(c) && Trail(c, p, d) && |p| == depth
    requires forall e :: e in entries ==> Edge(c.src, d, e.desc.digest) && e.desc.digest !in c.blobs
    requires WalkChildren(c.src, c.allowMissing, entries, depth, st).Failure?
    ensures Explained(c, WalkChildren(c.src, c.allowMissing, entries, depth, st).error)
    decreases MAX_DEPTH + 1 - depth, 1 + |entries|
  {
    var child := entries[0].desc.digest;
    LongerTrail(c, p, d, child);
    var first := Walk(c.src, c.allowMissing, child, depth, st);
    if first.Failure? {
      WalkFails(c, p + [child], child, depth, st);
    } else {
      WalkChildrenFails(c, p, d, entries[1..], depth, first.value);
    }
  }

  lemma {:induction false} AddBlobsFails(c: Context, blobs: seq<Descriptor>, st: WalkState)
    requires forall b :: b in blobs ==> b.digest in c.blobs && Reach(c.src, c.root, b.digest)
    requires AddBlobs(c.src, c.allowMissing, blobs, st).Failure?
    ensures Explained(c, AddBlobs(c.src, c.allowMissing, blobs, st).error)
    decreases |blobs|
  {
    var first := AddBlob(c.src, c.allowMissing, blobs[0], st);
    if first.Success? { AddBlobsFails(c, blobs[1..], first.value); }
  }

  /** What a failure of `imageDescriptors` means: "not found" names something reachable that is missing,
      a read error something reachable that is faulty, and the depth bound is exceeded only on a graph
      that has so long a path. */
  lemma FailureMeans(c: Context)
    requires ContextOk(c) && ImageDescriptors(c.src, c.root, c.allowMissing).Failure?
    ensures Explained(c, ImageDescriptors(c.src, c.root, c.allowMissing).error)
  {
    assert Path(c.src, [c.root]);
    WalkFails(c, [c.root], c.root, 0, WalkState({}, []));
  }

  ghost predicate Resolved(src: Source, out: seq<Descriptor>) {
    forall d :: d in out && d.IsBlob() ==> d.digest in src.blobs && src.blobs[d.digest] == Present
  }

  lemma {:induction false} WalkResolves(src: Source, allowMissing: bool, d: Digest, depth: nat, st: WalkState)
    requires depth <= MAX_DEPTH + 1 && Resolved(src, st.out) && Walk(src, allowMissing, d, depth, st).Success?
    ensures Resolved(src, Walk(src, allowMissing, d, depth, st).value.out)
    decreases MAX_DEPTH + 1 - depth, 0
  {
    if d !in st.seen && d in src.manifests {
      var content := src.manifests[d].content;
      var entered := st.(seen := st.seen + {d});
      if content.Index? {
        WalkChildrenResolves(src, allowMissing, content.entries, depth + 1, entered);
      } else {
        AddBlobsResolves(src, allowMissing, Blobs(content.layers, content.config), entered);
      }
    }
  }

  lemma {:induction false} WalkChildrenResolves(src: Source, allowMissing: bool, entries: seq<Entry>, depth: nat, st: WalkState)
    requires depth <= MAX_DEPTH + 1 && Resolved(src, st.out) && WalkChildren(src, allowMissing, entries, depth, st).Success?
    ensures Resolved(src, WalkChildren(src, allowMissing, entries, depth, st).value.out)
    decreases MAX_DEPTH + 1 - depth, 1 + |entries|
  {
    if entries != [] {
      WalkResolves(src, allowMissing, entries[0].desc.digest, depth, st);
      WalkChildrenResolves(src, allowMissing, entries[1..], depth, Walk(src, allowMissing, entries[0].desc.digest, depth, st).value);
    }
  }

  lemma {:induction false} AddBlobsResolves(src: Source, allowMissing: bool, blobs: seq<Descriptor>, st: WalkState)
    requires Resolved(src, st.out) && AddBlobs(src, allowMissing, blobs, st).Success?
    ensures Resolved(src, AddBlobs(src, allowMissing, blobs, st).value.out)
    decreases |blobs|
  {
    if blobs != [] { AddBlobsResolves(src, allowMissing, blobs[1..], AddBlob(src, allowMissing, blobs[0], st).value); }
  }

  /** A walk that succeeds has met nothing missing and nothing faulty. */
  lemma SuccessMeans(c: Context, x: Digest)
    requires ContextOk(c) && ImageDescriptors(c.src, c.root, c.allowMissing).Success?
    ensures !Missing(c, x) && !Faulty(c, x)
  {
    var list := ImageDescriptors(c.src, c.root, c.allowMissing).value;
    ImageDescriptorsExact(c);
    WalkResolves(c.src, c.allowMissing, c.root, 0, WalkState({}, []));
    assert c.root in Digests(list) by { assert list[|list| - 1] in list; }
    if x in Digests(list) {
      var d :| d in list && d.digest == x;
      assert Typed(c, d);
    }
  }

  /** When `imageDescriptors` succeeds: on a graph without paths of more than 32 edges, if and only if
      nothing reachable is missing, where that is not allowed, or faulty. */
  lemma SucceedsExactly(c: Context)
    requires ContextOk(c) && !Deep(c)
    ensures ImageDescriptors(c.src, c.root, c.allowMissing).Success? <==> forall x :: !Missing(c, x) && !Faulty(c, x)
  {
    if ImageDescriptors(c.src, c.root, c.allowMissing).Success? {
      forall x
        ensures !Missing(c, x) && !Faulty(c, x)
      {
        SuccessMeans(c, x);
      }
    } else {
      FailureMeans(c);
    }
  }

  /** On a path from the root with at most 32 edges. */
  ghost predicate Shallow(c: Context, d: Digest) {
    exists p :: Trail(c, p, d) && |p| - 1 <= 32
  }

  ghost predicate AllShallow(c: Context, out: seq<Descriptor>) {
    forall d :: d in out ==> d.digest in c.blobs || Shallow(c, d.digest)
  }

  lemma {:induction false} WalkShallow(c: Context, p: seq<Digest>, d: Digest, depth: nat, st: WalkState)
    requires depth <= MAX_DEPTH + 1 && ContextOk(c) && AllShallow(c, st.out)
    requires Trail(c, p, d) && |p| == depth + 1 && Walk(c.src, c.allowMissing, d, depth, st).Success?
    ensures AllShallow(c, Walk(c.src, c.allowMissing, d, depth, st).value.out)
    decreases MAX_DEPTH + 1 - depth, 0
  {
    if d !in st.seen && d in c.src.manifests {
      var content := c.src.manifests[d].content;
      var entered := st.(seen := st.seen + {d});
      assert Reach(c.src, c.root, d) && Shallow(c, d);
      NamedReached(c, d);
      if content.Index? {
        WalkChildrenShallow(c, p, d, content.entries, depth + 1, entered);
      } else {
        AddBlobsShallow(c, Refs(content), entered);
      }
    }
  }

  lemma {:induction false} WalkChildrenShallow(c: Context, p: seq<Digest>, d: Digest, entries: seq<Entry>, depth: nat, st: WalkState)
    requires depth <= MAX_DEPTH + 1 && ContextOk(c) && AllShallow(c, st.out) && Trail(c, p, d) && |p| == depth
    requires forall e :: e in entries ==> Edge(c.src, d, e.desc.digest)
    requires WalkChildren(c.src, c.allowMissing, entries, depth, st).Success?
    ensures AllShallow(c, WalkChildren(c.src, c.allowMissing, entries, depth, st).value.out)
    decreases MAX_DEPTH + 1 - depth, 1 + |entries|
  {
    if entries != [] {
      var child := entries[0].desc.digest;
      LongerTrail(c, p, d, child);
      WalkShallow(c, p + [child], child, depth, st);
      WalkChildrenShallow(c, p, d, entries[1..], depth, Walk(c.src, c.allowMissing, child, depth, st).value);
    }
  }

  lemma {:induction false} AddBlobsShallow(c: Context, blobs: seq<Descriptor>, st: WalkState)
    requires AllShallow(c, st.out) && forall b :: b in blobs ==> b.digest in c.blobs
    requires AddBlobs(c.src, c.allowMissing, blobs, st).Success?
    ensures AllShallow(c, AddBlobs(c.src, c.allowMissing, blobs, st).value.out)
    decreases |blobs|
  {
    if blobs != [] { AddBlobsShallow(c, blobs[1..], AddBlob(c.src, c.allowMissing, blobs[0], st).value); }
  }

  /** A walk that succeeds has left nothing out that is stored more than 32 levels down: there is none. */
  lemma SuccessIsShallow(c: Context, m: Digest)
    requires ContextOk(c) && ImageDescriptors(c.src, c.root, c.allowMissing).Success?
    requires Reach(c.src, c.root, m) && m !in c.blobs && m in c.src.manifests
    ensures Shallow(c, m)
  {
    var list := ImageDescriptors(c.src, c.root, c.allowMissing).value;
    ImageDescriptorsExact(c);
    assert Path(c.src, [c.root]);
    WalkShallow(c, [c.root], c.root, 0, WalkState({}, []));
    assert m in Digests(list);
  }

  /** What a manifest names, entry by entry. */
  lemma RefsMeans(content: Content, r: Descriptor)
    ensures r in Refs(content) <==>
            match content
            case Index(entries) => exists e :: e in entries && e.desc == r
            case Image(layers, config) => r in layers || config == Some(r)
            case Unreadable => false
  {
    if content.Index? {
      if r in Refs(content) {
        var i :| 0 <= i < |content.entries| && Refs(content)[i] == r;
        assert content.entries[i] in content.entries;
      }
      if e :| e in content.entries && e.desc == r {
        var i :| 0 <= i < |content.entries| && content.entries[i] == e;
        assert Refs(content)[i] == r;
      }
    }
  }

  /** An index of two images, the second of which is also a layer of the first. */
  function SharedDigest(): Source {
    Source(map["idx" := Found(Index([Entry(Descriptor("a", ManifestMedia), true, None), Entry(Descriptor("x", ManifestMedia), true, None)])),
               "a" := Found(Image([Descriptor("x", OtherMedia)], None)),
               "x" := Found(Image([Descriptor("b", OtherMedia)], None))],
           map["x" := Present, "b" := Present], map[])
  }

  /** The roles have to be apart: here the walk succeeds, takes the second image for seen because its
      digest came up as a layer, and leaves out content that is reachable and stored. */
  lemma SharedDigestHides()
    ensures var src := SharedDigest();
            && ImageDescriptors(src, "idx", false) ==
               Success([Descriptor("x", OtherMedia), Descriptor("a", ManifestMedia), Descriptor("idx", IndexMedia)])
            && Reach(src, "idx", "b") && "b" in src.blobs
  {
    var src := SharedDigest();
    var x, a := Descriptor("x", OtherMedia), Descriptor("a", ManifestMedia);
    var entries := src.manifests["idx"].content.entries;
    var st0 := WalkState({} + {"idx"}, []);
    var in0 := st0.(seen := st0.seen + {"a"});
    var in1 := WalkState(in0.seen + {"x"}, [] + [x]);
    assert AddBlob(src, false, x, in0) == Success(in1);
    assert Blobs([x], None) == [x] && [x][1..] == [];
    assert AddBlobs(src, false, [], in1) == Success(in1);
    assert AddBlobs(src, false, [x], in0) == Success(in1);
    var st1 := in1.(out := in1.out + [a]);
    assert Walk(src, false, "a", 1, st0) == Success(st1);
    assert entries[1..][0].desc.digest == "x" && entries[1..][1..] == [];
    assert WalkChildren(src, false, entries[1..], 1, st1) == Success(st1);
    assert WalkChildren(src, false, entries, 1, st0) == Success(st1);
    assert [] + [x] + [a] + [Descriptor("idx", IndexMedia)] == [x, a, Descriptor("idx", IndexMedia)];
    assert Refs(src.manifests["idx"].content)[1].digest == "x" && Refs(src.manifests["x"].content)[0].digest == "b";
    var p := ["idx", "x", "b"];
    assert Edge(src, p[0], p[1]) && Edge(src, p[1], p[2]);
    assert Path(src, p);
  }
}
