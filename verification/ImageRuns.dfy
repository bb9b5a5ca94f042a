/** The descriptor lists of push, retag and pull, and what copying them means for the destination. */
module ImageRuns {
  import opened Common
  import opened ImageGraph
  import opened ImageCopy

  // ----- the lists

  /** `walkManifest`: the blobs of one image manifest followed by the manifest itself. */
  function WalkManifest(src: Source, desc: Descriptor): Result<seq<Descriptor>, WalkError> {
    var d := desc.digest;
    if desc.media != ManifestMedia then Failure(ReadFailed(d))
    else if d !in src.manifests then Failure(NotFound(d))
    else if src.manifests[d].Broken? || !src.manifests[d].content.Image? then Failure(ReadFailed(d))
    else Success(Refs(src.manifests[d].content) + [Descriptor(d, ManifestMedia)])
  }

  function WalkManifests(src: Source, descs: seq<Descriptor>): Result<seq<Descriptor>, WalkError> {
    if descs == [] then Success([])
    else
      var init :- WalkManifests(src, descs[..|descs| - 1]);
      var last :- WalkManifest(src, descs[|descs| - 1]);
      Success(init + last)
  }

  /** What went wrong, manifest by manifest. */
  function WalkErrors(src: Source, descs: seq<Descriptor>): seq<WalkError> {
    if descs == [] then []
    else
      var last := WalkManifest(src, descs[|descs| - 1]);
      WalkErrors(src, descs[..|descs| - 1]) + if last.Failure? then [last.error] else []
  }

  /** The selected children of an index are all walked before a failure is reported. */
  function WalkSelected(src: Source, descs: seq<Descriptor>): Result<seq<Descriptor>, WalkError> {
    if WalkErrors(src, descs) == [] then WalkManifests(src, descs) else Failure(Several(WalkErrors(src, descs)))
  }

  function ReferrersOf(src: Source, d: Digest): seq<Descriptor> {
    if d in src.referrers then src.referrers[d] else []
  }

  function ReferrersOfAll(src: Source, descs: seq<Descriptor>): seq<Descriptor> {
    if descs == [] then []
    else
      var last := descs[|descs| - 1];
      ReferrersOfAll(src, descs[..|descs| - 1]) + if last.IsBlob() then [] else ReferrersOf(src, last.digest)
  }

  /** `pushTag`: the complete graph of the chosen root, then, unless a platform was chosen, its referrers. */
  function PushList(src: Source, root: Digest, attach: bool): Result<seq<Descriptor>, WalkError> {
    var list :- ImageDescriptors(src, root, false);
    var attached :- WalkManifests(src, if attach then ReferrersOf(src, root) else []);
    Success(list + attached)
  }

  /** `TagImage`: what is stored of the graph, then the referrers of every manifest in it. */
  function TagList(src: Source, root: Digest): Result<seq<Descriptor>, WalkError> {
    var list :- ImageDescriptors(src, root, true);
    var attached :- WalkManifests(src, ReferrersOfAll(src, list));
    Success(list + attached)
  }

  /** `parseIndexManifest`: the first child for the platform and the attestations made about it. */
  function Platform(entries: seq<Entry>): Option<Descriptor> {
    if entries == [] then None
    else if entries[0].matches then Some(entries[0].desc)
    else Platform(entries[1..])
  }

  function Attestations(entries: seq<Entry>, platform: Digest): seq<Descriptor> {
    if entries == [] then []
    else
      var last := entries[|entries| - 1];
      Attestations(entries[..|entries| - 1], platform) + if last.attests == Some(platform) then [last.desc] else []
  }

  function Selected(entries: seq<Entry>): Option<seq<Descriptor>> {
    match Platform(entries)
    case None => None
    case Some(p) => Some([p] + Attestations(entries, p.digest))
  }

  /** `AllDescriptors`: the selected part of an index, or one manifest, then the referrers of the
      platform manifest. */
  function PullList(src: Source, root: Descriptor): Result<seq<Descriptor>, WalkError> {
    var d := root.digest;
    if root.media == IndexMedia then
      if d !in src.manifests then Failure(NotFound(d))
      else if src.manifests[d].Broken? || !src.manifests[d].content.Index? then Failure(ReadFailed(d))
      else
        var entries := src.manifests[d].content.entries;
        if Selected(entries).None? then Failure(NotFound(d))
        else
          var selected := Selected(entries).value;
          var below :- WalkSelected(src, selected);
          var attached :- WalkManifests(src, ReferrersOf(src, selected[0].digest));
          Success(below + [Descriptor(d, IndexMedia)] + attached)
    else
      var own :- WalkManifest(src, root);
      var attached :- WalkManifests(src, ReferrersOf(src, d));
      Success(own + attached)
  }

  // ----- the loops that build them

  method WalkAll(src: Source, descs: seq<Descriptor>) returns (r: Result<seq<Descriptor>, WalkError>)
    ensures r == WalkManifests(src, descs)
  {
    var all := [];
    assert descs[..|descs|] == descs;
    for i := 0 to |descs|
      invariant WalkManifests(src, descs[..i]) == Success(all)
    {
      assert descs[..i + 1][..i] == descs[..i];
      var one := WalkManifest(src, descs[i]);
      if one.Failure? {
        FailureStays(src, descs, i + 1);
        return Failure(one.error);
      }
      all := all + one.value;
    }
    return Success(all);
  }

  lemma {:induction false} FailureStays(src: Source, descs: seq<Descriptor>, i: nat)
    requires i <= |descs| && WalkManifests(src, descs[..i]).Failure?
    ensures WalkManifests(src, descs) == WalkManifests(src, descs[..i])
    decreases |descs|
  {
    if i < |descs| {
      assert descs[..|descs| - 1][..i] == descs[..i];
      FailureStays(src, descs[..|descs| - 1], i);
    } else {
      assert descs[..i] == descs;
    }
  }

  method WalkEach(src: Source, descs: seq<Descriptor>) returns (r: Result<seq<Descriptor>, WalkError>)
    ensures r == WalkSelected(src, descs)
  {
    var all, errors := [], [];
    assert descs[..|descs|] == descs;
    for i := 0 to |descs|
      invariant errors == WalkErrors(src, descs[..i])
      invariant errors == [] ==> WalkManifests(src, descs[..i]) == Success(all)
    {
      assert descs[..i + 1][..i] == descs[..i];
      var one := WalkManifest(src, descs[i]);
      if one.Failure? { errors := errors + [one.error]; } else { all := all + one.value; }
    }
    return if errors != [] then Failure(Several(errors)) else Success(all);
  }

  /** There is an error to report exactly if some walk fails. */
  lemma {:induction false} NoErrors(src: Source, descs: seq<Descriptor>)
    ensures WalkErrors(src, descs) == [] <==> WalkManifests(src, descs).Success?
  {
    if descs != [] { NoErrors(src, descs[..|descs| - 1]); }
  }

  method SelectEntries(entries: seq<Entry>) returns (r: Option<seq<Descriptor>>)
    ensures r == Selected(entries)
  {
    var i := 0;
    assert entries[0..] == entries;
    while i < |entries| && !entries[i].matches
      invariant 0 <= i <= |entries| && Platform(entries) == Platform(entries[i..])
    {
      assert entries[i..][1..] == entries[i + 1..];
      i := i + 1;
    }
    if i == |entries| { return None; }
    var platform := entries[i].desc;
    var selected := [platform];
    assert entries[..|entries|] == entries;
    for j := 0 to |entries|
      invariant selected == [platform] + Attestations(entries[..j], platform.digest)
    {
      assert entries[..j + 1][..j] == entries[..j];
      if entries[j].attests == Some(platform.digest) { selected := selected + [entries[j].desc]; }
    }
    return Some(selected);
  }

  method AllDescriptors(src: Source, root: Descriptor) returns (r: Result<seq<Descriptor>, WalkError>)
    ensures r == PullList(src, root)
  {
    var d := root.digest;
    if root.media == IndexMedia {
      if d !in src.manifests { return Failure(NotFound(d)); }
      if src.manifests[d].Broken? || !src.manifests[d].content.Index? { return Failure(ReadFailed(d)); }
      var selected := SelectEntries(src.manifests[d].content.entries);
      if selected.None? { return Failure(NotFound(d)); }
      var below := WalkEach(src, selected.value);
      if below.Failure? { return below; }
      var attached := WalkAll(src, ReferrersOf(src, selected.value[0].digest));
      if attached.Failure? { return attached; }
      return Success(below.value + [Descriptor(d, IndexMedia)] + attached.value);
    }
    var own := WalkManifest(src, root);
    if own.Failure? { return own; }
    var attached := WalkAll(src, ReferrersOf(src, d));
    if attached.Failure? { return attached; }
    return Success(own.value + attached.value);
  }

  /** A push turns to one platform if platforms were requested, or if the stored graph of an index is
      incomplete. */
  predicate FallsBack(src: Source, original: Descriptor, requested: bool) {
    requested || (original.media == IndexMedia && ImageDescriptors(src, original.digest, false).Failure? &&
                  ImageDescriptors(src, original.digest, false).error.NotFound?)
  }

  /** `pushTag` up to the copy: the root to push and its list. `chosen` is the outcome of looking for a
      complete platform, which matters only if the push turns to one. */
  method PushDescriptors(src: Source, original: Descriptor, requested: bool, chosen: Result<Digest, WalkError>)
    returns (r: Result<(Digest, seq<Descriptor>), WalkError>)
    ensures FallsBack(src, original, requested) && chosen.Failure? ==> r == Failure(chosen.error)
    ensures !(FallsBack(src, original, requested) && chosen.Failure?) ==>
              var target := if FallsBack(src, original, requested) then chosen.value else original.digest;
              match PushList(src, target, !requested && target == original.digest)
              case Success(list) => r == Success((target, list))
              case Failure(error) => r == Failure(error)
  {
    var target := original.digest;
    var listed: Result<seq<Descriptor>, WalkError> := Success([]);
    if !requested { listed := ListImage(src, target, false); }
    if requested || (listed.Failure? && listed.error.NotFound? && original.media == IndexMedia) {
      if chosen.Failure? { return Failure(chosen.error); }
      target := chosen.value;
      listed := ListImage(src, target, false);
    }
    if listed.Failure? { return Failure(listed.error); }
    var attached: Result<seq<Descriptor>, WalkError> := Success([]);
    if !requested && target == original.digest { attached := WalkAll(src, ReferrersOf(src, target)); }
    if attached.Failure? { return Failure(attached.error); }
    return Success((target, listed.value + attached.value));
  }

  /** `TagImage` up to the copy: the loop runs over the list as it was before referrers are appended. */
  method TagDescriptors(src: Source, root: Digest) returns (r: Result<seq<Descriptor>, WalkError>)
    ensures r == TagList(src, root)
  {
    var listed := ListImage(src, root, true);
    if listed.Failure? { return listed; }
    var attached := AttachAll(src, listed.value);
    if attached.Failure? { return attached; }
    return Success(listed.value + attached.value);
  }

  method AttachAll(src: Source, list: seq<Descriptor>) returns (r: Result<seq<Descriptor>, WalkError>)
    ensures r == WalkManifests(src, ReferrersOfAll(src, list))
  {
    var attached := [];
    assert list[..|list|] == list;
    for i := 0 to |list|
      invariant WalkManifests(src, ReferrersOfAll(src, list[..i])) == Success(attached)
    {
      ReferrersNext(src, list, i);
      if list[i].IsBlob() { continue; }
      var one := WalkAll(src, ReferrersOf(src, list[i].digest));
      WalkTogether(src, ReferrersOfAll(src, list[..i]), ReferrersOf(src, list[i].digest));
      if one.Failure? {
        FailureOfSome(src, list, i + 1);
        return one;
      }
      attached := attached + one.value;
    }
    return Success(attached);
  }

  lemma ReferrersNext(src: Source, list: seq<Descriptor>, i: nat)
    requires i < |list|
    ensures ReferrersOfAll(src, list[..i + 1]) ==
            if list[i].IsBlob() then ReferrersOfAll(src, list[..i])
            else ReferrersOfAll(src, list[..i]) + ReferrersOf(src, list[i].digest)
  {
    assert list[..i + 1][..i] == list[..i] && list[..i + 1][i] == list[i];
  }

  lemma FailureOfSome(src: Source, list: seq<Descriptor>, i: nat)
    requires i <= |list| && WalkManifests(src, ReferrersOfAll(src, list[..i])).Failure?
    ensures WalkManifests(src, ReferrersOfAll(src, list)) == WalkManifests(src, ReferrersOfAll(src, list[..i]))
  {
    ReferrersFirst(src, list, i);
    var all, some := ReferrersOfAll(src, list), ReferrersOfAll(src, list[..i]);
    assert all[..|some|] == some;
    FailureStays(src, all, |some|);
  }

  lemma {:induction false} WalkTogether(src: Source, a: seq<Descriptor>, b: seq<Descriptor>)
    ensures WalkManifests(src, a + b) ==
            if WalkManifests(src, a).Failure? then WalkManifests(src, a)
            else if WalkManifests(src, b).Failure? then WalkManifests(src, b)
            else Success(WalkManifests(src, a).value + WalkManifests(src, b).value)
    decreases |b|
  {
    if b == [] {
      assert a + b == a && WalkManifests(src, b) == Success([]);
      if WalkManifests(src, a).Success? { assert WalkManifests(src, a).value + [] == WalkManifests(src, a).value; }
    } else {
      var init, last := b[..|b| - 1], b[|b| - 1];
      assert (a + b)[..|a + b| - 1] == a + init && (a + b)[|a + b| - 1] == last;
      WalkTogether(src, a, init);
      if WalkManifests(src, a).Success? && WalkManifests(src, b).Success? {
        var x, y, z := WalkManifests(src, a).value, WalkManifests(src, init).value, WalkManifest(src, last).value;
        assert x + (y + z) == x + y + z;
      }
    }
  }

  lemma {:induction false} ReferrersFirst(src: Source, descs: seq<Descriptor>, i: nat)
    requires i <= |descs|
    ensures ReferrersOfAll(src, descs[..i]) <= ReferrersOfAll(src, descs)
    decreases |descs|
  {
    if i < |descs| {
      var init := descs[..|descs| - 1];
      assert init[..i] == descs[..i];
      ReferrersFirst(src, init, i);
    } else {
      assert descs[..i] == descs;
    }
  }

  // ----- order and completeness of the lists

  /** The run's idea of what manifests name is what the source holds. */
  ghost predicate Agrees(src: Source, names: Digest -> Names) {
    forall m {:trigger names(m)} :: m in src.manifests && src.manifests[m].Found? ==>
      var content := src.manifests[m].content;
      names(m) == if content.Index? then Names({}, Digests(Refs(content))) else Names(Digests(Refs(content)), {})
  }

  /** A list of image manifests, each with all of its blobs. */
  ghost predicate WholeImages(c: Context, descs: seq<Descriptor>) {
    forall d :: d in descs ==>
      && Typed(c, d)
      && (!d.IsBlob() ==> c.src.manifests[d.digest].content.Image? && Digests(Refs(c.src.manifests[d.digest].content)) <= Digests(descs))
  }

  lemma {:induction false} WalkedAreWhole(c: Context, descs: seq<Descriptor>)
    requires ContextOk(c) && WalkManifests(c.src, descs).Success?
    ensures WholeImages(c, WalkManifests(c.src, descs).value)
    ensures ManifestDigests(WalkManifests(c.src, descs).value) == Digests(descs)
  {
    if descs != [] {
      var init, last := descs[..|descs| - 1], descs[|descs| - 1];
      WalkedAreWhole(c, init);
      OneIsWhole(c, last);
      WholeTogether(c, WalkManifests(c.src, init).value, WalkManifest(c.src, last).value);
      LastDigest(descs);
    }
  }

  lemma LastDigest(descs: seq<Descriptor>)
    requires descs != []
    ensures Digests(descs) == Digests(descs[..|descs| - 1]) + {descs[|descs| - 1].digest}
  {
    assert descs == descs[..|descs| - 1] + [descs[|descs| - 1]];
  }

  lemma WholeTogether(c: Context, a: seq<Descriptor>, b: seq<Descriptor>)
    requires WholeImages(c, a) && WholeImages(c, b)
    ensures WholeImages(c, a + b) && ManifestDigests(a + b) == ManifestDigests(a) + ManifestDigests(b)
  {
  }

  lemma OneIsWhole(c: Context, desc: Descriptor)
    requires ContextOk(c) && WalkManifest(c.src, desc).Success?
    ensures WholeImages(c, WalkManifest(c.src, desc).value)
    ensures ManifestDigests(WalkManifest(c.src, desc).value) == {desc.digest}
  {
  }

  /** A walked graph followed by whole images is in order; if nothing was left out it is complete. */
  lemma GraphThenImages(c: Context, images: seq<Descriptor>, run: Run)
    requires ContextOk(c) && c.ranked && ImageDescriptors(c.src, c.root, c.allowMissing).Success?
    requires WholeImages(c, images) && Agrees(c.src, run.names)
    requires run.descs == ImageDescriptors(c.src, c.root, c.allowMissing).value + images
    ensures InOrder(run)
    ensures !c.allowMissing ==> Complete(run)
  {
    var list := ImageDescriptors(c.src, c.root, c.allowMissing).value;
    ImageDescriptorsExact(c);
    forall d | d in run.descs
      ensures Typed(c, d)
    {}
    forall i | 0 <= i < |run.descs| && !run.descs[i].IsBlob()
      ensures InOrderAt(run, i)
      ensures !c.allowMissing ==> CompleteAt(run, run.descs[i].digest)
    {
      var m := run.descs[i].digest;
      if i < |list| {
        assert run.descs[i] == list[i] && run.descs[..i] == list[..i];
        assert NamedBefore(c.src, c.blobs, list, i);
        ListedOrder(c, list, run, i);
      } else {
        assert run.descs[i] == images[i - |list|];
        assert run.descs[i] in images;
        ImagesListed(c, images, run, m);
      }
    }
    if !c.allowMissing {
      forall m | m in ManifestDigests(run.descs)
        ensures CompleteAt(run, m)
      {
        var i :| 0 <= i < |run.descs| && !run.descs[i].IsBlob() && run.descs[i].digest == m;
      }
    }
  }

  ghost predicate CompleteAt(run: Run, m: Digest) {
    run.names(m).blobs <= BlobDigests(run.descs) && run.names(m).children <= ManifestDigests(run.descs)
  }

  lemma ImagesListed(c: Context, images: seq<Descriptor>, run: Run, m: Digest)
    requires ContextOk(c) && WholeImages(c, images) && Agrees(c.src, run.names)
    requires forall d :: d in images ==> d in run.descs
    requires m in ManifestDigests(images)
    ensures run.names(m).children == {} && CompleteAt(run, m)
  {
  }

  lemma ListedOrder(c: Context, list: seq<Descriptor>, run: Run, i: nat)
    requires ContextOk(c) && Agrees(c.src, run.names)
    requires i < |list| && |list| <= |run.descs| && run.descs[..|list|] == list && !list[i].IsBlob()
    requires forall d :: d in run.descs ==> Typed(c, d)
    requires NamedBefore(c.src, c.blobs, list, i)
    requires forall d :: d in Digests(list) ==> Reach(c.src, c.root, d)
    requires !c.allowMissing ==> forall d :: Reach(c.src, c.root, d) ==> Stored(c.src, c.blobs, d)
    ensures InOrderAt(run, i)
    ensures !c.allowMissing ==> CompleteAt(run, list[i].digest)
  {
    var m := list[i].digest;
    assert Typed(c, list[i]);
    assert run.descs[i] == list[i];
    var content := c.src.manifests[m].content;
    assert RolesApartIn(content, c.blobs);
    assert list[..i] == run.descs[..i];
    forall r | r in Digests(Refs(content))
      ensures Edge(c.src, m, r) && (r in c.blobs <==> content.Image?)
      ensures Stored(c.src, c.blobs, r) ==> r in if content.Image? then BlobDigests(run.descs) else ManifestDigests(run.descs[..i + 1])
      ensures !c.allowMissing ==> Stored(c.src, c.blobs, r)
    {
      assert Edge(c.src, m, r);
      ReachStep(c.src, c.root, m, r);
      if Stored(c.src, c.blobs, r) {
        var j :| 0 <= j < |list[..i]| && list[..i][j].digest == r;
        assert run.descs[j] == list[..i][j] && run.descs[j] in run.descs && run.descs[..i + 1][j] == run.descs[j];
      }
    }
    forall r | r in run.names(m).children && r in ManifestDigests(run.descs)
      ensures r in ManifestDigests(run.descs[..i + 1])
    {
      var d :| d in run.descs && !d.IsBlob() && d.digest == r;
      assert Typed(c, d);
    }
    assert ManifestDigests(run.descs[..i + 1]) <= ManifestDigests(run.descs);
  }

  // ----- what is on the lists

  /** A stored image manifest. */
  ghost predicate Walks(src: Source, desc: Descriptor) {
    desc.media == ManifestMedia && desc.digest in src.manifests && src.manifests[desc.digest].Found? &&
    src.manifests[desc.digest].content.Image?
  }

  /** Walking a list of manifests succeeds if and only if all of them are stored image manifests. */
  lemma {:induction false} WalksExactly(src: Source, descs: seq<Descriptor>)
    ensures WalkManifests(src, descs).Success? <==> forall d :: d in descs ==> Walks(src, d)
  {
    if descs != [] {
      var init, last := descs[..|descs| - 1], descs[|descs| - 1];
      WalksExactly(src, init);
      assert descs == init + [last];
      assert WalkManifest(src, last).Success? <==> Walks(src, last);
    }
  }

  /** `r` is recorded as a referrer of `d`. */
  ghost predicate RefersTo(src: Source, r: Descriptor, d: Digest) {
    d in src.referrers && r in src.referrers[d]
  }

  lemma {:induction false} ReferrersMeans(src: Source, descs: seq<Descriptor>, r: Descriptor)
    ensures r in ReferrersOfAll(src, descs) <==> exists d :: d in descs && !d.IsBlob() && RefersTo(src, r, d.digest)
  {
    if descs != [] {
      var init, last := descs[..|descs| - 1], descs[|descs| - 1];
      ReferrersMeans(src, init, r);
      assert descs == init + [last];
    }
  }

  /** The push list: every manifest reachable from the root, and its referrers when asked for. */
  lemma PushListHolds(c: Context, attach: bool, descs: seq<Descriptor>)
    requires ContextOk(c) && !c.allowMissing && PushList(c.src, c.root, attach) == Success(descs)
    ensures forall m :: m in ManifestDigests(descs) <==>
              (m !in c.blobs && Reach(c.src, c.root, m)) || (attach && exists r :: RefersTo(c.src, r, c.root) && r.digest == m)
    ensures c.root in ManifestDigests(descs)
  {
    var list := ImageDescriptors(c.src, c.root, false).value;
    var refs := if attach then ReferrersOf(c.src, c.root) else [];
    ImageDescriptorsExact(c);
    WalkedManifests(c, list);
    WalkedAreWhole(c, refs);
    ManifestsTogether(list, WalkManifests(c.src, refs).value);
    assert Path(c.src, [c.root]) && Reach(c.src, c.root, c.root);
  }

  /** The manifests of a walked graph are the listed digests that are no blobs. */
  lemma WalkedManifests(c: Context, list: seq<Descriptor>)
    requires forall d :: d in list ==> Typed(c, d)
    ensures ManifestDigests(list) == Digests(list) - c.blobs
  {
    forall m | m in Digests(list) - c.blobs
      ensures m in ManifestDigests(list)
    {
      var d :| d in list && d.digest == m;
      assert Typed(c, d);
    }
  }

  lemma ManifestsTogether(a: seq<Descriptor>, b: seq<Descriptor>)
    ensures ManifestDigests(a + b) == ManifestDigests(a) + ManifestDigests(b)
  {
  }

  /** The retag list: every stored manifest reachable from the root, and the referrers of each. */
  lemma TagListHolds(c: Context, descs: seq<Descriptor>)
    requires ContextOk(c) && c.allowMissing && TagList(c.src, c.root) == Success(descs)
    ensures forall m :: m in ManifestDigests(descs) <==>
              GraphManifest(c, m) || exists d, r :: GraphManifest(c, d) && RefersTo(c.src, r, d) && r.digest == m
    ensures c.root in ManifestDigests(descs)
  {
    var list := ImageDescriptors(c.src, c.root, true).value;
    var refs := ReferrersOfAll(c.src, list);
    ImageDescriptorsExact(c);
    WalkedManifests(c, list);
    WalkedAreWhole(c, refs);
    ManifestsTogether(list, WalkManifests(c.src, refs).value);
    assert list[|list| - 1] in list;
    forall m
      ensures m in ManifestDigests(list) <==> GraphManifest(c, m)
      ensures m in Digests(refs) <==> exists d, r :: GraphManifest(c, d) && RefersTo(c.src, r, d) && r.digest == m
    {
      ReferrersDigests(c, list, m);
    }
  }

  ghost predicate GraphManifest(c: Context, m: Digest) {
    m !in c.blobs && m in c.src.manifests && Reach(c.src, c.root, m)
  }

  lemma ReferrersDigests(c: Context, list: seq<Descriptor>, m: Digest)
    requires forall d :: d in ManifestDigests(list) <==> GraphManifest(c, d)
    ensures m in Digests(ReferrersOfAll(c.src, list)) <==>
            exists d, r :: GraphManifest(c, d) && RefersTo(c.src, r, d) && r.digest == m
  {
    var refs := ReferrersOfAll(c.src, list);
    if m in Digests(refs) {
      var r :| r in refs && r.digest == m;
      ReferrersMeans(c.src, list, r);
      var d :| d in list && !d.IsBlob() && RefersTo(c.src, r, d.digest);
      assert GraphManifest(c, d.digest);
    }
    if d, r :| GraphManifest(c, d) && RefersTo(c.src, r, d) && r.digest == m {
      assert d in ManifestDigests(list);
      var desc :| desc in list && !desc.IsBlob() && desc.digest == d;
      ReferrersMeans(c.src, list, r);
      assert r in refs;
    }
  }

  /** The child for the platform: the first that matches. */
  ghost predicate FirstMatch(entries: seq<Entry>, k: nat) {
    k < |entries| && entries[k].matches && forall j :: 0 <= j < k ==> !entries[j].matches
  }

  lemma {:induction false} PlatformMeans(entries: seq<Entry>)
    ensures Platform(entries).None? <==> forall e :: e in entries ==> !e.matches
    ensures Platform(entries).Some? ==> exists k: nat :: FirstMatch(entries, k) && Platform(entries) == Some(entries[k].desc)
    decreases |entries|
  {
    if entries != [] && !entries[0].matches {
      PlatformMeans(entries[1..]);
      assert entries == [entries[0]] + entries[1..];
      if Platform(entries).Some? {
        var k: nat :| FirstMatch(entries[1..], k) && Platform(entries) == Some(entries[1..][k].desc);
        assert FirstMatch(entries, k + 1);
      }
    } else if entries != [] {
      assert FirstMatch(entries, 0);
    }
  }

  /** The entries at the given indices, in order, and no others attest to the platform. */
  ghost predicate AttestAt(entries: seq<Entry>, platform: Digest, list: seq<Descriptor>, at: seq<nat>) {
    && |at| == |list|
    && (forall k :: 0 <= k < |at| ==> at[k] < |entries| && entries[at[k]].attests == Some(platform) && list[k] == entries[at[k]].desc)
    && (forall k, l :: 0 <= k < l < |at| ==> at[k] < at[l])
    && (forall i :: 0 <= i < |entries| && entries[i].attests == Some(platform) ==> i in at)
  }

  /** The attestations about a platform: exactly the children that name it, in their order. */
  lemma {:induction false} AttestationsMeans(entries: seq<Entry>, platform: Digest) returns (at: seq<nat>)
    ensures AttestAt(entries, platform, Attestations(entries, platform), at)
  {
    if entries == [] {
      at := [];
    } else {
      var n := |entries| - 1;
      at := AttestationsMeans(entries[..n], platform);
      at := AttestNext(entries, platform, Attestations(entries[..n], platform), at);
      assert Attestations(entries, platform) ==
             Attestations(entries[..n], platform) + if entries[n].attests == Some(platform) then [entries[n].desc] else [];
    }
  }

  lemma AttestNext(entries: seq<Entry>, platform: Digest, list: seq<Descriptor>, at: seq<nat>) returns (longer: seq<nat>)
    requires entries != [] && AttestAt(entries[..|entries| - 1], platform, list, at)
    ensures var last := entries[|entries| - 1];
            AttestAt(entries, platform, list + if last.attests == Some(platform) then [last.desc] else [], longer)
  {
    var n := |entries| - 1;
    longer := at + if entries[n].attests == Some(platform) then [n] else [];
    forall i | 0 <= i < |entries| && entries[i].attests == Some(platform)
      ensures i in longer
    {
      if i < n { assert entries[..n][i] == entries[i]; }
    }
  }

  /** What is chosen from an index. */
  ghost predicate Chosen(entries: seq<Entry>, k: nat, m: Digest) {
    FirstMatch(entries, k) &&
    (m == entries[k].desc.digest || exists e :: e in entries && e.attests == Some(entries[k].desc.digest) && e.desc.digest == m)
  }

  lemma AttestedMeans(entries: seq<Entry>, platform: Digest, d: Descriptor)
    ensures d in Attestations(entries, platform) <==> exists e :: e in entries && e.attests == Some(platform) && e.desc == d
  {
    var list := Attestations(entries, platform);
    var at := AttestationsMeans(entries, platform);
    if d in list {
      var i :| 0 <= i < |list| && list[i] == d;
      assert entries[at[i]] in entries;
    }
    if e :| e in entries && e.attests == Some(platform) && e.desc == d {
      var i :| 0 <= i < |entries| && entries[i] == e;
      var l :| 0 <= l < |at| && at[l] == i;
      assert list[l] == d;
    }
  }

  lemma AttestedDigests(entries: seq<Entry>, platform: Digest, m: Digest)
    ensures m in Digests(Attestations(entries, platform)) <==>
            exists e :: e in entries && e.attests == Some(platform) && e.desc.digest == m
  {
    if m in Digests(Attestations(entries, platform)) {
      var d :| d in Attestations(entries, platform) && d.digest == m;
      AttestedMeans(entries, platform, d);
    }
    if e :| e in entries && e.attests == Some(platform) && e.desc.digest == m { AttestedMeans(entries, platform, e.desc); }
  }

  lemma SelectedMeans(entries: seq<Entry>) returns (k: nat)
    requires Selected(entries).Some?
    ensures FirstMatch(entries, k) && Selected(entries).value[0] == entries[k].desc
    ensures forall m :: m in Digests(Selected(entries).value) <==> Chosen(entries, k, m)
  {
    PlatformMeans(entries);
    k :| FirstMatch(entries, k) && Platform(entries) == Some(entries[k].desc);
    var platform := entries[k].desc;
    assert Digests([platform] + Attestations(entries, platform.digest)) == {platform.digest} + Digests(Attestations(entries, platform.digest));
    forall m
      ensures m in Digests(Selected(entries).value) <==> Chosen(entries, k, m)
    {
      AttestedDigests(entries, platform.digest, m);
    }
  }

  /** The platform's manifest, what attests to it and what refers to it can be walked. */
  ghost predicate PlatformWalks(src: Source, entries: seq<Entry>, k: nat)
    requires k < |entries|
  {
    && Walks(src, entries[k].desc)
    && (forall e :: e in entries && e.attests == Some(entries[k].desc.digest) ==> Walks(src, e.desc))
    && (forall r :: RefersTo(src, r, entries[k].desc.digest) ==> Walks(src, r))
  }

  /** When a pull has a list: the index has a child for the platform, and all that is to be walked is
      stored as image manifests. */
  lemma PullSucceeds(src: Source, root: Descriptor)
    ensures PullList(src, root).Success? <==>
            if root.media == IndexMedia then
              root.digest in src.manifests && src.manifests[root.digest].Found? && src.manifests[root.digest].content.Index? &&
              var entries := src.manifests[root.digest].content.entries;
              exists k: nat :: FirstMatch(entries, k) && PlatformWalks(src, entries, k)
            else Walks(src, root) && forall r :: RefersTo(src, r, root.digest) ==> Walks(src, r)
  {
    if root.media != IndexMedia {
      WalksExactly(src, ReferrersOf(src, root.digest));
    } else if root.digest in src.manifests && src.manifests[root.digest].Found? && src.manifests[root.digest].content.Index? {
      var entries := src.manifests[root.digest].content.entries;
      PlatformMeans(entries);
      if Selected(entries).Some? {
        var k := SelectedMeans(entries);
        SelectedWalks(src, entries, k);
        assert forall l: nat :: FirstMatch(entries, l) ==> l == k;
      }
    }
  }

  lemma SelectedWalks(src: Source, entries: seq<Entry>, k: nat)
    requires Selected(entries).Some? && FirstMatch(entries, k) && Selected(entries).value[0] == entries[k].desc
    ensures WalkSelected(src, Selected(entries).value).Success? && WalkManifests(src, ReferrersOf(src, entries[k].desc.digest)).Success?
            <==> PlatformWalks(src, entries, k)
  {
    var selected := Selected(entries).value;
    var platform := entries[k].desc;
    NoErrors(src, selected);
    WalksExactly(src, selected);
    WalksExactly(src, ReferrersOf(src, platform.digest));
    assert Platform(entries) == Some(platform);
    forall d
      ensures d in selected <==> d == platform || exists e :: e in entries && e.attests == Some(platform.digest) && e.desc == d
    {
      AttestedMeans(entries, platform.digest, d);
    }
  }

  /** When a push has a list for its root: on a graph that is not too deep, if all that is reachable is
      stored and sound and, when they are asked for, so are the referrers. */
  lemma PushSucceeds(c: Context, attach: bool)
    requires ContextOk(c) && !c.allowMissing && !Deep(c)
    ensures PushList(c.src, c.root, attach).Success? <==>
            && (forall x :: Reach(c.src, c.root, x) ==> Stored(c.src, c.blobs, x) && !Faulty(c, x))
            && (attach ==> forall r :: RefersTo(c.src, r, c.root) ==> Walks(c.src, r))
  {
    SucceedsExactly(c);
    assert forall x :: Missing(c, x) <==> Reach(c.src, c.root, x) && !Stored(c.src, c.blobs, x);
    assert forall x :: Faulty(c, x) ==> Reach(c.src, c.root, x);
    WalksExactly(c.src, if attach then ReferrersOf(c.src, c.root) else []);
  }

  /** What is wrong with a manifest that is to be walked: it is not there, or it is no image manifest. */
  ghost predicate WalkFault(src: Source, desc: Descriptor, error: WalkError) {
    if desc.media == ManifestMedia && desc.digest !in src.manifests then error == NotFound(desc.digest)
    else !Walks(src, desc) && error == ReadFailed(desc.digest)
  }

  lemma WalkFaultMeans(src: Source, desc: Descriptor, error: WalkError)
    ensures WalkManifest(src, desc) == Failure(error) <==> WalkFault(src, desc, error)
  {
  }

  ghost predicate SomeFault(src: Source, descs: seq<Descriptor>, error: WalkError) {
    exists d :: d in descs && WalkFault(src, d, error)
  }

  /** The errors reported for selected children are those of all that fail. */
  lemma {:induction false} ErrorsMeans(src: Source, descs: seq<Descriptor>, error: WalkError)
    ensures error in WalkErrors(src, descs) <==> SomeFault(src, descs, error)
  {
    if descs != [] {
      var init, last := descs[..|descs| - 1], descs[|descs| - 1];
      ErrorsMeans(src, init, error);
      LastFault(src, descs, error);
      WalkFaultMeans(src, last, error);
      ErrorsLast(src, descs, error);
    }
  }

  lemma ErrorsLast(src: Source, descs: seq<Descriptor>, error: WalkError)
    requires descs != []
    ensures error in WalkErrors(src, descs) <==>
            error in WalkErrors(src, descs[..|descs| - 1]) || WalkManifest(src, descs[|descs| - 1]) == Failure(error)
  {
  }

  lemma LastFault(src: Source, descs: seq<Descriptor>, error: WalkError)
    requires descs != []
    ensures SomeFault(src, descs, error) <==>
            SomeFault(src, descs[..|descs| - 1], error) || WalkFault(src, descs[|descs| - 1], error)
  {
    assert descs == descs[..|descs| - 1] + [descs[|descs| - 1]];
  }

  /** When a retag has a list, whatever children and blobs are missing: on a graph that is not too deep, if
      the root is stored, nothing reachable is faulty, and the referrers of what is stored are stored image
      manifests. */
  lemma RetagSucceeds(c: Context)
    requires ContextOk(c) && c.allowMissing && !Deep(c)
    ensures TagList(c.src, c.root).Success? <==>
            && c.root in c.src.manifests && (forall x :: !Faulty(c, x))
            && (forall d, r :: GraphManifest(c, d) && RefersTo(c.src, r, d) ==> Walks(c.src, r))
  {
    SucceedsExactly(c);
    assert Path(c.src, [c.root]) && Reach(c.src, c.root, c.root);
    assert Missing(c, c.root) <==> c.root !in c.src.manifests;
    assert forall x :: Missing(c, x) ==> x == c.root;
    if ImageDescriptors(c.src, c.root, true).Success? {
      var list := ImageDescriptors(c.src, c.root, true).value;
      ImageDescriptorsExact(c);
      WalkedManifests(c, list);
      WalksExactly(c.src, ReferrersOfAll(c.src, list));
      ReferrersWalk(c, list);
    }
  }

  lemma ReferrersWalk(c: Context, list: seq<Descriptor>)
    requires forall d :: d in ManifestDigests(list) <==> GraphManifest(c, d)
    ensures (forall r :: r in ReferrersOfAll(c.src, list) ==> Walks(c.src, r)) <==>
            forall d, r :: GraphManifest(c, d) && RefersTo(c.src, r, d) ==> Walks(c.src, r)
  {
    forall r | r in ReferrersOfAll(c.src, list)
      ensures exists d :: GraphManifest(c, d) && RefersTo(c.src, r, d)
    {
      ReferrersMeans(c.src, list, r);
      var d :| d in list && !d.IsBlob() && RefersTo(c.src, r, d.digest);
      assert GraphManifest(c, d.digest);
    }
    forall d, r | GraphManifest(c, d) && RefersTo(c.src, r, d)
      ensures r in ReferrersOfAll(c.src, list)
    {
      assert d in ManifestDigests(list);
      var desc :| desc in list && !desc.IsBlob() && desc.digest == d;
      ReferrersMeans(c.src, list, r);
    }
  }

  /** The pull list: of an index what is chosen, the index and the referrers of the platform's manifest;
      of an image manifest itself and its referrers. */
  lemma PullListHolds(c: Context, root: Descriptor, descs: seq<Descriptor>)
    requires ContextOk(c) && PullList(c.src, root) == Success(descs)
    ensures root.digest in ManifestDigests(descs)
    ensures root.media == IndexMedia ==>
              root.digest in c.src.manifests && c.src.manifests[root.digest].Found? && c.src.manifests[root.digest].content.Index? &&
              exists k: nat :: FirstMatch(c.src.manifests[root.digest].content.entries, k) && IndexList(c, root, k, descs)
    ensures root.media != IndexMedia ==>
              forall m :: m in ManifestDigests(descs) <==> m == root.digest || exists r :: RefersTo(c.src, r, root.digest) && r.digest == m
  {
    if root.media == IndexMedia {
      IndexSets(c, root, descs);
      var k := IndexListHolds(c, root, descs);
    } else {
      ImageSets(c, root, descs);
      forall m
        ensures m in Digests(ReferrersOf(c.src, root.digest)) <==> exists r :: RefersTo(c.src, r, root.digest) && r.digest == m
      {
        RefDigests(c.src, root.digest, m);
      }
    }
  }

  lemma IndexListHolds(c: Context, root: Descriptor, descs: seq<Descriptor>) returns (k: nat)
    requires ContextOk(c) && PullList(c.src, root) == Success(descs) && root.media == IndexMedia
    ensures FirstMatch(c.src.manifests[root.digest].content.entries, k) && IndexList(c, root, k, descs)
  {
    var entries := c.src.manifests[root.digest].content.entries;
    IndexSets(c, root, descs);
    k := SelectedMeans(entries);
    forall m
      ensures m in ManifestDigests(descs) <==>
              m == root.digest || Chosen(entries, k, m) || exists r :: RefersTo(c.src, r, entries[k].desc.digest) && r.digest == m
    {
      RefDigests(c.src, entries[k].desc.digest, m);
    }
  }

  lemma RefDigests(src: Source, d: Digest, m: Digest)
    ensures m in Digests(ReferrersOf(src, d)) <==> exists r :: RefersTo(src, r, d) && r.digest == m
  {
  }

  lemma ImageSets(c: Context, root: Descriptor, descs: seq<Descriptor>)
    requires ContextOk(c) && PullList(c.src, root) == Success(descs) && root.media != IndexMedia
    ensures ManifestDigests(descs) == {root.digest} + Digests(ReferrersOf(c.src, root.digest))
  {
    OneIsWhole(c, root);
    WalkedAreWhole(c, ReferrersOf(c.src, root.digest));
    ManifestsTogether(WalkManifest(c.src, root).value, WalkManifests(c.src, ReferrersOf(c.src, root.digest)).value);
  }

  lemma IndexSets(c: Context, root: Descriptor, descs: seq<Descriptor>)
    requires ContextOk(c) && PullList(c.src, root) == Success(descs) && root.media == IndexMedia
    ensures var selected := Selected(c.src.manifests[root.digest].content.entries).value;
            ManifestDigests(descs) == Digests(selected) + {root.digest} + Digests(ReferrersOf(c.src, selected[0].digest))
  {
    var selected := Selected(c.src.manifests[root.digest].content.entries).value;
    var refs := ReferrersOf(c.src, selected[0].digest);
    WalkedAreWhole(c, selected);
    WalkedAreWhole(c, refs);
    var below, attached := WalkManifests(c.src, selected).value, WalkManifests(c.src, refs).value;
    var index := Descriptor(root.digest, IndexMedia);
    ManifestsTogether(below + [index], attached);
    ManifestsTogether(below, [index]);
    assert ManifestDigests([index]) == {root.digest};
  }

  ghost predicate IndexList(c: Context, root: Descriptor, k: nat, descs: seq<Descriptor>)
    requires root.digest in c.src.manifests && c.src.manifests[root.digest].Found? && c.src.manifests[root.digest].content.Index?
    requires k < |c.src.manifests[root.digest].content.entries|
  {
    var entries := c.src.manifests[root.digest].content.entries;
    forall m :: m in ManifestDigests(descs) <==>
      m == root.digest || Chosen(entries, k, m) || exists r :: RefersTo(c.src, r, entries[k].desc.digest) && r.digest == m
  }

  /** When a push turns to one platform: when platforms are requested, or when the root is an index and,
      on a graph that is not too deep and has nothing faulty, something reachable is not stored. */
  lemma FallsBackExactly(c: Context, original: Descriptor, requested: bool)
    requires ContextOk(c) && !c.allowMissing && !Deep(c) && original.digest == c.root && forall x :: !Faulty(c, x)
    ensures FallsBack(c.src, original, requested) <==>
            requested || (original.media == IndexMedia && exists x :: Reach(c.src, c.root, x) && !Stored(c.src, c.blobs, x))
  {
    SucceedsExactly(c);
    if ImageDescriptors(c.src, c.root, false).Failure? { FailureMeans(c); }
    assert forall x :: Missing(c, x) <==> Reach(c.src, c.root, x) && !Stored(c.src, c.blobs, x);
  }

  // ----- end to end

  /** A push into a closed repository: in every state of every run, whatever fails, every manifest
      of the destination has everything it names. */
  lemma PushKeepsClosed(c: Context, attach: bool, run: Run, tr: seq<State>, i: nat)
    requires ContextOk(c) && c.ranked && !c.allowMissing
    requires Agrees(c.src, run.names) && PushList(c.src, c.root, attach) == Success(run.descs)
    requires Trace(run, tr) && i < |tr| && Closed(run, tr[0].dest)
    ensures Closed(run, tr[i].dest)
    ensures TagFollowsRoot(run, tr[0].dest, tr[i].dest) && |tr[i].workers| <= MAX_WORKERS
    ensures tr[i].phase.Done? && run.tag.Some? && run.root == c.root ==>
              run.tag.value in tr[i].dest.tags && tr[i].dest.tags[run.tag.value] == c.root
  {
    var attached := if attach then ReferrersOf(c.src, c.root) else [];
    WalkedAreWhole(c, attached);
    GraphThenImages(c, WalkManifests(c.src, attached).value, run);
    CopyStaysClosed(run, tr, i);
    CopySafe(run, tr, i);
    PushListHolds(c, attach, run.descs);
    TagIsSet(run, tr, i);
  }

  /** A retag of a partial graph: in every state no manifest precedes what it names and the source has. */
  lemma RetagIsSafe(c: Context, run: Run, tr: seq<State>, i: nat)
    requires ContextOk(c) && c.ranked && c.allowMissing
    requires Agrees(c.src, run.names) && TagList(c.src, c.root) == Success(run.descs)
    requires Trace(run, tr) && i < |tr|
    ensures Safe(run, tr[0].dest, tr[i].dest)
    ensures TagFollowsRoot(run, tr[0].dest, tr[i].dest) && |tr[i].workers| <= MAX_WORKERS
    ensures tr[i].phase.Done? && run.tag.Some? && run.root == c.root ==>
              run.tag.value in tr[i].dest.tags && tr[i].dest.tags[run.tag.value] == c.root
  {
    var list := ImageDescriptors(c.src, c.root, true).value;
    WalkedAreWhole(c, ReferrersOfAll(c.src, list));
    GraphThenImages(c, WalkManifests(c.src, ReferrersOfAll(c.src, list)).value, run);
    CopySafe(run, tr, i);
    TagListHolds(c, run.descs);
    TagIsSet(run, tr, i);
  }

  /** What decides whether a pull is safe: no child of the index that was left out of the selection
      is a referrer of the platform manifest. */
  ghost predicate ReferrersSelected(src: Source, root: Descriptor) {
    root.media == IndexMedia && root.digest in src.manifests && src.manifests[root.digest].Found? &&
    src.manifests[root.digest].content.Index? && Selected(src.manifests[root.digest].content.entries).Some? ==>
      var entries := src.manifests[root.digest].content.entries;
      var selected := Selected(entries).value;
      forall e :: e in entries && e.desc.digest in Digests(ReferrersOf(src, selected[0].digest)) ==>
        e.desc.digest in Digests(selected)
  }

  lemma PullOrder(c: Context, root: Descriptor, run: Run)
    requires ContextOk(c) && Agrees(c.src, run.names) && PullList(c.src, root) == Success(run.descs)
    ensures InOrder(run) <==> ReferrersSelected(c.src, root)
  {
    if root.media == IndexMedia {
      PullIndexOrder(c, root, run);
    } else {
      OneIsWhole(c, root);
      WalkedAreWhole(c, ReferrersOf(c.src, root.digest));
      forall i | 0 <= i < |run.descs| && !run.descs[i].IsBlob()
        ensures InOrderAt(run, i)
      {
        assert run.descs[i] in run.descs;
      }
    }
  }

  lemma EntryDigests(content: Content)
    requires content.Index?
    ensures Digests(Refs(content)) == set e | e in content.entries :: e.desc.digest
  {
  }

  /** A list of whole images around one index is in order exactly when the index is. */
  lemma OnlyTheIndexCounts(c: Context, below: seq<Descriptor>, index: Descriptor, attached: seq<Descriptor>, run: Run)
    requires ContextOk(c) && Agrees(c.src, run.names) && WholeImages(c, below) && WholeImages(c, attached)
    requires run.descs == below + [index] + attached && index.media == IndexMedia
    ensures InOrder(run) <==> InOrderAt(run, |below|)
    ensures ManifestDigests(run.descs[..|below| + 1]) == ManifestDigests(below) + {index.digest}
    ensures ManifestDigests(run.descs) == ManifestDigests(below) + {index.digest} + ManifestDigests(attached)
  {
    var n := |below|;
    forall i | 0 <= i < |run.descs| && !run.descs[i].IsBlob() && i != n
      ensures InOrderAt(run, i)
    {
      var images := if i < n then below else attached;
      assert run.descs[i] in images;
      ImagesListed(c, images, run, run.descs[i].digest);
    }
    assert run.descs[n] == index;
    PrefixManifests(run.descs, n);
    assert run.descs[..n] == below;
  }

  lemma PullIndexOrder(c: Context, root: Descriptor, run: Run)
    requires ContextOk(c) && Agrees(c.src, run.names) && PullList(c.src, root) == Success(run.descs)
    requires root.media == IndexMedia
    ensures InOrder(run) <==> ReferrersSelected(c.src, root)
  {
    var content := c.src.manifests[root.digest].content;
    var selected := Selected(content.entries).value;
    var refs := ReferrersOf(c.src, selected[0].digest);
    WalkedAreWhole(c, selected);
    WalkedAreWhole(c, refs);
    var below, attached := WalkManifests(c.src, selected).value, WalkManifests(c.src, refs).value;
    OnlyTheIndexCounts(c, below, Descriptor(root.digest, IndexMedia), attached, run);
    EntryDigests(content);
    assert root.digest !in Digests(refs) by { assert WholeImages(c, attached); }
    var children := run.names(root.digest).children;
    assert children == set e | e in content.entries :: e.desc.digest;
    assert run.descs[|below|].digest == root.digest;
    LateChildren(children, Digests(selected), Digests(refs), root.digest);
    assert ReferrersSelected(c.src, root) <==> forall d :: d in children && d in Digests(refs) ==> d in Digests(selected);
  }

  lemma LateChildren(children: set<Digest>, before: set<Digest>, after: set<Digest>, index: Digest)
    requires index !in after
    ensures children * (before + {index} + after) <= before + {index} <==>
            forall d :: d in children && d in after ==> d in before
  {
    if forall d :: d in children && d in after ==> d in before {
    } else {
      var d :| d in children && d in after && d !in before;
      assert d in children * (before + {index} + after) && d !in before + {index};
    }
  }

  /** Every state of every pull of this list is safe if and only if the referrers that are index
      children were selected. */
  lemma PullIsSafeExactly(c: Context, root: Descriptor, run: Run)
    requires ContextOk(c) && Agrees(c.src, run.names) && PullList(c.src, root) == Success(run.descs)
    ensures ReferrersSelected(c.src, root) <==>
            forall tr: seq<State>, i: nat :: Trace(run, tr) && 0 <= i < |tr| ==> Safe(run, tr[0].dest, tr[i].dest)
  {
    PullOrder(c, root, run);
    OrderIsSafety(run);
  }

  /** A pull that ends well has set its tag. */
  lemma PullSetsTag(c: Context, root: Descriptor, run: Run, tr: seq<State>, i: nat)
    requires ContextOk(c) && PullList(c.src, root) == Success(run.descs) && run.root == root.digest
    requires Trace(run, tr) && i < |tr| && tr[i].phase.Done?
    ensures run.tag.Some? ==> run.tag.value in tr[i].dest.tags && tr[i].dest.tags[run.tag.value] == root.digest
  {
    PullListHolds(c, root, run.descs);
    TagIsSet(run, tr, i);
  }

  /** Some run has an unsafe state. */
  ghost predicate CanBreak(run: Run) {
    exists tr: seq<State>, i: nat :: Trace(run, tr) && 0 <= i < |tr| && !Safe(run, tr[0].dest, tr[i].dest)
  }

  /** An index with one child for the platform and one for another, which is stored as a referrer of
      the first. */
  function LateReferrer(): Source {
    var p, r := Descriptor("p", ManifestMedia), Descriptor("r", ManifestMedia);
    Source(map["idx" := Found(Index([Entry(p, true, None), Entry(r, false, None)])),
               "p" := Found(Image([], None)), "r" := Found(Image([], None))],
           map[], map["p" := [r]])
  }

  function LateRun(): Run {
    Run([Descriptor("p", ManifestMedia), Descriptor("idx", IndexMedia), Descriptor("r", ManifestMedia)], "idx", None,
        d => if d == "idx" then Names({}, {"p", "r"}) else Names({}, {}))
  }

  lemma LateList()
    ensures PullList(LateReferrer(), Descriptor("idx", IndexMedia)) == Success(LateRun().descs)
    ensures !ReferrersSelected(LateReferrer(), Descriptor("idx", IndexMedia))
  {
    var p, r := Descriptor("p", ManifestMedia), Descriptor("r", ManifestMedia);
    var src := LateReferrer();
    var entries := src.manifests["idx"].content.entries;
    assert entries[..1][..0] == [];
    assert Attestations(entries[..1], "p") == Attestations([], "p") + [];
    assert Attestations(entries, "p") == Attestations(entries[..1], "p") + [];
    assert Attestations(entries, "p") == [] && Platform(entries) == Some(p);
    assert Selected(entries) == Some([p] + []) && [p] + [] == [p];
    assert [p][..0] == [] && WalkErrors(src, [p]) == [] && WalkManifests(src, [p]) == Success([] + ([] + [p]));
    assert [r][..0] == [] && WalkManifests(src, [r]) == Success([] + ([] + [r]));
    assert entries[1] in entries && r in ReferrersOf(src, "p");
    assert [] + ([] + [p]) == [p] && [] + ([] + [r]) == [r];
    assert [p] + [Descriptor("idx", IndexMedia)] + [r] == LateRun().descs;
  }

  lemma LateNames()
    ensures Agrees(LateReferrer(), LateRun().names) && RolesApart(LateReferrer(), "idx", {})
  {
    var content := LateReferrer().manifests["idx"].content;
    assert content.Index?;
    EntryDigests(content);
    assert Digests(Refs(content)) == {"p", "r"};
    assert forall r :: r in Refs(content) ==> !r.IsBlob();
  }

  /** Pulling it succeeds with a child listed after its index, and some run of that pull stores the
      index first. */
  lemma PullCanBreak()
    ensures PullList(LateReferrer(), Descriptor("idx", IndexMedia)) == Success(LateRun().descs)
    ensures Agrees(LateReferrer(), LateRun().names)
    ensures CanBreak(LateRun())
  {
    LateList();
    LateNames();
    LateUnsafe();
  }

  lemma LateUnsafe()
    ensures CanBreak(LateRun())
  {
    var run := LateRun();
    assert run.descs[2] == Descriptor("r", ManifestMedia) && "r" in ManifestDigests(run.descs);
    assert run.descs[..2] == [run.descs[0], run.descs[1]] && "r" !in ManifestDigests(run.descs[..2]);
    assert "r" in run.names(run.descs[1].digest).children && !InOrderAt(run, 1);
    OrderIsSafety(run);
  }
}
