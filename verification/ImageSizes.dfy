/** Sizes and availability of the platforms of a stored image. Shared content counts once in the whole
    and once in each platform that uses it; blob lookups are remembered across platforms. */
module ImageSizes {
  import opened Common

  type Digest = string

  const TWO_63 := 0x8000_0000_0000_0000

  /** Sizes are 64-bit numbers, and so are their sums, which wrap around. */
  type int64 = x: int | -TWO_63 <= x < TWO_63

  function Wrap(x: int): int64 {
    (x + TWO_63) % (2 * TWO_63) - TWO_63
  }

  /** The 64-bit number that differs from `x` by a multiple of 2^64, so `x` itself if it is one. */
  lemma WrapMeans(x: int)
    ensures exists k: int :: Wrap(x) == x - k * (2 * TWO_63)
    ensures -TWO_63 <= x < TWO_63 ==> Wrap(x) == x
  {
    var k := (x + TWO_63) / (2 * TWO_63);
    assert Wrap(x) == x - k * (2 * TWO_63);
  }

  lemma WrapAdd(x: int, y: int)
    ensures Wrap(Wrap(x) + y) == Wrap(x + y)
  {
    var k := (x + TWO_63) / (2 * TWO_63);
    assert Wrap(x) == x - k * (2 * TWO_63);
    ModShift(x + y + TWO_63, k);
  }

  lemma ModShift(x: int, k: int)
    ensures (x - k * (2 * TWO_63)) % (2 * TWO_63) == x % (2 * TWO_63)
  {
    var q := x / (2 * TWO_63);
    assert x - k * (2 * TWO_63) == (q - k) * (2 * TWO_63) + x % (2 * TWO_63);
  }

  datatype Stored = Stored(config: Option<Digest>, layers: seq<Digest>)

  /** A platform of the image: its manifest's digest and size, and its content if the manifest is stored. */
  datatype Child = Child(digest: Digest, size: int64, manifest: Option<Stored>)

  datatype Tree = Tree(digest: Digest, size: int64, children: seq<Child>)

  /** Blobs of the repository: a size, or a lookup that fails; a digest outside the map is not found. */
  datatype Lookup = Found(size: int64) | Broken
  type Store = map<Digest, Lookup>

  datatype Summary = Summary(available: bool, content: int64)

  function BlobList(m: Stored): seq<Digest> {
    (if m.config.Some? then [m.config.value] else []) + m.layers
  }

  function Digests(s: seq<Digest>): set<Digest> {
    if s == [] then {} else Digests(s[..|s| - 1]) + {s[|s| - 1]}
  }

  /** The distinct blobs of a platform, none if its manifest is not stored. */
  function Blobs(c: Child): set<Digest> {
    if c.manifest.Some? then Digests(BlobList(c.manifest.value)) else {}
  }

  function AllBlobs(children: seq<Child>): set<Digest> {
    if children == [] then {} else AllBlobs(children[..|children| - 1]) + Blobs(children[|children| - 1])
  }

  function Manifests(children: seq<Child>): set<Digest> {
    if children == [] then {}
    else Manifests(children[..|children| - 1]) +
         if children[|children| - 1].manifest.Some? then {children[|children| - 1].digest} else {}
  }

  /** The blobs of a stored platform are its config and its layers. */
  lemma BlobsMeans(c: Child, d: Digest)
    ensures d in Blobs(c) <==> c.manifest.Some? && (c.manifest.value.config == Some(d) || d in c.manifest.value.layers)
  {
    if c.manifest.Some? {
      var m := c.manifest.value;
      DigestsMeans(BlobList(m), d);
      if d in m.layers { assert d in BlobList(m); }
    }
  }

  lemma {:induction false} DigestsMeans(s: seq<Digest>, d: Digest)
    ensures d in Digests(s) <==> d in s
  {
    if s != [] {
      assert s == s[..|s| - 1] + [s[|s| - 1]];
      DigestsMeans(s[..|s| - 1], d);
    }
  }

  /** What counts towards the image besides its root: stored platforms and the blobs of each. */
  lemma {:induction false} ContentMeans(children: seq<Child>, d: Digest)
    ensures d in AllBlobs(children) <==> exists c :: c in children && d in Blobs(c)
    ensures d in Manifests(children) <==> exists c :: c in children && c.manifest.Some? && c.digest == d
  {
    if children != [] {
      assert children == children[..|children| - 1] + [children[|children| - 1]];
      ContentMeans(children[..|children| - 1], d);
    }
  }

  // ----- sums

  ghost function Sum(s: set<Digest>, size: Digest -> int64): int {
    if s == {} then 0 else var d :| d in s; size(d) + Sum(s - {d}, size)
  }

  lemma {:induction false} SumAdd(s: set<Digest>, size: Digest -> int64, d: Digest)
    requires d !in s
    ensures Sum(s + {d}, size) == Sum(s, size) + size(d)
    decreases s
  {
    var t := s + {d};
    var e :| e in t && Sum(t, size) == size(e) + Sum(t - {e}, size);
    if e == d {
      assert t - {e} == s;
    } else {
      assert t - {e} == (s - {e}) + {d};
      SumAdd(s - {e}, size, d);
      SumAdd(s - {e}, size, e);
      assert (s - {e}) + {e} == s;
    }
  }

  lemma SumNext(done: set<Digest>, stored: set<Digest>, size: Digest -> int64, d: Digest)
    requires d !in done
    ensures Sum((done + {d}) * stored, size) == Sum(done * stored, size) + if d in stored then size(d) else 0
  {
    if d in stored {
      SumAdd(done * stored, size, d);
      assert (done + {d}) * stored == done * stored + {d};
    } else {
      assert (done + {d}) * stored == done * stored;
    }
  }

  // ----- the meaning, computed afresh

  /** What the store answers: the blobs it has, those whose lookup fails, and the size of a digest,
      which by content addressing is one size wherever it is written down. */
  datatype View = View(stored: set<Digest>, broken: set<Digest>, size: Digest -> int64)

  ghost predicate Shows(v: View, store: Store) {
    && (forall d :: d in v.stored <==> d in store && store[d].Found?)
    && (forall d :: d in v.broken <==> d in store && store[d].Broken?)
    && (forall d :: d in v.stored ==> store[d].size == v.size(d))
  }

  ghost predicate SizesAgree(v: View, tree: Tree) {
    tree.size == v.size(tree.digest) && forall c :: c in tree.children ==> c.size == v.size(c.digest)
  }

  /** No digest is both a manifest and a blob of the image. */
  ghost predicate RolesApart(tree: Tree) {
    AllBlobs(tree.children) !! Manifests(tree.children) + {tree.digest}
  }

  /** A platform on its own, asking the store about each of its distinct blobs. */
  ghost function Fresh(v: View, c: Child): Summary {
    if c.manifest.None? then Summary(false, 0)
    else Summary(c.manifest.value.config.Some? && Blobs(c) <= v.stored, Wrap(v.size(c.digest) + Sum(Blobs(c) * v.stored, v.size)))
  }

  /** The digests of an image that are stored: its root, its stored platforms and their stored blobs. */
  ghost function StoredDigests(v: View, tree: Tree, children: seq<Child>): set<Digest> {
    {tree.digest} + Manifests(children) + AllBlobs(children) * v.stored
  }

  lemma NextChild(children: seq<Child>, i: nat)
    requires i < |children|
    ensures AllBlobs(children[..i + 1]) == AllBlobs(children[..i]) + Blobs(children[i])
    ensures Manifests(children[..i + 1]) == Manifests(children[..i]) +
              if children[i].manifest.Some? then {children[i].digest} else {}
  {
    assert children[..i + 1][..i] == children[..i];
  }

  lemma {:induction false} PrefixListed(children: seq<Child>, i: nat)
    requires i <= |children|
    ensures AllBlobs(children[..i]) <= AllBlobs(children) && Manifests(children[..i]) <= Manifests(children)
    decreases |children|
  {
    if i < |children| {
      var init := children[..|children| - 1];
      assert init[..i] == children[..i];
      PrefixListed(init, i);
    } else {
      assert children[..i] == children;
    }
  }

  // ----- the listing

  /** The memo: sizes are right, and only what the store does not have is remembered as missing. */
  ghost predicate MemoOk(v: View, present: map<Digest, int64>, missing: set<Digest>) {
    (forall d :: d in present ==> present[d] == v.size(d)) && missing !! v.stored + v.broken
  }

  /** The state of the listing after `i` platforms. */
  ghost predicate Listed(v: View, tree: Tree, i: nat, present: map<Digest, int64>, missing: set<Digest>, summaries: seq<Summary>) {
    && i <= |tree.children| && present.Keys == StoredDigests(v, tree, tree.children[..i])
    && MemoOk(v, present, missing) && AllBlobs(tree.children[..i]) !! v.broken
    && |summaries| == i && forall k :: 0 <= k < i ==> summaries[k] == Fresh(v, tree.children[k])
  }

  /** `listManifestSummaries`. It fails exactly when the lookup of a blob of a stored platform fails;
      otherwise every summary is what the platform alone would give and the total counts each stored
      digest once. */
  method ListManifestSummaries(tree: Tree, store: Store, ghost v: View) returns (r: Option<(seq<Summary>, int64)>)
    requires Shows(v, store) && SizesAgree(v, tree) && RolesApart(tree)
    ensures r.Some? <==> AllBlobs(tree.children) !! v.broken
    ensures r.Some? ==> |r.value.0| == |tree.children|
    ensures r.Some? ==> forall i :: 0 <= i < |tree.children| ==> r.value.0[i] == Fresh(v, tree.children[i])
    ensures r.Some? ==> r.value.1 == Wrap(Sum(StoredDigests(v, tree, tree.children), v.size))
  {
    var present: map<Digest, int64> := map[tree.digest := tree.size];
    var missing: set<Digest> := {};
    var summaries: seq<Summary> := [];
    for i := 0 to |tree.children|
      invariant Listed(v, tree, i, present, missing, summaries)
    {
      var ok;
      ok, present, missing, summaries := AddChild(tree, i, store, present, missing, summaries, v);
      if !ok { return None; }
    }
    assert tree.children[..|tree.children|] == tree.children;
    var total := Total(present, v);
    return Some((summaries, total));
  }

  method AddChild(tree: Tree, i: nat, store: Store, present0: map<Digest, int64>, missing0: set<Digest>,
                  summaries0: seq<Summary>, ghost v: View)
    returns (ok: bool, present: map<Digest, int64>, missing: set<Digest>, summaries: seq<Summary>)
    requires Shows(v, store) && SizesAgree(v, tree) && RolesApart(tree) && i < |tree.children|
    requires Listed(v, tree, i, present0, missing0, summaries0)
    ensures ok ==> Listed(v, tree, i + 1, present, missing, summaries)
    ensures !ok ==> !(AllBlobs(tree.children) !! v.broken)
  {
    var child := tree.children[i];
    present, missing := present0, missing0;
    if child.manifest.None? {
      NextListed(v, tree, i, present0, missing0, summaries0, present, missing, Summary(false, 0));
      return true, present, missing, summaries0 + [Summary(false, 0)];
    }
    ReadyChild(v, tree, i, present0, missing0, summaries0);
    present := present[child.digest := child.size];
    var summary;
    ok, summary, present, missing := Summarise(child, store, present, missing, v);
    summaries := summaries0 + [summary];
    if ok { NextListed(v, tree, i, present0, missing0, summaries0, present, missing, summary); }
  }

  /** A stored platform finds the memo in a state it can use. */
  lemma ReadyChild(v: View, tree: Tree, i: nat, present: map<Digest, int64>, missing: set<Digest>, summaries: seq<Summary>)
    requires SizesAgree(v, tree) && RolesApart(tree) && i < |tree.children| && tree.children[i].manifest.Some?
    requires Listed(v, tree, i, present, missing, summaries)
    ensures var child := tree.children[i];
            && child.size == v.size(child.digest) && child.digest !in Blobs(child)
            && Blobs(child) * (present.Keys + {child.digest}) <= v.stored
            && MemoOk(v, present[child.digest := child.size], missing)
            && Blobs(child) <= AllBlobs(tree.children)
  {
    assert tree.children[i] in tree.children;
    NextChild(tree.children, i);
    PrefixListed(tree.children, i);
    PrefixListed(tree.children, i + 1);
  }

  lemma NextListed(v: View, tree: Tree, i: nat, present0: map<Digest, int64>, missing0: set<Digest>, summaries0: seq<Summary>,
                   present: map<Digest, int64>, missing: set<Digest>, summary: Summary)
    requires i < |tree.children| && Listed(v, tree, i, present0, missing0, summaries0)
    requires var child := tree.children[i];
             && (if child.manifest.None? then present.Keys == present0.Keys
                 else present.Keys == present0.Keys + {child.digest} + Blobs(child) * v.stored)
             && MemoOk(v, present, missing) && Blobs(child) !! v.broken && summary == Fresh(v, child)
    ensures Listed(v, tree, i + 1, present, missing, summaries0 + [summary])
  {
    NextChild(tree.children, i);
  }

  /** The state of one platform after the blobs in `done`. */
  ghost predicate Tallied(v: View, child: Child, before: set<Digest>, done: set<Digest>,
                          present: map<Digest, int64>, missing: set<Digest>, summary: Summary)
    requires child.manifest.Some?
  {
    && present.Keys == before + done * v.stored && MemoOk(v, present, missing) && done !! v.broken
    && summary.available == (child.manifest.value.config.Some? && done <= v.stored)
    && summary.content == Wrap(v.size(child.digest) + Sum(done * v.stored, v.size))
  }

  lemma StartTally(v: View, child: Child, present: map<Digest, int64>, missing: set<Digest>)
    requires child.manifest.Some? && child.size == v.size(child.digest) && MemoOk(v, present, missing)
    ensures Tallied(v, child, present.Keys, {}, present, missing, Summary(child.manifest.value.config.Some?, child.size))
  {
    assert {} * v.stored == {};
  }

  /** When all blobs of the platform are counted its summary is as on its own. */
  lemma EndTally(v: View, child: Child, before: set<Digest>, present: map<Digest, int64>, missing: set<Digest>, summary: Summary)
    requires child.manifest.Some? && Tallied(v, child, before, Blobs(child), present, missing, summary)
    ensures summary == Fresh(v, child) && present.Keys == before + Blobs(child) * v.stored && MemoOk(v, present, missing)
  {
  }

  /** One platform, with the memo shared between platforms. */
  method Summarise(child: Child, store: Store, present0: map<Digest, int64>, missing0: set<Digest>, ghost v: View)
    returns (ok: bool, summary: Summary, present: map<Digest, int64>, missing: set<Digest>)
    requires Shows(v, store) && child.manifest.Some? && child.size == v.size(child.digest)
    requires child.digest !in Blobs(child) && Blobs(child) * present0.Keys <= v.stored && MemoOk(v, present0, missing0)
    ensures ok <==> Blobs(child) !! v.broken
    ensures ok ==> summary == Fresh(v, child)
    ensures ok ==> present.Keys == present0.Keys + Blobs(child) * v.stored && MemoOk(v, present, missing)
  {
    var blobs := BlobList(child.manifest.value);
    var counted := {child.digest};
    present, missing, summary := present0, missing0, Summary(child.manifest.value.config.Some?, child.size);
    assert blobs[..|blobs|] == blobs;
    StartTally(v, child, present0, missing0);
    for j := 0 to |blobs|
      invariant counted == {child.digest} + Digests(blobs[..j])
      invariant Tallied(v, child, present0.Keys, Digests(blobs[..j]), present, missing, summary)
    {
      var d := blobs[j];
      NextDigest(blobs, j);
      if d in counted {
        assert Digests(blobs[..j + 1]) == Digests(blobs[..j]);
        continue;
      }
      counted := counted + {d};
      ok, present, missing, summary := CountBlob(child, d, store, present, missing, summary, present0.Keys, Digests(blobs[..j]), v);
      if !ok { return; }
    }
    EndTally(v, child, present0.Keys, present, missing, summary);
    ok := true;
  }

  lemma NextDigest(blobs: seq<Digest>, j: nat)
    requires j < |blobs|
    ensures Digests(blobs[..j + 1]) == Digests(blobs[..j]) + {blobs[j]}
    ensures blobs[j] in Digests(blobs)
  {
    assert blobs[..j + 1][..j] == blobs[..j];
    MemberOfDigests(blobs, j);
  }

  lemma {:induction false} MemberOfDigests(blobs: seq<Digest>, j: nat)
    requires j < |blobs|
    ensures blobs[j] in Digests(blobs)
  {
    if j < |blobs| - 1 { MemberOfDigests(blobs[..|blobs| - 1], j); }
  }

  method CountBlob(child: Child, d: Digest, store: Store, present0: map<Digest, int64>, missing0: set<Digest>, summary0: Summary,
                   ghost before: set<Digest>, ghost done: set<Digest>, ghost v: View)
    returns (ok: bool, present: map<Digest, int64>, missing: set<Digest>, summary: Summary)
    requires Shows(v, store) && child.manifest.Some? && Tallied(v, child, before, done, present0, missing0, summary0)
    requires d !in done && (d in before ==> d in v.stored)
    ensures ok <==> d !in v.broken
    ensures ok ==> Tallied(v, child, before, done + {d}, present, missing, summary)
  {
    var found, known;
    ok, found, known, present, missing := Resolve(d, store, present0, missing0, v);
    SumNext(done, v.stored, v.size, d);
    WrapAdd(v.size(child.digest) + Sum(done * v.stored, v.size), known);
    summary := if found then summary0.(content := Wrap(summary0.content + known)) else summary0.(available := false);
  }

  /** One blob: the memo answers, or else the store does and the memo learns it. */
  method Resolve(d: Digest, store: Store, present0: map<Digest, int64>, missing0: set<Digest>, ghost v: View)
    returns (ok: bool, found: bool, known: int64, present: map<Digest, int64>, missing: set<Digest>)
    requires Shows(v, store) && MemoOk(v, present0, missing0) && (d in present0 ==> d in v.stored)
    ensures ok <==> d !in v.broken
    ensures ok ==> MemoOk(v, present, missing) && (found <==> d in v.stored) && (found ==> known == v.size(d))
    ensures ok ==> present.Keys == present0.Keys + if found then {d} else {}
  {
    present, missing := present0, missing0;
    if d in present { return true, true, present[d], present, missing; }
    if d in missing { return true, false, 0, present, missing; }
    if d !in store { return true, false, 0, present, missing + {d}; }
    if store[d].Broken? { return false, false, 0, present, missing; }
    return true, true, store[d].size, present[d := store[d].size], missing;
  }

  method Total(present: map<Digest, int64>, ghost v: View) returns (total: int64)
    requires forall d :: d in present ==> present[d] == v.size(d)
    ensures total == Wrap(Sum(present.Keys, v.size))
  {
    total := 0;
    var todo := present.Keys;
    assert present.Keys - todo == {};
    while todo != {}
      invariant todo <= present.Keys && total == Wrap(Sum(present.Keys - todo, v.size))
      decreases todo
    {
      var d :| d in todo;
      SumAdd(present.Keys - todo, v.size, d);
      assert present.Keys - (todo - {d}) == present.Keys - todo + {d};
      WrapAdd(Sum(present.Keys - todo, v.size), present[d]);
      total := Wrap(total + present[d]);
      todo := todo - {d};
    }
    assert present.Keys - todo == present.Keys;
  }
}
