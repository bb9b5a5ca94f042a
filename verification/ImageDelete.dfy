/** Deleting an image: tags first, then, if nothing else holds the image, its manifests from parents
    to children and last its blobs. Every deletion may fail, which ends the operation there. */
module ImageDelete {
  import opened Common

  type Digest = string
  type Tag = string

  /** A repository: manifests with the digests they name, blobs and tags. */
  datatype Repo = Repo(manifests: map<Digest, set<Digest>>, blobs: set<Digest>, tags: map<Tag, Digest>)

  /** An entry of the closure the index reports for an image. */
  datatype Entry = Entry(digest: Digest, isManifest: bool, retained: bool)

  ghost predicate Present(repo: Repo, d: Digest) {
    d in repo.manifests || d in repo.blobs
  }

  ghost predicate Path(repo: Repo, p: seq<Digest>) {
    |p| > 0 && forall i :: 0 <= i < |p| - 1 ==> p[i] in repo.manifests && p[i + 1] in repo.manifests[p[i]]
  }

  ghost predicate Reach(repo: Repo, a: Digest, d: Digest) {
    exists p :: Path(repo, p) && p[0] == a && p[|p| - 1] == d
  }

  function Members(closure: seq<Entry>): set<Digest> {
    set e | e in closure :: e.digest
  }

  /** What holds content other than the image itself: tags of other images, manifests outside it. */
  ghost predicate OtherHolder(repo: Repo, root: Digest, closure: seq<Entry>, h: Digest) {
    || (exists t :: t in repo.tags && repo.tags[t] == h && h != root)
    || (h in repo.manifests && h !in Members(closure))
  }

  ghost predicate Held(repo: Repo, root: Digest, closure: seq<Entry>, d: Digest) {
    exists h :: OtherHolder(repo, root, closure, h) && Reach(repo, h, d)
  }

  /** The contract of the closure: the present content reachable from the root, the root first and
      parents before the manifests they name, marked as retained exactly where something else holds it.
      No digest is both a manifest and a blob. */
  ghost predicate ClosureOk(repo: Repo, root: Digest, closure: seq<Entry>) {
    && (closure != [] ==> closure[0].digest == root)
    && repo.manifests.Keys !! repo.blobs
    && (forall i, j :: 0 <= i < j < |closure| ==> closure[i].digest != closure[j].digest)
    && (forall d :: d in Members(closure) <==> Reach(repo, root, d) && Present(repo, d))
    && (forall e :: e in closure ==> (e.isManifest <==> e.digest in repo.manifests) && (e.retained <==> Held(repo, root, closure, e.digest)))
    && (forall i, j :: 0 <= i < |closure| && 0 <= j < |closure| && Names(repo, closure[i], closure[j]) ==> i < j)
  }

  predicate Names(repo: Repo, parent: Entry, child: Entry) {
    parent.digest in repo.manifests && child.digest in repo.manifests && child.digest in repo.manifests[parent.digest]
  }

  // ----- consequences of the contract

  lemma ReachStep(repo: Repo, a: Digest, m: Digest, d: Digest)
    requires Reach(repo, a, m) && m in repo.manifests && d in repo.manifests[m]
    ensures Reach(repo, a, d)
  {
    var p :| Path(repo, p) && p[0] == a && p[|p| - 1] == m;
    var q := p + [d];
    assert Path(repo, q) && q[0] == a && q[|q| - 1] == d;
  }

  /** What a manifest outside the image, or a retained one, names is retained. */
  lemma NamedByKept(repo: Repo, root: Digest, closure: seq<Entry>, m: Digest, d: Digest)
    requires ClosureOk(repo, root, closure) && m in repo.manifests && d in repo.manifests[m] && Present(repo, d)
    requires m !in Members(closure) || Held(repo, root, closure, m)
    ensures Held(repo, root, closure, d)
  {
    if m !in Members(closure) {
      assert Path(repo, [m]);
      assert OtherHolder(repo, root, closure, m);
      ReachStep(repo, m, m, d);
    } else {
      var h :| OtherHolder(repo, root, closure, h) && Reach(repo, h, m);
      ReachStep(repo, h, m, d);
    }
  }

  // ----- what is promised of every state

  /** No manifest that is still there has lost content it names. */
  ghost predicate NothingLost(before: Repo, now: Repo) {
    forall m, d :: m in now.manifests && m in before.manifests && d in before.manifests[m] && Present(before, d) ==> Present(now, d)
  }

  /** Whatever a remaining tag reaches is still there. */
  ghost predicate TagsIntact(before: Repo, now: Repo) {
    forall t, d {:trigger Reach(before, now.tags[t], d)} ::
      t in now.tags && Reach(before, now.tags[t], d) && Present(before, d) ==> Present(now, d)
  }

  /** What does not belong to the image, or is retained, is still there. */
  ghost predicate Spared(before: Repo, now: Repo, closure: seq<Entry>) {
    forall d :: Present(before, d) && (forall e :: e in closure && e.digest == d ==> e.retained) ==> Present(now, d)
  }

  ghost predicate Shrunk(before: Repo, now: Repo) {
    && now.blobs <= before.blobs && now.manifests.Keys <= before.manifests.Keys
    && (forall m :: m in now.manifests ==> now.manifests[m] == before.manifests[m])
    && now.tags.Keys <= before.tags.Keys && (forall t :: t in now.tags ==> now.tags[t] == before.tags[t])
  }

  /** Deletion has got through entries `..i` of the manifest pass (`blobsToo` false) or of the blob pass. */
  ghost predicate Progress(before: Repo, now: Repo, root: Digest, closure: seq<Entry>, blobsToo: bool, i: nat)
    requires i <= |closure|
  {
    && Shrunk(before, now)
    && (forall m :: m in before.manifests ==>
          (m in now.manifests <==> !(exists k :: 0 <= k < |closure| && (blobsToo || k < i) && Doomed(closure[k], true, m))))
    && (forall b :: b in before.blobs ==>
          (b in now.blobs <==> !(exists k :: 0 <= k < |closure| && blobsToo && k < i && Doomed(closure[k], false, b))))
  }

  predicate Doomed(e: Entry, manifest: bool, d: Digest) {
    e.digest == d && e.isManifest == manifest && !e.retained
  }

  lemma ProgressLosesNothing(before: Repo, now: Repo, root: Digest, closure: seq<Entry>, blobsToo: bool, i: nat)
    requires ClosureOk(before, root, closure) && i <= |closure| && Progress(before, now, root, closure, blobsToo, i)
    ensures NothingLost(before, now)
  {
    forall m, d | m in now.manifests && m in before.manifests && d in before.manifests[m] && Present(before, d)
      ensures Present(now, d)
    {
      if m !in Members(closure) || Held(before, root, closure, m) {
        NamedByKept(before, root, closure, m, d);
        assert forall k :: 0 <= k < |closure| ==> closure[k] in closure;
      } else {
        // m is to go but is still there, so the manifest pass has not reached it, nor what it names
        var j :| 0 <= j < |closure| && closure[j].digest == m;
        assert closure[j] in closure && Doomed(closure[j], true, m);
        forall k | 0 <= k < |closure| && closure[k].digest == d
          ensures closure[k].isManifest ==> j < k
        {
          assert closure[k] in closure;
          assert closure[k].isManifest ==> Names(before, closure[j], closure[k]);
        }
      }
    }
  }

  lemma ProgressKeepsTagged(before: Repo, now: Repo, root: Digest, closure: seq<Entry>, blobsToo: bool, i: nat)
    requires ClosureOk(before, root, closure) && i <= |closure| && Progress(before, now, root, closure, blobsToo, i)
    requires forall t :: t in now.tags ==> now.tags[t] != root
    ensures TagsIntact(before, now)
  {
    forall t, d | t in now.tags && Reach(before, now.tags[t], d) && Present(before, d)
      ensures Present(now, d)
    {
      assert OtherHolder(before, root, closure, before.tags[t]);
      assert Held(before, root, closure, d);
      assert forall k :: 0 <= k < |closure| ==> closure[k] in closure;
    }
  }

  lemma ProgressSpares(before: Repo, now: Repo, root: Digest, closure: seq<Entry>, blobsToo: bool, i: nat)
    requires ClosureOk(before, root, closure) && i <= |closure| && Progress(before, now, root, closure, blobsToo, i)
    ensures Spared(before, now, closure)
  {
    assert forall k :: 0 <= k < |closure| ==> closure[k] in closure;
  }

  /** A tag removes itself; an image named otherwise loses all of its tags. */
  function ToRemove(tag: Option<Tag>, recorded: seq<Tag>): seq<Tag> {
    if tag.Some? then [tag.value] else recorded
  }

  datatype Error = Conflict | ApiError

  class Repository {
    var manifests: map<Digest, set<Digest>>
    var blobs: set<Digest>
    var tags: map<Tag, Digest>

    ghost function Value(): Repo
      reads this
    {
      Repo(manifests, blobs, tags)
    }

    /** `ImageDelete` after the name was resolved: `tag` is the tag it named, if any, and `recorded` are
        the tags of the image. Unless the registry is `healthy` any call may fail, so what is promised of
        the state at the end holds after every prefix of the deletions. */
    method ImageDelete(root: Digest, tag: Option<Tag>, recorded: seq<Tag>, force: bool, closure: seq<Entry>, healthy: bool)
      returns (err: Option<Error>)
      requires ClosureOk(Value(), root, closure)
      requires forall t :: t in recorded <==> t in tags && tags[t] == root
      requires tag.Some? ==> tag.value in recorded
      modifies this
      ensures Shrunk(old(Value()), Value()) && NothingLost(old(Value()), Value()) && TagsIntact(old(Value()), Value())
      ensures Spared(old(Value()), Value(), closure)
      ensures err == Some(Conflict) <==> tag.None? && |recorded| > 1 && !force
      ensures err == Some(Conflict) ==> Value() == old(Value())
      ensures healthy ==> err != Some(ApiError)
      ensures (exists t :: t in tags && tags[t] == root) || Held(old(Value()), root, closure, root) ==>
                manifests == old(manifests) && blobs == old(blobs)
      ensures tag.Some? ==> forall t :: t in old(tags) && t != tag.value ==> t in tags
      ensures tag.Some? && (exists t :: t in old(tags) && t != tag.value && old(tags)[t] == root) ==>
                manifests == old(manifests) && blobs == old(blobs)
      ensures err.None? && tag.Some? ==> tags == old(tags) - {tag.value}
      ensures err.None? && tag.None? ==> tags == map t | t in old(tags) && old(tags)[t] != root :: old(tags)[t]
      ensures forall t :: t in old(tags) && old(tags)[t] != root ==> t in tags
      ensures err.None? && !(exists t :: t in tags && tags[t] == root) && !Held(old(Value()), root, closure, root) ==>
                forall e :: e in closure && !e.retained ==> !Present(Value(), e.digest)
    {
      var remove := ToRemove(tag, recorded);
      if tag.None? && |remove| > 1 && !force { return Some(Conflict); }
      ghost var before := Value();
      err := Untag(remove, healthy);
      if err.Some? { return; }
      if (exists t :: t in recorded && t !in remove) || |closure| == 0 || closure[0].retained {
        assert |closure| > 0 ==> closure[0] in closure;
        return None;
      }
      assert forall t :: t in tags ==> tags[t] != root;
      err := DeleteContent(before, root, closure, healthy);
    }

    method Untag(remove: seq<Tag>, healthy: bool) returns (err: Option<Error>)
      modifies this`tags
      ensures err != Some(Conflict) && (healthy ==> err.None?)
      ensures forall t :: t in tags ==> t in old(tags) && tags[t] == old(tags)[t]
      ensures forall t :: t in old(tags) && t !in remove ==> t in tags
      ensures err.None? ==> forall t :: t in remove ==> t !in tags
    {
      for i := 0 to |remove|
        invariant tags == old(tags) - set t | t in remove[..i]
      {
        if !healthy { if * { return Some(ApiError); } }
        tags := tags - {remove[i]};
        assert remove[..i + 1] == remove[..i] + [remove[i]];
      }
      assert remove[..|remove|] == remove;
      return None;
    }

    method DeleteContent(ghost before: Repo, root: Digest, closure: seq<Entry>, healthy: bool) returns (err: Option<Error>)
      requires ClosureOk(before, root, closure) && Shrunk(before, Value())
      requires manifests == before.manifests && blobs == before.blobs && forall t :: t in tags ==> tags[t] != root
      modifies this`manifests, this`blobs
      ensures Shrunk(before, Value()) && NothingLost(before, Value()) && TagsIntact(before, Value()) && Spared(before, Value(), closure)
      ensures err != Some(Conflict) && (healthy ==> err.None?)
      ensures err.None? ==> forall e :: e in closure && !e.retained ==> !Present(Value(), e.digest)
    {
      ghost var i;
      err, i := DeleteManifests(before, root, closure, healthy);
      ProgressLosesNothing(before, Value(), root, closure, false, i);
      ProgressKeepsTagged(before, Value(), root, closure, false, i);
      ProgressSpares(before, Value(), root, closure, false, i);
      if err.Some? { return; }
      err, i := DeleteBlobs(before, root, closure, healthy);
      ProgressLosesNothing(before, Value(), root, closure, true, i);
      ProgressKeepsTagged(before, Value(), root, closure, true, i);
      ProgressSpares(before, Value(), root, closure, true, i);
      forall e | e in closure && !e.retained
        ensures err.None? ==> !Present(Value(), e.digest)
      {
        var k :| 0 <= k < |closure| && closure[k] == e;
        assert Doomed(closure[k], e.isManifest, e.digest);
      }
    }

    method DeleteManifests(ghost before: Repo, ghost root: Digest, closure: seq<Entry>, healthy: bool)
      returns (err: Option<Error>, ghost upTo: nat)
      requires Progress(before, Value(), root, closure, false, 0)
      modifies this`manifests
      ensures err != Some(Conflict) && upTo <= |closure| && Progress(before, Value(), root, closure, false, upTo)
      ensures (err.None? ==> upTo == |closure|) && (healthy ==> err.None?)
    {
      for i := 0 to |closure|
        invariant Progress(before, Value(), root, closure, false, i)
      {
        var entry := closure[i];
        if !entry.isManifest || entry.retained { continue; }
        if !healthy { if * { return Some(ApiError), i; } }
        manifests := manifests - {entry.digest};
        assert Doomed(closure[i], true, entry.digest);
      }
      return None, |closure|;
    }

    method DeleteBlobs(ghost before: Repo, ghost root: Digest, closure: seq<Entry>, healthy: bool)
      returns (err: Option<Error>, ghost upTo: nat)
      requires Progress(before, Value(), root, closure, true, 0)
      modifies this`blobs
      ensures err != Some(Conflict) && upTo <= |closure| && Progress(before, Value(), root, closure, true, upTo)
      ensures (err.None? ==> upTo == |closure|) && (healthy ==> err.None?)
    {
      for i := 0 to |closure|
        invariant Progress(before, Value(), root, closure, true, i)
      {
        var entry := closure[i];
        if entry.isManifest || entry.retained { continue; }
        if !healthy { if * { return Some(ApiError), i; } }
        blobs := blobs - {entry.digest};
        assert Doomed(closure[i], false, entry.digest);
      }
      return None, |closure|;
    }
  }
}
