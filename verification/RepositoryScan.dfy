/** Listing a tenant's repositories from a catalogue that is sorted by name and read in pages. */
module RepositoryScan {
  import opened Common
  import opened RepositoryNames

  ghost predicate Ordered(cat: seq<string>, i: nat, j: nat) {
    i < |cat| && j < |cat| && Less(cat[i], cat[j])
  }

  ghost predicate Sorted(cat: seq<string>) {
    forall i, j :: 0 <= i < j < |cat| ==> Ordered(cat, i, j)
  }

  /** What the index lists after a key: the part of the catalogue beyond it. */
  function NamesAfter(cat: seq<string>, after: string): seq<string> {
    if cat == [] then [] else if Less(after, cat[0]) then cat else NamesAfter(cat[1..], after)
  }

  function Page(cat: seq<string>, after: string, size: nat): seq<string> {
    var rest := NamesAfter(cat, after);
    if |rest| < size then rest else rest[..size]
  }

  /** Those of the first `n` names that are to be kept. */
  function Kept(cat: seq<string>, n: nat, keep: string -> bool): seq<string>
    requires n <= |cat|
  {
    if n == 0 then [] else Kept(cat, n - 1, keep) + if keep(cat[n - 1]) then [cat[n - 1]] else []
  }

  function Filter(cat: seq<string>, keep: string -> bool): seq<string> {
    Kept(cat, |cat|, keep)
  }

  /** The filtered names are those of the catalogue that are to be kept, in its order. */
  lemma {:induction false} KeptMeans(cat: seq<string>, n: nat, keep: string -> bool) returns (at: seq<nat>)
    requires n <= |cat|
    ensures KeptAt(cat, n, keep, Kept(cat, n, keep), at)
  {
    if n == 0 {
      at := [];
    } else {
      at := KeptMeans(cat, n - 1, keep);
      at := KeptNext(cat, n, keep, Kept(cat, n - 1, keep), at);
    }
  }

  lemma KeptNext(cat: seq<string>, n: nat, keep: string -> bool, kept: seq<string>, at: seq<nat>) returns (longer: seq<nat>)
    requires 0 < n <= |cat| && KeptAt(cat, n - 1, keep, kept, at)
    ensures KeptAt(cat, n, keep, kept + if keep(cat[n - 1]) then [cat[n - 1]] else [], longer)
  {
    longer := at + if keep(cat[n - 1]) then [n - 1] else [];
    forall i | 0 <= i < n && keep(cat[i])
      ensures i in longer
    {
      assert i < n - 1 ==> i in at;
    }
  }

  ghost predicate KeptAt(cat: seq<string>, n: nat, keep: string -> bool, kept: seq<string>, at: seq<nat>)
    requires n <= |cat|
  {
    && |at| == |kept|
    && (forall k :: 0 <= k < |at| ==> at[k] < n && keep(cat[at[k]]) && kept[k] == cat[at[k]])
    && (forall k, l :: 0 <= k < l < |at| ==> at[k] < at[l])
    && (forall i :: 0 <= i < n && keep(cat[i]) ==> i in at)
  }

  lemma {:induction false} KeptSkips(cat: seq<string>, a: nat, b: nat, keep: string -> bool)
    requires a <= b <= |cat| && forall i :: a <= i < b ==> !keep(cat[i])
    ensures Kept(cat, b, keep) == Kept(cat, a, keep)
  {
    if a < b { KeptSkips(cat, a, b - 1, keep); }
  }

  ghost predicate Separates(cat: seq<string>, after: string, pos: nat) {
    pos <= |cat| && forall i :: 0 <= i < |cat| ==> (Less(after, cat[i]) <==> pos <= i)
  }

  /** The names after a key are a suffix, and the key separates the catalogue. */
  lemma {:induction false} AfterIsSuffix(cat: seq<string>, after: string) returns (pos: nat)
    requires Sorted(cat)
    ensures Separates(cat, after, pos) && NamesAfter(cat, after) == cat[pos..]
    decreases |cat|
  {
    if cat == [] {
      pos := 0;
    } else if Less(after, cat[0]) {
      pos := 0;
      forall i | 0 < i < |cat|
        ensures Less(after, cat[i])
      {
        assert Ordered(cat, 0, i);
        LessTransitive(after, cat[0], cat[i]);
      }
    } else {
      var rest := cat[1..];
      forall i, j | 0 <= i < j < |rest|
        ensures Ordered(rest, i, j)
      {
        assert Ordered(cat, i + 1, j + 1);
      }
      pos := AfterIsSuffix(rest, after);
      pos := pos + 1;
      forall i | 0 < i < |cat|
        ensures Less(after, cat[i]) <==> pos <= i
      {
        assert cat[i] == cat[1..][i - 1];
      }
    }
  }

  lemma AfterElement(cat: seq<string>, i: nat)
    requires Sorted(cat) && i < |cat|
    ensures Separates(cat, cat[i], i + 1)
  {
    var pos := AfterIsSuffix(cat, cat[i]);
    LessTotal(cat[i], cat[i]);
    assert i + 1 < |cat| ==> Ordered(cat, i, i + 1);
  }

  /** The start key stands before every name of the namespace. */
  lemma StartKeyIsBelow(ns: string, name: string)
    requires HasPrefix(name, ns + "/")
    ensures Less(ns + ".", name)
  {
    assert name == ns + name[|ns|..];
    assert name[|ns|] == '/';
    LessAfterPrefix(ns, ".", name[|ns|..]);
  }

  /** Once past the prefix, no later name has it. */
  lemma PastPrefix(prefix: string, x: string, y: string)
    requires !HasPrefix(x, prefix) && Less(prefix, x) && Less(x, y)
    ensures !HasPrefix(y, prefix)
  {
  }

  function Prefix(ns: string): string {
    if ns == "" then "" else ns + "/"
  }

  function Matches(ns: string): string -> bool {
    x => x != "" && (ns != "" ==> ns + "/" <= x)
  }

  /** `namespaceRepositories`: unless the index is `healthy` reading may fail; a result is exactly the
      names of the namespace, in order, whatever the catalogue and the page size. */
  method NamespaceRepositories(cat: seq<string>, ns: string, size: nat, healthy: bool) returns (r: Option<seq<string>>)
    requires Sorted(cat) && size > 0
    ensures healthy ==> r.Some?
    ensures r.Some? ==> r.value == Filter(cat, Matches(ns))
  {
    var after := if ns == "" then "" else ns + ".";
    var result: seq<string> := [];
    ghost var pos := ScanStart(cat, ns, after);
    while true
      invariant ScanAt(cat, ns, after, pos, result)
      decreases |cat| - pos
    {
      var outcome;
      outcome, after, result, pos := ScanStep(cat, ns, after, size, result, healthy, pos);
      match outcome {
        case ReadFailed => return None;
        case Finished => return Some(result);
        case More =>
      }
    }
  }

  datatype Outcome = ReadFailed | Finished | More

  /** One turn of the loop: a page is read and scanned. */
  method ScanStep(cat: seq<string>, ns: string, after0: string, size: nat, result0: seq<string>, healthy: bool, ghost pos0: nat)
    returns (outcome: Outcome, after: string, result: seq<string>, ghost pos: nat)
    requires Sorted(cat) && size > 0 && ScanAt(cat, ns, after0, pos0, result0)
    ensures outcome == ReadFailed ==> !healthy
    ensures outcome == Finished ==> result == Filter(cat, Matches(ns))
    ensures outcome == More ==> pos0 < pos <= |cat| && ScanAt(cat, ns, after, pos, result)
  {
    after, result, pos := after0, result0, pos0;
    if !healthy { if * { return ReadFailed, after, result, pos; } }
    var names := ReadPage(cat, after, size, pos);
    var stop;
    result, stop := ScanPage(cat, ns, pos, names, result);
    if stop || |names| < size { return Finished, after, result, pos; }
    NextPage(cat, ns, after, pos, names, result);
    return More, names[|names| - 1], result, pos + |names|;
  }

  /** The names beyond `after` are those from `pos` on, and those before it are dealt with. */
  ghost predicate ScanAt(cat: seq<string>, ns: string, after: string, pos: nat, result: seq<string>) {
    Separates(cat, after, pos) && NoneEmpty(cat, pos) && result == Kept(cat, pos, Matches(ns))
  }

  lemma ScanStart(cat: seq<string>, ns: string, after: string) returns (pos: nat)
    requires Sorted(cat) && after == if ns == "" then "" else ns + "."
    ensures ScanAt(cat, ns, after, pos, [])
  {
    pos := AfterIsSuffix(cat, after);
    SkippedMatchNothing(cat, ns, after, pos);
  }

  lemma NextPage(cat: seq<string>, ns: string, after: string, pos: nat, names: seq<string>, result: seq<string>)
    requires Sorted(cat) && NoneEmpty(cat, pos) && PageAt(cat, pos, names) && names != []
    requires result == Kept(cat, pos + |names|, Matches(ns))
    ensures ScanAt(cat, ns, names[|names| - 1], pos + |names|, result)
  {
    AfterElement(cat, pos + |names| - 1);
  }

  ghost predicate NoneEmpty(cat: seq<string>, pos: nat) {
    forall i :: pos <= i < |cat| ==> cat[i] != ""
  }

  ghost predicate PageAt(cat: seq<string>, pos: nat, names: seq<string>) {
    pos + |names| <= |cat| && forall j :: 0 <= j < |names| ==> names[j] == cat[pos + j]
  }

  lemma SeparatesOnce(cat: seq<string>, after: string, a: nat, b: nat)
    requires Separates(cat, after, a) && Separates(cat, after, b)
    ensures a == b
  {
    assert a < |cat| ==> (Less(after, cat[a]) <==> b <= a);
    assert b < |cat| ==> (Less(after, cat[b]) <==> a <= b);
  }

  /** What the index answers: a page that is not full is the last one. */
  method ReadPage(cat: seq<string>, after: string, size: nat, ghost pos: nat) returns (names: seq<string>)
    requires Sorted(cat) && Separates(cat, after, pos)
    ensures PageAt(cat, pos, names) && |names| <= size
    ensures |names| < size ==> pos + |names| == |cat|
  {
    names := Page(cat, after, size);
    ghost var start := AfterIsSuffix(cat, after);
    SeparatesOnce(cat, after, pos, start);
  }

  /** One page: collect its names, or stop at a name beyond the namespace. */
  method ScanPage(ghost cat: seq<string>, ns: string, ghost pos: nat, names: seq<string>, found: seq<string>)
    returns (result: seq<string>, stop: bool)
    requires Sorted(cat) && PageAt(cat, pos, names)
    requires NoneEmpty(cat, pos)
    requires found == Kept(cat, pos, Matches(ns))
    ensures result == if stop then Filter(cat, Matches(ns)) else Kept(cat, pos + |names|, Matches(ns))
  {
    result := found;
    for j := 0 to |names|
      invariant result == Kept(cat, pos + j, Matches(ns))
    {
      assert names[j] == cat[pos + j] && cat[pos + j] != "";
      if !HasPrefix(names[j], Prefix(ns)) {
        if Less(Prefix(ns), names[j]) {
          RestMatchesNothing(cat, ns, pos + j);
          return result, true;
        }
      } else {
        result := result + [names[j]];
      }
    }
    stop := false;
  }

  lemma SkippedMatchNothing(cat: seq<string>, ns: string, after: string, pos: nat)
    requires Sorted(cat) && after == (if ns == "" then "" else ns + ".") && Separates(cat, after, pos)
    ensures Kept(cat, pos, Matches(ns)) == [] && NoneEmpty(cat, pos)
  {
    forall i | 0 <= i < pos
      ensures !Matches(ns)(cat[i])
    {
      if ns != "" && HasPrefix(cat[i], ns + "/") { StartKeyIsBelow(ns, cat[i]); }
    }
    KeptSkips(cat, 0, pos, Matches(ns));
  }

  lemma RestMatchesNothing(cat: seq<string>, ns: string, k: nat)
    requires Sorted(cat) && k < |cat| && !HasPrefix(cat[k], Prefix(ns)) && Less(Prefix(ns), cat[k])
    ensures Filter(cat, Matches(ns)) == Kept(cat, k, Matches(ns))
  {
    forall i | k <= i < |cat|
      ensures !Matches(ns)(cat[i])
    {
      assert i > k ==> Ordered(cat, k, i);
      if i > k { PastPrefix(Prefix(ns), cat[k], cat[i]); }
    }
    KeptSkips(cat, k, |cat|, Matches(ns));
  }

  // ----- the scoped view

  /** `allowed`: a build credential is limited to its exact repositories. */
  predicate Allowed(ns: string, scope: Option<seq<string>>, repo: string) {
    match scope
    case Some(repositories) => repo in repositories
    case None => HasPrefix(repo, ns + "/")
  }

  function Wanted(ns: string, scope: Option<seq<string>>, startAfter: string): string -> bool {
    x => ns + "/" <= x && Less(startAfter, x) && (scope.Some? ==> x in scope.value)
  }

  function Start(ns: string, startAfter: string): string {
    if Less(startAfter, ns + ".") then ns + "." else startAfter
  }

  /** A stored name beyond the start that shares the namespace and goes on with a dot. */
  ghost predicate DottedNeighbour(cat: seq<string>, ns: string, startAfter: string) {
    exists x :: x in cat && HasPrefix(x, ns + ".") && Less(Start(ns, startAfter), x)
  }

  /** `scoped.Repositories`, which stops at the first name outside the namespace: it lists exactly what
      is wanted, or, if there is a dotted neighbour, nothing. */
  method ScopedRepositories(cat: seq<string>, ns: string, scope: Option<seq<string>>, startAfter: string)
    returns (result: seq<string>)
    requires Sorted(cat)
    ensures result == if DottedNeighbour(cat, ns, startAfter) then [] else Filter(cat, Wanted(ns, scope, startAfter))
  {
    var names;
    ghost var pos;
    names, pos := ReadAfter(cat, Start(ns, startAfter));
    SkippedUnwanted(cat, ns, scope, startAfter, pos);
    var j;
    result, j := Collect(cat, ns, scope, startAfter, pos, names);
    StoppedAt(cat, ns, scope, startAfter, pos, pos + j);
  }

  /** What the underlying listing yields: the names after a key. */
  method ReadAfter(cat: seq<string>, after: string) returns (names: seq<string>, ghost pos: nat)
    requires Sorted(cat)
    ensures forall x :: x in names <==> x in cat && Less(after, x)
    ensures Separates(cat, after, pos) && PageAt(cat, pos, names) && pos + |names| == |cat|
  {
    names := NamesAfter(cat, after);
    pos := AfterIsSuffix(cat, after);
  }

  /** The state of the loop at index `k`: names of the namespace so far, kept if wanted. */
  ghost predicate Collected(cat: seq<string>, ns: string, scope: Option<seq<string>>, startAfter: string, pos: nat, k: nat,
                            found: seq<string>) {
    && pos <= k <= |cat| && (forall i :: pos <= i < k ==> HasPrefix(cat[i], ns + "/"))
    && found == Kept(cat, k, Wanted(ns, scope, startAfter))
  }

  /** The loop: names of the namespace, kept if allowed, up to the first other name. */
  method Collect(ghost cat: seq<string>, ns: string, scope: Option<seq<string>>, ghost startAfter: string, ghost pos: nat, names: seq<string>)
    returns (result: seq<string>, j: nat)
    requires PageAt(cat, pos, names) && pos + |names| == |cat| && Collected(cat, ns, scope, startAfter, pos, pos, [])
    requires Separates(cat, Start(ns, startAfter), pos)
    ensures j <= |names| && Collected(cat, ns, scope, startAfter, pos, pos + j, result)
    ensures pos + j < |cat| ==> !HasPrefix(cat[pos + j], ns + "/")
  {
    result, j := [], 0;
    while j < |names|
      invariant 0 <= j <= |names| && Collected(cat, ns, scope, startAfter, pos, pos + j, result)
    {
      var more;
      more, result := CollectOne(cat, ns, scope, startAfter, pos, pos + j, names[j], result);
      if !more { return; }
      j := j + 1;
    }
  }

  method CollectOne(ghost cat: seq<string>, ns: string, scope: Option<seq<string>>, ghost startAfter: string, ghost pos: nat,
                    ghost k: nat, name: string, found: seq<string>) returns (more: bool, result: seq<string>)
    requires Collected(cat, ns, scope, startAfter, pos, k, found)
    requires k < |cat| && name == cat[k] && Less(Start(ns, startAfter), name)
    ensures more <==> HasPrefix(name, ns + "/")
    ensures Collected(cat, ns, scope, startAfter, pos, if more then k + 1 else k, result)
  {
    if !HasPrefix(name, ns + "/") { return false, found; }
    CollectNext(cat, ns, scope, startAfter, pos, k, found);
    return true, if Allowed(ns, scope, name) then found + [name] else found;
  }

  lemma CollectNext(cat: seq<string>, ns: string, scope: Option<seq<string>>, startAfter: string, pos: nat, k: nat, found: seq<string>)
    requires Collected(cat, ns, scope, startAfter, pos, k, found)
    requires k < |cat| && HasPrefix(cat[k], ns + "/") && Less(Start(ns, startAfter), cat[k])
    ensures Collected(cat, ns, scope, startAfter, pos, k + 1, if Allowed(ns, scope, cat[k]) then found + [cat[k]] else found)
  {
    StartIsBeyond(ns, startAfter, cat[k]);
  }

  lemma StartIsBeyond(ns: string, startAfter: string, name: string)
    requires Less(Start(ns, startAfter), name)
    ensures Less(startAfter, name) && Less(ns + ".", name)
  {
    LessTotal(startAfter, ns + ".");
    if Less(startAfter, ns + ".") {
      LessTransitive(startAfter, ns + ".", name);
    } else if Less(ns + ".", startAfter) {
      LessTransitive(ns + ".", startAfter, name);
    }
  }

  lemma UnwantedStart(ns: string, startAfter: string, name: string)
    requires HasPrefix(name, ns + "/") && !Less(Start(ns, startAfter), name)
    ensures !Less(startAfter, name)
  {
    StartKeyIsBelow(ns, name);
  }

  lemma SkippedUnwanted(cat: seq<string>, ns: string, scope: Option<seq<string>>, startAfter: string, pos: nat)
    requires Separates(cat, Start(ns, startAfter), pos)
    ensures Kept(cat, pos, Wanted(ns, scope, startAfter)) == []
  {
    forall i | 0 <= i < pos
      ensures !Wanted(ns, scope, startAfter)(cat[i])
    {
      if HasPrefix(cat[i], ns + "/") { UnwantedStart(ns, startAfter, cat[i]); }
    }
    KeptSkips(cat, 0, pos, Wanted(ns, scope, startAfter));
  }

  /** A name beyond the start key and not beyond the namespace either belongs to it or is a dotted
      neighbour. */
  lemma BeforeTheNamespace(ns: string, x: string, y: string)
    requires Less(ns + ".", x) && (x == y || Less(x, y)) && HasPrefix(y, ns + "/")
    ensures HasPrefix(x, ns + "/") || HasPrefix(x, ns + ".")
  {
    assert ns <= ns + "." && ns <= y;
    assert ns + [] == ns;
    LessAfterPrefix(ns, [], ".");
    LessTransitive(ns, ns + ".", x);
    if x != y { BetweenPrefixed(ns, x, y); }
    var u, v := x[|ns|..], y[|ns|..];
    assert x == ns + u && y == ns + v && v[0] == '/';
    LessAfterPrefix(ns, ".", u);
    if x != y { LessAfterPrefix(ns, u, v); }
    assert u[0] == '.' || u[0] == '/';
  }

  /** A dotted neighbour stands before the whole namespace. */
  lemma DottedIsFirst(ns: string, x: string, y: string)
    requires HasPrefix(x, ns + ".") && HasPrefix(y, ns + "/")
    ensures Less(x, y) && !HasPrefix(x, ns + "/")
  {
    var u, v := x[|ns|..], y[|ns|..];
    assert x == ns + u && y == ns + v && u[0] == '.' && v[0] == '/';
    LessAfterPrefix(ns, u, v);
  }

  lemma StoppedAt(cat: seq<string>, ns: string, scope: Option<seq<string>>, startAfter: string, pos: nat, k: nat)
    requires Sorted(cat) && pos <= k <= |cat|
    requires Separates(cat, Start(ns, startAfter), pos)
    requires forall i :: pos <= i < k ==> HasPrefix(cat[i], ns + "/")
    requires k < |cat| ==> !HasPrefix(cat[k], ns + "/")
    ensures Kept(cat, k, Wanted(ns, scope, startAfter)) ==
            if DottedNeighbour(cat, ns, startAfter) then [] else Filter(cat, Wanted(ns, scope, startAfter))
  {
    if DottedNeighbour(cat, ns, startAfter) {
      NeighbourStops(cat, ns, scope, startAfter, pos, k);
    } else {
      NothingBeyond(cat, ns, scope, startAfter, pos, k);
    }
  }

  /** With a dotted neighbour the loop stops before everything that is wanted. */
  lemma NeighbourStops(cat: seq<string>, ns: string, scope: Option<seq<string>>, startAfter: string, pos: nat, k: nat)
    requires Sorted(cat) && pos <= k <= |cat| && DottedNeighbour(cat, ns, startAfter)
    requires Separates(cat, Start(ns, startAfter), pos)
    requires forall i :: pos <= i < k ==> HasPrefix(cat[i], ns + "/")
    ensures Kept(cat, k, Wanted(ns, scope, startAfter)) == []
  {
    var i :| 0 <= i < |cat| && HasPrefix(cat[i], ns + ".") && Less(Start(ns, startAfter), cat[i]);
    if i < k { DottedIsFirst(ns, cat[i], cat[i]); }
    forall j | 0 <= j < k
      ensures !Wanted(ns, scope, startAfter)(cat[j])
    {
      assert Ordered(cat, j, i);
      LessTotal(cat[j], cat[i]);
      if HasPrefix(cat[j], ns + "/") { DottedIsFirst(ns, cat[i], cat[j]); }
    }
    KeptSkips(cat, 0, k, Wanted(ns, scope, startAfter));
  }

  /** Without one the loop stops only beyond everything that is wanted. */
  lemma NothingBeyond(cat: seq<string>, ns: string, scope: Option<seq<string>>, startAfter: string, pos: nat, k: nat)
    requires Sorted(cat) && pos <= k <= |cat| && !DottedNeighbour(cat, ns, startAfter)
    requires Separates(cat, Start(ns, startAfter), pos)
    requires k < |cat| ==> !HasPrefix(cat[k], ns + "/")
    ensures Kept(cat, k, Wanted(ns, scope, startAfter)) == Filter(cat, Wanted(ns, scope, startAfter))
  {
    forall j | k <= j < |cat|
      ensures !Wanted(ns, scope, startAfter)(cat[j])
    {
      StartIsBeyond(ns, startAfter, cat[k]);
      assert j > k ==> Ordered(cat, k, j);
      if HasPrefix(cat[j], ns + "/") { BeforeTheNamespace(ns, cat[k], cat[j]); }
    }
    KeptSkips(cat, k, |cat|, Wanted(ns, scope, startAfter));
  }

  /** A name that begins with a namespace of its own. */
  ghost predicate Tenanted(x: string) {
    exists k :: 0 <= k < |x| && x[k] == '/' && ValidNamespace(x[..k])
  }

  /** When every stored name begins with a valid namespace there is no such neighbour, so the scoped
      view is exact. */
  lemma TenantedHasNoNeighbour(cat: seq<string>, ns: string, startAfter: string)
    requires ValidNamespace(ns) && forall x :: x in cat ==> Tenanted(x)
    ensures !DottedNeighbour(cat, ns, startAfter)
  {
    forall x | x in cat
      ensures !HasPrefix(x, ns + ".")
    {
      if HasPrefix(x, ns + ".") { DottedIsNotTenanted(ns, x); }
    }
  }

  lemma DottedIsNotTenanted(ns: string, x: string)
    requires ValidNamespace(ns) && HasPrefix(x, ns + ".")
    ensures !Tenanted(x)
  {
    forall k | 0 <= k < |x| && x[k] == '/'
      ensures !ValidNamespace(x[..k])
    {
      assert forall i :: 0 <= i < |ns| ==> x[i] == ns[i] && ns[i] in ns;
      assert x[|ns|] == '.' && k > |ns|;
      assert x[..k][|ns|] in x[..k] && !NamespaceChar(x[|ns|]);
    }
  }

  /** Without that, names are lost: "a.b/x" hides "a/y" from tenant "a". */
  lemma NeighbourHides()
    ensures Sorted(["a.b/x", "a/y"])
    ensures Filter(["a.b/x", "a/y"], Wanted("a", None, "")) == ["a/y"] && DottedNeighbour(["a.b/x", "a/y"], "a", "")
  {
    var cat := ["a.b/x", "a/y"];
    assert Less("a.b/x"[1..], "a/y"[1..]);
    assert "a" + "/" <= "a/y" && !("a" + "/" <= "a.b/x");
    assert Kept(cat, 0, Wanted("a", None, "")) == [];
    assert Kept(cat, 1, Wanted("a", None, "")) == [];
    var x := "a.b/x";
    assert Less("a."[1..], x[1..]) && Less("."[1..], x[2..]);
    assert x == cat[0] && HasPrefix(x, "a" + ".") && Less(Start("a", ""), x);
  }

  /** The tenant asks for everything it has and is told that it has nothing. */
  method ListBesideNeighbour() returns (listed: seq<string>)
    ensures Filter(["a.b/x", "a/y"], Wanted("a", None, "")) == ["a/y"] && listed == []
  {
    NeighbourHides();
    listed := ScopedRepositories(["a.b/x", "a/y"], "a", None, "");
  }
}
