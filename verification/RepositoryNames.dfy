/** Repository names: the byte order they are listed in, their prefixes and tenant namespaces. */
module RepositoryNames {

  predicate HasPrefix(s: string, prefix: string) {
    prefix <= s
  }

  /** The order of strings by their characters, a proper prefix coming first. */
  predicate Less(a: string, b: string) {
    if b == [] then false
    else if a == [] then true
    else a[0] < b[0] || (a[0] == b[0] && Less(a[1..], b[1..]))
  }

  predicate NamespaceChar(c: char) {
    'a' <= c <= 'z' || '0' <= c <= '9' || c == '-'
  }

  /** A Kubernetes namespace: at most 63 lower-case letters, digits and inner hyphens. */
  predicate ValidNamespace(ns: string) {
    && 1 <= |ns| <= 63
    && (forall c :: c in ns ==> NamespaceChar(c))
    && ns[0] != '-' && ns[|ns| - 1] != '-'
  }

  lemma {:induction false} LessTotal(a: string, b: string)
    ensures a == b || Less(a, b) || Less(b, a)
    ensures !(Less(a, b) && Less(b, a)) && !Less(a, a)
    decreases |a|
  {
    if a != [] {
      LessTotal(a[1..], if b == [] then [] else b[1..]);
      LessTotal(a[1..], a[1..]);
      if b != [] { assert a == [a[0]] + a[1..] && b == [b[0]] + b[1..]; }
    }
  }

  lemma {:induction false} LessTransitive(a: string, b: string, c: string)
    requires Less(a, b) && Less(b, c)
    ensures Less(a, c)
    decreases |b|
  {
    if a != [] && a[0] == b[0] == c[0] { LessTransitive(a[1..], b[1..], c[1..]); }
  }

  /** The order, told by the first place where two names differ. */
  lemma {:induction false} LessMeans(a: string, b: string)
    ensures Less(a, b) <==> exists k :: FirstDifference(a, b, k) && (k == |a| || (k < |b| && a[k] < b[k]))
    decreases |a|
  {
    if a == [] && b == [] {
      assert forall k :: !FirstDifference(a, b, k);
    } else if a == [] || b == [] || a[0] != b[0] {
      assert FirstDifference(a, b, 0);
      assert forall k :: FirstDifference(a, b, k) ==> k == 0;
    } else {
      LessMeans(a[1..], b[1..]);
      forall k | 0 < k
        ensures FirstDifference(a, b, k) <==> FirstDifference(a[1..], b[1..], k - 1)
      {
        SameRest(a, b, k);
      }
      assert !FirstDifference(a, b, 0);
      if k :| FirstDifference(a[1..], b[1..], k) && (k == |a| - 1 || (k < |b| - 1 && a[1..][k] < b[1..][k])) {
        assert FirstDifference(a, b, k + 1);
      }
      if k :| FirstDifference(a, b, k) && (k == |a| || (k < |b| && a[k] < b[k])) {
        assert FirstDifference(a[1..], b[1..], k - 1);
      }
    }
  }

  /** `a` and `b` agree up to `k`, where at least one of them goes on and they do not agree. */
  ghost predicate FirstDifference(a: string, b: string, k: int) {
    && 0 <= k <= |a| && k <= |b| && a[..k] == b[..k]
    && (k < |a| || k < |b|) && (k < |a| && k < |b| ==> a[k] != b[k])
  }

  lemma SameRest(a: string, b: string, k: int)
    requires a != [] && b != [] && a[0] == b[0] && 0 < k
    ensures FirstDifference(a, b, k) <==> FirstDifference(a[1..], b[1..], k - 1)
  {
    if k <= |a| && k <= |b| {
      assert a[..k] == [a[0]] + a[1..][..k - 1] && b[..k] == [b[0]] + b[1..][..k - 1];
      assert a[..k][1..] == a[1..][..k - 1] && b[..k][1..] == b[1..][..k - 1];
    }
  }

  predicate Alphanumeric(c: char) {
    'a' <= c <= 'z' || '0' <= c <= '9'
  }

  /** A namespace is one alphanumeric character, or two with up to 61 more, hyphens included, between. */
  lemma ValidNamespaceMeans(ns: string)
    ensures ValidNamespace(ns) <==>
            && ns != [] && Alphanumeric(ns[0])
            && (|ns| > 1 ==> |ns| - 2 <= 61 && Alphanumeric(ns[|ns| - 1]) &&
                             forall i :: 0 < i < |ns| - 1 ==> Alphanumeric(ns[i]) || ns[i] == '-')
  {
    assert forall i :: 0 <= i < |ns| ==> ns[i] in ns;
  }

  /** Names with a common beginning compare by what follows it. */
  lemma {:induction false} LessAfterPrefix(p: string, a: string, b: string)
    ensures Less(p + a, p + b) <==> Less(a, b)
    decreases |p|
  {
    if p == [] {
      assert p + a == a && p + b == b;
    } else {
      assert (p + a)[1..] == p[1..] + a && (p + b)[1..] == p[1..] + b;
      LessAfterPrefix(p[1..], a, b);
    }
  }

  /** A name before another one and after a prefix of it shares that prefix. */
  lemma {:induction false} BetweenPrefixed(p: string, x: string, y: string)
    requires p <= y && (p == x || Less(p, x)) && Less(x, y)
    ensures p <= x
    decreases |p|
  {
    if p != [] {
      assert y == [p[0]] + y[1..] && p[1..] <= y[1..];
      if p != x {
        assert x[0] == p[0];
        BetweenPrefixed(p[1..], x[1..], y[1..]);
        assert x == [x[0]] + x[1..] && p == [p[0]] + p[1..];
      }
    }
  }

  /** The first of some names, as a loop over them in order takes it. */
  method Smallest(names: set<string>) returns (least: string)
    requires names != {}
    ensures least in names && forall k :: k in names && k != least ==> Less(least, k)
  {
    least :| least in names;
    var todo := names - {least};
    while todo != {}
      invariant todo <= names && least in names - todo
      invariant forall k :: k in names - todo && k != least ==> Less(least, k)
      decreases todo
    {
      var k :| k in todo;
      todo := todo - {k};
      LessTotal(k, least);
      if Less(k, least) {
        forall j | j in names - todo && j != k
          ensures Less(k, j)
        {
          if j != least { LessTransitive(k, least, j); }
        }
        least := k;
      }
    }
  }
}
