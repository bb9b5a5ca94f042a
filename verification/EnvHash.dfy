/** The byte stream under the hash of a container's resolved environment values: for each key, in
    order, the key and the value, each preceded by its length in decimal and a colon. */
module EnvHash {
  import opened RepositoryNames

  /** Strings stand for byte strings: one character, one byte, compared by value. */
  type Bytes = string

  function Digit(n: nat): char
    requires n < 10
  {
    '0' + n as char
  }

  function Decimal(n: nat): Bytes {
    if n < 10 then [Digit(n)] else Decimal(n / 10) + [Digit(n % 10)]
  }

  function Framed(data: Bytes): Bytes {
    Decimal(|data|) + ":" + data
  }

  function Stream(keys: seq<Bytes>, values: map<Bytes, Bytes>): Bytes
    requires forall k :: k in keys ==> k in values
  {
    if keys == [] then []
    else Framed(keys[0]) + Framed(values[keys[0]]) + Stream(keys[1..], values)
  }

  /** The keys of the map, each once, in ascending order. */
  ghost predicate Listing(keys: seq<Bytes>, values: map<Bytes, Bytes>) {
    && (forall k :: k in keys <==> k in values)
    && (forall i, j :: 0 <= i < j < |keys| ==> Less(keys[i], keys[j]))
  }

  /** Every map has a listing. */
  method SortedKeys(values: map<Bytes, Bytes>) returns (keys: seq<Bytes>)
    ensures Listing(keys, values)
  {
    keys := [];
    var todo := values.Keys;
    while todo != {}
      invariant todo <= values.Keys && forall k :: k in keys <==> k in values.Keys - todo
      invariant forall i, j :: 0 <= i < j < |keys| ==> Less(keys[i], keys[j])
      invariant forall i, k :: 0 <= i < |keys| && k in todo ==> Less(keys[i], k)
      decreases todo
    {
      var k := Smallest(todo);
      keys, todo := keys + [k], todo - {k};
    }
  }

  /** `envHash` up to the hash function: what is written to it, key by key in ascending order. */
  method EnvStream(values: map<Bytes, Bytes>) returns (written: Bytes)
    ensures exists keys :: Listing(keys, values) && written == Stream(keys, values)
  {
    var keys := SortedKeys(values);
    written := [];
    assert keys[0..] == keys;
    for i := 0 to |keys|
      invariant Stream(keys, values) == written + Stream(keys[i..], values)
    {
      var before, k := written, keys[i];
      written := written + Decimal(|k|) + ":" + k + Decimal(|values[k]|) + ":";
      written := written + values[k];
      StreamNext(keys, values, i, before, written);
    }
    assert keys[|keys|..] == [];
  }

  lemma StreamNext(keys: seq<Bytes>, values: map<Bytes, Bytes>, i: nat, before: Bytes, after: Bytes)
    requires i < |keys| && forall k :: k in keys ==> k in values
    requires var k := keys[i]; after == before + Decimal(|k|) + ":" + k + Decimal(|values[k]|) + ":" + values[k]
    ensures before + Stream(keys[i..], values) == after + Stream(keys[i + 1..], values)
  {
    assert keys[i..][1..] == keys[i + 1..];
    assert after == before + (Framed(keys[i]) + Framed(values[keys[i]]));
  }

  // ----- unique decoding

  function ValueOf(digits: Bytes): int {
    if digits == [] then 0 else 10 * ValueOf(digits[..|digits| - 1]) + (digits[|digits| - 1] as int - '0' as int)
  }

  lemma {:induction false} DecimalValue(n: nat)
    ensures ValueOf(Decimal(n)) == n && ':' !in Decimal(n)
  {
    if n >= 10 {
      DecimalValue(n / 10);
      assert Decimal(n)[..|Decimal(n)| - 1] == Decimal(n / 10);
    } else {
      assert Decimal(n)[..0] == [];
    }
  }

  lemma {:induction false} FirstColon(s: Bytes, x: Bytes, t: Bytes, y: Bytes)
    requires ':' !in s && ':' !in t && s + ":" + x == t + ":" + y
    ensures s == t && x == y
    decreases |s|
  {
    var whole := s + ":" + x;
    assert whole == t + ":" + y;
    assert if s == [] then whole[0] == ':' else whole[0] == s[0] && s[0] in s;
    assert if t == [] then whole[0] == ':' else whole[0] == t[0] && t[0] in t;
    if s == [] {
      assert whole[1..] == x && whole[1..] == y;
    } else {
      assert whole[0] == s[0] == t[0];
      assert whole[1..] == s[1..] + ":" + x && whole[1..] == t[1..] + ":" + y;
      FirstColon(s[1..], x, t[1..], y);
      assert s == [s[0]] + s[1..] && t == [t[0]] + t[1..];
    }
  }

  /** A framed string can be told from whatever follows it. */
  lemma FrameEnds(a: Bytes, x: Bytes, b: Bytes, y: Bytes)
    requires Framed(a) + x == Framed(b) + y
    ensures a == b && x == y
  {
    assert Framed(a) + x == Decimal(|a|) + ":" + (a + x);
    assert Framed(b) + y == Decimal(|b|) + ":" + (b + y);
    DecimalValue(|a|);
    DecimalValue(|b|);
    FirstColon(Decimal(|a|), a + x, Decimal(|b|), b + y);
    assert (a + x)[..|a|] == a && (b + y)[..|b|] == b;
    assert (a + x)[|a|..] == x && (b + y)[|b|..] == y;
  }

  lemma {:induction false} StreamDecodes(keys: seq<Bytes>, values: map<Bytes, Bytes>, keys': seq<Bytes>, values': map<Bytes, Bytes>)
    requires (forall k :: k in keys ==> k in values) && (forall k :: k in keys' ==> k in values')
    requires Stream(keys, values) == Stream(keys', values')
    ensures keys == keys' && forall k :: k in keys ==> values[k] == values'[k]
    decreases |keys|
  {
    if keys == [] || keys' == [] {
      assert keys == [] && keys' == [];
    } else {
      var rest, rest' := Stream(keys[1..], values), Stream(keys'[1..], values');
      var v, v' := values[keys[0]], values'[keys'[0]];
      assert Stream(keys, values) == Framed(keys[0]) + (Framed(v) + rest);
      assert Stream(keys', values') == Framed(keys'[0]) + (Framed(v') + rest');
      FrameEnds(keys[0], Framed(v) + rest, keys'[0], Framed(v') + rest');
      FrameEnds(v, rest, v', rest');
      StreamDecodes(keys[1..], values, keys'[1..], values');
      assert keys == [keys[0]] + keys[1..] && keys' == [keys'[0]] + keys'[1..];
    }
  }

  // ----- one stream per map

  lemma {:induction false} ListingIsUnique(keys: seq<Bytes>, keys': seq<Bytes>)
    requires forall k :: k in keys <==> k in keys'
    requires forall i, j :: 0 <= i < j < |keys| ==> Less(keys[i], keys[j])
    requires forall i, j :: 0 <= i < j < |keys'| ==> Less(keys'[i], keys'[j])
    ensures keys == keys'
    decreases |keys|
  {
    assert keys' != [] ==> keys'[0] in keys';
    if keys != [] {
      assert keys[0] in keys' && keys'[0] in keys;
      LessTotal(keys[0], keys'[0]);
      assert keys[0] == keys'[0];
      forall k
        ensures k in keys[1..] <==> k in keys'[1..]
      {
        LessTotal(keys[0], keys[0]);
        assert k in keys[1..] ==> Less(keys[0], k);
        assert k in keys'[1..] ==> Less(keys'[0], k);
        assert k in keys <==> k == keys[0] || k in keys[1..];
        assert k in keys' <==> k == keys'[0] || k in keys'[1..];
      }
      ListingIsUnique(keys[1..], keys'[1..]);
      assert keys == [keys[0]] + keys[1..] && keys' == [keys'[0]] + keys'[1..];
    }
  }

  lemma {:induction false} SameValues(keys: seq<Bytes>, values: map<Bytes, Bytes>, values': map<Bytes, Bytes>)
    requires forall k :: k in keys ==> k in values && k in values' && values[k] == values'[k]
    ensures Stream(keys, values) == Stream(keys, values')
  {
    if keys != [] { SameValues(keys[1..], values, values'); }
  }

  /** Two environments have the same stream if and only if they are the same, whatever bytes their
      keys and values are made of. */
  lemma StreamIdentifies(keys: seq<Bytes>, values: map<Bytes, Bytes>, keys': seq<Bytes>, values': map<Bytes, Bytes>)
    requires Listing(keys, values) && Listing(keys', values')
    ensures Stream(keys, values) == Stream(keys', values') <==> values == values'
  {
    if Stream(keys, values) == Stream(keys', values') {
      StreamDecodes(keys, values, keys', values');
      assert values.Keys == values'.Keys;
      assert forall k :: k in values ==> k in keys;
    }
    if values == values' { ListingIsUnique(keys, keys'); }
  }
}
