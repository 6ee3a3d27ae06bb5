/**
 * CacheKeyBuilder::build: the cache key of a request is the SHA-256 of
 * the JSON text of `[apiKey, params sorted by key, semVer, userId]`
 * followed by the caller's extra segments.
 */
module CacheKeys {
  import opened Results
  import opened Php
  import opened Sorting
  import opened Config

  function EntryName(e: Entry): string
  {
    e.name
  }

  /** `$params` once `if ($params = getParams()) ksort($params);` has run on the local copy. */
  function ParamsSegment(params: Option<seq<Entry>>): (v: Value)
    ensures params.None? ==> v == Null
    ensures params.Some? ==> v.Dict? && multiset(v.entries) == multiset(params.value)
    ensures params.Some? ==> Sorted(v.entries, EntryName)
  {
    match params
    case None => Null
    case Some(es) => Dict(SortBy(es, EntryName))
  }

  /** The list handed to json_encode. */
  function Segments(s: Settings, additional: seq<Value>): seq<Value>
  {
    [OptionalStr(s.apiKey), ParamsSegment(s.params), OptionalStr(s.semVer), OptionalStr(s.userId)]
      + additional
  }

  /** The text of the PHP assertion that guards the hash input. */
  const EncodedNotEmpty := "assert(!empty($encodedKeySegments))"

  /** build($additionalSegments), with the config's fields read as `s`. */
  function Build(s: Settings, rt: Runtime, additional: seq<Value>): Outcome<string>
  {
    var segments := List(Segments(s, additional));
    if !Encodable(segments) then Fail(AssertionFailure(EncodedNotEmpty))
    else
      var encoded := rt.jsonEncode(segments);
      if Empty(Str(encoded)) then Fail(AssertionFailure(EncodedNotEmpty))
      else Ok(rt.sha256(encoded))
  }

  /** What decides the key: the three strings, the params up to key order, and the extra segments. */
  predicate SameKeyInputs(s1: Settings, a1: seq<Value>, s2: Settings, a2: seq<Value>)
  {
    && s1.apiKey == s2.apiKey
    && s1.semVer == s2.semVer
    && s1.userId == s2.userId
    && s1.params.None? == s2.params.None?
    && (s1.params.Some? ==> multiset(s1.params.value) == multiset(s2.params.value))
    && a1 == a2
  }

  /** The keys of a PHP array tell its entries apart. */
  lemma DistinctKeysInjective(es: seq<Entry>)
    requires DistinctKeys(es)
    ensures KeyInjective(es, EntryName)
  {
    forall x, y | x in es && y in es && EntryName(x) == EntryName(y) ensures x == y {
      var i :| 0 <= i < |es| && es[i] == x;
      var j :| 0 <= j < |es| && es[j] == y;
      assert Names(es)[i] == x.name && Names(es)[j] == y.name;
    }
  }

  lemma OptionalStrInjective(a: Option<string>, b: Option<string>)
    requires OptionalStr(a) == OptionalStr(b)
    ensures a == b
  {
  }

  /**
   * Two configs (and extra segments) give the same hash input exactly when
   * they agree on everything the key is meant to capture; in particular
   * params that differ only in insertion order give the same key.
   */
  lemma SegmentsIdentifyInputs(s1: Settings, a1: seq<Value>, s2: Settings, a2: seq<Value>)
    requires s1.params.Some? ==> DistinctKeys(s1.params.value)
    ensures Segments(s1, a1) == Segments(s2, a2) <==> SameKeyInputs(s1, a1, s2, a2)
  {
    var g1, g2 := Segments(s1, a1), Segments(s2, a2);
    if g1 == g2 {
      assert g1[0] == g2[0] && g1[2] == g2[2] && g1[3] == g2[3] && g1[1] == g2[1];
      OptionalStrInjective(s1.apiKey, s2.apiKey);
      OptionalStrInjective(s1.semVer, s2.semVer);
      OptionalStrInjective(s1.userId, s2.userId);
      assert a1 == g1[4..] && a2 == g2[4..];
    }
    if SameKeyInputs(s1, a1, s2, a2) && s1.params.Some? {
      DistinctKeysInjective(s1.params.value);
      SortByCanonical(s1.params.value, s2.params.value, EntryName);
    }
  }

  /** ksort forgets insertion order: reordered params give the same key. */
  lemma ParamsOrderIrrelevant(s: Settings, rt: Runtime, additional: seq<Value>, reordered: seq<Entry>)
    requires s.params.Some? && DistinctKeys(s.params.value)
    requires multiset(reordered) == multiset(s.params.value)
    ensures Build(s.(params := Some(reordered)), rt, additional) == Build(s, rt, additional)
  {
    SegmentsIdentifyInputs(s, additional, s.(params := Some(reordered)), additional);
  }

  /** An element of a sorted copy is an element of the original. */
  lemma SortedParamsEncodable(es: seq<Entry>)
    ensures Encodable(Dict(SortBy(es, EntryName))) <==> Encodable(Dict(es))
  {
    var sorted := SortBy(es, EntryName);
    if Encodable(Dict(es)) {
      forall i | 0 <= i < |sorted| ensures Encodable(sorted[i].val) {
        assert sorted[i] in multiset(es);
        var j :| 0 <= j < |es| && es[j] == sorted[i];
      }
    }
    if Encodable(Dict(sorted)) {
      forall i | 0 <= i < |es| ensures Encodable(es[i].val) {
        assert es[i] in multiset(sorted);
        var j :| 0 <= j < |sorted| && sorted[j] == es[i];
      }
    }
  }

  /** The segment list can be encoded exactly when the params values and the extra segments can. */
  lemma SegmentsEncodable(s: Settings, additional: seq<Value>)
    ensures Encodable(List(Segments(s, additional))) <==>
      (s.params.Some? ==> Encodable(Dict(s.params.value)))
      && forall i | 0 <= i < |additional| :: Encodable(additional[i])
  {
    var g := Segments(s, additional);
    if s.params.Some? {
      SortedParamsEncodable(s.params.value);
      assert g[1] == Dict(SortBy(s.params.value, EntryName));
    }
    assert forall i | 0 <= i < |additional| :: g[4 + i] == additional[i];
    if Encodable(List(g)) {
      assert Encodable(g[1]);
      forall i | 0 <= i < |additional| ensures Encodable(additional[i]) {
        assert Encodable(g[4 + i]);
      }
    } else {
      var i :| 0 <= i < |g| && !Encodable(g[i]);
      assert i >= 4 ==> !Encodable(additional[i - 4]);
    }
  }

  /**
   * Since json_encode writes an array as `[...]`, the non-empty assertion
   * fails exactly when some params value or extra segment cannot be encoded;
   * otherwise the key is the hash of the encoded segment list.
   */
  lemma BuildFailsOnlyOnUnencodable(s: Settings, rt: Runtime, additional: seq<Value>)
    requires ArraysEncodeBracketed(rt)
    ensures Build(s, rt, additional).Ok? <==>
      (s.params.Some? ==> Encodable(Dict(s.params.value)))
      && forall i | 0 <= i < |additional| :: Encodable(additional[i])
    ensures Build(s, rt, additional).Ok? ==>
      Build(s, rt, additional).value == rt.sha256(rt.jsonEncode(List(Segments(s, additional))))
  {
    var g := List(Segments(s, additional));
    SegmentsEncodable(s, additional);
    if Encodable(g) {
      var text := rt.jsonEncode(g);
      assert IsArray(g);
      assert |text| >= 2 && text[0] in "[{";
      assert text != "0";
    }
  }

  /** A fresh config with no extra segments hashes `[null,null,null,null]`. */
  lemma UnconfiguredSegments()
    ensures Segments(Defaults, []) == [Null, Null, Null, Null]
  {
  }
}
