/**
 * MultipleContent::getContents: validate the call, resolve the options,
 * derive the cache key from a sorted copy of the ids, answer from the
 * cache when it holds something truthy, otherwise ask the combine
 * endpoint, reject per-content errors, shape the entries and cache them.
 */
module MultipleContent {
  import opened Results
  import opened Php
  import opened Sorting
  import opened Config
  import CacheKeys
  import opened AbstractApi
  import opened ContentErrors

  const CombineEndpoint := "https://api.getjoystick.com/api/v1/combine/"

  /**
   * The `refresh`, `serialized` and `fullResponse` entries of an options
   * array. `Null` stands for an entry that is absent or null: `isset` and
   * `??`, the only ways the code reads them, treat both alike.
   */
  datatype Options = Options(refresh: Value, serialized: Value, fullResponse: Value)

  // ---------------------------------------------------------------------
  // validateSignature and normalizeOptions
  // ---------------------------------------------------------------------

  /** `->minCount(1)->all()->string()->notEmpty()` on the id list. */
  predicate ValidIds(ids: seq<Value>)
  {
    |ids| >= 1 && forall i | 0 <= i < |ids| :: ids[i].Str? && Truthy(ids[i])
  }

  /** An option is skipped when not set, and otherwise must be `->boolean()`. */
  predicate OptionValid(v: Value)
  {
    v == Null || v.Bool?
  }

  /** Whether the chain with this property path fails. */
  predicate Fails(path: string, ids: seq<Value>, opts: Options)
  {
    || (path == "contentIds" && !ValidIds(ids))
    || (path == "refresh" && !OptionValid(opts.refresh))
    || (path == "serialized" && !OptionValid(opts.serialized))
    || (path == "fullResponse" && !OptionValid(opts.fullResponse))
  }

  /** The property paths of validateSignature's chains, in the order it builds them. */
  const Paths: seq<string> := ["contentIds", "refresh", "serialized", "fullResponse"]

  /** The failing paths among `paths`, keeping their order. */
  function FailingPaths(paths: seq<string>, ids: seq<Value>, opts: Options): seq<string>
  {
    if paths == [] then []
    else (if Fails(paths[0], ids, opts) then [paths[0]] else []) + FailingPaths(paths[1..], ids, opts)
  }

  /** A path is among the failing ones exactly when it is one of `paths` and its chain fails. */
  lemma {:induction false} FailingPathsExact(paths: seq<string>, ids: seq<Value>, opts: Options, p: string)
    ensures p in FailingPaths(paths, ids, opts) <==> p in paths && Fails(p, ids, opts)
    decreases |paths|
  {
    if paths != [] {
      FailingPathsExact(paths[1..], ids, opts, p);
      assert paths == [paths[0]] + paths[1..];
    }
  }

  /** The violations the lazy chains collect, one per failing chain, as the code builds them. */
  function Violations(ids: seq<Value>, opts: Options): seq<string>
  {
    (if !ValidIds(ids) then ["contentIds"] else [])
    + (if !OptionValid(opts.refresh) then ["refresh"] else [])
    + (if !OptionValid(opts.serialized) then ["serialized"] else [])
    + (if !OptionValid(opts.fullResponse) then ["fullResponse"] else [])
  }

  /** Building the chains one after the other collects exactly the failing paths, in order. */
  lemma ViolationsInChainOrder(ids: seq<Value>, opts: Options)
    ensures Violations(ids, opts) == FailingPaths(Paths, ids, opts)
  {
    var p1 := ["refresh", "serialized", "fullResponse"];
    var p2 := ["serialized", "fullResponse"];
    var p3 := ["fullResponse"];
    assert Paths[1..] == p1 && p1[1..] == p2 && p2[1..] == p3 && p3[1..] == [];
    assert Fails("contentIds", ids, opts) <==> !ValidIds(ids);
    assert Fails("refresh", ids, opts) <==> !OptionValid(opts.refresh);
    assert Fails("serialized", ids, opts) <==> !OptionValid(opts.serialized);
    assert Fails("fullResponse", ids, opts) <==> !OptionValid(opts.fullResponse);
    var v4 := if !OptionValid(opts.fullResponse) then ["fullResponse"] else [];
    var v3 := (if !OptionValid(opts.serialized) then ["serialized"] else []) + v4;
    var v2 := (if !OptionValid(opts.refresh) then ["refresh"] else []) + v3;
    assert FailingPaths(p3, ids, opts) == v4 + FailingPaths([], ids, opts);
    assert FailingPaths(p2, ids, opts) == v3;
    assert FailingPaths(p1, ids, opts) == v2;
    assert Violations(ids, opts) == (if !ValidIds(ids) then ["contentIds"] else []) + v2;
  }

  /** validateSignature: one exception naming the failing chains in chain order. */
  function ValidateSignature(ids: seq<Value>, opts: Options): (r: Outcome<()>)
    ensures r.Ok? <==> (ValidIds(ids) && OptionValid(opts.refresh) && OptionValid(opts.serialized)
                        && OptionValid(opts.fullResponse))
    ensures r.Fail? ==> r.error == LazyAssertion(FailingPaths(Paths, ids, opts))
  {
    var violations := Violations(ids, opts);
    ViolationsInChainOrder(ids, opts);
    if violations == [] then Ok(()) else Fail(LazyAssertion(violations))
  }

  /** Every failing chain is named in the exception, and nothing else is. */
  lemma ViolationsExact(ids: seq<Value>, opts: Options, p: string)
    requires ValidateSignature(ids, opts).Fail?
    ensures p in ValidateSignature(ids, opts).error.violations <==> p in Paths && Fails(p, ids, opts)
  {
    FailingPathsExact(Paths, ids, opts, p);
  }

  /** normalizeOptions: `serialized` falls back to the config, the other two to null. */
  function NormalizeOptions(opts: Options, configSerialized: bool): Options
  {
    Options(
      opts.refresh,
      if opts.serialized == Null then Bool(configSerialized) else opts.serialized,
      opts.fullResponse)
  }

  /**
   * After validation every resolved option is a boolean or null, and each is
   * on exactly when the call turned it on, or (for `serialized` only) when
   * the call left it unset and the config has it on.
   */
  lemma ResolvedOptions(ids: seq<Value>, opts: Options, configSerialized: bool)
    requires ValidateSignature(ids, opts).Ok?
    ensures var n := NormalizeOptions(opts, configSerialized);
      && n.serialized.Bool?
      && OptionValid(n.refresh) && OptionValid(n.fullResponse)
      && (Truthy(n.serialized) <==> opts.serialized == Bool(true) || (opts.serialized == Null && configSerialized))
      && (Truthy(n.refresh) <==> opts.refresh == Bool(true))
      && (Truthy(n.fullResponse) <==> opts.fullResponse == Bool(true))
  {
  }

  // ---------------------------------------------------------------------
  // buildCacheKey
  // ---------------------------------------------------------------------

  /** `sort` compares the ids, which validation has made strings. */
  function IdKey(v: Value): string
  {
    if v.Str? then v.s else ""
  }

  /** `[sorted copy of the ids, serialized, fullResponse]`. */
  function KeySegments(ids: seq<Value>, n: Options): seq<Value>
  {
    [List(SortBy(ids, IdKey)), n.serialized, n.fullResponse]
  }

  function BuildCacheKey(s: Settings, rt: Runtime, ids: seq<Value>, n: Options): Outcome<string>
  {
    CacheKeys.Build(s, rt, KeySegments(ids, n))
  }

  lemma ValidIdsInjective(ids: seq<Value>)
    requires ValidIds(ids)
    ensures KeyInjective(ids, IdKey)
  {
    forall x, y | x in ids && y in ids && IdKey(x) == IdKey(y) ensures x == y {
      var i :| 0 <= i < |ids| && ids[i] == x;
      var j :| 0 <= j < |ids| && ids[j] == y;
    }
  }

  /** The key does not depend on the order in which the ids were asked for. */
  lemma IdOrderIrrelevant(s: Settings, rt: Runtime, ids: seq<Value>, permuted: seq<Value>, n: Options)
    requires ValidIds(ids)
    requires multiset(permuted) == multiset(ids)
    ensures BuildCacheKey(s, rt, permuted, n) == BuildCacheKey(s, rt, ids, n)
  {
    ValidIdsInjective(ids);
    SortByCanonical(ids, permuted, IdKey);
  }

  /** After validation the key can always be built, unless a params value cannot be encoded. */
  lemma CacheKeyBuilds(s: Settings, rt: Runtime, ids: seq<Value>, opts: Options)
    requires ArraysEncodeBracketed(rt)
    requires ValidateSignature(ids, opts).Ok?
    ensures BuildCacheKey(s, rt, ids, NormalizeOptions(opts, s.serialized)).Ok? <==>
      (s.params.Some? ==> Encodable(Dict(s.params.value)))
  {
    var n := NormalizeOptions(opts, s.serialized);
    var segments := KeySegments(ids, n);
    var sorted := SortBy(ids, IdKey);
    forall i | 0 <= i < |sorted| ensures Encodable(sorted[i]) {
      assert sorted[i] in multiset(ids);
    }
    assert forall i | 0 <= i < |segments| :: Encodable(segments[i]);
    CacheKeys.BuildFailsOnlyOnUnencodable(s, rt, segments);
  }

  // ---------------------------------------------------------------------
  // The request
  // ---------------------------------------------------------------------

  /** The query: the ids as asked for (not sorted), `dynamic`, and `responseType` when serialized. */
  function BuildQuery(rt: Runtime, ids: seq<Value>, n: Options): seq<(string, string)>
  {
    [("c", rt.jsonEncode(List(ids))), ("dynamic", "true")]
      + (if Truthy(n.serialized) then [("responseType", "serialized")] else [])
  }

  /** The body: `u` (user id or ""), `p` (params or an empty object), and `v` when a version is set. */
  function BuildBody(s: Settings): Value
  {
    Dict([Entry("u", Str(s.userId.GetOr(""))),
          Entry("p", if s.params.Some? then Dict(s.params.value) else Object([]))]
         + (if Truthy(OptionalStr(s.semVer)) then [Entry("v", Str(s.semVer.value))] else []))
  }

  /** The body can be sent exactly when the params can be encoded. */
  lemma BodyEncodable(s: Settings)
    ensures Encodable(BuildBody(s)) <==> (s.params.Some? ==> Encodable(Dict(s.params.value)))
  {
    var es := BuildBody(s).entries;
    assert es[1].val == if s.params.Some? then Dict(s.params.value) else Object([]);
    assert forall i | 0 <= i < |es| && i != 1 :: es[i].val.Str?;
  }

  /**
   * The query and the body as the tests pin them down; a version that
   * setSemVer accepted is never falsy, so `v` is sent whenever one is set.
   */
  lemma RequestShape(s: Settings, rt: Runtime, ids: seq<Value>, n: Options)
    requires s.semVer.Some? ==> IsSemVer(s.semVer.value)
    ensures var q := BuildQuery(rt, ids, n);
      && q[..2] == [("c", rt.jsonEncode(List(ids))), ("dynamic", "true")]
      && (("responseType", "serialized") in q <==> Truthy(n.serialized))
      && |q| == if Truthy(n.serialized) then 3 else 2
    ensures var b := BuildBody(s);
      && Names(b.entries) == (if s.semVer.Some? then ["u", "p", "v"] else ["u", "p"])
      && Lookup(b.entries, "u") == Some(Str(s.userId.GetOr("")))
      && Lookup(b.entries, "p") == Some(if s.params.Some? then Dict(s.params.value) else Object([]))
      && (s.semVer.Some? ==> Lookup(b.entries, "v") == Some(Str(s.semVer.value)))
  {
    var q := BuildQuery(rt, ids, n);
    if ("responseType", "serialized") in q {
      var i :| 0 <= i < |q| && q[i] == ("responseType", "serialized");
      assert i >= 2;
    }
    if s.semVer.Some? {
      var v := s.semVer.value;
      if '.' !in v {
        SplitWithoutSeparator(v, '.');
      }
      assert v != "" && v != "0";
    }
    var b := BuildBody(s).entries;
    assert b[0].name == "u" && b[1].name == "p";
    if s.semVer.Some? {
      assert |b| == 3 && b[2] == Entry("v", Str(s.semVer.value));
      assert Lookup(b[1..][1..], "v") == Some(Str(s.semVer.value));
    }
    assert s.semVer.None? ==> |b| == 2;
  }

  // ---------------------------------------------------------------------
  // The response
  // ---------------------------------------------------------------------

  /** The values a `foreach` over a decoded array visits, in order. */
  function Elements(v: Value): seq<Value>
  {
    match v
    case List(items) => items
    case Dict(entries) => seq(|entries|, i requires 0 <= i < |entries| => entries[i].val)
    case _ => []
  }

  /** The string values among `vs`, in order: each one is a content id the server refused. */
  function StringsIn(vs: seq<Value>): seq<string>
    decreases |vs|
  {
    if vs == [] then []
    else StringsIn(vs[..|vs| - 1]) + (if vs[|vs| - 1].Str? then [vs[|vs| - 1].s] else [])
  }

  /** Exactly the strings of `vs` are collected, none invented and none lost. */
  lemma {:induction false} StringsInExact(vs: seq<Value>)
    ensures forall i | 0 <= i < |vs| && vs[i].Str? :: vs[i].s in StringsIn(vs)
    ensures forall e | e in StringsIn(vs) :: Str(e) in vs
    ensures StringsIn(vs) == [] <==> forall i | 0 <= i < |vs| :: !vs[i].Str?
    decreases |vs|
  {
    if vs != [] {
      var init := vs[..|vs| - 1];
      StringsInExact(init);
      assert forall i | 0 <= i < |init| :: init[i] == vs[i];
      forall e | e in StringsIn(vs) ensures Str(e) in vs {
        if e in StringsIn(init) {
          assert Str(e) in init;
        }
      }
    }
  }

  function ResponseErrors(decoded: Value): seq<string>
  {
    StringsIn(Elements(decoded))
  }

  /** validateGetContentsResponse: collect every string entry, and throw if there is one. */
  method ValidateGetContentsResponse(decoded: Value) returns (r: Outcome<()>)
    ensures ResponseErrors(decoded) == [] ==> r == Ok(())
    ensures ResponseErrors(decoded) != [] ==> r == Fail(MultipleContentApi(Message(ResponseErrors(decoded))))
  {
    var vs := Elements(decoded);
    var errors: seq<string> := [];
    for i := 0 to |vs|
      invariant errors == StringsIn(vs[..i])
    {
      assert vs[..i + 1][..i] == vs[..i];
      if vs[i].Str? {
        errors := errors + [vs[i].s];
      }
    }
    assert vs[..|vs|] == vs;
    if errors != [] {
      var e := Create(errors);
      return Fail(e);
    }
    return Ok(());
  }

  /** `$content['data']`: null when the entry is not an array holding `data`. */
  function DataOf(content: Value): Value
  {
    if content.Dict? then Lookup(content.entries, "data").GetOr(Null) else Null
  }

  function MapEntries(entries: seq<Entry>): (r: seq<Entry>)
    ensures Names(r) == Names(entries)
    ensures forall k :: Lookup(r, k) == (match Lookup(entries, k)
                                         case Some(v) => Some(DataOf(v))
                                         case None => None)
  {
    if entries == [] then []
    else
      var rest := MapEntries(entries[1..]);
      var r := [Entry(entries[0].name, DataOf(entries[0].val))] + rest;
      assert r[1..] == rest;
      assert Names(r) == [entries[0].name] + Names(rest);
      assert Names(entries) == [entries[0].name] + Names(entries[1..]);
      r
  }

  /** mapGetContentsResponse: every entry becomes its `data`, under the same key and in the same place. */
  function MapGetContentsResponse(decoded: Value): (r: Value)
    requires IsArray(decoded)
    ensures decoded.Dict? ==> r.Dict? && Names(r.entries) == Names(decoded.entries)
    ensures decoded.Dict? ==> forall k :: (Lookup(r.entries, k) ==
      match Lookup(decoded.entries, k) case Some(v) => Some(DataOf(v)) case None => None)
    ensures decoded.List? ==> (r.List? && |r.items| == |decoded.items|
      && forall i | 0 <= i < |r.items| :: r.items[i] == DataOf(decoded.items[i]))
  {
    match decoded
    case Dict(entries) => Dict(MapEntries(entries))
    case List(items) => List(seq(|items|, i requires 0 <= i < |items| => DataOf(items[i])))
  }

  // ---------------------------------------------------------------------
  // getContents
  // ---------------------------------------------------------------------

  const CachedIsArray := "assert(is_array($cachedResult))"
  const DecodedIsArray := "assert(is_array($decodedResponse))"

  /** A cache set($key, $value, $ttl). */
  datatype CacheWrite = CacheWrite(key: string, value: Value, ttl: int)

  /** What one getContents call returns or throws, sends, and writes to the cache. */
  datatype Fetch = Fetch(result: Outcome<Value>, sent: Option<Request>, write: Option<CacheWrite>)

  /** The cache's values after the write, if any. */
  function ItemsAfter(items: map<string, Value>, write: Option<CacheWrite>): map<string, Value>
  {
    if write.Some? then items[write.value.key := write.value.value] else items
  }

  /** The cache's TTLs after the write, if any. */
  function TtlsAfter(ttls: map<string, int>, write: Option<CacheWrite>): map<string, int>
  {
    if write.Some? then ttls[write.value.key := write.value.ttl] else ttls
  }

  /** The value the cache hands back for `key`: null when it holds nothing. */
  function Cached(cache: map<string, Value>, key: string): Value
  {
    if key in cache then cache[key] else Null
  }

  /** The rest of getContents once the cache has been passed: ask, check, shape, cache. */
  function FetchFromApi(s: Settings, rt: Runtime, ids: seq<Value>, n: Options, key: string,
                        reply: HttpReply): Fetch
  {
    var x := MakeJoystickRequest(s, rt, "POST", Uri(CombineEndpoint, BuildQuery(rt, ids, n)), BuildBody(s), reply);
    match x.result
    case Fail(e) => Fetch(Fail(e), x.sent, None)
    case Ok(decoded) =>
      if !IsArray(decoded) then Fetch(Fail(AssertionFailure(DecodedIsArray)), x.sent, None)
      else
        var errors := ResponseErrors(decoded);
        if errors != [] then Fetch(Fail(MultipleContentApi(Message(errors))), x.sent, None)
        else
          var processed := if !Truthy(n.fullResponse) then MapGetContentsResponse(decoded) else decoded;
          Fetch(Ok(processed), x.sent, Some(CacheWrite(key, processed, s.cacheExpirationSeconds)))
  }

  /** getContents on a config `s` whose cache holds `cache`, with `reply` standing for the server. */
  function GetContentsSpec(s: Settings, rt: Runtime, cache: map<string, Value>, ids: seq<Value>,
                           opts: Options, reply: HttpReply): Fetch
  {
    match ValidateSignature(ids, opts)
    case Fail(e) => Fetch(Fail(e), None, None)
    case Ok(_) =>
      var n := NormalizeOptions(opts, s.serialized);
      match BuildCacheKey(s, rt, ids, n)
      case Fail(e) => Fetch(Fail(e), None, None)
      case Ok(key) =>
        if !Truthy(n.refresh) && Truthy(Cached(cache, key)) then
          if IsArray(Cached(cache, key)) then Fetch(Ok(Cached(cache, key)), None, None)
          else Fetch(Fail(AssertionFailure(CachedIsArray)), None, None)
        else FetchFromApi(s, rt, ids, n, key, reply)
  }

  /** Once the call is valid and its key is built, getContents is the cache lookup or the server path. */
  lemma SpecAfterKey(s: Settings, rt: Runtime, cache: map<string, Value>, ids: seq<Value>, opts: Options,
                     reply: HttpReply, key: string)
    requires ValidateSignature(ids, opts).Ok?
    requires BuildCacheKey(s, rt, ids, NormalizeOptions(opts, s.serialized)) == Ok(key)
    ensures var n := NormalizeOptions(opts, s.serialized);
      GetContentsSpec(s, rt, cache, ids, opts, reply) ==
        if !Truthy(n.refresh) && Truthy(Cached(cache, key)) then
          if IsArray(Cached(cache, key)) then Fetch(Ok(Cached(cache, key)), None, None)
          else Fetch(Fail(AssertionFailure(CachedIsArray)), None, None)
        else FetchFromApi(s, rt, ids, n, key, reply)
  {
  }

  /** The API object: the config it was created with and the foreign primitives it calls. */
  class MultipleContent {
    const config: ClientConfig
    const rt: Runtime

    constructor Create(config: ClientConfig, rt: Runtime)
      ensures this.config == config && this.rt == rt
    {
      this.config := config;
      this.rt := rt;
    }

    method GetContents(ids: seq<Value>, opts: Options, reply: HttpReply)
      returns (result: Outcome<Value>, sent: Option<Request>)
      modifies config.cache
      ensures var spec := GetContentsSpec(old(config.Snapshot()), rt, old(config.cache.items), ids, opts, reply);
        && result == spec.result
        && sent == spec.sent
        && config.cache.items == ItemsAfter(old(config.cache.items), spec.write)
        && config.cache.ttls == TtlsAfter(old(config.cache.ttls), spec.write)
    {
      ghost var s0 := config.Snapshot();
      ghost var cache := config.cache.items;
      var validation := ValidateSignature(ids, opts);
      if validation.Fail? {
        return Fail(validation.error), None;
      }
      var n := NormalizeOptions(opts, config.serialized);
      var cacheKey := BuildCacheKey(config.Snapshot(), rt, ids, n);
      if cacheKey.Fail? {
        return Fail(cacheKey.error), None;
      }
      var key := cacheKey.value;
      SpecAfterKey(s0, rt, cache, ids, opts, reply, key);
      if !Truthy(n.refresh) {
        var cached := config.cache.Get(key);
        if Truthy(cached) {
          if !IsArray(cached) {
            return Fail(AssertionFailure(CachedIsArray)), None;
          }
          return Ok(cached), None;
        }
      }
      result, sent := FetchAndStore(config.Snapshot(), ids, n, key, reply);
    }

    /** The part of getContents after a cache miss: ask, check, shape, and cache the result. */
    method FetchAndStore(s: Settings, ids: seq<Value>, n: Options, key: string, reply: HttpReply)
      returns (result: Outcome<Value>, sent: Option<Request>)
      requires s.cacheExpirationSeconds == config.cacheExpirationSeconds
      modifies config.cache
      ensures var f := FetchFromApi(s, rt, ids, n, key, reply);
        && result == f.result
        && sent == f.sent
        && config.cache.items == ItemsAfter(old(config.cache.items), f.write)
        && config.cache.ttls == TtlsAfter(old(config.cache.ttls), f.write)
    {
      var x := MakeJoystickRequest(s, rt, "POST", Uri(CombineEndpoint, BuildQuery(rt, ids, n)), BuildBody(s), reply);
      sent := x.sent;
      if x.result.Fail? {
        return Fail(x.result.error), sent;
      }
      var decoded := x.result.value;
      if !IsArray(decoded) {
        return Fail(AssertionFailure(DecodedIsArray)), sent;
      }
      var check := ValidateGetContentsResponse(decoded);
      if check.Fail? {
        return Fail(check.error), sent;
      }
      var processed := decoded;
      if !Truthy(n.fullResponse) {
        processed := MapGetContentsResponse(decoded);
      }
      config.cache.Set(key, processed, config.cacheExpirationSeconds);
      return Ok(processed), sent;
    }
  }

  // ---------------------------------------------------------------------
  // What getContents promises
  // ---------------------------------------------------------------------

  /** An invalid call fails with the validation error before the cache or the server is touched. */
  lemma ValidationComesFirst(s: Settings, rt: Runtime, cache: map<string, Value>, ids: seq<Value>,
                             opts: Options, reply: HttpReply)
    requires ValidateSignature(ids, opts).Fail?
    ensures var f := GetContentsSpec(s, rt, cache, ids, opts, reply);
      f.result.Fail? && f.result.error.LazyAssertion? && f.sent.None? && f.write.None?
  {
  }

  /** Without refresh, a truthy cached array is returned as is: nothing is sent and nothing is written. */
  lemma CacheHitShortCircuits(s: Settings, rt: Runtime, cache: map<string, Value>, ids: seq<Value>,
                              opts: Options, reply: HttpReply, key: string)
    requires ValidateSignature(ids, opts).Ok?
    requires opts.refresh != Bool(true)
    requires BuildCacheKey(s, rt, ids, NormalizeOptions(opts, s.serialized)) == Ok(key)
    requires key in cache && Truthy(cache[key]) && IsArray(cache[key])
    ensures GetContentsSpec(s, rt, cache, ids, opts, reply) == Fetch(Ok(cache[key]), None, None)
  {
    ResolvedOptions(ids, opts, s.serialized);
  }

  /**
   * With refresh on, or with nothing truthy cached (an empty array counts
   * as nothing), the request is sent exactly when the key is there, and it
   * carries the ids in the order they were asked for.
   */
  lemma MissGoesToServer(s: Settings, rt: Runtime, cache: map<string, Value>, ids: seq<Value>,
                         opts: Options, reply: HttpReply, key: string)
    requires ValidateSignature(ids, opts).Ok?
    requires BuildCacheKey(s, rt, ids, NormalizeOptions(opts, s.serialized)) == Ok(key)
    requires opts.refresh == Bool(true) || !Truthy(Cached(cache, key))
    ensures var f := GetContentsSpec(s, rt, cache, ids, opts, reply);
      && (f.sent.Some? <==> s.apiKey.Some? && (s.params.Some? ==> Encodable(Dict(s.params.value))))
      && (f.sent.Some? ==> (
           && f.sent.value.httpMethod == "POST"
           && f.sent.value.uri == Uri(CombineEndpoint, BuildQuery(rt, ids, NormalizeOptions(opts, s.serialized)))
           && f.sent.value.body == BuildBody(s)))
  {
    BodyEncodable(s);
  }

  /**
   * A reply whose entries include strings fails with every one of them,
   * in order, in the message; nothing is returned and nothing is cached.
   */
  lemma PartialFailureSurfaces(s: Settings, rt: Runtime, ids: seq<Value>, n: Options, key: string,
                               reply: HttpReply, decoded: Value)
    requires s.apiKey.Some? && Encodable(BuildBody(s))
    requires reply.status == 200 && rt.jsonDecode(reply.body) == Some(decoded)
    requires IsArray(decoded) && ResponseErrors(decoded) != []
    ensures var f := FetchFromApi(s, rt, ids, n, key, reply);
      && f.result == Fail(MultipleContentApi(Message(ResponseErrors(decoded))))
      && f.sent.Some? && f.write.None?
    ensures forall i | 0 <= i < |Elements(decoded)| && Elements(decoded)[i].Str? ::
      Elements(decoded)[i].s in ResponseErrors(decoded)
  {
    StringsInExact(Elements(decoded));
  }

  /**
   * A successful reply is shaped (to its `data` fields unless fullResponse
   * is on) and the shaped value is both returned and cached under the key
   * with the config's TTL; refresh does not prevent the write.
   */
  lemma SuccessIsWrittenBack(s: Settings, rt: Runtime, ids: seq<Value>, n: Options, key: string,
                             reply: HttpReply, decoded: Value)
    requires s.apiKey.Some? && Encodable(BuildBody(s))
    requires reply.status == 200 && rt.jsonDecode(reply.body) == Some(decoded)
    requires IsArray(decoded) && ResponseErrors(decoded) == []
    ensures var f := FetchFromApi(s, rt, ids, n, key, reply);
      && f.result.Ok?
      && f.result.value == (if Truthy(n.fullResponse) then decoded else MapGetContentsResponse(decoded))
      && f.write == Some(CacheWrite(key, f.result.value, s.cacheExpirationSeconds))
  {
  }

  /** The server path writes only what it returns, after a 200, with the config's TTL. */
  lemma FetchWritesOnlySuccess(s: Settings, rt: Runtime, ids: seq<Value>, n: Options, key: string,
                               reply: HttpReply)
    ensures var f := FetchFromApi(s, rt, ids, n, key, reply);
      f.write.Some? ==> (
        && f.result == Ok(f.write.value.value)
        && f.sent.Some? && reply.status == 200
        && f.write.value == CacheWrite(key, f.write.value.value, s.cacheExpirationSeconds))
  {
  }

  /** Whatever happens, only a successful server answer is ever written to the cache. */
  lemma OnlySuccessIsCached(s: Settings, rt: Runtime, cache: map<string, Value>, ids: seq<Value>,
                            opts: Options, reply: HttpReply)
    ensures var f := GetContentsSpec(s, rt, cache, ids, opts, reply);
      f.write.Some? ==> (
        && f.result == Ok(f.write.value.value)
        && f.sent.Some? && reply.status == 200
        && f.write.value.ttl == s.cacheExpirationSeconds)
  {
    if ValidateSignature(ids, opts).Ok? {
      var n := NormalizeOptions(opts, s.serialized);
      var k := BuildCacheKey(s, rt, ids, n);
      if k.Ok? {
        FetchWritesOnlySuccess(s, rt, ids, n, k.value, reply);
      }
    }
  }
}
