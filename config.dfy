/**
 * ClientConfig: the mutable per-client settings record with fluent,
 * validating setters, the semantic-version check of setSemVer, and the
 * key-value cache store the config hands to the APIs.
 */
module Config {
  import opened Results
  import opened Php

  const DefaultExpirationTimeSeconds: int := 300

  /** The fields of a ClientConfig the core reads, at one moment. */
  datatype Settings = Settings(
    apiKey: Option<string>,
    userId: Option<string>,
    params: Option<seq<Entry>>,
    semVer: Option<string>,
    serialized: bool,
    cacheExpirationSeconds: int)

  /** What ClientConfig::create() holds before any setter runs. */
  const Defaults := Settings(None, None, None, None, false, DefaultExpirationTimeSeconds)

  // ---------------------------------------------------------------------
  // Semantic versions
  // ---------------------------------------------------------------------

  /** explode($sep, $s). */
  function Split(s: string, sep: char): (parts: seq<string>)
    ensures |parts| >= 1
    decreases |s|
  {
    if s == [] then [""]
    else
      var rest := Split(s[1..], sep);
      if s[0] == sep then [""] + rest else [[s[0]] + rest[0]] + rest[1..]
  }

  /** implode($sep, $parts). */
  function Join(parts: seq<string>, sep: char): string
    requires |parts| >= 1
  {
    if |parts| == 1 then parts[0] else parts[0] + [sep] + Join(parts[1..], sep)
  }

  lemma JoinEmptyFirst(rest: seq<string>, sep: char)
    requires |rest| >= 1
    ensures Join([""] + rest, sep) == [sep] + Join(rest, sep)
  {
    assert ([""] + rest)[1..] == rest;
  }

  lemma JoinGlued(c: char, rest: seq<string>, sep: char)
    requires |rest| >= 1
    ensures Join([[c] + rest[0]] + rest[1..], sep) == [c] + Join(rest, sep)
  {
    var parts := [[c] + rest[0]] + rest[1..];
    if |rest| > 1 {
      assert parts[1..] == rest[1..];
    }
  }

  lemma {:induction false} SplitThenJoin(s: string, sep: char)
    ensures Join(Split(s, sep), sep) == s
    decreases |s|
  {
    if s != [] {
      SplitThenJoin(s[1..], sep);
      var rest := Split(s[1..], sep);
      if s[0] == sep {
        JoinEmptyFirst(rest, sep);
      } else {
        JoinGlued(s[0], rest, sep);
      }
      assert s == [s[0]] + s[1..];
    }
  }

  lemma {:induction false} SplitWithoutSeparator(x: string, sep: char)
    requires sep !in x
    ensures Split(x, sep) == [x]
    decreases |x|
  {
    if x != [] {
      assert x[1..] == x[1..] && sep !in x[1..];
      SplitWithoutSeparator(x[1..], sep);
      assert x == [x[0]] + x[1..];
    }
  }

  lemma {:induction false} SplitAtSeparator(x: string, rest: string, sep: char)
    requires sep !in x
    ensures Split(x + [sep] + rest, sep) == [x] + Split(rest, sep)
    decreases |x|
  {
    var s := x + [sep] + rest;
    if x == [] {
      assert s[1..] == rest;
    } else {
      assert s[1..] == x[1..] + [sep] + rest;
      SplitAtSeparator(x[1..], rest, sep);
      assert x == [x[0]] + x[1..];
    }
  }

  lemma NumeralHasNoDot(t: string)
    requires Numeral(t)
    ensures '.' !in t
  {
  }

  /**
   * Exactly what setSemVer should accept: `major.minor.patch`, three
   * numerals without leading zeros and nothing else (the SemVer 2.0.0
   * version core of section 2 of semver.org, without the pre-release
   * part of section 9).
   */
  predicate IsSemVer(s: string)
  {
    var parts := Split(s, '.');
    |parts| == 3 && Numeral(parts[0]) && Numeral(parts[1]) && Numeral(parts[2])
  }

  /** `a.b.c`. */
  function Dotted(a: string, b: string, c: string): string
  {
    a + ['.'] + b + ['.'] + c
  }

  lemma SplitDotted(a: string, b: string, c: string)
    requires '.' !in a && '.' !in b && '.' !in c
    ensures Split(Dotted(a, b, c), '.') == [a, b, c]
  {
    var t := b + ['.'] + c;
    assert Dotted(a, b, c) == a + ['.'] + t;
    SplitAtSeparator(a, t, '.');
    SplitAtSeparator(b, c, '.');
    SplitWithoutSeparator(c, '.');
  }

  lemma JoinThree(parts: seq<string>)
    requires |parts| == 3
    ensures Join(parts, '.') == Dotted(parts[0], parts[1], parts[2])
  {
    assert parts[1..][1..] == [parts[2]];
    assert Join(parts[1..], '.') == parts[1] + ['.'] + parts[2];
  }

  /** The version string of three naturals. */
  function RenderSemVer(major: nat, minor: nat, patch: nat): string
  {
    Dotted(NatToDecimal(major), NatToDecimal(minor), NatToDecimal(patch))
  }

  /** Every major.minor.patch written in decimal is accepted. */
  lemma SemVerAcceptsRendered(major: nat, minor: nat, patch: nat)
    ensures IsSemVer(RenderSemVer(major, minor, patch))
  {
    var a, b, c := NatToDecimal(major), NatToDecimal(minor), NatToDecimal(patch);
    NatToDecimalRoundTrip(major);
    NatToDecimalRoundTrip(minor);
    NatToDecimalRoundTrip(patch);
    NumeralHasNoDot(a);
    NumeralHasNoDot(b);
    NumeralHasNoDot(c);
    SplitDotted(a, b, c);
  }

  /** Everything accepted is the rendering of the three numbers it spells: no other spelling passes. */
  lemma SemVerIsRendered(s: string)
    requires IsSemVer(s)
    ensures var parts := Split(s, '.');
      s == RenderSemVer(DecimalValue(parts[0]), DecimalValue(parts[1]), DecimalValue(parts[2]))
  {
    var parts := Split(s, '.');
    SplitThenJoin(s, '.');
    JoinThree(parts);
    NumeralCanonical(parts[0]);
    NumeralCanonical(parts[1]);
    NumeralCanonical(parts[2]);
  }

  /**
   * The pattern setSemVer applies, as PCRE reads it:
   * `/^(0|[1-9]\d*)\.(0|[1-9]\d*)\.(0|[1-9]\d*)$/` has no D modifier, so
   * `$` also matches just before one final newline.
   */
  predicate SemVerPatternMatches(s: string)
  {
    IsSemVer(s) || (|s| >= 1 && s[|s| - 1] == '\n' && IsSemVer(s[..|s| - 1]))
  }

  /** The pattern as written lets a version with a trailing newline through. */
  lemma SemVerPatternAcceptsTrailingNewline()
    ensures SemVerPatternMatches("1.2.3\n")
    ensures !IsSemVer("1.2.3\n")
  {
    assert "1.2.3\n" == Dotted("1", "2", "3\n");
    assert "1.2.3\n"[..5] == Dotted("1", "2", "3");
    SplitDotted("1", "2", "3\n");
    SplitDotted("1", "2", "3");
    assert !IsDigit("3\n"[1]);
  }

  // ---------------------------------------------------------------------
  // Cache store
  // ---------------------------------------------------------------------

  /**
   * The PSR-16 cache the config hands out: what is stored under each key
   * and the TTL (seconds) it was last stored with. Expiry and eviction
   * belong to the store and are not part of this model.
   */
  class Cache {
    var items: map<string, Value>
    var ttls: map<string, int>

    constructor ()
      ensures items == map[] && ttls == map[]
    {
      items := map[];
      ttls := map[];
    }

    /** get($key): the stored value, or null when there is none. */
    method Get(key: string) returns (v: Value)
      ensures key in items ==> v == items[key]
      ensures key !in items ==> v == Null
    {
      v := if key in items then items[key] else Null;
    }

    /** set($key, $value, $ttl). */
    method Set(key: string, v: Value, ttl: int)
      modifies this
      ensures items == old(items)[key := v]
      ensures ttls == old(ttls)[key := ttl]
    {
      items := items[key := v];
      ttls := ttls[key := ttl];
    }
  }

  // ---------------------------------------------------------------------
  // ClientConfig
  // ---------------------------------------------------------------------

  class ClientConfig {
    var apiKey: Option<string>
    var userId: Option<string>
    var params: Option<seq<Entry>>
    var semVer: Option<string>
    var serialized: bool
    var cacheExpirationSeconds: int
    var cache: Cache

    /** What the setters guarantee about the fields they guard. */
    ghost predicate Valid()
      reads this
    {
      && (apiKey.Some? ==> !Empty(Str(apiKey.value)))
      && (semVer.Some? ==> IsSemVer(semVer.value))
      && (params.Some? ==> DistinctKeys(params.value))
      && cacheExpirationSeconds >= 0
    }

    function Snapshot(): Settings
      reads this
    {
      Settings(apiKey, userId, params, semVer, serialized, cacheExpirationSeconds)
    }

    /** ClientConfig::create(): nothing set, serialized off, TTL 300, an empty in-memory cache. */
    constructor Create()
      ensures Valid()
      ensures Snapshot() == Defaults
      ensures fresh(cache) && cache.items == map[] && cache.ttls == map[]
    {
      apiKey := None;
      userId := None;
      params := None;
      semVer := None;
      serialized := false;
      cacheExpirationSeconds := DefaultExpirationTimeSeconds;
      cache := new Cache();
    }

    /** Refuses a key PHP calls empty ("" and "0"), leaving the stored key as it was. */
    method SetApiKey(key: string) returns (r: Outcome<ClientConfig>)
      modifies this
      ensures Empty(Str(key)) ==> (unchanged(this) && r == Fail(InvalidArgument(
        "API key passed to Joystick\\ClientConfig::setApiKey should not be an empty string")))
      ensures !Empty(Str(key)) ==>
        (r == Ok(this) && cache == old(cache) && Snapshot() == old(Snapshot()).(apiKey := Some(key)))
      ensures old(Valid()) ==> Valid()
    {
      if Empty(Str(key)) {
        return Fail(InvalidArgument(
          "API key passed to Joystick\\ClientConfig::setApiKey should not be an empty string"));
      }
      apiKey := Some(key);
      return Ok(this);
    }

    method SetUserId(id: string) returns (self: ClientConfig)
      modifies this
      ensures self == this && cache == old(cache)
      ensures Snapshot() == old(Snapshot()).(userId := Some(id))
      ensures old(Valid()) ==> Valid()
    {
      userId := Some(id);
      return this;
    }

    /** Replaces the whole params array (a PHP array: its keys are distinct). */
    method SetParams(entries: seq<Entry>) returns (self: ClientConfig)
      requires DistinctKeys(entries)
      modifies this
      ensures self == this && cache == old(cache)
      ensures Snapshot() == old(Snapshot()).(params := Some(entries))
      ensures old(Valid()) ==> Valid()
    {
      params := Some(entries);
      return this;
    }

    /**
     * Starts from an empty array when params is unset or empty, then sets
     * one key in place: that key now maps to `value`, every other key keeps
     * its value, and the key order is kept (a new key goes last).
     */
    method SetParamValue(key: string, value: Value) returns (self: ClientConfig)
      modifies this
      ensures self == this && cache == old(cache)
      ensures params.Some?
      ensures Snapshot() == old(Snapshot()).(params := params)
      ensures Lookup(params.value, key) == Some(value)
      ensures forall other | other != key ::
        Lookup(params.value, other) == Lookup(old(params).GetOr([]), other)
      ensures Names(params.value) == if key in Names(old(params).GetOr([]))
        then Names(old(params).GetOr([])) else Names(old(params).GetOr([])) + [key]
      ensures old(Valid()) ==> Valid()
    {
      if params.None? || params.value == [] {
        params := Some([]);
      }
      var before := params.value;
      if before != [] && DistinctKeys(before) {
        PutKeepsKeysDistinct(before, key, value);
      }
      PutNames(before, key, value);
      forall other ensures Lookup(Put(before, key, value), other) ==
        if other == key then Some(value) else Lookup(before, other)
      {
        PutLookup(before, key, value, other);
      }
      params := Some(Put(before, key, value));
      return this;
    }

    method SetSemVer(version: string) returns (r: Outcome<ClientConfig>)
      modifies this
      ensures !IsSemVer(version) ==> (unchanged(this) && r == Fail(InvalidArgument(
        "Provided semantic version for Joystick\\ClientConfig::setSemVer is not valid")))
      ensures IsSemVer(version) ==>
        (r == Ok(this) && cache == old(cache) && Snapshot() == old(Snapshot()).(semVer := Some(version)))
      ensures old(Valid()) ==> Valid()
    {
      if !IsSemVer(version) {
        return Fail(InvalidArgument(
          "Provided semantic version for Joystick\\ClientConfig::setSemVer is not valid"));
      }
      semVer := Some(version);
      return Ok(this);
    }

    method SetCacheExpirationSeconds(seconds: int) returns (r: Outcome<ClientConfig>)
      modifies this
      ensures seconds < 0 ==> (unchanged(this) && r == Fail(InvalidArgument(
        "Provided cache expiration for Joystick\\ClientConfig::setCacheExpirationSeconds is not valid")))
      ensures seconds >= 0 ==>
        (r == Ok(this) && cache == old(cache) && Snapshot() == old(Snapshot()).(cacheExpirationSeconds := seconds))
      ensures old(Valid()) ==> Valid()
    {
      if seconds < 0 {
        return Fail(InvalidArgument(
          "Provided cache expiration for Joystick\\ClientConfig::setCacheExpirationSeconds is not valid"));
      }
      cacheExpirationSeconds := seconds;
      return Ok(this);
    }

    method SetSerialized(value: bool) returns (self: ClientConfig)
      modifies this
      ensures self == this && cache == old(cache)
      ensures Snapshot() == old(Snapshot()).(serialized := value)
      ensures old(Valid()) ==> Valid()
    {
      serialized := value;
      return this;
    }

    method SetCache(store: Cache) returns (self: ClientConfig)
      modifies this
      ensures self == this && cache == store
      ensures Snapshot() == old(Snapshot())
      ensures old(Valid()) ==> Valid()
    {
      cache := store;
      return this;
    }
  }
}
