/**
 * The PHP values the client handles, PHP's conversions on them, and the
 * foreign primitives (json_encode, json_decode, hash('sha256', ...)) the
 * core calls but does not implement.
 */
module Php {
  import opened Results

  /**
   * A PHP value. A PHP array is either a list (keys 0..n-1, a JSON array)
   * or a dictionary with string keys kept in insertion order (a JSON
   * object). `Object` is a \stdClass instance; `Cyclic` is an object graph
   * that refers back to itself, which json_encode refuses.
   */
  datatype Value =
    | Null
    | Bool(b: bool)
    | Int(i: int)
    | Float(x: real)
    | Str(s: string)
    | List(items: seq<Value>)
    | Dict(entries: seq<Entry>)
    | Object(props: seq<Entry>)
    | Cyclic

  datatype Entry = Entry(name: string, val: Value)

  /** PHP's conversion to bool, as used by `if ($x)`, `!$x` and `empty($x)`. */
  predicate Truthy(v: Value)
  {
    match v
    case Null => false
    case Bool(b) => b
    case Int(i) => i != 0
    case Float(x) => x != 0.0
    case Str(s) => s != "" && s != "0"
    case List(items) => items != []
    case Dict(entries) => entries != []
    case Object(_) => true
    case Cyclic => true
  }

  /** PHP's `empty($x)` on a defined variable. */
  predicate Empty(v: Value)
  {
    !Truthy(v)
  }

  /** PHP's `is_array($x)`. */
  predicate IsArray(v: Value)
  {
    v.List? || v.Dict?
  }

  /** A nullable PHP string as a value. */
  function OptionalStr(o: Option<string>): Value
  {
    match o
    case None => Null
    case Some(s) => Str(s)
  }

  /** Whether json_encode succeeds on `v`: nothing in it refers back to itself. */
  predicate Encodable(v: Value)
  {
    match v
    case List(items) => forall i | 0 <= i < |items| :: Encodable(items[i])
    case Dict(entries) => forall i | 0 <= i < |entries| :: Encodable(entries[i].val)
    case Object(props) => forall i | 0 <= i < |props| :: Encodable(props[i].val)
    case Cyclic => false
    case _ => true
  }

  // ---------------------------------------------------------------------
  // String-keyed arrays
  // ---------------------------------------------------------------------

  function Names(entries: seq<Entry>): seq<string>
  {
    seq(|entries|, i requires 0 <= i < |entries| => entries[i].name)
  }

  /** A PHP array never holds the same key twice. */
  predicate DistinctKeys(entries: seq<Entry>)
  {
    Distinct(Names(entries))
  }

  predicate Distinct<T(==)>(s: seq<T>)
  {
    forall i, j | 0 <= i < j < |s| :: s[i] != s[j]
  }

  /** `$a[$k] ?? null` split into "absent" and "present with this value". */
  function Lookup(entries: seq<Entry>, k: string): (r: Option<Value>)
    ensures r.None? <==> k !in Names(entries)
  {
    if entries == [] then None
    else
      assert Names(entries) == [entries[0].name] + Names(entries[1..]);
      if entries[0].name == k then Some(entries[0].val) else Lookup(entries[1..], k)
  }

  /**
   * `$a[$k] = $v` on a string-keyed array: an existing key keeps its
   * position and gets the new value, a new key goes to the end.
   */
  function Put(entries: seq<Entry>, k: string, v: Value): seq<Entry>
  {
    if entries == [] then [Entry(k, v)]
    else if entries[0].name == k then [Entry(k, v)] + entries[1..]
    else [entries[0]] + Put(entries[1..], k, v)
  }

  /** After the assignment `k` holds `v`, and every other key holds what it held. */
  lemma {:induction false} PutLookup(entries: seq<Entry>, k: string, v: Value, other: string)
    ensures Lookup(Put(entries, k, v), other) == if other == k then Some(v) else Lookup(entries, other)
    decreases |entries|
  {
    if entries != [] {
      var r := Put(entries, k, v);
      if entries[0].name == k {
        assert r[1..] == entries[1..];
      } else {
        PutLookup(entries[1..], k, v, other);
        assert r[1..] == Put(entries[1..], k, v);
      }
    }
  }

  lemma NamesCons(e: Entry, rest: seq<Entry>)
    ensures Names([e] + rest) == [e.name] + Names(rest)
  {
  }

  /** The assignment keeps the key order; a new key is appended. */
  lemma {:induction false} PutNames(entries: seq<Entry>, k: string, v: Value)
    ensures Names(Put(entries, k, v)) == if k in Names(entries) then Names(entries) else Names(entries) + [k]
    decreases |entries|
  {
    if entries != [] {
      var head, tail := entries[0], entries[1..];
      assert entries == [head] + tail;
      NamesCons(head, tail);
      if head.name == k {
        NamesCons(Entry(k, v), tail);
      } else {
        PutNames(tail, k, v);
        NamesCons(head, Put(tail, k, v));
        assert (k in Names(entries)) == (k in Names(tail));
      }
    }
  }

  /** Assigning one key keeps the keys of a PHP array distinct. */
  lemma PutKeepsKeysDistinct(entries: seq<Entry>, k: string, v: Value)
    requires DistinctKeys(entries)
    ensures DistinctKeys(Put(entries, k, v))
  {
    PutNames(entries, k, v);
    var names := Names(entries);
    if k !in names {
      var after := names + [k];
      forall i, j | 0 <= i < j < |after| ensures after[i] != after[j] {
        if j == |names| {
          assert after[i] == names[i];
        }
      }
    }
  }

  // ---------------------------------------------------------------------
  // Decimal integers, as PHP writes an int into a string
  // ---------------------------------------------------------------------

  predicate IsDigit(c: char)
  {
    '0' <= c <= '9'
  }

  predicate IsDigits(t: string)
  {
    forall i | 0 <= i < |t| :: IsDigit(t[i])
  }

  /** The regular expression `0|[1-9]\d*` (ASCII digits, no leading zero). */
  predicate Numeral(t: string)
  {
    t == "0" || (|t| >= 1 && '1' <= t[0] <= '9' && IsDigits(t))
  }

  function DigitChar(d: nat): (c: char)
    requires d < 10
    ensures IsDigit(c) && DigitValue(c) == d
  {
    ('0' as int + d) as char
  }

  function DigitValue(c: char): nat
    requires IsDigit(c)
  {
    (c - '0') as nat
  }

  /** The decimal text of a natural number. */
  function NatToDecimal(n: nat): string
    decreases n
  {
    if n < 10 then [DigitChar(n)] else NatToDecimal(n / 10) + [DigitChar(n % 10)]
  }

  /** The number a digit string denotes. */
  function DecimalValue(t: string): nat
    requires IsDigits(t)
    decreases |t|
  {
    if t == [] then 0 else DecimalValue(t[..|t| - 1]) * 10 + DigitValue(t[|t| - 1])
  }

  /** `"$i"` for a PHP int. */
  function IntToString(i: int): string
  {
    if i < 0 then "-" + NatToDecimal(-i) else NatToDecimal(i)
  }

  /** Reads back what IntToString writes. */
  function ParseInt(t: string): Option<int>
  {
    if |t| >= 1 && t[0] == '-' && IsDigits(t[1..]) then Some(-(DecimalValue(t[1..]) as int))
    else if IsDigits(t) then Some(DecimalValue(t) as int)
    else None
  }

  /** The decimal text of n is a numeral, and it denotes n. */
  lemma {:induction false} NatToDecimalRoundTrip(n: nat)
    ensures Numeral(NatToDecimal(n))
    ensures (NatToDecimal(n)[0] == '0') <==> n == 0
    ensures DecimalValue(NatToDecimal(n)) == n
    decreases n
  {
    if n >= 10 {
      var p := NatToDecimal(n / 10);
      var d := DigitChar(n % 10);
      NatToDecimalRoundTrip(n / 10);
      var t := p + [d];
      assert NatToDecimal(n) == t;
      assert t[..|t| - 1] == p && t[|t| - 1] == d;
      assert IsDigits(t);
      assert DecimalValue(t) == DecimalValue(p) * 10 + DigitValue(d);
      DivideByTen(n);
    }
  }

  lemma DivideByTen(n: nat)
    ensures n == (n / 10) * 10 + n % 10
  {
  }

  lemma AppendDigit(v: nat, d: nat)
    requires d < 10
    ensures (v * 10 + d) / 10 == v && (v * 10 + d) % 10 == d
  {
  }

  lemma {:induction false} LeadingDigitPositive(t: string)
    requires |t| >= 1 && IsDigits(t) && t[0] != '0'
    ensures DecimalValue(t) >= 1
    decreases |t|
  {
    if |t| > 1 {
      LeadingDigitPositive(t[..|t| - 1]);
    }
  }

  /** Every numeral is the decimal text of the number it denotes: no other spelling exists. */
  lemma {:induction false} NumeralCanonical(t: string)
    requires Numeral(t)
    ensures NatToDecimal(DecimalValue(t)) == t
    decreases |t|
  {
    if |t| > 1 {
      var p := t[..|t| - 1];
      var c := t[|t| - 1];
      assert Numeral(p);
      LeadingDigitPositive(p);
      NumeralCanonical(p);
      var v := DecimalValue(p);
      var n := v * 10 + DigitValue(c);
      AppendDigit(v, DigitValue(c));
      assert n >= 10;
      assert DigitChar(n % 10) == c;
      assert NatToDecimal(n) == NatToDecimal(v) + [c];
      assert t == p + [c];
    }
  }

  /** A PHP int written into a string can be read back unchanged. */
  lemma IntToStringRoundTrip(i: int)
    ensures ParseInt(IntToString(i)) == Some(i)
  {
    var n: nat := if i < 0 then -i else i;
    var d := NatToDecimal(n);
    NatToDecimalRoundTrip(n);
    assert |d| >= 1 && IsDigits(d);
    var t := IntToString(i);
    if i < 0 {
      assert t == "-" + d;
      assert t[0] == '-' && t[1..] == d;
    } else {
      assert t == d;
      assert IsDigit(t[0]);
    }
  }

  // ---------------------------------------------------------------------
  // Foreign primitives
  // ---------------------------------------------------------------------

  /**
   * The library calls the core relies on without implementing them:
   * json_encode's output text (meaningful only for encodable values),
   * json_decode($body, true) (None when json_last_error() reports an
   * error) and hash('sha256', ...).
   */
  datatype Runtime = Runtime(
    jsonEncode: Value -> string,
    jsonDecode: string -> Option<Value>,
    sha256: string -> string)

  /**
   * What json_encode promises about the text of an array it can encode:
   * it opens with `[` or `{`, so it is never "" nor "0".
   */
  ghost predicate ArraysEncodeBracketed(rt: Runtime)
  {
    forall v | IsArray(v) && Encodable(v) :: |rt.jsonEncode(v)| >= 2 && rt.jsonEncode(v)[0] in "[{"
  }
}
