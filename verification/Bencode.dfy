/**
 Bencode messages (`pkg/nrepl/bencode.go`; the format is the bencoding section of BEP 3, The BitTorrent
 Protocol Specification): the bytes that a value is written as, what the reader makes of any bytes, and
 the round trip between the two.
 */
module Bencode {
  import opened Int64
  import opened Objects

  type Byte = b: nat | b < 256
  type Bytes = seq<Byte>

  /** A Go string: bytes, no more than an `int` can count. */
  type GoString = s: seq<Byte> | |s| <= 0x7fff_ffff_ffff_ffff

  /**
   What the encoder is given: strings are byte strings, an integer is an `int` or an `int64` (both 64 bits
   wide), a slice may be nil. `Unsupported` is any other Go value.
   */
  datatype Value =
    | Str(bytes: GoString)
    | Int(n: int64)
    | Long(n: int64)
    | NilList
    | List(items: seq<Value>)
    | Dict(entries: map<GoString, Value>)
    | Unsupported

  const LETTER_I: Byte := 105
  const LETTER_L: Byte := 108
  const LETTER_D: Byte := 100
  const LETTER_E: Byte := 101
  const COLON: Byte := 58
  const ZERO: Byte := 48
  const NINE: Byte := 57
  const PLUS: Byte := 43
  const MINUS: Byte := 45

  /** Whether the encoder knows every type in the value. */
  predicate Supported(v: Value) {
    match v
    case List(vs) => forall i :: 0 <= i < |vs| ==> Supported(vs[i])
    case Dict(m) => forall k :: k in m ==> Supported(m[k])
    case Unsupported => false
    case _ => true
  }

  // ---- numbers ----

  function Digits(n: nat): (t: Bytes)
    ensures |t| > 0 && AllDigits(t)
  {
    if n < 10 then [ZERO + n] else Digits(n / 10) + [ZERO + n % 10]
  }

  /** `strconv.Itoa` and `strconv.FormatInt` with base 10 */
  function Decimal(n: int): Bytes { if n < 0 then [MINUS] + Digits(-n) else Digits(n) }

  predicate IsDigit(b: Byte) { ZERO <= b <= NINE }

  predicate AllDigits(t: Bytes) { forall i :: 0 <= i < |t| ==> IsDigit(t[i]) }

  function Magnitude(t: Bytes): nat
    requires AllDigits(t)
  {
    if t == [] then 0 else 10 * Magnitude(t[..|t| - 1]) + (t[|t| - 1] - ZERO)
  }

  /** `strconv.ParseInt` with base 10 and 64 bits: an optional sign, at least one digit, and a value in range. */
  function ParseInt(t: Bytes): (r: Option<int64>)
    ensures r.Some? ==> t != [] && (IsDigit(t[0]) ==> r.value >= 0)
  {
    if t == [] then None
    else
      var signed := t[0] == PLUS || t[0] == MINUS;
      var body := if signed then t[1..] else t;
      if body == [] || !AllDigits(body) then None
      else
        var n := if t[0] == MINUS then -(Magnitude(body) as int) else Magnitude(body);
        if MIN <= n <= MAX then Some(n) else None
  }

  lemma {:induction false} MagnitudeOfDigits(n: nat)
    ensures Magnitude(Digits(n)) == n
  {
    if n >= 10 {
      MagnitudeOfDigits(n / 10);
      var t := Digits(n);
      assert t[..|t| - 1] == Digits(n / 10);
    }
  }

  lemma ParseDecimal(n: int64)
    ensures ParseInt(Decimal(n)) == Some(n)
  {
    var m: nat := if n < 0 then -(n as int) else n;
    MagnitudeOfDigits(m);
    if n < 0 { assert Decimal(n)[1..] == Digits(m); } else { assert IsDigit(Digits(m)[0]); }
  }

  // ---- dictionary keys in order ----

  predicate Less(a: Bytes, b: Bytes) {
    b != [] && (a == [] || a[0] < b[0] || (a[0] == b[0] && Less(a[1..], b[1..])))
  }

  predicate Sorted(ks: seq<GoString>) { forall i, j :: 0 <= i < j < |ks| ==> Less(ks[i], ks[j]) }

  function Insert(k: GoString, ks: seq<GoString>): seq<GoString> {
    if ks == [] || !Less(ks[0], k) then [k] + ks else [ks[0]] + Insert(k, ks[1..])
  }

  /** `sort.Strings` */
  function Sort(ks: seq<GoString>): seq<GoString> { if ks == [] then [] else Insert(ks[0], Sort(ks[1..])) }

  /** The keys of a dictionary in increasing order; which key is taken first does not matter, see `SortIsCanonical`. */
  ghost function SortedKeys(s: set<GoString>): seq<GoString> {
    if s == {} then [] else var k :| k in s; Insert(k, SortedKeys(s - {k}))
  }

  lemma {:induction false} LessOrder(a: Bytes, b: Bytes, c: Bytes)
    ensures !Less(a, a)
    ensures a == b || Less(a, b) || Less(b, a)
    ensures Less(a, b) && Less(b, c) ==> Less(a, c)
    decreases |a|
  {
    if a != [] {
      if b != [] && c != [] { LessOrder(a[1..], b[1..], c[1..]); }
      else if b != [] { LessOrder(a[1..], b[1..], []); }
      else { LessOrder(a[1..], [], []); }
      if b != [] && a[0] == b[0] && a[1..] == b[1..] { assert a == [a[0]] + a[1..] && b == [b[0]] + b[1..]; }
    }
  }

  lemma {:induction false} InsertSorted(k: GoString, ks: seq<GoString>)
    requires Sorted(ks) && k !in ks
    ensures Sorted(Insert(k, ks))
    ensures forall x :: x in Insert(k, ks) <==> x == k || x in ks
  {
    if ks != [] {
      var r := Insert(k, ks);
      if Less(ks[0], k) {
        InsertSorted(k, ks[1..]);
        var tail := Insert(k, ks[1..]);
        forall j | 0 <= j < |tail| ensures Less(ks[0], tail[j]) { assert tail[j] in tail; }
        SortedCons(ks[0], tail);
      } else {
        LessOrder(k, ks[0], []);
        forall j | 0 <= j < |ks| ensures Less(k, ks[j]) { LessOrder(k, ks[0], ks[j]); }
        SortedCons(k, ks);
      }
    }
  }

  lemma SortedCons(k: GoString, ks: seq<GoString>)
    requires Sorted(ks) && forall j :: 0 <= j < |ks| ==> Less(k, ks[j])
    ensures Sorted([k] + ks)
  {}

  lemma {:induction false} SortedKeysSorted(s: set<GoString>)
    ensures Sorted(SortedKeys(s)) && forall x :: x in SortedKeys(s) <==> x in s
  {
    if s != {} {
      var k :| k in s && SortedKeys(s) == Insert(k, SortedKeys(s - {k}));
      SortedKeysSorted(s - {k});
      InsertSorted(k, SortedKeys(s - {k}));
    }
  }

  lemma {:induction false} SortSorted(ks: seq<GoString>)
    requires forall i, j :: 0 <= i < j < |ks| ==> ks[i] != ks[j]
    ensures Sorted(Sort(ks)) && forall x :: x in Sort(ks) <==> x in ks
  {
    if ks != [] {
      SortSorted(ks[1..]);
      InsertSorted(ks[0], Sort(ks[1..]));
    }
  }

  /** An increasing sequence is determined by its elements. */
  lemma {:induction false} SortedUnique(a: seq<GoString>, b: seq<GoString>)
    requires Sorted(a) && Sorted(b) && forall x :: x in a <==> x in b
    ensures a == b
  {
    if a == [] {
      HeadIn(b);
    } else {
      assert a[0] in b && b[0] in a;
      Heads(a, b);
      forall x ensures x in a[1..] <==> x in b[1..] { Tails(a, x); Tails(b, x); }
      SortedUnique(a[1..], b[1..]);
    }
  }

  lemma HeadIn(b: seq<GoString>)
    ensures b != [] ==> b[0] in b
  {}

  lemma Heads(a: seq<GoString>, b: seq<GoString>)
    requires Sorted(a) && Sorted(b) && a != [] && b != [] && a[0] in b && b[0] in a
    ensures a[0] == b[0]
  {
    var i :| 0 <= i < |a| && a[i] == b[0];
    var j :| 0 <= j < |b| && b[j] == a[0];
    LessOrder(a[0], b[0], a[0]);
  }

  lemma Tails(a: seq<GoString>, x: GoString)
    requires Sorted(a) && a != []
    ensures x in a[1..] <==> x in a && x != a[0]
  {
    LessOrder(a[0], a[0], a[0]);
    assert a == [a[0]] + a[1..];
  }

  /** The order in which the keys were collected does not matter. */
  lemma SortIsCanonical(ks: seq<GoString>, s: set<GoString>)
    requires forall i, j :: 0 <= i < j < |ks| ==> ks[i] != ks[j]
    requires forall x :: x in ks <==> x in s
    ensures Sort(ks) == SortedKeys(s)
  {
    SortSorted(ks);
    SortedKeysSorted(s);
    SortedUnique(Sort(ks), SortedKeys(s));
  }

  // ---- encoding ----

  function EncodeStr(s: GoString): (r: Bytes)
  {
    Digits(|s|) + [COLON] + s
  }

  ghost function Encode(v: Value): Bytes
    decreases v, 1, 0
  {
    match v
    case Str(s) => EncodeStr(s)
    case Int(n) => [LETTER_I] + Decimal(n) + [LETTER_E]
    case Long(n) => [LETTER_I] + Decimal(n) + [LETTER_E]
    case NilList => [LETTER_L, LETTER_E]
    case List(vs) => [LETTER_L] + EncodeAll(vs) + [LETTER_E]
    case Dict(m) => SortedKeysSorted(m.Keys); [LETTER_D] + EncodeEntries(v, SortedKeys(m.Keys)) + [LETTER_E]
    case Unsupported => []
  }

  ghost function EncodeAll(vs: seq<Value>): Bytes
    decreases vs, 0, 0
  {
    if vs == [] then [] else Encode(vs[0]) + EncodeAll(vs[1..])
  }

  ghost function EncodeEntries(v: Value, ks: seq<GoString>): Bytes
    requires v.Dict? && forall i :: 0 <= i < |ks| ==> ks[i] in v.entries
    decreases v, 0, |ks|
  {
    if ks == [] then [] else EncodeStr(ks[0]) + Encode(v.entries[ks[0]]) + EncodeEntries(v, ks[1..])
  }

  // ---- decoding ----

  datatype Error = UnexpectedEof | UnexpectedByte(b: Byte) | BadNumber | KeyNotString

  datatype Result<+T> = Ok(value: T, rest: Bytes) | Err(error: Error)

  /** The bytes before the first `stop`. */
  function Until(s: Bytes, stop: Byte): (r: Result<Bytes>)
    ensures r.Ok? ==> |r.rest| < |s|
  {
    if s == [] then Err(UnexpectedEof)
    else if s[0] == stop then Ok([], s[1..])
    else match Until(s[1..], stop)
      case Ok(t, rest) => Ok([s[0]] + t, rest)
      case Err(e) => Err(e)
  }

  function DecodeInt(s: Bytes): (r: Result<Value>)
    ensures r.Ok? ==> |r.rest| < |s|
  {
    match Until(s, LETTER_E)
    case Err(e) => Err(e)
    case Ok(t, rest) => match ParseInt(t)
      case None => Err(BadNumber)
      case Some(n) => Ok(Long(n), rest)
  }

  function DecodeStr(first: Byte, s: Bytes): (r: Result<Value>)
    requires IsDigit(first)
    ensures r.Ok? ==> |r.rest| < |s| && r.value.Str?
  {
    match Until(s, COLON)
    case Err(e) => Err(e)
    case Ok(t, rest) => match ParseInt([first] + t)
      case None => Err(BadNumber)
      case Some(n) => if |rest| < n then Err(UnexpectedEof) else Ok(Str(rest[..n]), rest[n..])
  }

  function Decode(s: Bytes): (r: Result<Value>)
    ensures r.Ok? ==> |r.rest| < |s|
    decreases |s|, 0
  {
    if s == [] then Err(UnexpectedEof)
    else if s[0] == LETTER_I then DecodeInt(s[1..])
    else if s[0] == LETTER_L then DecodeItems(s[1..], [])
    else if s[0] == LETTER_D then DecodeEntries(s[1..], map[])
    else if IsDigit(s[0]) then DecodeStr(s[0], s[1..])
    else Err(UnexpectedByte(s[0]))
  }

  /** A slice that nothing was appended to is nil. */
  function ListOf(vs: seq<Value>): Value { if vs == [] then NilList else List(vs) }

  function DecodeItems(s: Bytes, list: seq<Value>): (r: Result<Value>)
    ensures r.Ok? ==> |r.rest| < |s|
    decreases |s|, 1
  {
    if s == [] then Err(UnexpectedEof)
    else if s[0] == LETTER_E then Ok(ListOf(list), s[1..])
    else match Decode(s)
      case Err(e) => Err(e)
      case Ok(v, rest) => DecodeItems(rest, list + [v])
  }

  function DecodeEntries(s: Bytes, dict: map<GoString, Value>): (r: Result<Value>)
    ensures r.Ok? ==> |r.rest| < |s|
    decreases |s|, 1
  {
    if s == [] then Err(UnexpectedEof)
    else if s[0] == LETTER_E then Ok(Dict(dict), s[1..])
    else match Decode(s)
      case Err(e) => Err(e)
      case Ok(key, rest) =>
        if !key.Str? then Err(KeyNotString)
        else match Decode(rest)
          case Err(e) => Err(e)
          case Ok(v, after) => DecodeEntries(after, dict[key.bytes := v])
  }

  // ---- the round trip ----

  /** What a value comes back as: integers are `int64`s and an empty list is nil. */
  function Norm(v: Value): Value {
    match v
    case Int(n) => Long(n)
    case List(vs) => ListOf(Norms(vs))
    case Dict(m) => Dict(map k | k in m :: Norm(m[k]))
    case _ => v
  }

  function Norms(vs: seq<Value>): seq<Value> { if vs == [] then [] else [Norm(vs[0])] + Norms(vs[1..]) }

  lemma {:induction false} UntilSplits(t: Bytes, stop: Byte, rest: Bytes)
    requires stop !in t
    ensures Until(t + [stop] + rest, stop) == Ok(t, rest)
  {
    var s := t + [stop] + rest;
    if t == [] {
      assert s[1..] == rest;
    } else {
      UntilSplits(t[1..], stop, rest);
      assert s[1..] == t[1..] + [stop] + rest;
      assert t == [t[0]] + t[1..];
    }
  }

  lemma DecimalBytes(n: int)
    ensures LETTER_E !in Decimal(n) && |Decimal(n)| > 0
  {
    var t := Digits(if n < 0 then -n else n);
    forall i | 0 <= i < |t| ensures t[i] != LETTER_E { assert IsDigit(t[i]); }
  }

  lemma DecodeDecimal(n: int64, rest: Bytes)
    ensures Decode([LETTER_I] + Decimal(n) + [LETTER_E] + rest) == Ok(Long(n), rest)
  {
    var s := [LETTER_I] + Decimal(n) + [LETTER_E] + rest;
    assert s[1..] == Decimal(n) + [LETTER_E] + rest;
    DecimalBytes(n);
    UntilSplits(Decimal(n), LETTER_E, rest);
    ParseDecimal(n);
  }

  lemma DecodeEncodedStr(s: GoString, rest: Bytes)
    ensures EncodeStr(s) != [] && EncodeStr(s)[0] != LETTER_E
    ensures Decode(EncodeStr(s) + rest) == Ok(Str(s), rest)
  {
    var t, all := Digits(|s|), EncodeStr(s) + rest;
    assert IsDigit(t[0]);
    assert all[1..] == t[1..] + [COLON] + (s + rest);
    forall i | 0 <= i < |t[1..]| ensures t[1..][i] != COLON { assert IsDigit(t[i + 1]); }
    UntilSplits(t[1..], COLON, s + rest);
    assert [t[0]] + t[1..] == t;
    ParseDecimal(|s|);
    assert (s + rest)[..|s|] == s && (s + rest)[|s|..] == rest;
  }

  /** An encoding does not begin like the end of a list. */
  lemma FirstByte(v: Value)
    requires Supported(v)
    ensures Encode(v) != [] && Encode(v)[0] != LETTER_E
  {
    if v.Str? { DecodeEncodedStr(v.bytes, []); }
  }

  /** Decoding an encoding gives the value back and leaves exactly the bytes that follow. */
  lemma {:induction false} RoundTrip(v: Value, rest: Bytes)
    requires Supported(v)
    ensures Decode(Encode(v) + rest) == Ok(Norm(v), rest)
    decreases v, 2
  {
    match v
    case Str(s) => DecodeEncodedStr(s, rest);
    case Int(n) => DecodeDecimal(n, rest);
    case Long(n) => DecodeDecimal(n, rest);
    case NilList =>
      assert (Encode(v) + rest)[1..] == [LETTER_E] + rest;
      assert ([LETTER_E] + rest)[1..] == rest;
    case List(vs) =>
      assert (Encode(v) + rest)[1..] == EncodeAll(vs) + [LETTER_E] + rest;
      ItemsRoundTrip(vs, [], rest);
      assert [] + Norms(vs) == Norms(vs);
    case Dict(m) => DictRoundTrip(v, rest);
  }

  lemma {:induction false} DictRoundTrip(v: Value, rest: Bytes)
    requires Supported(v) && v.Dict?
    ensures Decode(Encode(v) + rest) == Ok(Norm(v), rest)
    decreases v, 1
  {
    hide Encode, EncodeEntries, NormOn, Norm, SortedKeys, DecodeEntries, Supported;
    var m := v.entries;
    SortedKeysSorted(m.Keys);
    var ks := SortedKeys(m.Keys);
    EntriesRoundTrip(v, ks, map[], rest);
    DictLayout(v, rest);
    NormOnAll(v, ks);
  }

  lemma DictLayout(v: Value, rest: Bytes)
    requires v.Dict?
    ensures forall k :: k in SortedKeys(v.entries.Keys) ==> k in v.entries
    ensures var s := Encode(v) + rest; s != [] && s[0] == LETTER_D
    ensures (Encode(v) + rest)[1..] == EncodeEntries(v, SortedKeys(v.entries.Keys)) + [LETTER_E] + rest
  {
    SortedKeysSorted(v.entries.Keys);
  }

  lemma NormOnAll(v: Value, ks: seq<GoString>)
    requires v.Dict? && forall k :: k in ks <==> k in v.entries
    ensures Dict(map[] + NormOn(v.entries, ks)) == Norm(v)
  {
    hide Norm;
    NormOfDict(v);
    assert NormOn(v.entries, ks) == Norm(v).entries;
    NormOnNone(NormOn(v.entries, ks));
  }

  lemma NormOnNone(a: map<GoString, Value>)
    ensures map[] + a == a
  {
  }

  lemma NormOfDict(v: Value)
    requires v.Dict?
    ensures Norm(v).Dict? && Norm(v).entries.Keys == v.entries.Keys
    ensures forall k :: k in v.entries ==> Norm(v).entries[k] == Norm(v.entries[k])
  {
  }

  lemma {:induction false} ItemsRoundTrip(vs: seq<Value>, list: seq<Value>, rest: Bytes)
    requires forall i :: 0 <= i < |vs| ==> Supported(vs[i])
    ensures DecodeItems(EncodeAll(vs) + [LETTER_E] + rest, list) == Ok(ListOf(list + Norms(vs)), rest)
    decreases vs, 0
  {
    var s := EncodeAll(vs) + [LETTER_E] + rest;
    if vs == [] {
      assert s[1..] == rest;
      assert list + Norms(vs) == list;
    } else {
      var after := EncodeAll(vs[1..]) + [LETTER_E] + rest;
      assert s == Encode(vs[0]) + after;
      FirstByte(vs[0]);
      RoundTrip(vs[0], after);
      ItemsRoundTrip(vs[1..], list + [Norm(vs[0])], rest);
      assert list + Norms(vs) == list + [Norm(vs[0])] + Norms(vs[1..]);
    }
  }

  /** What the entries of `ks` come back as. */
  function NormOn(m: map<GoString, Value>, ks: seq<GoString>): map<GoString, Value> {
    map k | k in m && k in ks :: Norm(m[k])
  }

  lemma {:induction false} EntriesRoundTrip(v: Value, ks: seq<GoString>, dict: map<GoString, Value>, rest: Bytes)
    requires v.Dict? && Supported(v)
    requires forall i :: 0 <= i < |ks| ==> ks[i] in v.entries
    ensures DecodeEntries(EncodeEntries(v, ks) + [LETTER_E] + rest, dict)
            == Ok(Dict(dict + NormOn(v.entries, ks)), rest)
    decreases v, 0, |ks|
  {
    hide NormOn, Norm, EncodeStr;
    var s, m := EncodeEntries(v, ks) + [LETTER_E] + rest, v.entries;
    if ks == [] {
      assert s[1..] == rest;
      NormOnNothing(m, dict);
    } else {
      var k0 := ks[0];
      var after := EncodeEntries(v, ks[1..]) + [LETTER_E] + rest;
      var value := Encode(m[k0]) + after;
      assert s == EncodeStr(k0) + value;
      DecodeEncodedStr(k0, value);
      RoundTrip(m[k0], after);
      EntriesRoundTrip(v, ks[1..], dict[k0 := Norm(m[k0])], rest);
      NormOnMore(m, ks, dict);
    }
  }

  lemma NormOnNothing(m: map<GoString, Value>, dict: map<GoString, Value>)
    ensures dict + NormOn(m, []) == dict
  {}

  lemma NormOnMore(m: map<GoString, Value>, ks: seq<GoString>, dict: map<GoString, Value>)
    requires ks != [] && ks[0] in m
    ensures dict + NormOn(m, ks) == dict[ks[0] := Norm(m[ks[0]])] + NormOn(m, ks[1..])
  {
    assert ks == [ks[0]] + ks[1..];
  }

  /** No encoding is a proper prefix of another, and equal encodings are encodings of equal values. */
  lemma PrefixFree(v: Value, w: Value, more: Bytes)
    requires Supported(v) && Supported(w) && Encode(w) == Encode(v) + more
    ensures more == [] && Norm(v) == Norm(w)
  {
    RoundTrip(v, more);
    RoundTrip(w, []);
    assert Encode(w) + [] == Encode(v) + more;
  }

  /** Several messages in one stream are read back one by one. */
  function DecodeMany(s: Bytes, n: nat): Result<seq<Value>>
    decreases n
  {
    if n == 0 then Ok([], s)
    else match Decode(s)
      case Err(e) => Err(e)
      case Ok(v, rest) => match DecodeMany(rest, n - 1)
        case Err(e) => Err(e)
        case Ok(vs, after) => Ok([v] + vs, after)
  }

  lemma {:induction false} StreamRoundTrip(vs: seq<Value>, rest: Bytes)
    requires forall i :: 0 <= i < |vs| ==> Supported(vs[i])
    ensures DecodeMany(EncodeAll(vs) + rest, |vs|) == Ok(Norms(vs), rest)
  {
    if vs == [] {
      assert EncodeAll(vs) + rest == rest;
    } else {
      assert EncodeAll(vs) + rest == Encode(vs[0]) + (EncodeAll(vs[1..]) + rest);
      RoundTrip(vs[0], EncodeAll(vs[1..]) + rest);
      StreamRoundTrip(vs[1..], rest);
    }
  }

  /** Whatever bytes are accepted, the result is a value that encodes and decodes to itself. */
  lemma {:induction false} DecodedIsNormal(s: Bytes)
    requires Decode(s).Ok?
    ensures Supported(Decode(s).value) && Norm(Decode(s).value) == Decode(s).value
    decreases |s|, 0
  {
    if s[0] == LETTER_L { ItemsNormal(s[1..], []); }
    else if s[0] == LETTER_D { EntriesNormal(s[1..], map[]); }
  }

  lemma {:induction false} ItemsNormal(s: Bytes, list: seq<Value>)
    requires DecodeItems(s, list).Ok?
    requires forall i :: 0 <= i < |list| ==> Supported(list[i]) && Norm(list[i]) == list[i]
    ensures var v := DecodeItems(s, list).value; Supported(v) && Norm(v) == v
    decreases |s|, 1
  {
    if s[0] == LETTER_E {
      NormsSame(list);
    } else {
      DecodedIsNormal(s);
      ItemsNormal(Decode(s).rest, list + [Decode(s).value]);
    }
  }

  lemma {:induction false} NormsSame(vs: seq<Value>)
    requires forall i :: 0 <= i < |vs| ==> Norm(vs[i]) == vs[i]
    ensures Norms(vs) == vs
  {
    if vs != [] { NormsSame(vs[1..]); }
  }

  lemma {:induction false} EntriesNormal(s: Bytes, dict: map<GoString, Value>)
    requires DecodeEntries(s, dict).Ok?
    requires forall k :: k in dict ==> Supported(dict[k]) && Norm(dict[k]) == dict[k]
    ensures var v := DecodeEntries(s, dict).value; Supported(v) && Norm(v) == v
    decreases |s|, 1
  {
    if s[0] == LETTER_E {
      assert (map k | k in dict :: Norm(dict[k])) == dict;
    } else {
      DecodedIsNormal(s);
      var key, rest := Decode(s).value, Decode(s).rest;
      DecodedIsNormal(rest);
      EntriesNormal(Decode(rest).rest, dict[key.bytes := Decode(rest).value]);
    }
  }
}
