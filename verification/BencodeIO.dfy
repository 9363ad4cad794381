/**
 The imperative side of `pkg/nrepl/bencode.go`: the encoder that appends to a buffer, the one-byte pushback
 reader over a stream that may deliver fewer bytes than asked for, and the recursive reader. Each is proved
 to do what `Bencode` says about the bytes.
 */
module BencodeIO {
  import opened Bencode
  import opened Objects

  // ---- encoding ----

  class Buffer {
    var bytes: Bytes

    constructor ()
      ensures bytes == []
    {
      bytes := [];
    }
  }

  lemma Appended(keys: seq<GoString>, k: GoString)
    requires k !in keys && forall i, j :: 0 <= i < j < |keys| ==> keys[i] != keys[j]
    ensures forall x: GoString :: x in keys + [k] <==> x in keys || x == k
    ensures var all := keys + [k]; forall i, j :: 0 <= i < j < |all| ==> all[i] != all[j]
  {
    var all := keys + [k];
    assert forall i :: 0 <= i < |keys| ==> all[i] == keys[i] && keys[i] in keys;
    assert all[|keys|] == k;
  }

  /** The range over the map, which visits the keys in an arbitrary order. */
  method CollectKeys(m: map<GoString, Value>) returns (keys: seq<GoString>)
    ensures forall i, j :: 0 <= i < j < |keys| ==> keys[i] != keys[j]
    ensures forall k :: k in keys <==> k in m.Keys
  {
    keys := [];
    var todo := m.Keys;
    while todo != {}
      invariant todo <= m.Keys
      invariant forall i, j :: 0 <= i < j < |keys| ==> keys[i] != keys[j]
      invariant forall k :: k in keys <==> k in m.Keys - todo
    {
      var k :| k in todo;
      Appended(keys, k);
      keys := keys + [k];
      todo := todo - {k};
    }
  }

  method WriteStr(buf: Buffer, s: GoString)
    modifies buf
    ensures buf.bytes == old(buf.bytes) + EncodeStr(s)
  {
    buf.bytes := buf.bytes + Digits(|s|);
    buf.bytes := buf.bytes + [COLON];
    buf.bytes := buf.bytes + s;
  }

  /** `bencodeWrite`; `ok` is false where it returns an error, which it does exactly on an unsupported part. */
  method Write(buf: Buffer, v: Value) returns (ok: bool)
    modifies buf
    ensures ok == Supported(v)
    ensures ok ==> buf.bytes == old(buf.bytes) + Encode(v)
    decreases v, 1
  {
    hide EncodeAll, EncodeEntries, EncodeStr, SortedKeys, Decimal;
    ok := true;
    match v {
      case Str(s) => WriteStr(buf, s);
      case Int(n) =>
        buf.bytes := buf.bytes + [LETTER_I];
        buf.bytes := buf.bytes + Decimal(n);
        buf.bytes := buf.bytes + [LETTER_E];
        assert buf.bytes == old(buf.bytes) + Encode(v);
      case Long(n) =>
        buf.bytes := buf.bytes + [LETTER_I];
        buf.bytes := buf.bytes + Decimal(n);
        buf.bytes := buf.bytes + [LETTER_E];
        assert buf.bytes == old(buf.bytes) + Encode(v);
      case NilList =>
        buf.bytes := buf.bytes + [LETTER_L];
        buf.bytes := buf.bytes + [LETTER_E];
        assert buf.bytes == old(buf.bytes) + Encode(v);
      case List(vs) => ok := WriteItems(buf, v);
      case Dict(m) => ok := WriteEntries(buf, v);
      case Unsupported => ok := false;
    }
  }

  method WriteItems(buf: Buffer, v: Value) returns (ok: bool)
    requires v.List?
    modifies buf
    ensures ok == Supported(v)
    ensures ok ==> buf.bytes == old(buf.bytes) + Encode(v)
    decreases v, 0
  {
    hide Encode, EncodeAll;
    var vs, i := v.items, 0;
    ghost var start := buf.bytes + [LETTER_L];
    ListLayout(v);
    buf.bytes := buf.bytes + [LETTER_L];
    while i < |vs|
      invariant 0 <= i <= |vs|
      invariant forall j :: 0 <= j < i ==> Supported(vs[j])
      invariant buf.bytes + EncodeAll(vs[i..]) == start + EncodeAll(vs)
    {
      ghost var before := buf.bytes;
      ok := Write(buf, vs[i]);
      if !ok { return; }
      ItemsLayout(before, vs, i);
      i := i + 1;
    }
    assert vs[i..] == [];
    assert buf.bytes == start + EncodeAll(vs);
    buf.bytes := buf.bytes + [LETTER_E];
    ok := true;
    assert buf.bytes == old(buf.bytes) + ([LETTER_L] + EncodeAll(vs) + [LETTER_E]);
  }

  lemma ListLayout(v: Value)
    requires v.List?
    ensures Encode(v) == [LETTER_L] + EncodeAll(v.items) + [LETTER_E]
    ensures EncodeAll([]) == []
  {}

  lemma ItemsLayout(before: Bytes, vs: seq<Value>, i: nat)
    requires i < |vs|
    ensures before + EncodeAll(vs[i..]) == before + Encode(vs[i]) + EncodeAll(vs[i + 1..])
  {
    assert vs[i..][1..] == vs[i + 1..];
  }

  method WriteEntries(buf: Buffer, v: Value) returns (ok: bool)
    requires v.Dict?
    modifies buf
    ensures ok == Supported(v)
    ensures ok ==> buf.bytes == old(buf.bytes) + Encode(v)
    decreases v, 0
  {
    hide Encode, EncodeEntries, EncodeStr, SortedKeys, Sort, Less;
    var m, i := v.entries, 0;
    ghost var start := buf.bytes + [LETTER_D];
    buf.bytes := buf.bytes + [LETTER_D];
    var keys := CollectKeys(m);
    SortSorted(keys);
    SortIsCanonical(keys, m.Keys);
    DictParts(v);
    keys := Sort(keys);
    while i < |keys|
      invariant 0 <= i <= |keys|
      invariant forall j :: 0 <= j < i ==> Supported(m[keys[j]])
      invariant buf.bytes + EncodeEntries(v, keys[i..]) == start + EncodeEntries(v, keys)
    {
      ghost var before := buf.bytes;
      WriteStr(buf, keys[i]);
      ok := Write(buf, m[keys[i]]);
      if !ok { assert keys[i] in m; return; }
      EntriesLayout(before, v, keys, i);
      i := i + 1;
    }
    assert keys[i..] == [];
    assert buf.bytes == start + EncodeEntries(v, keys);
    buf.bytes := buf.bytes + [LETTER_E];
    ok := true;
    assert buf.bytes == old(buf.bytes) + ([LETTER_D] + EncodeEntries(v, keys) + [LETTER_E]);
  }

  lemma DictParts(v: Value)
    requires v.Dict?
    ensures forall k :: k in SortedKeys(v.entries.Keys) <==> k in v.entries
    ensures Encode(v) == [LETTER_D] + EncodeEntries(v, SortedKeys(v.entries.Keys)) + [LETTER_E]
    ensures EncodeEntries(v, []) == []
  {
    SortedKeysSorted(v.entries.Keys);
  }

  lemma EntriesLayout(before: Bytes, v: Value, ks: seq<GoString>, i: nat)
    requires v.Dict? && (forall j :: 0 <= j < |ks| ==> ks[j] in v.entries) && i < |ks|
    ensures before + EncodeEntries(v, ks[i..]) == before + EncodeStr(ks[i]) + Encode(v.entries[ks[i]])
            + EncodeEntries(v, ks[i + 1..])
  {
    hide Encode, EncodeStr;
    assert ks[i..][1..] == ks[i + 1..];
  }

  /** `BencodeEncode` */
  method EncodeValue(v: Value) returns (r: Option<Bytes>)
    ensures r == if Supported(v) then Some(Encode(v)) else None
  {
    var buf := new Buffer();
    var ok := Write(buf, v);
    assert [] + Encode(v) == Encode(v);
    r := if ok then Some(buf.bytes) else None;
  }

  // ---- reading bytes ----

  function Min(a: nat, b: nat): nat { if a < b then a else b }

  /**
   A connection, as `io.Reader`: a read delivers some of the bytes that are left, at most as many as fit, and at
   least one unless it reports the end. How many it delivers is the peer's business, so the contract does not say.
   */
  class Source {
    var left: Bytes
    var burst: nat

    constructor (bytes: Bytes, size: nat)
      ensures left == bytes
    {
      left, burst := bytes, size;
    }

    method Read(p: array<Byte>, from: nat) returns (n: nat, eof: bool)
      requires from <= p.Length
      modifies this`left, p
      ensures from + n <= p.Length && n <= |old(left)|
      ensures p[..from] == old(p[..from]) && p[from..from + n] == old(left)[..n] && left == old(left)[n..]
      ensures eof ==> left == []
      ensures n == 0 ==> from == p.Length || eof
    {
      n := Min(p.Length - from, Min(|left|, 1 + burst));
      forall i | 0 <= i < n { p[from + i] := left[i]; }
      left := left[n..];
      eof := n == 0 && left == [];
    }
  }

  /** `singleByteReader`: a reader that can take back the last byte. */
  class SingleByteReader {
    const r: Source
    const buf: array<Byte>
    var hasRev: bool

    ghost predicate Valid()
    {
      buf.Length == 1
    }

    /** The bytes still to come. */
    ghost function Pending(): Bytes
      requires Valid()
      reads this, buf, r`left
    {
      (if hasRev then [buf[0]] else []) + r.left
    }

    constructor (source: Source)
      ensures Valid() && r == source && fresh(buf) && !hasRev && Pending() == source.left
    {
      r := source;
      buf := new Byte[1](_ => 0);
      hasRev := false;
    }

    /** Here `io.ReadFull` on one byte is one read: it delivers the byte or reports the end. */
    method ReadByte() returns (b: Byte, eof: bool)
      requires Valid()
      modifies this, buf, r`left
      ensures eof == (old(Pending()) == [])
      ensures !eof ==> !hasRev && [b] + Pending() == old(Pending()) && buf[0] == b
    {
      if hasRev {
        hasRev := false;
        return buf[0], false;
      }
      var n, _ := r.Read(buf, 0);
      b, eof := buf[0], n < 1;
      if n == 1 { assert buf[0..1] == [b]; }
    }

    /** Takes back the byte that `ReadByte` just returned. */
    method UnreadByte()
      requires Valid() && !hasRev
      modifies this`hasRev
      ensures Pending() == [buf[0]] + old(Pending())
    {
      hasRev := true;
    }

    method Read(p: array<Byte>, from: nat) returns (n: nat, eof: bool)
      requires Valid() && from <= p.Length && p != buf
      modifies this`hasRev, r`left, p
      ensures from + n <= p.Length && n <= |old(Pending())|
      ensures p[..from] == old(p[..from]) && p[from..from + n] == old(Pending())[..n]
      ensures Pending() == old(Pending())[n..]
      ensures eof && from < p.Length ==> Pending() == []
      ensures n == 0 ==> from == p.Length || eof
      ensures !old(hasRev) ==> !hasRev
    {
      ghost var all := Pending();
      if hasRev && from < p.Length {
        p[from] := buf[0];
        hasRev := false;
        if p.Length - from == 1 { return 1, false; }
        n, eof := r.Read(p, from + 1);
        assert p[..from] == p[..from + 1][..from];
        assert p[from..from + 1 + n] == [p[..from + 1][from]] + p[from + 1..from + 1 + n];
        assert all[..n + 1] == [buf[0]] + all[1..][..n];
        n := n + 1;
      } else {
        n, eof := r.Read(p, from);
      }
    }
  }

  /** `io.ReadFull`: reads until the array is full; `eof` when the bytes run out first. */
  method ReadFull(r: SingleByteReader, p: array<Byte>) returns (eof: bool)
    requires r.Valid() && p != r.buf
    modifies r, r.r`left, p
    ensures eof == (|old(r.Pending())| < p.Length)
    ensures !eof ==> p[..] == old(r.Pending())[..p.Length] && r.Pending() == old(r.Pending())[p.Length..]
    ensures !old(r.hasRev) ==> !r.hasRev
  {
    var n, done := 0, false;
    ghost var all := r.Pending();
    while n < p.Length && !done
      invariant n <= p.Length && n <= |all|
      invariant p[..n] == all[..n] && r.Pending() == all[n..]
      invariant done ==> r.Pending() == []
      invariant !old(r.hasRev) ==> !r.hasRev
      decreases p.Length - n, !done
    {
      ghost var prior := n;
      var k;
      k, done := r.Read(p, n);
      n := n + k;
      assert p[..n] == p[..prior] + p[prior..n];
    }
    eof := n < p.Length;
    if !eof { assert p[..] == p[..n]; }
  }

  // ---- reading values ----

  datatype Outcome<+T> = Got(value: T) | Failed(error: Error)

  /** What the reader should have done on `before`, given what it returned and what is pending after. */
  ghost predicate Reads(want: Result<Value>, got: Outcome<Value>, after: Bytes) {
    match want
    case Ok(v, rest) => got == Got(v) && after == rest
    case Err(e) => got == Failed(e)
  }

  /** The loops that read up to a delimiter. */
  method ReadUntil(r: SingleByteReader, stop: Byte, first: Bytes) returns (got: Outcome<Bytes>)
    requires r.Valid()
    modifies r, r.buf, r.r`left
    ensures match Until(old(r.Pending()), stop)
            case Ok(t, rest) => got == Got(first + t) && r.Pending() == rest
            case Err(e) => got == Failed(e)
    ensures got.Got? ==> !r.hasRev
  {
    var text := first;
    ghost var all, i := r.Pending(), 0;
    while true
      invariant i <= |all| && r.Pending() == all[i..] && text == first + all[..i]
      invariant UntilFrom(all, stop, i)
      decreases |all| - i
    {
      var b, eof := r.ReadByte();
      if eof { UntilEnds(all, stop, i); return Failed(UnexpectedEof); }
      assert b == all[i] && r.Pending() == all[i + 1..];
      if b == stop { UntilStops(all, stop, i); return Got(text); }
      UntilMore(all, stop, i);
      text := text + [b];
      i := i + 1;
    }
  }

  /** No `stop` among the first `i`. */
  ghost predicate UntilFrom(s: Bytes, stop: Byte, i: nat) { i <= |s| && stop !in s[..i] }

  lemma UntilMore(s: Bytes, stop: Byte, i: nat)
    requires UntilFrom(s, stop, i) && i < |s| && s[i] != stop
    ensures UntilFrom(s, stop, i + 1)
  {
    assert s[..i + 1] == s[..i] + [s[i]];
  }

  lemma UntilStops(s: Bytes, stop: Byte, i: nat)
    requires UntilFrom(s, stop, i) && i < |s| && s[i] == stop
    ensures Until(s, stop) == Ok(s[..i], s[i + 1..])
  {
    UntilSplits(s[..i], stop, s[i + 1..]);
    assert s == s[..i] + [stop] + s[i + 1..];
  }

  lemma {:induction false} UntilEnds(s: Bytes, stop: Byte, i: nat)
    requires UntilFrom(s, stop, i) && i == |s|
    ensures Until(s, stop) == Err(UnexpectedEof)
  {
    assert s[..i] == s;
    if s != [] {
      assert s == [s[0]] + s[1..];
      assert s[1..][..i - 1] == s[1..];
      UntilEnds(s[1..], stop, i - 1);
    }
  }

  method ReadInt(r: SingleByteReader) returns (got: Outcome<Value>)
    requires r.Valid()
    modifies r, r.buf, r.r`left
    ensures Reads(DecodeInt(old(r.Pending())), got, r.Pending()) && (got.Got? ==> !r.hasRev)
  {
    ghost var want := Until(r.Pending(), LETTER_E);
    var t := ReadUntil(r, LETTER_E, []);
    if want.Ok? { assert [] + want.value == want.value; }
    if t.Failed? { return Failed(t.error); }
    match ParseInt(t.value)
    case None => return Failed(BadNumber);
    case Some(n) => return Got(Long(n));
  }

  method ReadStr(r: SingleByteReader, first: Byte) returns (got: Outcome<Value>)
    requires r.Valid() && IsDigit(first)
    modifies r, r.buf, r.r`left
    ensures Reads(DecodeStr(first, old(r.Pending())), got, r.Pending()) && (got.Got? ==> !r.hasRev)
  {
    var t := ReadUntil(r, COLON, [first]);
    if t.Failed? { return Failed(t.error); }
    match ParseInt(t.value)
    case None => return Failed(BadNumber);
    case Some(length) =>
      var data := new Byte[length](_ => 0);
      var eof := ReadFull(r, data);
      if eof { return Failed(UnexpectedEof); }
      return Got(Str(data[..]));
  }

  /** `bencodeRead` through the pushback reader does what `Decode` says about the bytes to come. */
  method ReadValue(r: SingleByteReader) returns (got: Outcome<Value>)
    requires r.Valid()
    modifies r, r.buf, r.r`left
    ensures Reads(Decode(old(r.Pending())), got, r.Pending()) && (got.Got? ==> !r.hasRev)
    decreases |r.Pending()|, 0
  {
    hide DecodeInt, DecodeStr, DecodeItems, DecodeEntries;
    ghost var s := r.Pending();
    var b, eof := r.ReadByte();
    if eof { return Failed(UnexpectedEof); }
    assert r.Pending() == s[1..] && b == s[0];
    if b == LETTER_I { got := ReadInt(r); }
    else if b == LETTER_L { got := ReadList(r); }
    else if b == LETTER_D { got := ReadDict(r); }
    else if IsDigit(b) { got := ReadStr(r, b); }
    else { got := Failed(UnexpectedByte(b)); }
  }

  method ReadList(r: SingleByteReader) returns (got: Outcome<Value>)
    requires r.Valid()
    modifies r, r.buf, r.r`left
    ensures Reads(DecodeItems(old(r.Pending()), []), got, r.Pending()) && (got.Got? ==> !r.hasRev)
    decreases |r.Pending()|, 1
  {
    hide Decode;
    var list: seq<Value> := [];
    ghost var start := r.Pending();
    while true
      invariant |r.Pending()| <= |start|
      invariant DecodeItems(start, []) == DecodeItems(r.Pending(), list)
      decreases |r.Pending()|
    {
      ghost var s := r.Pending();
      var b, eof := r.ReadByte();
      if eof { return Failed(UnexpectedEof); }
      assert r.Pending() == s[1..] && b == s[0];
      if b == LETTER_E { return Got(ListOf(list)); }
      r.UnreadByte();
      assert r.Pending() == s;
      var v := ReadValue(r);
      if v.Failed? { return v; }
      list := list + [v.value];
    }
  }

  method ReadDict(r: SingleByteReader) returns (got: Outcome<Value>)
    requires r.Valid()
    modifies r, r.buf, r.r`left
    ensures Reads(DecodeEntries(old(r.Pending()), map[]), got, r.Pending()) && (got.Got? ==> !r.hasRev)
    decreases |r.Pending()|, 1
  {
    hide Decode;
    var dict: map<GoString, Value> := map[];
    ghost var start := r.Pending();
    while true
      invariant |r.Pending()| <= |start|
      invariant DecodeEntries(start, map[]) == DecodeEntries(r.Pending(), dict)
      decreases |r.Pending()|
    {
      ghost var s := r.Pending();
      var b, eof := r.ReadByte();
      if eof { return Failed(UnexpectedEof); }
      assert r.Pending() == s[1..] && b == s[0];
      if b == LETTER_E { return Got(Dict(dict)); }
      r.UnreadByte();
      assert r.Pending() == s;
      var key := ReadValue(r);
      if key.Failed? { return key; }
      if !key.value.Str? { return Failed(KeyNotString); }
      var v := ReadValue(r);
      if v.Failed? { return v; }
      dict := dict[key.value.bytes := v.value];
    }
  }

  /** `BencodeDecode`: a reader of its own for each value, and afterwards the connection stands exactly behind it. */
  method DecodeValue(source: Source) returns (got: Outcome<Value>)
    modifies source`left
    ensures Reads(Decode(old(source.left)), got, source.left)
  {
    var r := new SingleByteReader(source);
    got := ReadValue(r);
  }

  method WriteAll(vs: seq<Value>) returns (bytes: Bytes)
    requires forall i :: 0 <= i < |vs| ==> Supported(vs[i])
    ensures bytes == EncodeAll(vs)
  {
    hide Encode, EncodeAll, Norm, Norms;
    var buf := new Buffer();
    ListParts();
    var i := 0;
    assert vs[0..] == vs;
    while i < |vs|
      invariant 0 <= i <= |vs| && buf.bytes + EncodeAll(vs[i..]) == EncodeAll(vs)
    {
      ItemsLayout(buf.bytes, vs, i);
      var ok := Write(buf, vs[i]);
      i := i + 1;
    }
    assert vs[i..] == [];
    return buf.bytes;
  }

  /** Messages written one after another and delivered in pieces of any size are read back one by one by one reader. */
  method Exchange(vs: seq<Value>, burst: nat) returns (back: seq<Value>)
    requires forall i :: 0 <= i < |vs| ==> Supported(vs[i])
    ensures back == Norms(vs)
  {
    hide Encode, EncodeAll, Decode, Norm, Norms;
    var bytes := WriteAll(vs);
    var source := new Source(bytes, burst);
    var r := new SingleByteReader(source);
    var i := 0;
    back := [];
    ListParts();
    assert vs[0..] == vs;
    while i < |vs|
      invariant 0 <= i <= |vs| && fresh(r) && fresh(r.buf) && fresh(r.r) && r.Valid()
      invariant r.Pending() == EncodeAll(vs[i..]) && back + Norms(vs[i..]) == Norms(vs)
    {
      NextMessage(back, vs, i);
      var got := ReadValue(r);
      back := back + [got.value];
      i := i + 1;
    }
    assert vs[i..] == [];
  }

  /** And so they are by a new reader for each message. */
  method ExchangeAfresh(vs: seq<Value>, burst: nat) returns (back: seq<Value>)
    requires forall i :: 0 <= i < |vs| ==> Supported(vs[i])
    ensures back == Norms(vs)
  {
    hide Encode, EncodeAll, Decode, Norm, Norms;
    var bytes := WriteAll(vs);
    var source := new Source(bytes, burst);
    var i := 0;
    back := [];
    ListParts();
    assert vs[0..] == vs;
    while i < |vs|
      invariant 0 <= i <= |vs| && fresh(source)
      invariant source.left == EncodeAll(vs[i..]) && back + Norms(vs[i..]) == Norms(vs)
    {
      NextMessage(back, vs, i);
      var got := DecodeValue(source);
      back := back + [got.value];
      i := i + 1;
    }
    assert vs[i..] == [];
  }

  lemma NextMessage(back: seq<Value>, vs: seq<Value>, i: nat)
    requires i < |vs| && Supported(vs[i])
    ensures Decode(EncodeAll(vs[i..])) == Ok(Norm(vs[i]), EncodeAll(vs[i + 1..]))
    ensures back + Norms(vs[i..]) == back + [Norm(vs[i])] + Norms(vs[i + 1..])
  {
    hide Encode, EncodeAll, Decode, Norm, Norms;
    ItemsLayout([], vs, i);
    assert [] + EncodeAll(vs[i..]) == EncodeAll(vs[i..]) && [] + Encode(vs[i]) == Encode(vs[i]);
    NormsLayout(back, vs, i);
    RoundTrip(vs[i], EncodeAll(vs[i + 1..]));
  }

  lemma ListParts()
    ensures EncodeAll([]) == [] && Norms([]) == []
  {}

  lemma NormsLayout(back: seq<Value>, vs: seq<Value>, i: nat)
    requires i < |vs|
    ensures back + Norms(vs[i..]) == back + [Norm(vs[i])] + Norms(vs[i + 1..])
  {
    assert vs[i..][1..] == vs[i + 1..];
  }
}
