/**
 Netlink attributes: marshal, unmarshal, MarshalAttributes and
 UnmarshalAttributes of netlink-client/attribute.go.
 */
module Attributes {
  import opened Bytes
  import opened Nlenc

  datatype Error = InvalidAttribute | WrongSize(typ: int, size: int) | Callback

  datatype Result<+T> = Ok(value: T) | Err(error: Error)

  /** r with something in front of its value. */
  function After<T>(front: seq<T>, r: Result<seq<T>>): Result<seq<T>> {
    if r.Ok? then Ok(front + r.value) else r
  }

  lemma AfterTwice<T>(a: seq<T>, b: seq<T>, r: Result<seq<T>>)
    ensures After(a, After(b, r)) == After(a + b, r) && After([], r) == r
  {
    if r.Ok? {
      assert a + (b + r.value) == (a + b) + r.value;
      assert [] + r.value == r.value;
    }
  }

  datatype Attribute = Attribute(length: uint16, typ: uint16, data: seq<byte>)

  // ------------------------------------------------------------ the format

  /** Header, payload and zero padding to a multiple of 4. */
  function Packed(host: ByteOrder, a: Attribute): (b: seq<byte>)
    ensures |b| == NLA_HEADER_LEN + Align(|a.data|)
  {
    Put(host, a.length, 2) + Put(host, a.typ, 2) + a.data + Repeat(0, Align(|a.data|) - |a.data|)
  }

  function SizeOf(data: seq<byte>): int { NLA_HEADER_LEN + |data| }

  /** The length MarshalAttributes infers, truncated to 16 bits. */
  function Filled(a: Attribute): Attribute {
    if a.length == 0 then a.(length := SizeOf(a.data) % 0x1_0000) else a
  }

  function Encode(host: ByteOrder, attrs: seq<Attribute>): Result<seq<byte>> {
    if attrs == [] then Ok([])
    else
      var a := Filled(attrs[0]);
      if a.length < NLA_HEADER_LEN then Err(InvalidAttribute)
      else After(Packed(host, a), Encode(host, attrs[1..]))
  }

  /** unmarshal at the start of b; a zero length stands for four bytes to skip. */
  function Unpack(host: ByteOrder, b: seq<byte>): (r: Result<Attribute>)
    ensures r.Ok? ==> |b| >= NLA_HEADER_LEN && r.value.length <= |b|
    ensures r.Ok? && r.value.length != 0 ==> r.value.length == SizeOf(r.value.data)
    ensures r.Ok? && r.value.length == 0 ==> r.value.data == []
  {
    if |b| < NLA_HEADER_LEN then Err(InvalidAttribute)
    else
      PutOfGet(host, b[0..2]);
      PutOfGet(host, b[2..4]);
      Pow256Values();
      var length, typ := Get(host, b[0..2]), Get(host, b[2..4]);
      if length > |b| then Err(InvalidAttribute)
      else if length == 0 then Ok(Attribute(length, typ, []))
      else if length < NLA_HEADER_LEN then Err(InvalidAttribute)
      else Ok(Attribute(length, typ, b[NLA_HEADER_LEN..length]))
  }

  /** How far UnmarshalAttributes advances over an attribute. */
  function Advance(a: Attribute): (n: int)
    ensures n >= NLA_HEADER_LEN || a.length < NLA_HEADER_LEN
    ensures n > 0
  {
    if a.length == 0 then NLA_HEADER_LEN else Align(a.length)
  }

  function Drop(b: seq<byte>, n: nat): (r: seq<byte>)
    ensures b != [] && n > 0 ==> |r| < |b|
  {
    if n < |b| then b[n..] else []
  }

  function Decode(host: ByteOrder, b: seq<byte>): Result<seq<Attribute>>
    decreases |b|
  {
    if b == [] then Ok([])
    else
      var a := Unpack(host, b);
      if a.Err? then Err(a.error)
      else
        var rest := Decode(host, Drop(b, Advance(a.value)));
        if a.value.length == 0 then rest else After([a.value], rest)
  }

  // ------------------------------------------------------------ round trips

  /** The length field says what the payload is. */
  ghost predicate Exact(attrs: seq<Attribute>) {
    forall i | 0 <= i < |attrs| :: attrs[i].length == SizeOf(attrs[i].data)
  }

  lemma AlignShift(n: int)
    ensures Align(n + NLA_HEADER_LEN) == Align(n) + NLA_HEADER_LEN
  {
    hide Align;
  }

  lemma PackedParts(host: ByteOrder, a: Attribute, rest: seq<byte>)
    ensures var b := Packed(host, a) + rest;
            && b[0..2] == Put(host, a.length, 2) && b[2..4] == Put(host, a.typ, 2)
            && b[NLA_HEADER_LEN..SizeOf(a.data)] == a.data && b[|Packed(host, a)|..] == rest
  {
    hide Align, Put, Repeat;
  }

  lemma UnpackPacked(host: ByteOrder, a: Attribute, rest: seq<byte>)
    requires a.length == SizeOf(a.data)
    ensures Unpack(host, Packed(host, a) + rest) == Ok(a)
    ensures Drop(Packed(host, a) + rest, Advance(a)) == rest
  {
    PackedParts(host, a, rest);
    AlignShift(|a.data|);
    Pow256Values();
    GetOfPut(host, a.length, 2);
    GetOfPut(host, a.typ, 2);
    hide Align, Put, Get, Pow256, Packed;
  }

  lemma {:induction false} ExactRoundTrip(host: ByteOrder, attrs: seq<Attribute>)
    requires Exact(attrs)
    ensures Encode(host, attrs).Ok? && Decode(host, Encode(host, attrs).value) == Ok(attrs)
  {
    hide Packed, Advance, Drop, Unpack;
    if attrs != [] {
      ExactRoundTrip(host, attrs[1..]);
      UnpackPacked(host, attrs[0], Encode(host, attrs[1..]).value);
      assert attrs == [attrs[0]] + attrs[1..];
    }
  }

  /** Every attribute that is decoded has the length of its payload. */
  lemma {:induction false} DecodedIsExact(host: ByteOrder, b: seq<byte>)
    ensures Decode(host, b).Ok? ==> Exact(Decode(host, b).value)
    decreases |b|
  {
    hide Advance, Drop, Unpack;
    if b != [] && Unpack(host, b).Ok? {
      DecodedIsExact(host, Drop(b, Advance(Unpack(host, b).value)));
    }
  }

  /**
   Whatever UnmarshalAttributes accepts, MarshalAttributes accepts its result,
   and decoding that gives the same list again: re-encoding is a canonical form.
   */
  lemma ReencodingIsCanonical(host: ByteOrder, b: seq<byte>)
    requires Decode(host, b).Ok?
    ensures var attrs := Decode(host, b).value;
            Encode(host, attrs).Ok? && Decode(host, Encode(host, attrs).value) == Ok(attrs)
  {
    DecodedIsExact(host, b);
    ExactRoundTrip(host, Decode(host, b).value);
  }

  ghost function FilledAll(attrs: seq<Attribute>): (r: seq<Attribute>)
    ensures |r| == |attrs| && forall i | 0 <= i < |attrs| :: r[i] == Filled(attrs[i])
  {
    seq(|attrs|, i requires 0 <= i < |attrs| => Filled(attrs[i]))
  }

  lemma {:induction false} EncodeFilled(host: ByteOrder, attrs: seq<Attribute>)
    ensures (forall i | 0 <= i < |attrs| :: attrs[i].length != 0 || SizeOf(attrs[i].data) < 0x1_0000) ==>
              Encode(host, FilledAll(attrs)) == Encode(host, attrs)
  {
    hide Packed;
    if attrs != [] {
      EncodeFilled(host, attrs[1..]);
      assert FilledAll(attrs)[1..] == FilledAll(attrs[1..]);
    }
  }

  /** The bytes decode to attributes with the same types and payloads. */
  ghost predicate Survives(host: ByteOrder, attrs: seq<Attribute>) {
    && Encode(host, attrs).Ok?
    && var d := Decode(host, Encode(host, attrs).value);
       && d.Ok? && |d.value| == |attrs|
       && forall i | 0 <= i < |attrs| :: d.value[i].typ == attrs[i].typ && d.value[i].data == attrs[i].data
  }

  /** A list with lengths left to be inferred round-trips if and only if every length fits in 16 bits. */
  lemma FlatRoundTripIff(host: ByteOrder, attrs: seq<Attribute>)
    requires forall i | 0 <= i < |attrs| :: attrs[i].length == 0
    ensures Survives(host, attrs) <==> forall i | 0 <= i < |attrs| :: SizeOf(attrs[i].data) < 0x1_0000
    ensures Survives(host, attrs) ==> Decode(host, Encode(host, attrs).value) == Ok(FilledAll(attrs))
  {
    hide Encode, Decode;
    if forall i | 0 <= i < |attrs| :: SizeOf(attrs[i].data) < 0x1_0000 {
      EncodeFilled(host, attrs);
      ExactRoundTrip(host, FilledAll(attrs));
    } else if Survives(host, attrs) {
      DecodedIsExact(host, Encode(host, attrs).value);
    }
  }

  /** Marshalling distributes over concatenation of lists. */
  lemma {:induction false} EncodeConcat(host: ByteOrder, xs: seq<Attribute>, ys: seq<Attribute>)
    ensures Encode(host, xs + ys) ==
            if Encode(host, xs).Err? then Encode(host, xs) else After(Encode(host, xs).value, Encode(host, ys))
  {
    hide Packed, After;
    if xs == [] {
      assert xs + ys == ys;
      AfterTwice([], [], Encode(host, ys));
    } else {
      assert (xs + ys)[1..] == xs[1..] + ys;
      EncodeConcat(host, xs[1..], ys);
      AfterFacts(Packed(host, Filled(xs[0])), Encode(host, xs[1..]), Encode(host, ys));
    }
  }

  lemma AfterFacts<T>(p: seq<T>, r: Result<seq<T>>, s: Result<seq<T>>)
    ensures After(p, r).Err? <==> r.Err?
    ensures r.Err? ==> After(p, r) == r
    ensures r.Ok? ==> After(p, After(r.value, s)) == After(After(p, r).value, s)
  {
    if r.Ok? {
      AfterTwice(p, r.value, s);
    }
  }

  // ------------------------------------------------------ what is accepted

  /** MarshalAttributes has no length of at least 4 to write for a. */
  predicate Unwritable(a: Attribute) {
    if a.length == 0 then (4 + |a.data|) % 0x1_0000 < 4 else a.length < 4
  }

  /** A length of the caller's own is written as it is; only a zero length is inferred. */
  lemma EncodeOne(host: ByteOrder, a: Attribute)
    ensures var length := if a.length == 0 then (4 + |a.data|) % 0x1_0000 else a.length;
            Encode(host, [a]) ==
              if Unwritable(a) then Err(InvalidAttribute)
              else Ok(Put(host, length, 2) + Put(host, a.typ, 2) + a.data + Repeat(0, (4 - |a.data| % 4) % 4))
  {
    hide Put, Repeat, Align;
    assert Align(|a.data|) - |a.data| == (4 - |a.data| % 4) % 4;
    assert [a][1..] == [];
    AfterNothing(Packed(host, Filled(a)));
  }

  /** MarshalAttributes fails if and only if some attribute of the list cannot be written. */
  lemma {:induction false} EncodeFailsIff(host: ByteOrder, attrs: seq<Attribute>)
    ensures Encode(host, attrs).Err? <==> exists i | 0 <= i < |attrs| :: Unwritable(attrs[i])
    ensures Encode(host, attrs).Err? ==> Encode(host, attrs).error == InvalidAttribute
  {
    hide Packed;
    if attrs != [] {
      EncodeFailsIff(host, attrs[1..]);
      assert forall i | 0 < i < |attrs| :: attrs[i] == attrs[1..][i - 1];
    }
  }

  /** The length field at offset i. */
  function LengthAt(host: ByteOrder, b: seq<byte>, i: nat): (n: int)
    requires i + 4 <= |b|
  {
    Get(host, b[i..i + 2])
  }

  /** From the attribute header at i the next is at j: four bytes on over a zero length, else behind the padding. */
  predicate Hop(host: ByteOrder, b: seq<byte>, i: nat, j: nat) {
    && i + 4 <= |b|
    && var n := LengthAt(host, b, i);
       if n == 0 then j == i + 4 else 4 <= n <= |b| - i && j == i + n + (4 - n % 4) % 4
  }

  /** Offsets of headers from i on, hop by hop until past the end. */
  ghost predicate Walk(host: ByteOrder, b: seq<byte>, i: nat, at: seq<nat>) {
    && |at| > 0 && at[0] == i && at[|at| - 1] >= |b|
    && forall k | 0 <= k < |at| - 1 :: Hop(host, b, at[k], at[k + 1])
  }

  /** The attributes of a walk: those with a length, in order. */
  function Found(host: ByteOrder, b: seq<byte>, at: seq<nat>): (r: seq<Attribute>)
    requires forall k | 0 <= k < |at| - 1 :: Hop(host, b, at[k], at[k + 1])
    decreases |at|
  {
    if |at| <= 1 then []
    else
      assert Hop(host, b, at[0], at[1]);
      var i, n := at[0], LengthAt(host, b, at[0]);
      var rest := Found(host, b, at[1..]);
      HeaderFits(host, b, i);
      if n == 0 then rest else [Attribute(n, Get(host, b[i + 2..i + 4]), b[i + 4..i + n])] + rest
  }

  lemma HeaderFits(host: ByteOrder, b: seq<byte>, i: nat)
    requires i + 4 <= |b|
    ensures 0 <= LengthAt(host, b, i) < 0x1_0000 && 0 <= Get(host, b[i + 2..i + 4]) < 0x1_0000
  {
    hide Get, Put, Pow256;
    Pow256Values();
    PutOfGet(host, b[i..i + 2]);
    PutOfGet(host, b[i + 2..i + 4]);
  }

  /** unmarshal in the middle of b. */
  lemma UnpackAt(host: ByteOrder, b: seq<byte>, i: nat)
    requires i < |b|
    ensures var r := Unpack(host, b[i..]);
            if i + 4 <= |b| && (LengthAt(host, b, i) == 0 || 4 <= LengthAt(host, b, i) <= |b| - i) then
              && r.Ok? && r.value.length == LengthAt(host, b, i) && r.value.typ == Get(host, b[i + 2..i + 4])
              && (r.value.length != 0 ==> r.value.data == b[i + 4..i + r.value.length])
            else r == Err(InvalidAttribute)
  {
    hide Get;
    if i + 4 <= |b| {
      assert b[i..][0..2] == b[i..i + 2] && b[i..][2..4] == b[i + 2..i + 4];
    }
  }

  lemma Padding(n: int)
    ensures Align(n) == n + (4 - n % 4) % 4
  {
    hide Align;
  }

  lemma AdvanceHops(host: ByteOrder, b: seq<byte>, i: nat, j: nat)
    requires i < |b|
    ensures Unpack(host, b[i..]).Ok? ==> (Hop(host, b, i, j) <==> j == i + Advance(Unpack(host, b[i..]).value))
    ensures Unpack(host, b[i..]).Err? ==> !Hop(host, b, i, j)
  {
    UnpackAt(host, b, i);
    hide Unpack, Align, Get, LengthAt;
    var r := Unpack(host, b[i..]);
    if r.Ok? {
      Padding(r.value.length);
    }
  }

  /** What a walk finds at its first header. */
  lemma FoundFirst(host: ByteOrder, b: seq<byte>, at: seq<nat>)
    requires |at| > 1 && forall k | 0 <= k < |at| - 1 :: Hop(host, b, at[k], at[k + 1])
    ensures forall k | 0 <= k < |at[1..]| - 1 :: Hop(host, b, at[1..][k], at[1..][k + 1])
    ensures at[0] < |b| && Unpack(host, b[at[0]..]).Ok?
    ensures var a := Unpack(host, b[at[0]..]).value;
            && at[1] == at[0] + Advance(a)
            && Found(host, b, at) == if a.length == 0 then Found(host, b, at[1..]) else [a] + Found(host, b, at[1..])
  {
    hide Unpack, Advance, Get;
    assert Hop(host, b, at[0], at[1]);
    UnpackAt(host, b, at[0]);
    AdvanceHops(host, b, at[0], at[1]);
    hide Hop, LengthAt;
    forall k | 0 <= k < |at[1..]| - 1 ensures Hop(host, b, at[1..][k], at[1..][k + 1]) {
      assert Hop(host, b, at[k + 1], at[k + 2]);
    }
  }

  lemma {:induction false} WalkDecodes(host: ByteOrder, b: seq<byte>, i: nat, at: seq<nat>)
    requires Walk(host, b, i, at)
    ensures Decode(host, Drop(b, i)) == Ok(Found(host, b, at))
    decreases |at|
  {
    hide Unpack, Hop, Advance, Decode, Drop;
    if |at| == 1 {
      DecodeEnds(host, b, i);
    } else {
      hide Found;
      FoundFirst(host, b, at);
      DecodeStep(host, b, i);
      WalkDecodes(host, b, at[1], at[1..]);
    }
  }

  lemma {:induction false} DecodedWalks(host: ByteOrder, b: seq<byte>, i: nat) returns (at: seq<nat>)
    requires Decode(host, Drop(b, i)).Ok?
    ensures Walk(host, b, i, at)
    decreases |b| - i
  {
    hide Unpack, Hop, Advance, Decode, Drop;
    at := [i];
    if i < |b| {
      DecodeStep(host, b, i);
      var j := i + Advance(Unpack(host, b[i..]).value);
      AdvanceHops(host, b, i, j);
      var rest := DecodedWalks(host, b, j);
      at := [i] + rest;
      assert forall k | 1 <= k < |at| :: at[k] == rest[k - 1];
    }
  }

  /**
   UnmarshalAttributes accepts exactly the bytes that can be walked from header
   to header past the end, and returns the attributes found on the way; a zero
   length takes four bytes and gives none.
   */
  lemma DecodeIff(host: ByteOrder, b: seq<byte>)
    ensures Decode(host, b).Ok? <==> exists at :: Walk(host, b, 0, at)
    ensures forall at | Walk(host, b, 0, at) :: Decode(host, b) == Ok(Found(host, b, at))
    ensures Decode(host, b).Err? ==> Decode(host, b).error == InvalidAttribute
  {
    hide Decode, Hop;
    DecodeEnds(host, b, 0);
    if Decode(host, b).Ok? {
      var at := DecodedWalks(host, b, 0);
    }
    forall at | Walk(host, b, 0, at) ensures Decode(host, b) == Ok(Found(host, b, at)) {
      WalkDecodes(host, b, 0, at);
    }
    DecodeError(host, b);
  }

  lemma {:induction false} DecodeError(host: ByteOrder, b: seq<byte>)
    ensures Decode(host, b).Err? ==> Decode(host, b).error == InvalidAttribute
    decreases |b|
  {
    if b != [] && Unpack(host, b).Ok? {
      DecodeError(host, Drop(b, Advance(Unpack(host, b).value)));
    }
  }

  // ------------------------------------------------------- the Go functions

  /** marshal into b from idx on; b is still zero there, so the padding is. */
  method Marshal(a: Attribute, host: ByteOrder, b: array<byte>, idx: nat) returns (n: int, ok: bool)
    requires idx + NLA_HEADER_LEN + Align(|a.data|) <= b.Length
    requires b[idx..] == Repeat(0, b.Length - idx)
    modifies b
    ensures ok == (a.length >= NLA_HEADER_LEN)
    ensures ok ==> n == |Packed(host, a)|
                   && b[..] == old(b[..idx]) + Packed(host, a) + Repeat(0, b.Length - idx - n)
  {
    if a.length < NLA_HEADER_LEN {
      return 0, false;
    }
    PackedIs(host, a);
    hide Put, Repeat, Align, Splice, Packed;
    ghost var s, h1, h2 := b[..], Put(host, a.length, 2), Put(host, a.typ, 2);
    assert s[idx..] == b[idx..] && s[..idx] == b[..idx];
    CopyAt(b, idx, Put(host, a.length, 2));
    CopyAt(b, idx + 2, Put(host, a.typ, 2));
    CopyAt(b, idx + NLA_HEADER_LEN, a.data);
    SpliceTwice(s, idx, h1, h2);
    SpliceTwice(s, idx, h1 + h2, a.data);
    SpliceIntoZeros(s, idx, h1 + h2 + a.data, Align(|a.data|) - |a.data|);
    n := NLA_HEADER_LEN + Align(|a.data|);
    ok := true;
  }

  lemma PackedIs(host: ByteOrder, a: Attribute)
    ensures Packed(host, a)
         == (Put(host, a.length, 2) + Put(host, a.typ, 2) + a.data) + Repeat(0, Align(|a.data|) - |a.data|)
  {
  }

  lemma AfterNothing<T>(s: seq<T>)
    ensures After(s, Ok([])) == Ok(s)
  {
    assert s + [] == s;
  }

  /** The bytes MarshalAttributes allocates. */
  function Space(attrs: seq<Attribute>): (c: nat)
  {
    if attrs == [] then 0 else NLA_HEADER_LEN + Align(|attrs[0].data|) + Space(attrs[1..])
  }

  method MarshalAttributes(attrs: seq<Attribute>, host: ByteOrder) returns (r: Result<seq<byte>>)
    ensures r == Encode(host, attrs)
    ensures r.Err? <==> exists i | 0 <= i < |attrs| :: Unwritable(attrs[i])
  {
    EncodeFailsIff(host, attrs);
    hide Align, Packed, After;
    var c := 0;
    for i := 0 to |attrs|
      invariant c >= 0 && c + Space(attrs[i..]) == Space(attrs)
    {
      assert attrs[i..][1..] == attrs[i + 1..];
      c := c + NLA_HEADER_LEN + Align(|attrs[i].data|);
    }
    var idx := 0;
    var b := new byte[c](_ => 0);
    assert b[..] == Repeat(0, c);
    AfterTwice([], [], Encode(host, attrs));
    for i := 0 to |attrs|
      invariant 0 <= idx && idx + Space(attrs[i..]) == c == b.Length
      invariant b[idx..] == Repeat(0, c - idx)
      invariant Encode(host, attrs) == After(b[..idx], Encode(host, attrs[i..]))
    {
      assert attrs[i..][1..] == attrs[i + 1..];
      var a := Filled(attrs[i]);
      ghost var before := b[..idx];
      var n, ok := Marshal(a, host, b, idx);
      AfterTwice(before, Packed(host, a), Encode(host, attrs[i + 1..]));
      if !ok {
        AfterFacts(before, Err(InvalidAttribute), Encode(host, attrs));
        return Err(InvalidAttribute);
      }
      idx := idx + n;
      assert b[..idx] == before + Packed(host, a);
    }
    assert attrs[|attrs|..] == [] && b[..idx] == b[..];
    AfterNothing(b[..]);
    return Ok(b[..]);
  }

  lemma DecodeStep(host: ByteOrder, b: seq<byte>, i: nat)
    requires i < |b|
    ensures var a := Unpack(host, b[i..]);
            Decode(host, Drop(b, i)) ==
              if a.Err? then Err(a.error)
              else
                var rest := Decode(host, Drop(b, i + Advance(a.value)));
                if a.value.length == 0 then rest else After([a.value], rest)
  {
    hide Unpack, After, Advance;
    assert Drop(b, i) == b[i..];
    var a := Unpack(host, b[i..]);
    if a.Ok? {
      assert Drop(b[i..], Advance(a.value)) == Drop(b, i + Advance(a.value));
    }
  }

  lemma DecodeEnds(host: ByteOrder, b: seq<byte>, i: nat)
    ensures i >= |b| ==> Decode(host, Drop(b, i)) == Ok([])
    ensures Drop(b, 0) == b
  {
  }

  method UnmarshalAttributes(b: seq<byte>, host: ByteOrder) returns (r: Result<seq<Attribute>>)
    ensures r == Decode(host, b)
  {
    hide Align, Unpack, After, Decode, Drop;
    var attrs := [];
    AfterTwice([], [], Decode(host, b));
    DecodeEnds(host, b, 0);
    var i := 0;
    while i <= |b| && |b[i..]| != 0
      invariant i >= 0
      invariant Decode(host, b) == After(attrs, Decode(host, Drop(b, i)))
      decreases |b| - i
    {
      DecodeStep(host, b, i);
      var a := Unpack(host, b[i..]);
      if a.Err? {
        AfterFacts(attrs, Err(a.error), Decode(host, b));
        return Err(a.error);
      }
      AfterTwice(attrs, [a.value], Decode(host, Drop(b, i + Advance(a.value))));
      if a.value.length == 0 {
        i := i + NLA_HEADER_LEN;
        continue;
      }
      i := i + Align(a.value.length);
      attrs := attrs + [a.value];
    }
    DecodeEnds(host, b, i);
    AfterNothing(attrs);
    return Ok(attrs);
  }
}
