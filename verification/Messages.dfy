/**
 Netlink messages: MarshalBinary, UnmarshalBinary and checkMessage of
 netlink-client/message.go.  The header is the one of section 2.3.2 of RFC 3549.
 int is 64 bits wide, so a 32-bit length converts without loss.
 */
module Messages {
  import opened Bits
  import opened Bytes
  import opened Nlenc
  import opened Wrappers

  datatype Error =
    | IncorrectMessageLength
    | ShortMessage
    | UnalignedMessage
    | ShortErrorMessage
    | Netlink(code: int)
    | TooLarge
    | MismatchedSequence
    | MismatchedPID
    | Socket(id: int)
    | Blocked

  datatype Result<+T> = Ok(value: T) | Err(error: Error)

  datatype Header = Header(length: uint32, typ: uint16, flags: uint16, sequence: uint32, pid: uint32)

  datatype Message = Message(header: Header, data: seq<byte>)

  const MULTI := 2
  const ERROR := 2
  const DONE := 3

  // ------------------------------------------------------------- the format

  function HeaderBytes(host: ByteOrder, h: Header): (b: seq<byte>)
    ensures |b| == NLMSG_HEADER_LEN
  {
    Put(host, h.length, 4) + Put(host, h.typ, 2) + Put(host, h.flags, 2) + Put(host, h.sequence, 4) + Put(host, h.pid, 4)
  }

  /** data cut or zero-padded to n bytes: what copy leaves in a fresh buffer. */
  function Sized(data: seq<byte>, n: nat): (r: seq<byte>)
    ensures |r| == n
  {
    if |data| >= n then data[..n] else data + Repeat(0, n - |data|)
  }

  function Marshalled(host: ByteOrder, m: Message): Result<seq<byte>> {
    var ml := Align(m.header.length);
    if ml < NLMSG_HEADER_LEN || ml != m.header.length then Err(IncorrectMessageLength)
    else Ok(HeaderBytes(host, m.header) + Sized(m.data, ml - NLMSG_HEADER_LEN))
  }

  function ReadHeader(host: ByteOrder, b: seq<byte>): Header
    requires |b| >= NLMSG_HEADER_LEN
  {
    Pow256Values();
    PutOfGet(host, b[0..4]);
    PutOfGet(host, b[4..6]);
    PutOfGet(host, b[6..8]);
    PutOfGet(host, b[8..12]);
    PutOfGet(host, b[12..16]);
    Header(Get(host, b[0..4]), Get(host, b[4..6]), Get(host, b[6..8]), Get(host, b[8..12]), Get(host, b[12..16]))
  }

  function Unmarshalled(host: ByteOrder, b: seq<byte>): Result<Message> {
    if |b| < NLMSG_HEADER_LEN then Err(ShortMessage)
    else if |b| != Align(|b|) then Err(UnalignedMessage)
    else
      var h := ReadHeader(host, b);
      if h.length != |b| then Err(ShortMessage) else Ok(Message(h, b[NLMSG_HEADER_LEN..]))
  }

  // ------------------------------------------------------------ round trips

  lemma HeaderParts(host: ByteOrder, h: Header, rest: seq<byte>)
    ensures var b := HeaderBytes(host, h) + rest;
            && b[0..4] == Put(host, h.length, 4) && b[4..6] == Put(host, h.typ, 2) && b[6..8] == Put(host, h.flags, 2)
            && b[8..12] == Put(host, h.sequence, 4) && b[12..16] == Put(host, h.pid, 4) && b[16..] == rest
  {
    hide Put;
  }

  lemma ReadHeaderBytes(host: ByteOrder, h: Header, rest: seq<byte>)
    ensures ReadHeader(host, HeaderBytes(host, h) + rest) == h
  {
    HeaderParts(host, h, rest);
    Pow256Values();
    GetOfPut(host, h.length, 4);
    GetOfPut(host, h.typ, 2);
    GetOfPut(host, h.flags, 2);
    GetOfPut(host, h.sequence, 4);
    GetOfPut(host, h.pid, 4);
    hide Put, Get, Pow256, HeaderBytes;
  }

  lemma HeaderBytesRead(host: ByteOrder, b: seq<byte>)
    requires |b| >= NLMSG_HEADER_LEN
    ensures HeaderBytes(host, ReadHeader(host, b)) == b[..NLMSG_HEADER_LEN]
  {
    PutOfGet(host, b[0..4]);
    PutOfGet(host, b[4..6]);
    PutOfGet(host, b[6..8]);
    PutOfGet(host, b[8..12]);
    PutOfGet(host, b[12..16]);
    hide Put, Get, Pow256;
    FiveParts(b);
  }

  lemma FiveParts(b: seq<byte>)
    requires |b| >= 16
    ensures b[..16] == b[0..4] + b[4..6] + b[6..8] + b[8..12] + b[12..16]
  {
  }

  /** A marshalled message is read back with its header, and its data cut or padded to its length. */
  lemma MarshalThenUnmarshal(host: ByteOrder, m: Message)
    requires Marshalled(host, m).Ok?
    ensures Unmarshalled(host, Marshalled(host, m).value)
            == Ok(m.(data := Sized(m.data, m.header.length - NLMSG_HEADER_LEN)))
  {
    hide HeaderBytes, ReadHeader, Sized, Align, Put;
    var d := Sized(m.data, m.header.length - NLMSG_HEADER_LEN);
    ReadHeaderBytes(host, m.header, d);
    HeaderParts(host, m.header, d);
  }

  /** A message survives if and only if its length is a multiple of 4 and is that of header and data. */
  lemma MessageRoundTripIff(host: ByteOrder, m: Message)
    ensures (Marshalled(host, m).Ok? && Unmarshalled(host, Marshalled(host, m).value) == Ok(m))
            <==> m.header.length % 4 == 0 && m.header.length == NLMSG_HEADER_LEN + |m.data|
  {
    hide HeaderBytes, Unmarshalled, Align;
    if Marshalled(host, m).Ok? {
      MarshalThenUnmarshal(host, m);
      if m.header.length == NLMSG_HEADER_LEN + |m.data| {
        SizedIs(m.data, |m.data|, |m.data|);
      }
    }
  }

  /** Any bytes that are accepted are reproduced exactly. */
  lemma UnmarshalThenMarshal(host: ByteOrder, b: seq<byte>)
    requires Unmarshalled(host, b).Ok?
    ensures Marshalled(host, Unmarshalled(host, b).value) == Ok(b)
  {
    hide HeaderBytes, ReadHeader, Sized, Align, Repeat;
    HeaderBytesRead(host, b);
    SizedIs(b[NLMSG_HEADER_LEN..], |b| - NLMSG_HEADER_LEN, |b| - NLMSG_HEADER_LEN);
    assert b == b[..NLMSG_HEADER_LEN] + b[NLMSG_HEADER_LEN..];
  }

  // ----------------------------------------------------------- on the wire

  /** Which messages can be marshalled, and at which offset each field is. */
  lemma WireLayout(host: ByteOrder, m: Message)
    ensures Marshalled(host, m).Ok? <==> m.header.length % 4 == 0 && m.header.length >= 16
    ensures Marshalled(host, m).Ok? ==>
              var b := Marshalled(host, m).value;
              && |b| == m.header.length
              && b[0..4] == Put(host, m.header.length, 4)
              && b[4..6] == Put(host, m.header.typ, 2)
              && b[6..8] == Put(host, m.header.flags, 2)
              && b[8..12] == Put(host, m.header.sequence, 4)
              && b[12..16] == Put(host, m.header.pid, 4)
              && forall i | 16 <= i < |b| :: b[i] == if i - 16 < |m.data| then m.data[i - 16] else 0
  {
    hide HeaderBytes, Align, Put, Sized;
    if Marshalled(host, m).Ok? {
      var n := m.header.length - 16;
      HeaderParts(host, m.header, Sized(m.data, n));
      SizedIs(m.data, n, if |m.data| < n then |m.data| else n);
      hide Repeat;
      var b := Marshalled(host, m).value;
      forall i | 16 <= i < |b| ensures b[i] == if i - 16 < |m.data| then m.data[i - 16] else 0 {
        assert b[i] == b[16..][i - 16];
      }
    }
  }

  /** Which bytes UnmarshalBinary accepts, and the error for the others. */
  lemma AcceptedIff(host: ByteOrder, b: seq<byte>)
    ensures Unmarshalled(host, b).Ok? <==> |b| >= 16 && |b| % 4 == 0 && Get(host, b[0..4]) == |b|
    ensures Unmarshalled(host, b).Err? ==>
              Unmarshalled(host, b).error == if |b| >= 16 && |b| % 4 != 0 then UnalignedMessage else ShortMessage
  {
    hide Align, Get;
  }

  // ------------------------------------------------------- the Go functions

  /** The five puts at the head of MarshalBinary's buffer. */
  method PutHeader(b: array<byte>, host: ByteOrder, h: Header)
    requires b.Length >= NLMSG_HEADER_LEN
    modifies b
    ensures b[..] == Splice(old(b[..]), 0, HeaderBytes(host, h))
  {
    HeaderSplices(b[..], host, h);
    hide Put, Splice, HeaderBytes;
    CopyAt(b, 0, Put(host, h.length, 4));
    CopyAt(b, 4, Put(host, h.typ, 2));
    CopyAt(b, 6, Put(host, h.flags, 2));
    CopyAt(b, 8, Put(host, h.sequence, 4));
    CopyAt(b, 12, Put(host, h.pid, 4));
  }

  method MarshalBinary(m: Message, host: ByteOrder) returns (r: Result<seq<byte>>)
    ensures r == Marshalled(host, m)
  {
    var ml := Align(m.header.length);
    if ml < NLMSG_HEADER_LEN || ml != m.header.length {
      return Err(IncorrectMessageLength);
    }
    hide Align, Splice, HeaderBytes, Sized;
    var b := new byte[ml](_ => 0);
    ghost var zeros := b[..];
    assert zeros == Repeat(0, ml);
    PutHeader(b, host, m.header);
    var n := if |m.data| < ml - 16 then |m.data| else ml - 16;
    CopyAt(b, 16, m.data[..n]);
    SplicedIsMarshalled(zeros, ml, HeaderBytes(host, m.header), m.data, n);
    r := Ok(b[..]);
  }

  lemma SplicedIsMarshalled(zeros: seq<byte>, size: nat, h: seq<byte>, data: seq<byte>, n: nat)
    requires |h| == 16 <= size && zeros == Repeat(0, size)
    requires n == if |data| < size - 16 then |data| else size - 16
    ensures Splice(Splice(zeros, 0, h), 16, data[..n]) == h + Sized(data, size - 16)
  {
    hide Sized, Splice, Repeat;
    var d := data[..n];
    SizedIs(data, size - 16, n);
    SpliceTwice(zeros, 0, h, d);
    assert zeros[0..] == zeros && zeros[..0] == [];
    SpliceIntoZeros(zeros, 0, h + d, 0);
    Regroup(zeros[..0], h, d, Repeat(0, 0), Repeat(0, size - 16 - n));
  }

  lemma Regroup(a: seq<byte>, h: seq<byte>, d: seq<byte>, e: seq<byte>, pad: seq<byte>)
    requires a == [] && e == []
    ensures a + ((h + d) + e) + pad == h + (d + pad)
  {
  }

  lemma HeaderSplices(s: seq<byte>, host: ByteOrder, h: Header)
    requires |s| >= 16
    ensures Splice(Splice(Splice(Splice(Splice(s, 0, Put(host, h.length, 4)), 4, Put(host, h.typ, 2)),
                                 6, Put(host, h.flags, 2)), 8, Put(host, h.sequence, 4)), 12, Put(host, h.pid, 4))
            == Splice(s, 0, HeaderBytes(host, h))
  {
    hide Put, Splice;
    var a, b, c, d, e := Put(host, h.length, 4), Put(host, h.typ, 2), Put(host, h.flags, 2), Put(host, h.sequence, 4), Put(host, h.pid, 4);
    SpliceTwice(s, 0, a, b);
    SpliceTwice(s, 0, a + b, c);
    SpliceTwice(s, 0, a + b + c, d);
    SpliceTwice(s, 0, a + b + c + d, e);
  }

  lemma SizedIs(data: seq<byte>, size: nat, n: nat)
    requires n == if |data| < size then |data| else size
    ensures Sized(data, size) == data[..n] + Repeat(0, size - n)
    ensures |data| == size ==> Sized(data, size) == data
  {
  }

  method UnmarshalBinary(b: seq<byte>, host: ByteOrder) returns (r: Result<Message>)
    ensures r == Unmarshalled(host, b)
  {
    if |b| < NLMSG_HEADER_LEN {
      return Err(ShortMessage);
    }
    if |b| != Align(|b|) {
      return Err(UnalignedMessage);
    }
    var h := ReadHeader(host, b);
    if h.length != |b| {
      return Err(ShortMessage);
    }
    return Ok(Message(h, b[16..]));
  }

  // ----------------------------------------------------------- checkMessage

  /** The int32 in four bytes. */
  function Int32(host: ByteOrder, b: seq<byte>): int
    requires |b| == 4
  {
    var v := Get(host, b);
    if v >= 0x8000_0000 then v - 0x1_0000_0000 else v
  }

  /** checkMessage: only a message of type Error can carry a code, and code 0 is success. */
  function CheckMessage(host: ByteOrder, m: Message): Option<Error> {
    if m.header.typ != ERROR then None
    else if |m.data| < 4 then Some(ShortErrorMessage)
    else
      var c := Int32(host, m.data[0..4]);
      if c != 0 then Some(Netlink(-c)) else None
  }

  predicate IsMulti(m: Message) { And(m.header.flags, MULTI) != 0 }

  /** The Multi flag is bit 1. */
  lemma MultiIsBitOne(m: Message)
    ensures IsMulti(m) <==> m.header.flags / 2 % 2 == 1
  {
    var f := m.header.flags;
    if f != 0 {
      assert And(f, 2) == 2 * And(f / 2, 1);
    }
  }

  /** The int32 that four bytes spell, in two's complement. */
  lemma Int32Of(host: ByteOrder, c: int)
    requires -0x8000_0000 <= c < 0x8000_0000
    ensures Int32(host, Put(host, c % 0x1_0000_0000, 4)) == c
  {
    Pow256Values();
    GetOfPut(host, c % 0x1_0000_0000, 4);
  }

  /** A message is no error exactly if its type is not Error or its code is four zero bytes. */
  lemma NoErrorIff(host: ByteOrder, m: Message)
    ensures CheckMessage(host, m).None? <==> m.header.typ != 2 || (|m.data| >= 4 && m.data[..4] == [0, 0, 0, 0])
    ensures m.header.typ == 2 && |m.data| < 4 ==> CheckMessage(host, m) == Some(ShortErrorMessage)
  {
    if |m.data| >= 4 {
      ZeroIff(host, m.data[0..4]);
      hide Get;
    }
  }

  lemma ZeroIff(host: ByteOrder, b: seq<byte>)
    requires |b| == 4
    ensures Int32(host, b) == 0 <==> b == [0, 0, 0, 0]
  {
    var zeros := [0, 0, 0, 0];
    PutOfGet(host, b);
    assert Put(host, 0, 4) == zeros by {
      assert forall i: nat | i < 4 :: Put(host, 0, 4)[i] == 0 by {
        ZeroBytes(host);
      }
    }
    Pow256Values();
    GetOfPut(host, 0, 4);
    hide Get, Put;
  }

  lemma ZeroBytes(host: ByteOrder)
    ensures forall i: nat | i < 4 :: Put(host, 0, 4)[i] == 0
  {
    forall i: nat | i < 4 ensures Put(host, 0, 4)[i] == 0 {
      PutAt(0, 4, i);
      PutAt(0, 4, 3 - i);
      DivModUnique(0, Pow256(i), 0, 0);
      DivModUnique(0, Pow256(3 - i), 0, 0);
      hide Put, Pow256;
    }
  }

  /** The code n of the kernel travels as -n and is reported as n. */
  lemma CodeIsNegated(host: ByteOrder, m: Message, n: int)
    requires m.header.typ == 2 && |m.data| >= 4
    requires n != 0 && -0x8000_0000 < n <= 0x8000_0000 && m.data[..4] == Put(host, -n % 0x1_0000_0000, 4)
    ensures CheckMessage(host, m) == Some(Netlink(n))
  {
    Int32Of(host, -n);
    hide Int32, Put;
    assert m.data[0..4] == m.data[..4];
  }
}
