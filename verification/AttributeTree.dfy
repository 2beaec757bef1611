/**
 AttributeEncoder and AttributeDecoder of netlink-client/attribute.go, and trees
 of typed and nested attributes built and read with them.
 */
module AttributeTree {
  import opened Bytes
  import opened Nlenc
  import opened Attributes
  import opened Wrappers

  // ---------------------------------------------------------------- encoder

  class AttributeEncoder {
    const host: ByteOrder
    const order: ByteOrder
    var attrs: seq<Attribute>
    var err: Option<Error>

    constructor (host: ByteOrder, order: ByteOrder)
      ensures this.host == host && this.order == order && attrs == [] && err == None
    {
      this.host, this.order, attrs, err := host, order, [], None;
    }

    /** Attributes are added until the first error. */
    method Bytes(typ: uint16, b: seq<byte>)
      modifies this`attrs
      ensures attrs == if err.None? then old(attrs) + [Attribute(0, typ, b)] else old(attrs)
    {
      if err.Some? {
        return;
      }
      attrs := attrs + [Attribute(0, typ, b)];
    }

    method Uint8(typ: uint16, v: uint8)
      modifies this`attrs
      ensures attrs == if err.None? then old(attrs) + [Attribute(0, typ, [v])] else old(attrs)
    {
      Bytes(typ, [v]);
    }

    method Uint16(typ: uint16, v: uint16)
      modifies this`attrs
      ensures attrs == if err.None? then old(attrs) + [Attribute(0, typ, Put(order, v, 2))] else old(attrs)
    {
      Bytes(typ, Put(order, v, 2));
    }

    method Uint32(typ: uint16, v: uint32)
      modifies this`attrs
      ensures attrs == if err.None? then old(attrs) + [Attribute(0, typ, Put(order, v, 4))] else old(attrs)
    {
      Bytes(typ, Put(order, v, 4));
    }

    method Uint64(typ: uint16, v: uint64)
      modifies this`attrs
      ensures attrs == if err.None? then old(attrs) + [Attribute(0, typ, Put(order, v, 8))] else old(attrs)
    {
      Bytes(typ, Put(order, v, 8));
    }

    method String(typ: uint16, s: seq<byte>)
      modifies this`attrs
      ensures attrs == if err.None? then old(attrs) + [Attribute(0, typ, s + [0])] else old(attrs)
    {
      Bytes(typ, StringBytes(s));
    }

    /** Do, given what its callback returned. */
    method Do(typ: uint16, r: Result<seq<byte>>)
      modifies this
      ensures attrs == if old(err).None? && r.Ok? then old(attrs) + [Attribute(0, typ, r.value)] else old(attrs)
      ensures err == if old(err).None? && r.Err? then Some(r.error) else old(err)
    {
      if err.Some? {
        return;
      }
      if r.Err? {
        err := Some(r.error);
        return;
      }
      attrs := attrs + [Attribute(0, typ, r.value)];
    }

    method Encode() returns (r: Result<seq<byte>>)
      ensures r == if err.Some? then Err(err.value) else Attributes.Encode(host, attrs)
    {
      if err.Some? {
        return Err(err.value);
      }
      r := MarshalAttributes(attrs, host);
    }
  }

  // ---------------------------------------------------------------- decoder

  class AttributeDecoder {
    const order: ByteOrder
    const attrs: seq<Attribute>
    var i: nat
    var err: Option<Error>

    constructor (order: ByteOrder, attrs: seq<Attribute>)
      ensures this.order == order && this.attrs == attrs && i == 0 && err == None
    {
      this.order, this.attrs, i, err := order, attrs, 0, None;
    }

    /** There is a current attribute; without one the accessors index out of range. */
    ghost predicate AtAttribute()
      reads this
    {
      1 <= i <= |attrs|
    }

    method Next() returns (more: bool)
      modifies this`i
      ensures if err.Some? then !more && i == old(i) else i == old(i) + 1 && more == (i <= |attrs|)
    {
      if err.Some? {
        return false;
      }
      i := i + 1;
      return |attrs| >= i;
    }

    method Type() returns (t: uint16)
      requires AtAttribute()
      ensures t == attrs[i - 1].typ
    {
      t := attrs[i - 1].typ;
    }

    method Bytes() returns (b: seq<byte>)
      requires AtAttribute()
      ensures b == attrs[i - 1].data
    {
      b := attrs[i - 1].data;
    }

    method String() returns (s: seq<byte>)
      requires AtAttribute()
      ensures s == if err.Some? then [] else TrimNul(attrs[i - 1].data)
    {
      if err.Some? {
        return [];
      }
      s := TrimNul(attrs[i - 1].data);
    }

    /** Uint8, Uint16, Uint32 and Uint64 for size 1, 2, 4 and 8: a payload of another size is an error. */
    method Uint(size: nat) returns (v: int)
      requires AtAttribute()
      modifies this`err
      ensures var data := attrs[i - 1].data;
              if old(err).None? && |data| == size then v == Get(order, data) && err == None
              else v == 0 && err == if old(err).Some? then old(err) else Some(WrongSize(attrs[i - 1].typ, |data|))
    {
      if err.Some? {
        return 0;
      }
      var b := attrs[i - 1].data;
      if |b| != size {
        err := Some(WrongSize(attrs[i - 1].typ, |b|));
        return 0;
      }
      v := Get(order, b);
    }

    /** Do, given the error its callback returned, if any. */
    method Do(e: Option<Error>)
      modifies this`err
      ensures err == if old(err).None? then e else old(err)
    {
      if err.Some? {
        return;
      }
      err := e;
    }
  }

  // ------------------------------------------------------------------ trees

  datatype Node =
    | U8(typ: uint16, v8: uint8)
    | U16(typ: uint16, v16: uint16)
    | U32(typ: uint16, v32: uint32)
    | U64(typ: uint16, v64: uint64)
    | Str(typ: uint16, s: seq<byte>)
    | Raw(typ: uint16, b: seq<byte>)
    | Nest(typ: uint16, kids: seq<Node>)

  /** The bytes of a node's attribute. */
  function Payload(host: ByteOrder, order: ByteOrder, n: Node): Result<seq<byte>>
    decreases n, 0
  {
    match n
    case U8(_, v) => Ok([v])
    case U16(_, v) => Ok(Put(order, v, 2))
    case U32(_, v) => Ok(Put(order, v, 4))
    case U64(_, v) => Ok(Put(order, v, 8))
    case Str(_, s) => Ok(StringBytes(s))
    case Raw(_, b) => Ok(b)
    case Nest(_, kids) => EncodeNodes(host, order, kids)
  }

  /** The attributes an encoder collects for the nodes, up to the first error. */
  function Collect(host: ByteOrder, order: ByteOrder, nodes: seq<Node>): (r: Result<seq<Attribute>>)
    ensures r.Ok? ==> |r.value| == |nodes|
    decreases nodes, 0
  {
    if nodes == [] then Ok([])
    else
      var p := Payload(host, order, nodes[0]);
      if p.Err? then Err(p.error)
      else Attributes.After([Attribute(0, nodes[0].typ, p.value)], Collect(host, order, nodes[1..]))
  }

  function EncodeNodes(host: ByteOrder, order: ByteOrder, nodes: seq<Node>): Result<seq<byte>>
    decreases nodes, 1
  {
    var attrs := Collect(host, order, nodes);
    if attrs.Err? then Err(attrs.error) else Attributes.Encode(host, attrs.value)
  }

  /** What a reader of a tree knows beforehand. */
  datatype Schema = SU8 | SU16 | SU32 | SU64 | SStr | SRaw | SNest(kids: seq<Schema>)

  function SchemaOf(n: Node): Schema {
    match n
    case U8(_, _) => SU8
    case U16(_, _) => SU16
    case U32(_, _) => SU32
    case U64(_, _) => SU64
    case Str(_, _) => SStr
    case Raw(_, _) => SRaw
    case Nest(_, kids) => SNest(SchemasOf(kids))
  }

  function SchemasOf(nodes: seq<Node>): (r: seq<Schema>)
    ensures |r| == |nodes|
  {
    if nodes == [] then [] else [SchemaOf(nodes[0])] + SchemasOf(nodes[1..])
  }

  function DecodeNode(host: ByteOrder, order: ByteOrder, sc: Schema, a: Attribute): (r: Result<Node>)
    decreases sc, 0
  {
    PutOfGet(order, a.data);
    Pow256Values();
    match sc
    case SU8 => if |a.data| != 1 then Err(WrongSize(a.typ, |a.data|)) else Ok(U8(a.typ, Get(order, a.data)))
    case SU16 => if |a.data| != 2 then Err(WrongSize(a.typ, |a.data|)) else Ok(U16(a.typ, Get(order, a.data)))
    case SU32 => if |a.data| != 4 then Err(WrongSize(a.typ, |a.data|)) else Ok(U32(a.typ, Get(order, a.data)))
    case SU64 => if |a.data| != 8 then Err(WrongSize(a.typ, |a.data|)) else Ok(U64(a.typ, Get(order, a.data)))
    case SStr => Ok(Str(a.typ, TrimNul(a.data)))
    case SRaw => Ok(Raw(a.typ, a.data))
    case SNest(kids) =>
      var r := DecodeNodes(host, order, kids, a.data);
      if r.Err? then Err(r.error) else Ok(Nest(a.typ, r.value))
  }

  /** Reads as many attributes as the schema names; too few or too many is the reader's own error. */
  function DecodeList(host: ByteOrder, order: ByteOrder, scs: seq<Schema>, attrs: seq<Attribute>): (r: Result<seq<Node>>)
    decreases scs, 0
  {
    if scs == [] then if attrs == [] then Ok([]) else Err(Callback)
    else if attrs == [] then Err(Callback)
    else
      var n := DecodeNode(host, order, scs[0], attrs[0]);
      if n.Err? then Err(n.error)
      else Attributes.After([n.value], DecodeList(host, order, scs[1..], attrs[1..]))
  }

  function DecodeNodes(host: ByteOrder, order: ByteOrder, scs: seq<Schema>, b: seq<byte>): (r: Result<seq<Node>>)
    decreases scs, 1
  {
    var attrs := Decode(host, b);
    if attrs.Err? then Err(attrs.error) else DecodeList(host, order, scs, attrs.value)
  }

  /** Every payload fits its 16-bit length, and no string ends in NUL. */
  ghost predicate Fits(host: ByteOrder, order: ByteOrder, n: Node) {
    && (n.Str? ==> n.s == [] || n.s[|n.s| - 1] != 0)
    && (n.Nest? ==> AllFit(host, order, n.kids))
    && var p := Payload(host, order, n);
       p.Ok? ==> SizeOf(p.value) < 0x1_0000
  }

  ghost predicate AllFit(host: ByteOrder, order: ByteOrder, nodes: seq<Node>) {
    forall i | 0 <= i < |nodes| :: Fits(host, order, nodes[i])
  }

  /** Reading a tree with the byte order it was written with gives the tree. */
  lemma {:induction false} TreeRoundTrip(host: ByteOrder, order: ByteOrder, nodes: seq<Node>)
    requires AllFit(host, order, nodes)
    ensures EncodeNodes(host, order, nodes).Ok?
    ensures DecodeNodes(host, order, SchemasOf(nodes), EncodeNodes(host, order, nodes).value) == Ok(nodes)
    decreases nodes, 2
  {
    ListRoundTrip(host, order, nodes);
    var attrs := Collect(host, order, nodes).value;
    FlatRoundTripIff(host, attrs);
  }

  /** Attributes whose length is left to be inferred and fits. */
  ghost predicate Unfilled(attrs: seq<Attribute>) {
    forall i | 0 <= i < |attrs| :: attrs[i].length == 0 && SizeOf(attrs[i].data) < 0x1_0000
  }

  lemma UnfilledCons(a: Attribute, rest: seq<Attribute>)
    requires a.length == 0 && SizeOf(a.data) < 0x1_0000 && Unfilled(rest)
    ensures Unfilled([a] + rest)
  {
  }

  lemma {:induction false} ListRoundTrip(host: ByteOrder, order: ByteOrder, nodes: seq<Node>)
    requires AllFit(host, order, nodes)
    ensures Collect(host, order, nodes).Ok?
    ensures var attrs := Collect(host, order, nodes).value;
            && Unfilled(attrs)
            && DecodeList(host, order, SchemasOf(nodes), FilledAll(attrs)) == Ok(nodes)
    decreases nodes, 1
  {
    if nodes != [] {
      hide Payload, DecodeNode, SchemaOf, SchemasOf, DecodeList, Filled, FilledAll, Fits, Collect, SizeOf, Unfilled;
      var n := nodes[0];
      NodeRoundTrip(host, order, n);
      ListRoundTrip(host, order, nodes[1..]);
      var a := Attribute(0, n.typ, Payload(host, order, n).value);
      var rest := Collect(host, order, nodes[1..]).value;
      CollectOneMore(host, order, nodes);
      FilledIs(a, rest);
      UnfilledCons(a, rest);
      DecodeOneMore(host, order, SchemasOf(nodes), [Filled(a)] + FilledAll(rest), n, nodes[1..]);
      assert nodes == [n] + nodes[1..];
    }
  }

  lemma CollectOneMore(host: ByteOrder, order: ByteOrder, nodes: seq<Node>)
    requires nodes != [] && Payload(host, order, nodes[0]).Ok? && Collect(host, order, nodes[1..]).Ok?
    ensures Collect(host, order, nodes)
         == Ok([Attribute(0, nodes[0].typ, Payload(host, order, nodes[0]).value)] + Collect(host, order, nodes[1..]).value)
    ensures SchemasOf(nodes)[0] == SchemaOf(nodes[0]) && SchemasOf(nodes)[1..] == SchemasOf(nodes[1..])
  {
    hide Payload, SchemaOf;
  }

  lemma FilledIs(a: Attribute, rest: seq<Attribute>)
    requires a.length == 0
    ensures Filled(a).typ == a.typ && Filled(a).data == a.data
    ensures FilledAll([a] + rest) == [Filled(a)] + FilledAll(rest)
  {
    hide FilledAll;
  }

  lemma DecodeOneMore(host: ByteOrder, order: ByteOrder, scs: seq<Schema>, attrs: seq<Attribute>, n: Node, ns: seq<Node>)
    requires scs != [] && attrs != [] && DecodeNode(host, order, scs[0], attrs[0]) == Ok(n)
    requires DecodeList(host, order, scs[1..], attrs[1..]) == Ok(ns)
    ensures DecodeList(host, order, scs, attrs) == Ok([n] + ns)
  {
    hide DecodeNode;
  }

  lemma OneByte(order: ByteOrder, v: uint8)
    ensures Get(order, [v]) == v
  {
    assert Reversed([v]) == [v];
    assert FromLow([v]) == v + 256 * FromLow([]);
  }

  lemma {:induction false} NodeRoundTrip(host: ByteOrder, order: ByteOrder, n: Node)
    requires Fits(host, order, n)
    ensures var p := Payload(host, order, n);
            p.Ok? && SizeOf(p.value) < 0x1_0000
            && forall length: uint16 :: DecodeNode(host, order, SchemaOf(n), Attribute(length, n.typ, p.value)) == Ok(n)
    decreases n, 3
  {
    hide Get, Put, Pow256, TrimNul, Collect, DecodeList, DecodeNodes, EncodeNodes, AllFit;
    Pow256Values();
    match n
    case U8(_, v) => OneByte(order, v);
    case U16(_, v) => GetOfPut(order, v, 2);
    case U32(_, v) => GetOfPut(order, v, 4);
    case U64(_, v) => GetOfPut(order, v, 8);
    case Str(_, s) => StringRoundTripIff(s);
    case Raw(_, _) =>
    case Nest(_, kids) => TreeRoundTrip(host, order, kids);
  }

  // ------------------------------------------------- and only then

  /** What is read at the start of bytes that begin an encoding: the payload up to the truncated length. */
  lemma HeadOfPrefix(host: ByteOrder, a: Attribute, rest: seq<byte>, b: seq<byte>)
    requires NLA_HEADER_LEN <= a.length <= SizeOf(a.data) && b <= Packed(host, a) + rest && Unpack(host, b).Ok?
    ensures a.length <= |b|
    ensures Unpack(host, b).value == Attribute(a.length, a.typ, a.data[..a.length - NLA_HEADER_LEN])
  {
    var e := Packed(host, a) + rest;
    PackedParts(host, a, rest);
    Pow256Values();
    GetOfPut(host, a.length, 2);
    GetOfPut(host, a.typ, 2);
    hide Packed, Put, Get, Pow256, Align;
    assert b == e[..|b|];
    assert b[0..2] == e[0..2] && b[2..4] == e[2..4];
    assert b[NLA_HEADER_LEN..a.length] == e[NLA_HEADER_LEN..SizeOf(a.data)][..a.length - NLA_HEADER_LEN];
  }

  /** The rest of a prefix is a prefix of the rest. */
  lemma TailOfPrefix(p: seq<byte>, rest: seq<byte>, b: seq<byte>)
    requires b <= p + rest && p != []
    ensures Drop(b, |p|) <= rest
    ensures |b| > |p| ==> |p + rest| - |b| == |rest| - |Drop(b, |p|)|
  {
    if |b| > |p| {
      assert b == (p + rest)[..|b|];
      assert b[|p|..] == rest[..|b| - |p|];
    }
  }

  /** The parts of a decoding that gave the nodes. */
  lemma DecodedParts(host: ByteOrder, order: ByteOrder, nodes: seq<Node>, b: seq<byte>)
    requires nodes != [] && DecodeNodes(host, order, SchemasOf(nodes), b) == Ok(nodes)
    ensures b != [] && Unpack(host, b).Ok?
    ensures var a := Unpack(host, b).value;
            a.length != 0 ==>
              && DecodeNode(host, order, SchemaOf(nodes[0]), a) == Ok(nodes[0])
              && DecodeNodes(host, order, SchemasOf(nodes[1..]), Drop(b, Advance(a))) == Ok(nodes[1..])
  {
    hide DecodeNode, Unpack, Drop, Advance, SchemaOf;
    var attrs := Decode(host, b).value;
    assert SchemasOf(nodes)[0] == SchemaOf(nodes[0]) && SchemasOf(nodes)[1..] == SchemasOf(nodes[1..]);
    var a := Unpack(host, b).value;
    if a.length != 0 {
      var rest := Decode(host, Drop(b, Advance(a)));
      assert attrs == [a] + rest.value;
      assert attrs[0] == a && attrs[1..] == rest.value;
      var more := DecodeList(host, order, SchemasOf(nodes[1..]), rest.value);
      var first := DecodeNode(host, order, SchemaOf(nodes[0]), a);
      assert nodes == [first.value] + more.value;
    }
  }

  lemma EncodedParts(host: ByteOrder, order: ByteOrder, nodes: seq<Node>)
    requires nodes != [] && EncodeNodes(host, order, nodes).Ok?
    ensures Payload(host, order, nodes[0]).Ok? && EncodeNodes(host, order, nodes[1..]).Ok?
    ensures var a := Filled(Attribute(0, nodes[0].typ, Payload(host, order, nodes[0]).value));
            && a.length >= NLA_HEADER_LEN
            && EncodeNodes(host, order, nodes).value == Packed(host, a) + EncodeNodes(host, order, nodes[1..]).value
  {
    hide Payload, Packed;
    var attrs := Collect(host, order, nodes).value;
    var more := Collect(host, order, nodes[1..]).value;
    assert attrs == [Attribute(0, nodes[0].typ, Payload(host, order, nodes[0]).value)] + more;
    assert attrs[1..] == more;
  }

  /**
   If the tree comes back from the start of its encoding, then it fits, and no
   more than the last padding was missing.
   */
  lemma {:induction false} OnlyFittingReturn(host: ByteOrder, order: ByteOrder, nodes: seq<Node>, b: seq<byte>)
    requires EncodeNodes(host, order, nodes).Ok? && b <= EncodeNodes(host, order, nodes).value
    requires DecodeNodes(host, order, SchemasOf(nodes), b) == Ok(nodes)
    ensures AllFit(host, order, nodes) && |EncodeNodes(host, order, nodes).value| - |b| < 4
    decreases nodes, 1
  {
    hide Payload, EncodeNodes, DecodeNodes, DecodeNode, SchemasOf, SchemaOf, Packed, Align, Unpack, Fits, AllFit, Drop,
         Advance;
    if nodes == [] {
      NothingMissing(host, order);
    } else {
      EncodedParts(host, order, nodes);
      DecodedParts(host, order, nodes, b);
      var n, rest := nodes[0], EncodeNodes(host, order, nodes[1..]).value;
      var p := Payload(host, order, n).value;
      var a := Filled(Attribute(0, n.typ, p));
      HeadOfPrefix(host, a, rest, b);
      NodeFits(host, order, n, a.length);
      PackedAdvance(host, a, Unpack(host, b).value);
      TailOfPrefix(Packed(host, a), rest, b);
      OnlyFittingReturn(host, order, nodes[1..], Drop(b, |Packed(host, a)|));
      FitsAlso(host, order, nodes);
      if |b| <= |Packed(host, a)| {
        LastPadding(host, order, nodes[1..], b, |Packed(host, a)|);
      }
    }
  }

  lemma NothingMissing(host: ByteOrder, order: ByteOrder)
    ensures EncodeNodes(host, order, []) == Ok([]) && AllFit(host, order, [])
  {
  }

  lemma FitsAlso(host: ByteOrder, order: ByteOrder, nodes: seq<Node>)
    requires nodes != [] && Fits(host, order, nodes[0]) && AllFit(host, order, nodes[1..])
    ensures AllFit(host, order, nodes)
  {
    hide Fits;
    forall i | 0 <= i < |nodes| ensures Fits(host, order, nodes[i]) {
      assert i > 0 ==> nodes[i] == nodes[1..][i - 1];
    }
  }

  lemma PackedAdvance(host: ByteOrder, a: Attribute, x: Attribute)
    requires x.length == a.length == SizeOf(a.data)
    ensures Advance(x) == |Packed(host, a)| < a.length + 4
  {
    AlignShift(|a.data|);
    hide Align, Packed;
  }

  lemma LastPadding(host: ByteOrder, order: ByteOrder, nodes: seq<Node>, b: seq<byte>, n: nat)
    requires |b| <= n && DecodeNodes(host, order, SchemasOf(nodes), Drop(b, n)) == Ok(nodes)
    ensures nodes == [] && EncodeNodes(host, order, nodes) == Ok([])
  {
  }

  /** A node that comes back from its payload cut to the truncated length was not cut, and fits. */
  lemma {:induction false} NodeFits(host: ByteOrder, order: ByteOrder, n: Node, length: uint16)
    requires Payload(host, order, n).Ok?
    requires length == SizeOf(Payload(host, order, n).value) % 0x1_0000 && length >= NLA_HEADER_LEN
    requires DecodeNode(host, order, SchemaOf(n),
                        Attribute(length, n.typ, Payload(host, order, n).value[..length - NLA_HEADER_LEN])) == Ok(n)
    ensures Fits(host, order, n) && length == SizeOf(Payload(host, order, n).value)
    decreases n, 2
  {
    hide Get, Put, Pow256, TrimNul, Collect, DecodeList, DecodeNodes, EncodeNodes, AllFit;
    var p := Payload(host, order, n).value;
    var d := p[..length - NLA_HEADER_LEN];
    match n
    case Str(_, s) =>
      assert |TrimNul(d)| <= |d|;
      assert d == p;
      StringRoundTripIff(s);
    case Raw(_, _) => assert d == p;
    case Nest(_, kids) =>
      OnlyFittingReturn(host, order, kids, d);
      assert |p| - |d| < 4;
    case _ =>
  }

  ghost predicate TreeSurvives(host: ByteOrder, order: ByteOrder, nodes: seq<Node>) {
    var e := EncodeNodes(host, order, nodes);
    e.Ok? && DecodeNodes(host, order, SchemasOf(nodes), e.value) == Ok(nodes)
  }

  /** A tree survives if and only if every payload fits its 16-bit length and no string ends in NUL. */
  lemma TreeRoundTripIff(host: ByteOrder, order: ByteOrder, nodes: seq<Node>)
    ensures TreeSurvives(host, order, nodes) <==> AllFit(host, order, nodes)
  {
    hide EncodeNodes, DecodeNodes, AllFit, SchemasOf;
    if AllFit(host, order, nodes) {
      TreeRoundTrip(host, order, nodes);
    }
    if TreeSurvives(host, order, nodes) {
      OnlyFittingReturn(host, order, nodes, EncodeNodes(host, order, nodes).value);
    }
  }

  // ------------------------------------------- trees through the two classes

  /** Adds one node to an encoder. */
  method AddNode(ae: AttributeEncoder, n: Node)
    requires ae.err.None?
    modifies ae
    ensures var p := Payload(ae.host, ae.order, n);
            if p.Ok? then ae.err.None? && ae.attrs == old(ae.attrs) + [Attribute(0, n.typ, p.value)]
            else ae.err == Some(p.error)
    decreases n, 0
  {
    hide Put;
    match n
    case U8(typ, v) => ae.Uint8(typ, v);
    case U16(typ, v) => ae.Uint16(typ, v);
    case U32(typ, v) => ae.Uint32(typ, v);
    case U64(typ, v) => ae.Uint64(typ, v);
    case Str(typ, s) => ae.String(typ, s);
    case Raw(typ, b) => ae.Bytes(typ, b);
    case Nest(typ, kids) =>
      var sub := EncodeTree(ae.host, ae.order, kids);
      ae.Do(typ, sub);
  }

  /** One encoder for each level, nested ones inside Do. */
  method EncodeTree(host: ByteOrder, order: ByteOrder, nodes: seq<Node>) returns (r: Result<seq<byte>>)
    ensures r == EncodeNodes(host, order, nodes)
    decreases nodes, 0
  {
    hide Attributes.After, Payload, Attributes.Encode;
    var ae := new AttributeEncoder(host, order);
    AfterTwice([], [], Collect(host, order, nodes));
    for i := 0 to |nodes|
      invariant fresh(ae) && ae.err == None
      invariant Collect(host, order, nodes) == Attributes.After(ae.attrs, Collect(host, order, nodes[i..]))
    {
      assert nodes[i..][1..] == nodes[i + 1..];
      ghost var before := ae.attrs;
      AddNode(ae, nodes[i]);
      if ae.err.Some? {
        AfterFacts(before, Err(ae.err.value), Ok([]));
        break;
      }
      AfterTwice(before, [ae.attrs[|before|]], Collect(host, order, nodes[i + 1..]));
    }
    AfterNothing(ae.attrs);
    r := ae.Encode();
  }

  /** Reads the decoder's current attribute as the schema says. */
  method ReadNode(ad: AttributeDecoder, host: ByteOrder, sc: Schema) returns (r: Result<Node>)
    requires ad.AtAttribute() && ad.err.None?
    modifies ad`err
    ensures r == DecodeNode(host, ad.order, sc, ad.attrs[ad.i - 1])
    ensures r.Ok? ==> ad.err.None?
    decreases sc, 0
  {
    hide Get, Put, Pow256, TrimNul, DecodeNodes;
    var typ := ad.Type();
    PutOfGet(ad.order, ad.attrs[ad.i - 1].data);
    Pow256Values();
    match sc
    case SU8 =>
      var v := ad.Uint(1);
      return if ad.err.Some? then Err(ad.err.value) else Ok(U8(typ, v));
    case SU16 =>
      var v := ad.Uint(2);
      return if ad.err.Some? then Err(ad.err.value) else Ok(U16(typ, v));
    case SU32 =>
      var v := ad.Uint(4);
      return if ad.err.Some? then Err(ad.err.value) else Ok(U32(typ, v));
    case SU64 =>
      var v := ad.Uint(8);
      return if ad.err.Some? then Err(ad.err.value) else Ok(U64(typ, v));
    case SStr =>
      var s := ad.String();
      return Ok(Str(typ, s));
    case SRaw =>
      var b := ad.Bytes();
      return Ok(Raw(typ, b));
    case SNest(kids) =>
      var b := ad.Bytes();
      var sub := DecodeTree(host, ad.order, kids, b);
      ad.Do(if sub.Ok? then None else Some(sub.error));
      return if ad.err.Some? then Err(ad.err.value) else Ok(Nest(typ, sub.value));
  }

  /** A decoder that reads as many attributes as the schema names. */
  method DecodeTree(host: ByteOrder, order: ByteOrder, scs: seq<Schema>, b: seq<byte>) returns (r: Result<seq<Node>>)
    ensures r == DecodeNodes(host, order, scs, b)
    decreases scs, 0
  {
    hide Attributes.After, DecodeNode, Decode;
    var attrs := UnmarshalAttributes(b, host);
    if attrs.Err? {
      return Err(attrs.error);
    }
    var ad := new AttributeDecoder(order, attrs.value);
    var nodes := [];
    AfterTwice([], [], DecodeList(host, order, scs, ad.attrs));
    for j := 0 to |scs|
      invariant fresh(ad) && ad.err == None && ad.i == j <= |ad.attrs|
      invariant DecodeList(host, order, scs, ad.attrs)
             == Attributes.After(nodes, DecodeList(host, order, scs[j..], ad.attrs[j..]))
    {
      assert scs[j..][1..] == scs[j + 1..];
      var more := ad.Next();
      if !more {
        AfterFacts(nodes, Err(Callback), Ok([]));
        return Err(Callback);
      }
      assert ad.attrs[j..][1..] == ad.attrs[j + 1..];
      var n := ReadNode(ad, host, scs[j]);
      if n.Err? {
        AfterFacts(nodes, Err(n.error), Ok([]));
        return Err(n.error);
      }
      AfterTwice(nodes, [n.value], DecodeList(host, order, scs[j + 1..], ad.attrs[j + 1..]));
      nodes := nodes + [n.value];
    }
    var more := ad.Next();
    AfterFacts(nodes, Err(Callback), Ok([]));
    AfterNothing(nodes);
    return if more then Err(Callback) else Ok(nodes);
  }
}
