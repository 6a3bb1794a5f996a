/** parse, the wire encoders and the log records are inverse to each other; a log stream has one reading. */
module ItchCodec {
  import opened Options
  import opened Bytes
  import opened ItchMessages

  // ---- Sizes ----

  lemma SizeFour(l: seq<Field>)
    requires |l| >= 4
    ensures SizeOf(l) == l[0].width + l[1].width + l[2].width + l[3].width + SizeOf(l[4..])
  {
    assert l[1..][1..] == l[2..] && l[2..][1..] == l[3..] && l[3..][1..] == l[4..];
  }

  lemma SizeUpToThree(l: seq<Field>)
    requires |l| <= 3
    ensures SizeOf(l) == (if |l| > 0 then l[0].width else 0) + (if |l| > 1 then l[1].width else 0) + (if |l| > 2 then l[2].width else 0)
  {
    if |l| == 2 {
      assert l[1..][1..] == [];
    } else if |l| == 3 {
      assert l[1..][1..] == [l[2]] && [l[2]][1..] == [];
    }
  }

  lemma DirectorySize()
    ensures SizeOf(Body(R)) == 28
  {
    var b := Body(R);
    SizeFour(b);
    var b4 := b[4..];
    SizeFour(b4);
    var b8 := b4[4..];
    SizeFour(b8);
    SizeUpToThree(b8[4..]);
  }

  lemma BodySize(k: Kind)
    ensures SizeOf(Body(k)) == RecordSize(k) - 13
  {
    var b := Body(k);
    if k == R {
      DirectorySize();
    } else if |b| <= 3 {
      SizeUpToThree(b);
    } else {
      SizeFour(b);
      SizeUpToThree(b[4..]);
    }
  }

  /** The packed sizes, 13 bytes of header included. */
  lemma StructSizes(k: Kind)
    ensures SizeOf(HEADER) == 13
    ensures SizeOf(Layout(k)) == RecordSize(k)
  {
    SizeFour(HEADER);
    SizeFour(Layout(k));
    assert Layout(k)[4..] == Body(k);
    BodySize(k);
  }

  // ---- Structs in memory ----

  lemma {:induction false} ImageSize(vs: seq<Value>, layout: seq<Field>)
    requires Conforms(vs, layout)
    ensures |Image(vs)| == SizeOf(layout)
  {
    if vs != [] {
      assert Fits(vs[0], layout[0]);
      ImageSize(vs[1..], layout[1..]);
    }
  }

  /** Reading back a struct in memory gives its members ... */
  lemma {:induction false} ReadImage(vs: seq<Value>, layout: seq<Field>)
    requires Conforms(vs, layout)
    ensures |Image(vs)| == SizeOf(layout)
    ensures ReadStruct(layout, Image(vs)) == vs
  {
    ImageSize(vs, layout);
    if vs != [] {
      assert Fits(vs[0], layout[0]);
      ImageSize(vs[1..], layout[1..]);
      ReadImage(vs[1..], layout[1..]);
      ReadOneMember(vs[0], layout[0], layout[1..], Image(vs[1..]));
      assert layout == [layout[0]] + layout[1..] && vs == [vs[0]] + vs[1..];
    }
  }

  lemma ReadOneMember(v: Value, f: Field, rest: seq<Field>, data: seq<byte>)
    requires Fits(v, f) && |data| == SizeOf(rest)
    ensures |ImageOf(v) + data| == SizeOf([f] + rest)
    ensures ReadStruct([f] + rest, ImageOf(v) + data) == [v] + ReadStruct(rest, data)
  {
    var w, all := f.width, ImageOf(v) + data;
    assert ([f] + rest)[1..] == rest;
    assert all[..w] == ImageOf(v) && all[w..] == data;
    if v.Number? {
      FromToHost(v.n, w);
    }
  }

  lemma {:induction false} ReadStructConforms(layout: seq<Field>, data: seq<byte>)
    requires |data| == SizeOf(layout)
    ensures Conforms(ReadStruct(layout, data), layout)
  {
    if layout != [] {
      var w := layout[0].width;
      ReadStructConforms(layout[1..], data[w..]);
      ConformsCons(Member(layout[0], data[..w]), layout[0], ReadStruct(layout[1..], data[w..]), layout[1..]);
      assert layout == [layout[0]] + layout[1..];
    }
  }

  lemma ConformsCons(v: Value, f: Field, vs: seq<Value>, layout: seq<Field>)
    requires Fits(v, f) && Conforms(vs, layout)
    ensures Conforms([v] + vs, [f] + layout)
  {
  }

  lemma MemberImage(f: Field, at: seq<byte>)
    requires |at| == f.width
    ensures ImageOf(Member(f, at)) == at
  {
    ToFromHost(at);
  }

  /** ... and writing the members that were read gives the memory: the fields tile the struct. */
  lemma {:induction false} ImageRead(layout: seq<Field>, data: seq<byte>)
    requires |data| == SizeOf(layout)
    ensures Image(ReadStruct(layout, data)) == data
  {
    if layout != [] {
      var w := layout[0].width;
      ImageRead(layout[1..], data[w..]);
      MemberImage(layout[0], data[..w]);
      ImageCons(Member(layout[0], data[..w]), ReadStruct(layout[1..], data[w..]));
      SplitAt(data, w);
    }
  }

  lemma SplitAt(data: seq<byte>, w: nat)
    requires w <= |data|
    ensures data[..w] + data[w..] == data
  {
  }

  lemma ImageCons(v: Value, vs: seq<Value>)
    ensures Image([v] + vs) == ImageOf(v) + Image(vs)
  {
    assert ([v] + vs)[1..] == vs;
  }

  lemma SwapConforms(vs: seq<Value>, layout: seq<Field>)
    requires Conforms(vs, layout)
    ensures Conforms(SwapAll(vs), layout)
    ensures SwapAll(SwapAll(vs)) == vs
  {
    forall i | 0 <= i < |vs| ensures Fits(SwapValue(vs[i]), layout[i]) && SwapValue(SwapValue(vs[i])) == vs[i] {
      assert Fits(vs[i], layout[i]);
      if vs[i].Number? {
        SwapTwice(vs[i].n, vs[i].width);
      }
    }
  }

  // ---- Messages and members ----

  lemma DirectoryConforms(m: Message)
    requires m.StockDirectory?
    ensures Conforms(BodyValues(m), Body(R))
  {
    assert Pow256(1) == 256;
  }

  lemma BodyConforms(m: Message)
    requires !m.Unsupported?
    ensures Conforms(BodyValues(m), Body(KindOf(m)))
  {
    assert Pow256(1) == 256;
    if m.StockDirectory? {
      DirectoryConforms(m);
    }
  }

  lemma ValuesConform(m: Message)
    requires !m.Unsupported?
    ensures Conforms(Values(m), Layout(KindOf(m)))
  {
    assert Pow256(1) == 256;
    BodyConforms(m);
    assert Conforms(HeaderValues(m.header), HEADER);
    ConformsConcat(HeaderValues(m.header), HEADER, BodyValues(m), Body(KindOf(m)));
  }

  lemma ConformsConcat(vs: seq<Value>, l: seq<Field>, vs': seq<Value>, l': seq<Field>)
    requires Conforms(vs, l) && Conforms(vs', l')
    ensures Conforms(vs + vs', l + l')
  {
  }

  lemma BuildValues(m: Message)
    requires !m.Unsupported?
    ensures Conforms(Values(m), Layout(KindOf(m)))
    ensures Build(KindOf(m), Values(m)) == m
  {
    ValuesConform(m);
  }

  /** The members of a struct, header first. */
  lemma FitsAll(k: Kind, vs: seq<Value>)
    requires Conforms(vs, Layout(k))
    ensures forall i :: 0 <= i < |Body(k)| ==> Fits(vs[4 + i], Body(k)[i])
    ensures |vs| == 4 + |Body(k)|
    ensures Fits(vs[0], Int(1)) && Fits(vs[1], Int(2)) && Fits(vs[2], Int(2)) && Fits(vs[3], Int(8))
  {
    forall i | 0 <= i < |Body(k)| ensures Fits(vs[4 + i], Body(k)[i]) {
      assert Layout(k)[4 + i] == Body(k)[i];
    }
    assert Layout(k)[0] == Int(1) && Layout(k)[1] == Int(2) && Layout(k)[2] == Int(2) && Layout(k)[3] == Int(8);
  }

  lemma DirectoryBuild(vs: seq<Value>)
    requires Conforms(vs, Layout(R))
    ensures var m := Build(R, vs); m.StockDirectory? && BodyValues(m) == vs[4..]
  {
    BodyPart(R, vs);
    DirectoryBody(vs[4..]);
    DirectoryValues(Build(R, vs).header, vs[4..]);
  }

  lemma DirectoryValues(h: Header, b: seq<Value>)
    requires DirectoryFits(b)
    ensures BodyValues(BuildDirectory(h, b)) == b
  {
  }

  /** The kinds with at most three members after the header. */
  lemma ShortBuild(k: Kind, vs: seq<Value>)
    requires Conforms(vs, Layout(k)) && |Body(k)| <= 3
    ensures var m := Build(k, vs); !m.Unsupported? && KindOf(m) == k && BodyValues(m) == vs[4..]
  {
    FitsAll(k, vs);
    var b := Body(k);
    assert Fits(vs[4], b[0]) && (|b| > 1 ==> Fits(vs[5], b[1])) && (|b| > 2 ==> Fits(vs[6], b[2]));
  }

  lemma LongBuild(k: Kind, vs: seq<Value>)
    requires Conforms(vs, Layout(k)) && |Body(k)| > 3 && k != R
    ensures var m := Build(k, vs); !m.Unsupported? && KindOf(m) == k && BodyValues(m) == vs[4..]
  {
    FitsAll(k, vs);
    var b := Body(k);
    assert Fits(vs[4], b[0]) && Fits(vs[5], b[1]) && Fits(vs[6], b[2]) && Fits(vs[7], b[3]);
    assert (|b| > 4 ==> Fits(vs[8], b[4])) && (|b| > 5 ==> Fits(vs[9], b[5]));
  }

  lemma BodyBuild(k: Kind, vs: seq<Value>)
    requires Conforms(vs, Layout(k))
    ensures var m := Build(k, vs); !m.Unsupported? && KindOf(m) == k && BodyValues(m) == vs[4..]
  {
    if k == R {
      DirectoryBuild(vs);
    } else if |Body(k)| <= 3 {
      ShortBuild(k, vs);
    } else {
      LongBuild(k, vs);
    }
  }

  lemma HeaderBuild(k: Kind, vs: seq<Value>)
    requires Conforms(vs, Layout(k))
    ensures var m := Build(k, vs); !m.Unsupported? && HeaderValues(m.header) == vs[..4] && m.header.messageType == vs[0].n
  {
    FitsAll(k, vs);
  }

  lemma ValuesBuild(k: Kind, vs: seq<Value>)
    requires Conforms(vs, Layout(k))
    ensures var m := Build(k, vs); !m.Unsupported? && KindOf(m) == k && Values(m) == vs && m.header.messageType == vs[0].n
  {
    BodyBuild(k, vs);
    HeaderBuild(k, vs);
    var m := Build(k, vs);
    assert Values(m) == vs[..4] + vs[4..];
    assert vs == vs[..4] + vs[4..];
  }

  // ---- The parser ----

  function Decode(k: Kind, data: seq<byte>): Message
    requires |data| == RecordSize(k)
  {
    StructSizes(k);
    var wire := ReadStruct(Layout(k), data);
    ReadStructConforms(Layout(k), data);
    SwapConforms(wire, Layout(k));
    Build(k, SwapAll(wire))
  }

  function Parse(data: seq<byte>, now: u64): (r: Option<ParsedMessage>) {
    if |data| < 13 then None
    else match KindOfByte(data[0])
      case None => None
      case Some(k) => if |data| == RecordSize(k) then Some(ParsedMessage(Decode(k, data), now)) else None
  }

  /** The header's type byte agrees with the member of the union. */
  predicate WellTyped(m: Message) {
    !m.Unsupported? && m.header.messageType == TypeByte(KindOf(m))
  }

  /** A generator's message: every integer goes through hton into a packed struct. */
  function Encode(m: Message): seq<byte>
    requires !m.Unsupported?
  {
    Image(SwapAll(Values(m)))
  }

  /** parse accepts exactly the byte strings that start with a known type and have its size. */
  lemma ParseAccepts(data: seq<byte>, now: u64)
    ensures Parse(data, now).Some? <==> exists k :: |data| == RecordSize(k) && data[0] == TypeByte(k)
  {
    if k :| |data| == RecordSize(k) && data[0] == TypeByte(k) {
      assert KindOfByte(data[0]) == Some(k);
    }
  }

  /** Decoding what a generator encoded gives the message back. */
  lemma DecodeEncode(m: Message)
    requires !m.Unsupported?
    ensures |Encode(m)| == RecordSize(KindOf(m))
    ensures Decode(KindOf(m), Encode(m)) == m
    ensures Encode(m) != [] && Encode(m)[0] == m.header.messageType
  {
    var k, vs := KindOf(m), Values(m);
    BuildValues(m);
    StructSizes(k);
    SwapConforms(vs, Layout(k));
    ReadImage(SwapAll(vs), Layout(k));
    FirstByte(SwapAll(vs), m.header.messageType);
  }

  lemma SwapByte(b: byte)
    ensures Swap(b, 1) == b && ToHost(b, 1) == [b]
  {
    assert ToHost(b / 256, 0) == [];
    assert ToHost(b, 1) == [b % 256] + ToHost(b / 256, 0);
    var s: seq<byte> := [b];
    assert ToHost(b, 1) == s;
    assert Reverse(s) == s;
    assert s[1..] == [];
    assert FromHost(s) == b;
  }

  lemma FirstByte(vs: seq<Value>, b: byte)
    requires |vs| > 0 && (vs[0] == Number(b, 1) || vs[0] == SwapValue(Number(b, 1)))
    ensures Image(vs) != [] && Image(vs)[0] == b
  {
    SwapByte(b);
  }

  /** ... and encoding what was decoded gives the bytes back. */
  lemma EncodeDecode(k: Kind, data: seq<byte>)
    requires |data| == RecordSize(k) && data[0] == TypeByte(k)
    ensures var m := Decode(k, data); WellTyped(m) && KindOf(m) == k && Encode(m) == data
  {
    StructSizes(k);
    var wire := ReadStruct(Layout(k), data);
    ReadStructConforms(Layout(k), data);
    SwapConforms(wire, Layout(k));
    ValuesBuild(k, SwapAll(wire));
    ImageRead(Layout(k), data);
    var m := Decode(k, data);
    DecodeEncode(m);
  }

  lemma ParseKind(k: Kind, data: seq<byte>, now: u64)
    requires |data| == RecordSize(k) && data[0] == TypeByte(k)
    ensures Parse(data, now) == Some(ParsedMessage(Decode(k, data), now))
  {
    assert KindOfByte(data[0]) == Some(k);
  }

  /** Parsing an encoded message gives the message ... */
  lemma ParseEncode(m: Message, now: u64)
    requires WellTyped(m)
    ensures Parse(Encode(m), now) == Some(ParsedMessage(m, now))
  {
    DecodeEncode(m);
    ParseKind(KindOf(m), Encode(m), now);
  }

  /** ... and encoding a parsed message gives the bytes: parse is a bijection onto the well-typed messages. */
  lemma EncodeParse(data: seq<byte>, now: u64)
    requires Parse(data, now).Some?
    ensures var r := Parse(data, now).value;
            r.parseTimestamp == now && WellTyped(r.message) && Encode(r.message) == data
  {
    EncodeDecode(KindOfByte(data[0]).value, data);
  }

  /** The bytes of member i, at its packed offset. */
  function At(layout: seq<Field>, data: seq<byte>, i: nat): seq<byte>
    requires |data| == SizeOf(layout) && i < |layout|
    decreases |layout|
  {
    var w := layout[0].width;
    if i == 0 then data[..w] else At(layout[1..], data[w..], i - 1)
  }

  lemma SliceOfRest(data: seq<byte>, w: nat, o: nat, n: nat)
    requires w <= |data| && o + n <= |data| - w
    ensures data[w..][o..o + n] == data[w + o..w + o + n]
  {
  }

  lemma OffsetOfRest(layout: seq<Field>, i: nat)
    requires 0 < i < |layout|
    ensures SizeOf(layout[..i]) == layout[0].width + SizeOf(layout[1..][..i - 1])
  {
    assert layout[..i][1..] == layout[1..][..i - 1];
  }

  lemma {:induction false} AtOffset(layout: seq<Field>, data: seq<byte>, i: nat, o: nat)
    requires |data| == SizeOf(layout) && i < |layout| && o == SizeOf(layout[..i])
    ensures o + layout[i].width <= |data| && At(layout, data, i) == data[o..o + layout[i].width]
  {
    var w := layout[0].width;
    if i == 0 {
      assert layout[..0] == [];
    } else {
      OffsetOfRest(layout, i);
      AtOffset(layout[1..], data[w..], i - 1, o - w);
      SliceOfRest(data, w, o - w, layout[i].width);
    }
  }

  lemma {:induction false} ReadStructAt(layout: seq<Field>, data: seq<byte>, i: nat)
    requires |data| == SizeOf(layout) && i < |layout|
    ensures |At(layout, data, i)| == layout[i].width
    ensures ReadStruct(layout, data)[i] == Member(layout[i], At(layout, data, i))
  {
    if i > 0 {
      ReadStructAt(layout[1..], data[layout[0].width..], i - 1);
    }
  }

  /** What member i holds when the wire carries `at`. */
  function OnWire(f: Field, at: seq<byte>): Value {
    if f.Int? then Number(FromWire(at), f.width) else Text(at)
  }

  lemma SwappedOne(f: Field, at: seq<byte>)
    requires |at| == f.width
    ensures SwapValue(Member(f, at)) == OnWire(f, at)
  {
    SwapReadsWire(at);
  }

  /** Member i of a struct is what the wire carries at its packed offset o, inside the data. */
  predicate FromWireAt(f: Field, data: seq<byte>, v: Value, o: nat) {
    o + f.width <= |data| && v == OnWire(f, data[o..o + f.width])
  }

  lemma SwappedMember(layout: seq<Field>, data: seq<byte>, i: nat, o: nat)
    requires |data| == SizeOf(layout) && i < |layout| && o == SizeOf(layout[..i])
    ensures FromWireAt(layout[i], data, SwapAll(ReadStruct(layout, data))[i], o)
  {
    AtOffset(layout, data, i, o);
    ReadStructAt(layout, data, i);
    SwappedOne(layout[i], At(layout, data, i));
  }

  lemma DecodeValues(k: Kind, data: seq<byte>)
    requires |data| == RecordSize(k)
    ensures |data| == SizeOf(Layout(k))
    ensures !Decode(k, data).Unsupported? && Values(Decode(k, data)) == SwapAll(ReadStruct(Layout(k), data))
  {
    StructSizes(k);
    var wire := ReadStruct(Layout(k), data);
    ReadStructConforms(Layout(k), data);
    SwapConforms(wire, Layout(k));
    ValuesBuild(k, SwapAll(wire));
  }

  /** Every parsed member is the big-endian integer, or the characters, at its packed offset inside the message. */
  lemma ParsedMember(k: Kind, data: seq<byte>, i: nat)
    requires |data| == RecordSize(k) && i < |Layout(k)|
    ensures var m := Decode(k, data);
            && !m.Unsupported? && i < |Values(m)|
            && FromWireAt(Layout(k)[i], data, Values(m)[i], SizeOf(Layout(k)[..i]))
  {
    DecodeValues(k, data);
    SwappedMember(Layout(k), data, i, SizeOf(Layout(k)[..i]));
  }

  // ---- Log records ----

  /** get_message_size */
  function MessageSize(m: Message): nat {
    if m.Unsupported? then 0 else RecordSize(KindOf(m))
  }

  /** serialize_message: the host-order struct, or nothing for an unknown type. */
  function Serialize(m: Message): seq<byte> {
    if m.Unsupported? then [] else Image(Values(m))
  }

  lemma SerializeSize(m: Message)
    ensures |Serialize(m)| == MessageSize(m) <= 46
    ensures m.Unsupported? ==> Serialize(m) == []
  {
    if !m.Unsupported? {
      BuildValues(m);
      StructSizes(KindOf(m));
      ImageSize(Values(m), Layout(KindOf(m)));
    }
  }

  function Concat(rs: seq<seq<byte>>): seq<byte> {
    if rs == [] then [] else Concat(rs[..|rs| - 1]) + rs[|rs| - 1]
  }

  function Map<A, B>(f: A -> B, s: seq<A>): (r: seq<B>)
    ensures |r| == |s|
    ensures forall i :: 0 <= i < |s| ==> r[i] == f(s[i])
  {
    seq(|s|, i requires 0 <= i < |s| => f(s[i]))
  }

  lemma MapEnds<A, B>(f: A -> B, x: A, s: seq<A>)
    ensures Map(f, [x] + s) == [f(x)] + Map(f, s)
    ensures Map(f, s + [x]) == Map(f, s) + [f(x)]
  {
  }

  /** Everything the logger writes for a list of messages. */
  function Stream(ms: seq<Message>): seq<byte> {
    Concat(Map(Serialize, ms))
  }

  lemma Associate(a: seq<byte>, b: seq<byte>, c: seq<byte>)
    ensures (a + b) + c == a + (b + c)
  {
  }

  lemma {:induction false} ConcatFront(r: seq<byte>, rs: seq<seq<byte>>)
    ensures Concat([r] + rs) == r + Concat(rs)
  {
    if rs == [] {
      assert [r] + rs == [r] && [r][..0] == [];
    } else {
      var n := |rs| - 1;
      ConcatFront(r, rs[..n]);
      assert ([r] + rs)[..n + 1] == [r] + rs[..n];
      Associate(r, Concat(rs[..n]), rs[n]);
    }
  }

  lemma ConcatBack(rs: seq<seq<byte>>, r: seq<byte>)
    ensures Concat(rs + [r]) == Concat(rs) + r
  {
    assert (rs + [r])[..|rs|] == rs;
  }

  lemma StreamFront(m: Message, ms: seq<Message>)
    ensures Stream([m] + ms) == Serialize(m) + Stream(ms)
  {
    MapEnds(Serialize, m, ms);
    ConcatFront(Serialize(m), Map(Serialize, ms));
  }

  lemma StreamGrows(ms: seq<Message>, m: Message)
    ensures Stream(ms + [m]) == Stream(ms) + Serialize(m)
  {
    MapEnds(Serialize, m, ms);
    ConcatBack(Map(Serialize, ms), Serialize(m));
  }

  /** A reader of log streams: the type byte fixes the length of the record. */
  function ReadLog(bytes: seq<byte>): Option<seq<Message>> {
    if bytes == [] then Some([])
    else match KindOfByte(bytes[0])
      case None => None
      case Some(k) =>
        var n := RecordSize(k);
        if |bytes| < n then None
        else
          StructSizes(k);
          ReadStructConforms(Layout(k), bytes[..n]);
          var m := Build(k, ReadStruct(Layout(k), bytes[..n]));
          match ReadLog(bytes[n..])
          case None => None
          case Some(ms) => Some([m] + ms)
  }

  ghost predicate AllWellTyped(ms: seq<Message>) {
    forall i :: 0 <= i < |ms| ==> WellTyped(ms[i])
  }

  /** Reading a stream of well-typed messages gives exactly those messages. */
  lemma {:induction false} ReadStream(ms: seq<Message>)
    requires AllWellTyped(ms)
    ensures ReadLog(Stream(ms)) == Some(ms)
  {
    if ms != [] {
      var m, rest := ms[0], ms[1..];
      assert ms == [m] + rest;
      StreamFront(m, rest);
      ReadStream(rest);
      ReadFirst(m, Stream(rest));
    }
  }

  /** The record of a well-typed message, read as a struct. */
  lemma ReadRecord(m: Message)
    requires WellTyped(m)
    ensures var k, bytes := KindOf(m), Serialize(m);
            && |bytes| == RecordSize(k) == SizeOf(Layout(k)) && bytes[0] == TypeByte(k)
            && Conforms(ReadStruct(Layout(k), bytes), Layout(k))
            && Build(k, ReadStruct(Layout(k), bytes)) == m
  {
    var k, vs := KindOf(m), Values(m);
    SerializeSize(m);
    BuildValues(m);
    StructSizes(k);
    ReadImage(vs, Layout(k));
    FirstByte(vs, m.header.messageType);
  }

  lemma ReadFirst(m: Message, rest: seq<byte>)
    requires WellTyped(m) && ReadLog(rest).Some?
    ensures ReadLog(Serialize(m) + rest) == Some([m] + ReadLog(rest).value)
  {
    ReadRecord(m);
    ReadOne(KindOf(m), m, Serialize(m), rest);
  }

  lemma ReadOne(k: Kind, m: Message, record: seq<byte>, rest: seq<byte>)
    requires |record| == RecordSize(k) == SizeOf(Layout(k)) && record[0] == TypeByte(k)
    requires Conforms(ReadStruct(Layout(k), record), Layout(k)) && Build(k, ReadStruct(Layout(k), record)) == m && ReadLog(rest).Some?
    ensures ReadLog(record + rest) == Some([m] + ReadLog(rest).value)
  {
    var bytes := record + rest;
    assert bytes[..RecordSize(k)] == record && bytes[RecordSize(k)..] == rest;
    OneKind(bytes[0], k);
    ReadSplit(k, m, bytes, record, rest);
  }

  lemma OneKind(b: byte, k: Kind)
    requires b == TypeByte(k)
    ensures KindOfByte(b) == Some(k)
  {
  }

  lemma ReadSplit(k: Kind, m: Message, bytes: seq<byte>, record: seq<byte>, rest: seq<byte>)
    requires |bytes| >= RecordSize(k) && bytes != [] && KindOfByte(bytes[0]) == Some(k)
    requires bytes[..RecordSize(k)] == record && bytes[RecordSize(k)..] == rest
    requires |record| == SizeOf(Layout(k)) && Conforms(ReadStruct(Layout(k), record), Layout(k))
    requires Build(k, ReadStruct(Layout(k), record)) == m && ReadLog(rest).Some?
    ensures ReadLog(bytes) == Some([m] + ReadLog(rest).value)
  {
  }

  /** The message that a struct in memory holds has that memory as its record. */
  lemma RecordOf(k: Kind, record: seq<byte>)
    requires |record| == RecordSize(k) == SizeOf(Layout(k)) && record[0] == TypeByte(k)
    requires Conforms(ReadStruct(Layout(k), record), Layout(k))
    ensures var m := Build(k, ReadStruct(Layout(k), record)); WellTyped(m) && Serialize(m) == record
  {
    var vs := ReadStruct(Layout(k), record);
    ValuesBuild(k, vs);
    ImageRead(Layout(k), record);
    FitsAll(k, vs);
    FirstByte(vs, vs[0].n);
  }

  /** Conversely, what a reader accepts is the stream of the well-typed messages it returns. */
  lemma {:induction false} StreamRead(bytes: seq<byte>)
    requires ReadLog(bytes).Some?
    ensures AllWellTyped(ReadLog(bytes).value) && Stream(ReadLog(bytes).value) == bytes
  {
    if bytes != [] {
      var k := KindOfByte(bytes[0]).value;
      var n := RecordSize(k);
      StructSizes(k);
      ReadStructConforms(Layout(k), bytes[..n]);
      RecordOf(k, bytes[..n]);
      StreamRead(bytes[n..]);
      StreamFront(Build(k, ReadStruct(Layout(k), bytes[..n])), ReadLog(bytes[n..]).value);
      SplitAt(bytes, n);
    }
  }

  /** A file reads back as a list of messages exactly when it is their stream and they are well-typed. */
  lemma ReadExactly(bytes: seq<byte>, ms: seq<Message>)
    ensures ReadLog(bytes) == Some(ms) <==> AllWellTyped(ms) && bytes == Stream(ms)
  {
    if ReadLog(bytes).Some? {
      StreamRead(bytes);
    }
    if AllWellTyped(ms) {
      ReadStream(ms);
    }
  }

  /** The log stream determines the list of messages. */
  lemma UniquelyDecodable(ms: seq<Message>, ms': seq<Message>)
    requires AllWellTyped(ms) && AllWellTyped(ms')
    ensures Stream(ms) == Stream(ms') ==> ms == ms'
  {
    ReadStream(ms);
    ReadStream(ms');
  }
}
