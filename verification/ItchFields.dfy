/**
 The nine messages field by field: the type byte that selects each struct, and the bytes that each named field is read
 from, on the wire and in a log record.
 */
module ItchFields {
  import opened Options
  import opened Bytes
  import opened ItchMessages
  import opened ItchCodec

  /** How an integer of several bytes is read: FromWire or FromHost. */
  type Reader = seq<byte> -> nat

  predicate HeaderFields(h: Header, data: seq<byte>, read: Reader)
    requires |data| >= 13
  {
    && h.messageType == data[0]
    && h.stockLocate == read(data[1..3])
    && h.trackingNumber == read(data[3..5])
    && h.timestamp == read(data[5..13])
  }

  /** The packed struct of m, byte for byte. */
  predicate Fields(m: Message, data: seq<byte>, read: Reader) {
    !m.Unsupported? && |data| >= 13 && HeaderFields(m.header, data, read) &&
    match m
    case AddOrder(_, _, _, _, _, _) =>
      && |data| == 38 && m.orderReference == read(data[13..21]) && m.buySell == data[21] && m.shares == read(data[22..26])
      && m.stock == data[26..34] && m.price == read(data[34..38])
    case ExecuteOrder(_, _, _, _) =>
      |data| == 33 && m.orderReference == read(data[13..21]) && m.executedShares == read(data[21..25]) && m.matchNumber == read(data[25..33])
    case ExecuteWithPrice(_, _, _, _, _, _) =>
      && |data| == 38 && m.orderReference == read(data[13..21]) && m.executedShares == read(data[21..25])
      && m.matchNumber == read(data[25..33]) && m.printable == data[33] && m.executionPrice == read(data[34..38])
    case OrderCancel(_, _, _) =>
      |data| == 25 && m.orderReference == read(data[13..21]) && m.cancelledShares == read(data[21..25])
    case OrderDelete(_, _) =>
      |data| == 21 && m.orderReference == read(data[13..21])
    case OrderReplace(_, _, _, _, _) =>
      && |data| == 37 && m.originalReference == read(data[13..21]) && m.newReference == read(data[21..29])
      && m.shares == read(data[29..33]) && m.price == read(data[33..37])
    case Trade(_, _, _, _, _, _, _) =>
      && |data| == 46 && m.orderReference == read(data[13..21]) && m.buySell == data[21] && m.shares == read(data[22..26])
      && m.stock == data[26..34] && m.price == read(data[34..38]) && m.matchNumber == read(data[38..46])
    case SystemEvent(_, _) =>
      |data| == 14 && m.eventCode == data[13]
    case StockDirectory(_, _, _, _, _, _, _, _, _, _, _, _, _, _, _) =>
      && |data| == 41 && m.stock == data[13..21] && m.marketCategory == data[21] && m.financialStatus == data[22]
      && m.roundLotSize == read(data[23..27]) && m.roundLotsOnly == data[27] && m.issueClassification == data[28]
      && m.issueSubType == data[29..31] && m.authenticity == data[31] && m.shortSaleThreshold == data[32]
      && m.ipoFlag == data[33] && m.luldTier == data[34] && m.etpFlag == data[35]
      && m.etpLeverage == read(data[36..40]) && m.inverse == data[40]
  }

  // ---- Members at their offsets ----

  function ReadMember(f: Field, at: seq<byte>, read: Reader): Value {
    if f.Int? then Number(read(at), f.width) else Text(at)
  }

  /** Every member of the struct is read from its own bytes. */
  predicate MembersAt(layout: seq<Field>, data: seq<byte>, vs: seq<Value>, read: Reader) {
    && |data| == SizeOf(layout) && |vs| == |layout|
    && forall i :: 0 <= i < |layout| ==> vs[i] == ReadMember(layout[i], At(layout, data, i), read)
  }

  function Offset(layout: seq<Field>, i: nat): nat
    requires i <= |layout|
  {
    if i == 0 then 0 else Offset(layout, i - 1) + layout[i - 1].width
  }

  lemma {:induction false} SizeOfSnoc(layout: seq<Field>, f: Field)
    ensures SizeOf(layout + [f]) == SizeOf(layout) + f.width
  {
    if layout == [] {
      assert (layout + [f])[1..] == [];
    } else {
      SizeOfSnoc(layout[1..], f);
      assert (layout + [f])[1..] == layout[1..] + [f];
    }
  }

  lemma {:induction false} OffsetIsSize(layout: seq<Field>, i: nat)
    requires i <= |layout|
    ensures Offset(layout, i) == SizeOf(layout[..i])
  {
    if i == 0 {
      assert layout[..0] == [];
    } else {
      OffsetIsSize(layout, i - 1);
      SizeOfSnoc(layout[..i - 1], layout[i - 1]);
      assert layout[..i] == layout[..i - 1] + [layout[i - 1]];
    }
  }

  lemma {:induction false} BodyOffset(k: Kind, j: nat)
    requires j <= |Body(k)|
    ensures Offset(Layout(k), 4 + j) == 13 + Offset(Body(k), j)
  {
    if j == 0 {
      var l := Layout(k);
      assert l[0] == Int(1) && l[1] == Int(2) && l[2] == Int(2) && l[3] == Int(8);
      assert Offset(l, 1) == 1 && Offset(l, 2) == 3 && Offset(l, 3) == 5;
    } else {
      BodyOffset(k, j - 1);
      assert Layout(k)[4 + j - 1] == Body(k)[j - 1];
    }
  }

  lemma MemberSlice(layout: seq<Field>, data: seq<byte>, vs: seq<Value>, read: Reader, i: nat, o: nat)
    requires MembersAt(layout, data, vs, read) && i < |layout| && o == Offset(layout, i)
    ensures o + layout[i].width <= |data| && vs[i] == ReadMember(layout[i], data[o..o + layout[i].width], read)
  {
    OffsetIsSize(layout, i);
    AtOffset(layout, data, i, o);
  }

  /** A one-byte integer is that byte. */
  ghost predicate ReadsBytes(read: Reader) {
    forall b: byte :: read([b]) == b
  }

  lemma OneByteReads()
    ensures ReadsBytes(FromWire) && ReadsBytes(FromHost)
  {
    forall b: byte ensures FromWire([b]) == b && FromHost([b]) == b {
      WireDigits(b, []);
      HostDigits([], b);
      assert [b] + [] == [b] && [] + [b] == [b];
    }
  }

  // ---- From members to fields ----

  /** The members of m lie in the data as its struct lays them out. */
  ghost predicate LaidOut(m: Message, data: seq<byte>, read: Reader) {
    !m.Unsupported? && ReadsBytes(read) && MembersAt(Layout(KindOf(m)), data, Values(m), read)
  }

  /** Body member j, w bytes wide, at offset o of the struct. */
  lemma BodyMember(m: Message, data: seq<byte>, read: Reader, j: nat, o: nat)
    requires LaidOut(m, data, read) && j < |Body(KindOf(m))| && |BodyValues(m)| == |Body(KindOf(m))|
    requires o == 13 + Offset(Body(KindOf(m)), j)
    ensures var f := Body(KindOf(m))[j];
            o + f.width <= |data| && BodyValues(m)[j] == ReadMember(f, data[o..o + f.width], read)
  {
    var k := KindOf(m);
    BodyOffset(k, j);
    MemberSlice(Layout(k), data, Values(m), read, 4 + j, o);
    assert Layout(k)[4 + j] == Body(k)[j] && Values(m)[4 + j] == BodyValues(m)[j];
  }

  lemma OneByte(data: seq<byte>, read: Reader, o: nat)
    requires ReadsBytes(read) && o < |data|
    ensures read(data[o..o + 1]) == data[o]
  {
    assert data[o..o + 1] == [data[o]];
  }

  lemma HeaderMembers(m: Message, data: seq<byte>, read: Reader)
    requires LaidOut(m, data, read)
    ensures |data| >= 13 && HeaderFields(m.header, data, read)
  {
    var l, vs := Layout(KindOf(m)), Values(m);
    assert l[0] == Int(1) && l[1] == Int(2) && l[2] == Int(2) && l[3] == Int(8);
    assert Offset(l, 1) == 1 && Offset(l, 2) == 3 && Offset(l, 3) == 5;
    MemberSlice(l, data, vs, read, 0, 0);
    MemberSlice(l, data, vs, read, 1, 1);
    MemberSlice(l, data, vs, read, 2, 3);
    MemberSlice(l, data, vs, read, 3, 5);
    OneByte(data, read, 0);
  }

  lemma AddOrderFields(m: Message, data: seq<byte>, read: Reader)
    requires LaidOut(m, data, read) && m.AddOrder?
    ensures Fields(m, data, read)
  {
    HeaderMembers(m, data, read);
    StructSizes(A);
    BodyMember(m, data, read, 0, 13);
    BodyMember(m, data, read, 1, 21);
    BodyMember(m, data, read, 2, 22);
    BodyMember(m, data, read, 3, 26);
    BodyMember(m, data, read, 4, 34);
    OneByte(data, read, 21);
  }

  lemma ExecuteOrderFields(m: Message, data: seq<byte>, read: Reader)
    requires LaidOut(m, data, read) && m.ExecuteOrder?
    ensures Fields(m, data, read)
  {
    HeaderMembers(m, data, read);
    StructSizes(E);
    BodyMember(m, data, read, 0, 13);
    BodyMember(m, data, read, 1, 21);
    BodyMember(m, data, read, 2, 25);
  }

  lemma ExecuteWithPriceFields(m: Message, data: seq<byte>, read: Reader)
    requires LaidOut(m, data, read) && m.ExecuteWithPrice?
    ensures Fields(m, data, read)
  {
    HeaderMembers(m, data, read);
    StructSizes(C);
    BodyMember(m, data, read, 0, 13);
    BodyMember(m, data, read, 1, 21);
    BodyMember(m, data, read, 2, 25);
    BodyMember(m, data, read, 3, 33);
    BodyMember(m, data, read, 4, 34);
    OneByte(data, read, 33);
  }

  lemma OrderCancelFields(m: Message, data: seq<byte>, read: Reader)
    requires LaidOut(m, data, read) && m.OrderCancel?
    ensures Fields(m, data, read)
  {
    HeaderMembers(m, data, read);
    StructSizes(X);
    BodyMember(m, data, read, 0, 13);
    BodyMember(m, data, read, 1, 21);
  }

  lemma OrderDeleteFields(m: Message, data: seq<byte>, read: Reader)
    requires LaidOut(m, data, read) && m.OrderDelete?
    ensures Fields(m, data, read)
  {
    HeaderMembers(m, data, read);
    StructSizes(D);
    BodyMember(m, data, read, 0, 13);
  }

  lemma OrderReplaceFields(m: Message, data: seq<byte>, read: Reader)
    requires LaidOut(m, data, read) && m.OrderReplace?
    ensures Fields(m, data, read)
  {
    HeaderMembers(m, data, read);
    StructSizes(U);
    BodyMember(m, data, read, 0, 13);
    BodyMember(m, data, read, 1, 21);
    BodyMember(m, data, read, 2, 29);
    BodyMember(m, data, read, 3, 33);
  }

  lemma TradeFields(m: Message, data: seq<byte>, read: Reader)
    requires LaidOut(m, data, read) && m.Trade?
    ensures Fields(m, data, read)
  {
    HeaderMembers(m, data, read);
    StructSizes(P);
    BodyMember(m, data, read, 0, 13);
    BodyMember(m, data, read, 1, 21);
    BodyMember(m, data, read, 2, 22);
    BodyMember(m, data, read, 3, 26);
    BodyMember(m, data, read, 4, 34);
    BodyMember(m, data, read, 5, 38);
    OneByte(data, read, 21);
  }

  lemma SystemEventFields(m: Message, data: seq<byte>, read: Reader)
    requires LaidOut(m, data, read) && m.SystemEvent?
    ensures Fields(m, data, read)
  {
    HeaderMembers(m, data, read);
    StructSizes(S);
    BodyMember(m, data, read, 0, 13);
    OneByte(data, read, 13);
  }

  lemma DirectoryOffsets()
    ensures var b := Body(R);
            && Offset(b, 1) == 8 && Offset(b, 2) == 9 && Offset(b, 3) == 10 && Offset(b, 4) == 14
            && Offset(b, 5) == 15 && Offset(b, 6) == 16 && Offset(b, 7) == 18 && Offset(b, 8) == 19 && Offset(b, 9) == 20
            && Offset(b, 10) == 21 && Offset(b, 11) == 22 && Offset(b, 12) == 23 && Offset(b, 13) == 27
  {
    var b := Body(R);
    assert Offset(b, 4) == 14;
    assert Offset(b, 7) == 18;
    assert Offset(b, 10) == 21;
  }

  // The fourteen members of a stock directory message, a few at a time.

  lemma DirectoryFirst(m: Message, data: seq<byte>, read: Reader)
    requires LaidOut(m, data, read) && m.StockDirectory? && |data| == 41
    ensures m.stock == data[13..21] && m.marketCategory == data[21] && m.financialStatus == data[22] && m.roundLotSize == read(data[23..27])
  {
    DirectoryOffsets();
    BodyMember(m, data, read, 0, 13);
    BodyMember(m, data, read, 1, 21);
    BodyMember(m, data, read, 2, 22);
    BodyMember(m, data, read, 3, 23);
    OneByte(data, read, 21);
    OneByte(data, read, 22);
  }

  lemma DirectorySecond(m: Message, data: seq<byte>, read: Reader)
    requires LaidOut(m, data, read) && m.StockDirectory? && |data| == 41
    ensures m.roundLotsOnly == data[27] && m.issueClassification == data[28] && m.issueSubType == data[29..31]
  {
    DirectoryOffsets();
    BodyMember(m, data, read, 4, 27);
    BodyMember(m, data, read, 5, 28);
    BodyMember(m, data, read, 6, 29);
    OneByte(data, read, 27);
    OneByte(data, read, 28);
  }

  lemma DirectoryThird(m: Message, data: seq<byte>, read: Reader)
    requires LaidOut(m, data, read) && m.StockDirectory? && |data| == 41
    ensures m.authenticity == data[31] && m.shortSaleThreshold == data[32] && m.ipoFlag == data[33] && m.luldTier == data[34]
  {
    DirectoryOffsets();
    BodyMember(m, data, read, 7, 31);
    BodyMember(m, data, read, 8, 32);
    BodyMember(m, data, read, 9, 33);
    BodyMember(m, data, read, 10, 34);
    OneByte(data, read, 31);
    OneByte(data, read, 32);
    OneByte(data, read, 33);
    OneByte(data, read, 34);
  }

  lemma DirectoryFourth(m: Message, data: seq<byte>, read: Reader)
    requires LaidOut(m, data, read) && m.StockDirectory? && |data| == 41
    ensures m.etpFlag == data[35] && m.etpLeverage == read(data[36..40]) && m.inverse == data[40]
  {
    DirectoryOffsets();
    BodyMember(m, data, read, 11, 35);
    BodyMember(m, data, read, 12, 36);
    BodyMember(m, data, read, 13, 40);
    OneByte(data, read, 35);
    OneByte(data, read, 40);
  }

  lemma StockDirectoryFields(m: Message, data: seq<byte>, read: Reader)
    requires LaidOut(m, data, read) && m.StockDirectory?
    ensures Fields(m, data, read)
  {
    HeaderMembers(m, data, read);
    StructSizes(R);
    DirectoryFirst(m, data, read);
    DirectorySecond(m, data, read);
    DirectoryThird(m, data, read);
    DirectoryFourth(m, data, read);
  }

  lemma LaidOutFields(m: Message, data: seq<byte>, read: Reader)
    requires LaidOut(m, data, read)
    ensures Fields(m, data, read)
  {
    match m
    case AddOrder(_, _, _, _, _, _) => AddOrderFields(m, data, read);
    case ExecuteOrder(_, _, _, _) => ExecuteOrderFields(m, data, read);
    case ExecuteWithPrice(_, _, _, _, _, _) => ExecuteWithPriceFields(m, data, read);
    case OrderCancel(_, _, _) => OrderCancelFields(m, data, read);
    case OrderDelete(_, _) => OrderDeleteFields(m, data, read);
    case OrderReplace(_, _, _, _, _) => OrderReplaceFields(m, data, read);
    case Trade(_, _, _, _, _, _, _) => TradeFields(m, data, read);
    case SystemEvent(_, _) => SystemEventFields(m, data, read);
    case StockDirectory(_, _, _, _, _, _, _, _, _, _, _, _, _, _, _) => StockDirectoryFields(m, data, read);
  }

  // ---- On the wire and in the log ----

  /** Each field of a decoded message is read from its own bytes of the wire. */
  lemma DecodedFields(k: Kind, data: seq<byte>)
    requires |data| == RecordSize(k)
    ensures Fields(Decode(k, data), data, FromWire)
  {
    var l := Layout(k);
    DecodeValues(k, data);
    OneByteReads();
    var wire, m := ReadStruct(l, data), Decode(k, data);
    DecodedKind(k, data);
    forall i | 0 <= i < |l| ensures Values(m)[i] == ReadMember(l[i], At(l, data, i), FromWire) {
      ReadStructAt(l, data, i);
      SwappedOne(l[i], At(l, data, i));
    }
    LaidOutFields(m, data, FromWire);
  }

  lemma DecodedKind(k: Kind, data: seq<byte>)
    requires |data| == RecordSize(k)
    ensures !Decode(k, data).Unsupported? && KindOf(Decode(k, data)) == k
  {
    StructSizes(k);
    ReadStructConforms(Layout(k), data);
    SwapConforms(ReadStruct(Layout(k), data), Layout(k));
    ValuesBuild(k, SwapAll(ReadStruct(Layout(k), data)));
  }

  /** A parsed message has the fields that the data has on the wire. */
  lemma ParsedFields(data: seq<byte>, now: u64)
    requires Parse(data, now).Some?
    ensures Fields(Parse(data, now).value.message, data, FromWire)
  {
    DecodedFields(KindOfByte(data[0]).value, data);
  }

  /** A generated message carries its fields on the wire. */
  lemma EncodedFields(m: Message)
    requires !m.Unsupported?
    ensures Fields(m, Encode(m), FromWire)
  {
    DecodeEncode(m);
    DecodedFields(KindOf(m), Encode(m));
  }

  /** The log record of a message carries the same fields in host order. */
  lemma RecordFields(m: Message)
    requires !m.Unsupported?
    ensures Fields(m, Serialize(m), FromHost)
  {
    var l, vs, data := Layout(KindOf(m)), Values(m), Serialize(m);
    BuildValues(m);
    ReadImage(vs, l);
    OneByteReads();
    forall i | 0 <= i < |l| ensures vs[i] == ReadMember(l[i], At(l, data, i), FromHost) {
      ReadStructAt(l, data, i);
    }
    LaidOutFields(m, data, FromHost);
  }

  // ---- The dispatch ----

  /** The struct that parse reads, by the type character and the length of the data. */
  ghost predicate Dispatched(data: seq<byte>, r: Option<ParsedMessage>) {
    if |data| == 38 && data[0] == 'A' as int then r.Some? && r.value.message.AddOrder?
    else if |data| == 33 && data[0] == 'E' as int then r.Some? && r.value.message.ExecuteOrder?
    else if |data| == 38 && data[0] == 'C' as int then r.Some? && r.value.message.ExecuteWithPrice?
    else if |data| == 25 && data[0] == 'X' as int then r.Some? && r.value.message.OrderCancel?
    else if |data| == 21 && data[0] == 'D' as int then r.Some? && r.value.message.OrderDelete?
    else if |data| == 37 && data[0] == 'U' as int then r.Some? && r.value.message.OrderReplace?
    else if |data| == 46 && data[0] == 'P' as int then r.Some? && r.value.message.Trade?
    else if |data| == 14 && data[0] == 'S' as int then r.Some? && r.value.message.SystemEvent?
    else if |data| == 41 && data[0] == 'R' as int then r.Some? && r.value.message.StockDirectory?
    else r.None?
  }

  /** parse accepts exactly the nine characters with their lengths, and reads each as its own struct. */
  lemma ParseDispatch(data: seq<byte>, now: u64)
    ensures Dispatched(data, Parse(data, now))
  {
    if Parse(data, now).Some? {
      DecodedKind(KindOfByte(data[0]).value, data);
    } else {
      ParseAccepts(data, now);
    }
  }
}
