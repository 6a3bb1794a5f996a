/** The nine supported ITCH messages: packed layouts, the parser, the wire encoders and the log record. */
module ItchMessages {
  import opened Options
  import opened Bytes

  // ---- The structs ----

  datatype Header = Header(messageType: byte, stockLocate: u16, trackingNumber: u16, timestamp: u64)

  type Chars8 = s: seq<byte> | |s| == 8 witness [0, 0, 0, 0, 0, 0, 0, 0]
  type Chars2 = s: seq<byte> | |s| == 2 witness [0, 0]

  /** The tagged union of ParsedMessage; Unsupported stands for every type the switches do not know. */
  datatype Message =
    | AddOrder(header: Header, orderReference: u64, buySell: byte, shares: u32, stock: Chars8, price: u32)
    | ExecuteOrder(header: Header, orderReference: u64, executedShares: u32, matchNumber: u64)
    | ExecuteWithPrice(header: Header, orderReference: u64, executedShares: u32, matchNumber: u64, printable: byte, executionPrice: u32)
    | OrderCancel(header: Header, orderReference: u64, cancelledShares: u32)
    | OrderDelete(header: Header, orderReference: u64)
    | OrderReplace(header: Header, originalReference: u64, newReference: u64, shares: u32, price: u32)
    | Trade(header: Header, orderReference: u64, buySell: byte, shares: u32, stock: Chars8, price: u32, matchNumber: u64)
    | SystemEvent(header: Header, eventCode: byte)
    | StockDirectory(header: Header, stock: Chars8, marketCategory: byte, financialStatus: byte, roundLotSize: u32,
                     roundLotsOnly: byte, issueClassification: byte, issueSubType: Chars2, authenticity: byte,
                     shortSaleThreshold: byte, ipoFlag: byte, luldTier: byte, etpFlag: byte, etpLeverage: u32, inverse: byte)
    | Unsupported(typeByte: byte)

  datatype ParsedMessage = ParsedMessage(message: Message, parseTimestamp: u64)

  function Messages(ps: seq<ParsedMessage>): (ms: seq<Message>)
    ensures |ms| == |ps|
    ensures forall i :: 0 <= i < |ps| ==> ms[i] == ps[i].message
  {
    seq(|ps|, i requires 0 <= i < |ps| => ps[i].message)
  }

  datatype Kind = A | E | C | X | D | U | P | S | R

  function TypeByte(k: Kind): (b: byte) {
    match k
    case A => 'A' as int case E => 'E' as int case C => 'C' as int
    case X => 'X' as int case D => 'D' as int case U => 'U' as int
    case P => 'P' as int case S => 'S' as int case R => 'R' as int
  }

  /** The dispatch of parse: A and E are tested first, the others in a switch. */
  function KindOfByte(b: byte): (r: Option<Kind>)
    ensures r.Some? ==> TypeByte(r.value) == b
    ensures r.None? ==> forall k :: TypeByte(k) != b
  {
    if b == TypeByte(A) then Some(A)
    else if b == TypeByte(E) then Some(E)
    else if b == TypeByte(C) then Some(C)
    else if b == TypeByte(X) then Some(X)
    else if b == TypeByte(D) then Some(D)
    else if b == TypeByte(U) then Some(U)
    else if b == TypeByte(P) then Some(P)
    else if b == TypeByte(S) then Some(S)
    else if b == TypeByte(R) then Some(R)
    else None
  }

  // ---- Packed layouts ----

  /** One struct member: an integer of some bytes, or an array of characters. */
  datatype Field = Int(width: nat) | Chars(width: nat)

  const HEADER: seq<Field> := [Int(1), Int(2), Int(2), Int(8)]

  function Layout(k: Kind): seq<Field> {
    HEADER + Body(k)
  }

  function Body(k: Kind): seq<Field> {
    match k
    case A => [Int(8), Int(1), Int(4), Chars(8), Int(4)]
    case E => [Int(8), Int(4), Int(8)]
    case C => [Int(8), Int(4), Int(8), Int(1), Int(4)]
    case X => [Int(8), Int(4)]
    case D => [Int(8)]
    case U => [Int(8), Int(8), Int(4), Int(4)]
    case P => [Int(8), Int(1), Int(4), Chars(8), Int(4), Int(8)]
    case S => [Int(1)]
    case R => [Chars(8), Int(1), Int(1), Int(4), Int(1), Int(1), Chars(2), Int(1), Int(1), Int(1), Int(1), Int(1), Int(4), Int(1)]
  }

  /** `sizeof` of a packed struct */
  function SizeOf(layout: seq<Field>): nat {
    if layout == [] then 0 else layout[0].width + SizeOf(layout[1..])
  }

  function RecordSize(k: Kind): (n: nat) {
    match k
    case A => 38 case E => 33 case C => 38 case X => 25 case D => 21
    case U => 37 case P => 46 case S => 14 case R => 41
  }

  // ---- Member values ----

  datatype Value = Number(n: nat, width: nat) | Text(chars: seq<byte>)

  predicate Fits(v: Value, f: Field) {
    match f
    case Int(w) => v.Number? && v.width == w && v.n < Pow256(w)
    case Chars(w) => v.Text? && |v.chars| == w
  }

  predicate Conforms(vs: seq<Value>, layout: seq<Field>) {
    |vs| == |layout| && forall i :: 0 <= i < |vs| ==> Fits(vs[i], layout[i])
  }

  function ImageOf(v: Value): seq<byte> {
    match v
    case Number(n, w) => ToHost(n, w)
    case Text(s) => s
  }

  /** The struct in host memory. */
  function Image(vs: seq<Value>): seq<byte> {
    if vs == [] then [] else ImageOf(vs[0]) + Image(vs[1..])
  }

  /** The value of one member from its bytes in host memory. */
  function Member(f: Field, at: seq<byte>): (v: Value)
    requires |at| == f.width
    ensures Fits(v, f)
  {
    if f.Int? then Number(FromHost(at), f.width) else Text(at)
  }

  /** The struct that host memory holds, member by member at its packed offset. */
  function ReadStruct(layout: seq<Field>, data: seq<byte>): (vs: seq<Value>)
    requires |data| == SizeOf(layout)
    ensures |vs| == |layout|
  {
    if layout == [] then []
    else
      var w := layout[0].width;
      [Member(layout[0], data[..w])] + ReadStruct(layout[1..], data[w..])
  }

  /** ntoh and hton on one member: integers are swapped, characters are copied. */
  function SwapValue(v: Value): Value {
    match v
    case Number(n, w) => Number(Swap(n, w), w)
    case Text(s) => v
  }

  function SwapAll(vs: seq<Value>): (r: seq<Value>)
    ensures |r| == |vs|
    ensures forall i :: 0 <= i < |vs| ==> r[i] == SwapValue(vs[i])
  {
    seq(|vs|, i requires 0 <= i < |vs| => SwapValue(vs[i]))
  }

  // ---- Messages and their members ----

  function KindOf(m: Message): Kind
    requires !m.Unsupported?
  {
    match m
    case AddOrder(_, _, _, _, _, _) => A
    case ExecuteOrder(_, _, _, _) => E
    case ExecuteWithPrice(_, _, _, _, _, _) => C
    case OrderCancel(_, _, _) => X
    case OrderDelete(_, _) => D
    case OrderReplace(_, _, _, _, _) => U
    case Trade(_, _, _, _, _, _, _) => P
    case SystemEvent(_, _) => S
    case StockDirectory(_, _, _, _, _, _, _, _, _, _, _, _, _, _, _) => R
  }

  function HeaderValues(h: Header): seq<Value> {
    [Number(h.messageType, 1), Number(h.stockLocate, 2), Number(h.trackingNumber, 2), Number(h.timestamp, 8)]
  }

  function BodyValues(m: Message): seq<Value>
    requires !m.Unsupported?
  {
    match m
    case AddOrder(_, ref, side, shares, stock, price) =>
      [Number(ref, 8), Number(side, 1), Number(shares, 4), Text(stock), Number(price, 4)]
    case ExecuteOrder(_, ref, shares, matched) => [Number(ref, 8), Number(shares, 4), Number(matched, 8)]
    case ExecuteWithPrice(_, ref, shares, matched, printable, price) =>
      [Number(ref, 8), Number(shares, 4), Number(matched, 8), Number(printable, 1), Number(price, 4)]
    case OrderCancel(_, ref, shares) => [Number(ref, 8), Number(shares, 4)]
    case OrderDelete(_, ref) => [Number(ref, 8)]
    case OrderReplace(_, ref, ref', shares, price) => [Number(ref, 8), Number(ref', 8), Number(shares, 4), Number(price, 4)]
    case Trade(_, ref, side, shares, stock, price, matched) =>
      [Number(ref, 8), Number(side, 1), Number(shares, 4), Text(stock), Number(price, 4), Number(matched, 8)]
    case SystemEvent(_, code) => [Number(code, 1)]
    case StockDirectory(_, stock, category, status, lot, only, class_, sub, auth, short_, ipo, luld, etp, leverage, inverse) =>
      [Text(stock), Number(category, 1), Number(status, 1), Number(lot, 4), Number(only, 1), Number(class_, 1), Text(sub),
       Number(auth, 1), Number(short_, 1), Number(ipo, 1), Number(luld, 1), Number(etp, 1), Number(leverage, 4), Number(inverse, 1)]
  }

  function Values(m: Message): seq<Value>
    requires !m.Unsupported?
  {
    HeaderValues(m.header) + BodyValues(m)
  }

  /** The members of a stock directory message after its header. */
  predicate DirectoryFits(b: seq<Value>) {
    && |b| == 14
    && Fits(b[0], Chars(8)) && Fits(b[1], Int(1)) && Fits(b[2], Int(1)) && Fits(b[3], Int(4)) && Fits(b[4], Int(1))
    && Fits(b[5], Int(1)) && Fits(b[6], Chars(2)) && Fits(b[7], Int(1)) && Fits(b[8], Int(1)) && Fits(b[9], Int(1))
    && Fits(b[10], Int(1)) && Fits(b[11], Int(1)) && Fits(b[12], Int(4)) && Fits(b[13], Int(1))
  }

  lemma DirectoryBody(b: seq<Value>)
    requires Conforms(b, Body(R))
    ensures DirectoryFits(b)
  {
    var f := Body(R);
    assert Fits(b[0], f[0]) && Fits(b[1], f[1]) && Fits(b[2], f[2]) && Fits(b[3], f[3]) && Fits(b[4], f[4]);
    assert Fits(b[5], f[5]) && Fits(b[6], f[6]) && Fits(b[7], f[7]) && Fits(b[8], f[8]) && Fits(b[9], f[9]);
    assert Fits(b[10], f[10]) && Fits(b[11], f[11]) && Fits(b[12], f[12]) && Fits(b[13], f[13]);
  }

  function BuildDirectory(h: Header, b: seq<Value>): Message
    requires DirectoryFits(b)
  {
    assert Pow256(1) == 256;
    StockDirectory(h, b[0].chars, b[1].n, b[2].n, b[3].n, b[4].n, b[5].n, b[6].chars,
                   b[7].n, b[8].n, b[9].n, b[10].n, b[11].n, b[12].n, b[13].n)
  }

  lemma BodyPart(k: Kind, vs: seq<Value>)
    requires Conforms(vs, Layout(k))
    ensures |vs| == 4 + |Body(k)| && Conforms(vs[4..], Body(k))
  {
    forall i | 0 <= i < |Body(k)| ensures Fits(vs[4 + i], Body(k)[i]) {
      assert Layout(k)[4 + i] == Body(k)[i];
    }
  }

  function Build(k: Kind, vs: seq<Value>): Message
    requires Conforms(vs, Layout(k))
  {
    assert Pow256(1) == 256;
    assert forall i :: 0 <= i < |vs| ==> Fits(vs[i], Layout(k)[i]);
    var h := Header(vs[0].n, vs[1].n, vs[2].n, vs[3].n);
    BodyPart(k, vs);
    match k
    case A => AddOrder(h, vs[4].n, vs[5].n, vs[6].n, vs[7].chars, vs[8].n)
    case E => ExecuteOrder(h, vs[4].n, vs[5].n, vs[6].n)
    case C => ExecuteWithPrice(h, vs[4].n, vs[5].n, vs[6].n, vs[7].n, vs[8].n)
    case X => OrderCancel(h, vs[4].n, vs[5].n)
    case D => OrderDelete(h, vs[4].n)
    case U => OrderReplace(h, vs[4].n, vs[5].n, vs[6].n, vs[7].n)
    case P => Trade(h, vs[4].n, vs[5].n, vs[6].n, vs[7].chars, vs[8].n, vs[9].n)
    case S => SystemEvent(h, vs[4].n)
    case R =>
      DirectoryBody(vs[4..]);
      BuildDirectory(h, vs[4..])
  }
}
