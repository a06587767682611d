/** The binary live-feed format: little-endian packets of fixed length per response code,
    several to a message. Floats are kept as their 32-bit patterns. */
module FeedWire {
  import opened Outcomes

  type byte = b: int | 0 <= b < 256

  // ----- little-endian integers -----

  function Pow256(n: nat): nat {
    if n == 0 then 1 else 256 * Pow256(n - 1)
  }

  function FromBytes(s: seq<byte>): nat {
    if s == [] then 0 else s[0] + 256 * FromBytes(s[1..])
  }

  function ToBytes(v: nat, n: nat): (s: seq<byte>)
    ensures |s| == n
  {
    if n == 0 then [] else [v % 256] + ToBytes(v / 256, n - 1)
  }

  lemma {:induction false} FromTo(v: nat, n: nat)
    requires v < Pow256(n)
    ensures FromBytes(ToBytes(v, n)) == v
  {
    if n > 0 {
      FromTo(v / 256, n - 1);
      assert ToBytes(v, n)[1..] == ToBytes(v / 256, n - 1);
    }
  }

  lemma {:induction false} ToFrom(s: seq<byte>)
    ensures FromBytes(s) < Pow256(|s|)
    ensures ToBytes(FromBytes(s), |s|) == s
  {
    if s != [] {
      ToFrom(s[1..]);
      assert s == [s[0]] + s[1..];
      LowByte(s[0], FromBytes(s[1..]));
    }
  }

  lemma LowByte(low: nat, high: nat)
    requires low < 256
    ensures (low + 256 * high) % 256 == low && (low + 256 * high) / 256 == high
  {
  }

  // ----- layouts -----

  datatype Field =
    | LastPrice | LastQuantity | LastTradeEpoch | AveragePrice | Volume | TotalSellQuantity | TotalBuyQuantity
    | OpenInterest | HighestOpenInterest | LowestOpenInterest | PreviousClose | PreviousOpenInterest
    | DayOpen | DayClose | DayHigh | DayLow | DisconnectCode

  datatype Spec = Spec(field: Field, offset: nat, width: nat)

  datatype DepthLevel = DepthLevel(
    bidQuantity: nat, askQuantity: nat, bidOrders: nat, askOrders: nat, bidPrice: nat, askPrice: nat)

  datatype Packet = Packet(
    code: nat, length: nat, segment: nat, securityId: nat, fields: map<Field, nat>, depth: seq<DepthLevel>)

  const MARKET_STATUS: nat := 7
  const FULL: nat := 8

  function Length(code: nat): Option<nat> {
    match code
    case 2 => Some(16)
    case 4 => Some(50)
    case 5 => Some(12)
    case 6 => Some(16)
    case MARKET_STATUS => Some(8)
    case 8 => Some(162)
    case 50 => Some(10)
    case _ => None
  }

  /** The fields of a packet with their byte offsets. */
  function Layout(code: nat): seq<Spec> {
    match code
    case 2 => [Spec(LastPrice, 8, 4), Spec(LastTradeEpoch, 12, 4)]
    case 4 => [Spec(LastPrice, 8, 4), Spec(LastQuantity, 12, 2), Spec(LastTradeEpoch, 14, 4),
               Spec(AveragePrice, 18, 4), Spec(Volume, 22, 4), Spec(TotalSellQuantity, 26, 4),
               Spec(TotalBuyQuantity, 30, 4), Spec(DayOpen, 34, 4), Spec(DayClose, 38, 4),
               Spec(DayHigh, 42, 4), Spec(DayLow, 46, 4)]
    case 5 => [Spec(OpenInterest, 8, 4)]
    case 6 => [Spec(PreviousClose, 8, 4), Spec(PreviousOpenInterest, 12, 4)]
    case 8 => [Spec(LastPrice, 8, 4), Spec(LastQuantity, 12, 2), Spec(LastTradeEpoch, 14, 4),
               Spec(AveragePrice, 18, 4), Spec(Volume, 22, 4), Spec(TotalSellQuantity, 26, 4),
               Spec(TotalBuyQuantity, 30, 4), Spec(OpenInterest, 34, 4), Spec(HighestOpenInterest, 38, 4),
               Spec(LowestOpenInterest, 42, 4), Spec(DayOpen, 46, 4), Spec(DayClose, 50, 4),
               Spec(DayHigh, 54, 4), Spec(DayLow, 58, 4)]
    case 50 => [Spec(DisconnectCode, 8, 2)]
    case _ => []
  }

  const DEPTH_START: nat := 62
  const DEPTH_WIDTH: nat := 20
  const DEPTH_LEVELS: nat := 5

  /** Where the named fields end and, for a full packet, the depth levels begin. */
  function BodyEnd(layout: seq<Spec>): nat {
    if layout == [] then 8 else layout[|layout| - 1].offset + layout[|layout| - 1].width
  }

  function EndOf(f: Spec): nat {
    f.offset + f.width
  }

  /** Each field starts where the one before it ends. */
  ghost predicate Chained(layout: seq<Spec>) {
    && (layout != [] ==> layout[0].offset == 8)
    && (forall i :: 0 <= i < |layout| - 1 ==> EndOf(layout[i]) == layout[i + 1].offset)
  }

  ghost predicate DistinctFields(layout: seq<Spec>) {
    forall i, k :: 0 <= i < k < |layout| ==> layout[i].field != layout[k].field
  }

  function DepthCount(code: nat): nat {
    if code == FULL then DEPTH_LEVELS else 0
  }

  lemma LayoutsChained(code: nat)
    requires Length(code).Some?
    ensures Chained(Layout(code))
  {
    if code == 8 { assert Chained(Layout(8)); }
    if code == 4 { assert Chained(Layout(4)); }
  }

  /** The place of a field in the order that every layout follows. */
  ghost function Rank(f: Field): nat {
    match f
    case LastPrice => 0
    case LastQuantity => 1
    case LastTradeEpoch => 2
    case AveragePrice => 3
    case Volume => 4
    case TotalSellQuantity => 5
    case TotalBuyQuantity => 6
    case OpenInterest => 7
    case HighestOpenInterest => 8
    case LowestOpenInterest => 9
    case PreviousClose => 10
    case PreviousOpenInterest => 11
    case DayOpen => 12
    case DayClose => 13
    case DayHigh => 14
    case DayLow => 15
    case DisconnectCode => 16
  }

  ghost predicate Ascending(layout: seq<Spec>) {
    forall i :: 0 <= i < |layout| - 1 ==> Rank(layout[i].field) < Rank(layout[i + 1].field)
  }

  lemma LayoutsAscend(code: nat)
    requires Length(code).Some?
    ensures Ascending(Layout(code))
  {
    if code == 8 { assert Ascending(Layout(8)); }
    if code == 4 { assert Ascending(Layout(4)); }
  }

  lemma {:induction false} RanksApart(layout: seq<Spec>, i: nat, k: nat)
    requires Ascending(layout) && i < k < |layout|
    ensures Rank(layout[i].field) < Rank(layout[k].field)
    decreases k
  {
    hide Rank;
    assert Rank(layout[k - 1].field) < Rank(layout[k].field);
    if i < k - 1 { RanksApart(layout, i, k - 1); }
  }

  lemma LayoutsDistinct(code: nat)
    requires Length(code).Some?
    ensures DistinctFields(Layout(code))
  {
    hide Layout, Rank, Length;
    LayoutsAscend(code);
    forall i, k | 0 <= i < k < |Layout(code)| ensures Layout(code)[i].field != Layout(code)[k].field {
      RanksApart(Layout(code), i, k);
    }
  }

  /** The layouts cover every byte of a packet after its header, without gap or overlap. */
  lemma LayoutsCover(code: nat)
    requires Length(code).Some?
    ensures Chained(Layout(code)) && DistinctFields(Layout(code))
    ensures BodyEnd(Layout(code)) + DepthCount(code) * DEPTH_WIDTH == Length(code).value
    ensures code == FULL ==> BodyEnd(Layout(code)) == DEPTH_START
  {
    hide Chained, DistinctFields;
    LayoutsChained(code);
    LayoutsDistinct(code);
  }

  // ----- decoding -----

  function Read(bytes: seq<byte>, offset: nat, width: nat): nat
    requires offset + width <= |bytes|
  {
    FromBytes(bytes[offset..offset + width])
  }

  ghost predicate InRange(layout: seq<Spec>, n: nat) {
    forall i :: 0 <= i < |layout| ==> layout[i].offset + layout[i].width <= n
  }

  function ReadFields(layout: seq<Spec>, bytes: seq<byte>): map<Field, nat>
    requires InRange(layout, |bytes|)
  {
    if layout == [] then map[]
    else
      var last := layout[|layout| - 1];
      ReadFields(layout[..|layout| - 1], bytes)[last.field := Read(bytes, last.offset, last.width)]
  }

  function ReadLevel(bytes: seq<byte>, at: nat): DepthLevel
    requires at + DEPTH_WIDTH <= |bytes|
  {
    DepthLevel(Read(bytes, at, 4), Read(bytes, at + 4, 4), Read(bytes, at + 8, 2), Read(bytes, at + 10, 2),
               Read(bytes, at + 12, 4), Read(bytes, at + 16, 4))
  }

  function ReadDepth(bytes: seq<byte>, start: nat, count: nat): seq<DepthLevel>
    requires start + count * DEPTH_WIDTH <= |bytes|
  {
    if count == 0 then []
    else ReadDepth(bytes, start, count - 1) + [ReadLevel(bytes, start + (count - 1) * DEPTH_WIDTH)]
  }

  lemma LayoutInRange(code: nat)
    requires Length(code).Some?
    ensures InRange(Layout(code), Length(code).value)
  {
  }

  /** A packet of the general decoder: the declared length must be the actual one and the one its
      code prescribes. Market-status packets are not its business. */
  function DecodePacket(bytes: seq<byte>): Result<Packet> {
    if |bytes| < 8 then Err("packet is shorter than its header")
    else if Read(bytes, 1, 2) != |bytes| then Err("packet length mismatch")
    else if Length(bytes[0]).None? || bytes[0] == MARKET_STATUS then Err("unsupported response code")
    else if |bytes| != Length(bytes[0]).value then Err("invalid packet length")
    else
      LayoutInRange(bytes[0]);
      LayoutsCover(bytes[0]);
      Ok(Packet(bytes[0], |bytes|, bytes[3], Read(bytes, 4, 4), ReadFields(Layout(bytes[0]), bytes),
                ReadDepth(bytes, BodyEnd(Layout(bytes[0])), DepthCount(bytes[0]))))
  }

  /** A market-status packet is its header. */
  function DecodeStatus(bytes: seq<byte>): Result<Packet>
    requires |bytes| >= 8
  {
    if |bytes| != 8 then Err("invalid market-status packet length")
    else Ok(Packet(MARKET_STATUS, 8, bytes[3], Read(bytes, 4, 4), map[], []))
  }

  /** One packet inside a message, whose declared length cut it out. */
  function DecodeFrame(bytes: seq<byte>): Result<Packet>
    requires |bytes| >= 8
  {
    if bytes[0] == MARKET_STATUS then DecodeStatus(bytes) else DecodePacket(bytes)
  }

  /** Reads bytes by the layout of their code, whichever decoder they belong to. */
  ghost function ByLayout(bytes: seq<byte>): Option<Packet> {
    if |bytes| < 8 || Read(bytes, 1, 2) != |bytes| || Length(bytes[0]).None? || |bytes| != Length(bytes[0]).value then None
    else
      LayoutInRange(bytes[0]);
      LayoutsCover(bytes[0]);
      Some(Packet(bytes[0], |bytes|, bytes[3], Read(bytes, 4, 4), ReadFields(Layout(bytes[0]), bytes),
                  ReadDepth(bytes, BodyEnd(Layout(bytes[0])), DepthCount(bytes[0]))))
  }

  /** Both decoders read by the layout; the general one refuses market-status packets. */
  lemma DecodersAgree(bytes: seq<byte>)
    ensures DecodePacket(bytes).Ok? <==> ByLayout(bytes).Some? && bytes[0] != MARKET_STATUS
    ensures DecodePacket(bytes).Ok? ==> ByLayout(bytes) == Some(DecodePacket(bytes).value)
    ensures |bytes| >= 8 && Read(bytes, 1, 2) == |bytes| ==> (DecodeFrame(bytes).Ok? <==> ByLayout(bytes).Some?)
    ensures |bytes| >= 8 && Read(bytes, 1, 2) == |bytes| && DecodeFrame(bytes).Ok? ==> ByLayout(bytes) == Some(DecodeFrame(bytes).value)
  {
    hide FromBytes;
  }

  /** The packets of a message, read front to back; any bad packet rejects the whole message. */
  function DecodeAll(message: seq<byte>): Result<seq<Packet>>
    decreases |message|
  {
    if message == [] then Ok([])
    else if |message| < 8 then Err("message ends with a truncated header")
    else
      var length := Read(message, 1, 2);
      if length < 8 || length > |message| then Err("invalid packet length")
      else
        var first := DecodeFrame(message[..length]);
        if first.Err? then Err(first.error)
        else
          var rest := DecodeAll(message[length..]);
          if rest.Err? then rest else Ok([first.value] + rest.value)
  }

  function DecodeMessage(message: seq<byte>): Result<seq<Packet>> {
    if message == [] then Err("message cannot be empty") else DecodeAll(message)
  }

  /** The decoding loop: an offset that advances by each packet's length. */
  method DecodeFeedMessage(message: seq<byte>) returns (r: Result<seq<Packet>>)
    ensures r == DecodeMessage(message)
  {
    hide DecodePacket, DecodeStatus, Read, DecodeAll;
    if message == [] { return Err("message cannot be empty"); }
    var packets: seq<Packet> := [];
    var offset := 0;
    assert message[0..] == message;
    PrecededNone(DecodeAll(message));
    while offset < |message|
      invariant 0 <= offset <= |message|
      invariant DecodeAll(message) == Preceded(packets, DecodeAll(message[offset..]))
      decreases |message| - offset
    {
      NextPacket(message, offset);
      var remaining := |message| - offset;
      if remaining < 8 { return Err("message ends with a truncated header"); }
      var length := Read(message, offset + 1, 2);
      if length < 8 || length > remaining { return Err("invalid packet length"); }
      var bytes := message[offset..offset + length];
      var packet := if message[offset] == MARKET_STATUS then DecodeStatus(bytes) else DecodePacket(bytes);
      if packet.Err? { return Err(packet.error); }
      PrecededStep(packets, packet.value, DecodeAll(message[offset + length..]));
      packets := packets + [packet.value];
      offset := offset + length;
    }
    NothingLeft(message, offset, packets);
    return Ok(packets);
  }

  /** What decoding does at one offset. */
  lemma NextPacket(message: seq<byte>, offset: nat)
    requires offset < |message|
    ensures |message| - offset < 8 ==> DecodeAll(message[offset..]) == Err("message ends with a truncated header")
    ensures |message| - offset >= 8 ==>
      var length := Read(message, offset + 1, 2);
      if length < 8 || length > |message| - offset then DecodeAll(message[offset..]) == Err("invalid packet length")
      else
        var packet, rest := DecodeFrame(message[offset..offset + length]), DecodeAll(message[offset + length..]);
        DecodeAll(message[offset..]) == if packet.Err? then Err(packet.error) else if rest.Err? then rest else Ok([packet.value] + rest.value)
  {
    hide DecodeFrame, FromBytes;
    if |message| - offset >= 8 {
      var tail := message[offset..];
      assert tail[1..3] == message[offset + 1..offset + 3];
      var length := Read(message, offset + 1, 2);
      if 8 <= length <= |message| - offset {
        assert tail[..length] == message[offset..offset + length] && tail[length..] == message[offset + length..];
      }
    }
  }

  lemma NothingLeft(message: seq<byte>, offset: nat, packets: seq<Packet>)
    requires offset == |message|
    ensures Preceded(packets, DecodeAll(message[offset..])) == Ok(packets)
  {
    assert message[offset..] == [] && packets + [] == packets;
  }

  function Preceded(packets: seq<Packet>, r: Result<seq<Packet>>): Result<seq<Packet>> {
    if r.Err? then r else Ok(packets + r.value)
  }

  lemma PrecededNone(r: Result<seq<Packet>>)
    ensures Preceded([], r) == r
  {
    if r.Ok? { assert [] + r.value == r.value; }
  }

  lemma PrecededStep(packets: seq<Packet>, p: Packet, r: Result<seq<Packet>>)
    ensures Preceded(packets, if r.Err? then r else Ok([p] + r.value)) == Preceded(packets + [p], r)
  {
    if r.Ok? { assert packets + ([p] + r.value) == (packets + [p]) + r.value; }
  }

  // ----- encoding -----

  function WriteFields(layout: seq<Spec>, fields: map<Field, nat>): seq<byte> {
    if layout == [] then []
    else
      var last := layout[|layout| - 1];
      WriteFields(layout[..|layout| - 1], fields)
      + ToBytes(if last.field in fields then fields[last.field] else 0, last.width)
  }

  function WriteLevel(d: DepthLevel): (s: seq<byte>)
    ensures |s| == DEPTH_WIDTH
  {
    ToBytes(d.bidQuantity, 4) + ToBytes(d.askQuantity, 4) + ToBytes(d.bidOrders, 2) + ToBytes(d.askOrders, 2)
    + ToBytes(d.bidPrice, 4) + ToBytes(d.askPrice, 4)
  }

  function WriteDepth(depth: seq<DepthLevel>): (s: seq<byte>)
    ensures |s| == |depth| * DEPTH_WIDTH
  {
    if depth == [] then [] else WriteDepth(depth[..|depth| - 1]) + WriteLevel(depth[|depth| - 1])
  }

  function Header(p: Packet): (s: seq<byte>)
    ensures |s| == 8
  {
    ToBytes(p.code, 1) + ToBytes(p.length, 2) + ToBytes(p.segment, 1) + ToBytes(p.securityId, 4)
  }

  function Encode(p: Packet): seq<byte> {
    Header(p) + WriteFields(Layout(p.code), p.fields) + WriteDepth(p.depth)
  }

  function EncodeAll(ps: seq<Packet>): seq<byte> {
    if ps == [] then [] else Encode(ps[0]) + EncodeAll(ps[1..])
  }

  // ----- well-formed packets -----

  ghost predicate LevelOk(d: DepthLevel) {
    && d.bidQuantity < Pow256(4) && d.askQuantity < Pow256(4) && d.bidOrders < Pow256(2)
    && d.askOrders < Pow256(2) && d.bidPrice < Pow256(4) && d.askPrice < Pow256(4)
  }

  ghost predicate DepthOk(depth: seq<DepthLevel>) {
    forall i :: 0 <= i < |depth| ==> LevelOk(depth[i])
  }

  ghost predicate Mentions(layout: seq<Spec>, f: Field) {
    exists i :: 0 <= i < |layout| && layout[i].field == f
  }

  ghost predicate FieldsOk(layout: seq<Spec>, fields: map<Field, nat>) {
    && (forall f :: f in fields <==> Mentions(layout, f))
    && (forall i :: 0 <= i < |layout| ==> layout[i].field in fields && fields[layout[i].field] < Pow256(layout[i].width))
  }

  ghost predicate WellFormed(p: Packet) {
    && Length(p.code) == Some(p.length) && p.segment < 256 && p.securityId < Pow256(4)
    && FieldsOk(Layout(p.code), p.fields)
    && |p.depth| == DepthCount(p.code) && DepthOk(p.depth)
  }

  ghost predicate AllWellFormed(ps: seq<Packet>) {
    forall i :: 0 <= i < |ps| ==> WellFormed(ps[i])
  }

  // ----- fields both ways -----

  lemma {:induction false} WriteLength(layout: seq<Spec>, fields: map<Field, nat>)
    requires Chained(layout)
    ensures |WriteFields(layout, fields)| == BodyEnd(layout) - 8
  {
    if layout != [] {
      var n := |layout| - 1;
      PrefixChained(layout);
      WriteLength(layout[..n], fields);
    }
  }

  lemma PrefixChained(layout: seq<Spec>)
    requires layout != [] && Chained(layout)
    ensures Chained(layout[..|layout| - 1])
    ensures layout[|layout| - 1].offset == BodyEnd(layout[..|layout| - 1])
  {
    var n := |layout| - 1;
    if n > 0 { assert EndOf(layout[n - 1]) == layout[n].offset; }
    forall i | 0 <= i < n - 1 ensures EndOf(layout[..n][i]) == layout[..n][i + 1].offset {
      assert EndOf(layout[i]) == layout[i + 1].offset;
    }
  }

  /** Writing what was read restores the bytes. */
  lemma {:induction false} WriteRead(layout: seq<Spec>, bytes: seq<byte>)
    requires Chained(layout) && DistinctFields(layout) && InRange(layout, |bytes|) && BodyEnd(layout) <= |bytes| && 8 <= |bytes|
    ensures 8 <= BodyEnd(layout)
    ensures WriteFields(layout, ReadFields(layout, bytes)) == bytes[8..BodyEnd(layout)]
  {
    hide FromBytes, ToBytes, Pow256;
    if layout != [] {
      var n := |layout| - 1;
      var last := layout[n];
      PrefixChained(layout);
      WriteRead(layout[..n], bytes);
      var fields := ReadFields(layout[..n], bytes);
      SameOnPrefix(layout[..n], fields, ReadFields(layout, bytes));
      ToFrom(bytes[last.offset..last.offset + last.width]);
      assert bytes[8..BodyEnd(layout)] == bytes[8..last.offset] + bytes[last.offset..last.offset + last.width];
    }
  }

  /** Only the fields of a layout matter to what is written for it. */
  lemma {:induction false} SameOnPrefix(layout: seq<Spec>, f: map<Field, nat>, g: map<Field, nat>)
    requires forall i :: 0 <= i < |layout| ==> (layout[i].field in f <==> layout[i].field in g)
    requires forall i :: 0 <= i < |layout| && layout[i].field in f ==> f[layout[i].field] == g[layout[i].field]
    ensures WriteFields(layout, f) == WriteFields(layout, g)
  {
    if layout != [] { SameOnPrefix(layout[..|layout| - 1], f, g); }
  }

  lemma {:induction false} ReadKeys(layout: seq<Spec>, bytes: seq<byte>, f: Field)
    requires InRange(layout, |bytes|)
    ensures f in ReadFields(layout, bytes) <==> Mentions(layout, f)
  {
    if layout != [] {
      ReadKeys(layout[..|layout| - 1], bytes, f);
      MentionsLast(layout, f);
    }
  }

  lemma ReadFieldsOk(layout: seq<Spec>, bytes: seq<byte>)
    requires DistinctFields(layout) && InRange(layout, |bytes|)
    ensures FieldsOk(layout, ReadFields(layout, bytes))
  {
    hide Mentions, Pow256, ReadFields, FromBytes;
    forall f ensures f in ReadFields(layout, bytes) <==> Mentions(layout, f) {
      ReadKeys(layout, bytes, f);
    }
    forall i | 0 <= i < |layout|
      ensures layout[i].field in ReadFields(layout, bytes)
      ensures ReadFields(layout, bytes)[layout[i].field] < Pow256(layout[i].width)
    {
      ReadFieldAt(layout, bytes, i);
      ToFrom(bytes[layout[i].offset..layout[i].offset + layout[i].width]);
    }
  }

  lemma MentionsLast(layout: seq<Spec>, f: Field)
    requires layout != []
    ensures Mentions(layout, f) <==> Mentions(layout[..|layout| - 1], f) || f == layout[|layout| - 1].field
  {
    var n := |layout| - 1;
    if Mentions(layout[..n], f) {
      var i :| 0 <= i < n && layout[..n][i].field == f;
      assert layout[i].field == f;
    }
    if i :| 0 <= i < |layout| && layout[i].field == f {
      if i < n { assert layout[..n][i].field == f; }
    }
  }

  /** Reading what was written restores each field. */
  lemma {:induction false} ReadWritten(layout: seq<Spec>, fields: map<Field, nat>, head: seq<byte>, tail: seq<byte>, i: nat)
    requires Chained(layout) && |head| == 8 && i < |layout|
    requires layout[i].field in fields && fields[layout[i].field] < Pow256(layout[i].width)
    ensures var bytes := head + WriteFields(layout, fields) + tail;
      && layout[i].offset + layout[i].width <= |bytes|
      && Read(bytes, layout[i].offset, layout[i].width) == fields[layout[i].field]
  {
    hide FromBytes, ToBytes, Pow256;
    var n := |layout| - 1;
    var last := layout[n];
    var written := ToBytes(if last.field in fields then fields[last.field] else 0, last.width);
    var before := WriteFields(layout[..n], fields);
    var bytes := head + WriteFields(layout, fields) + tail;
    PrefixChained(layout);
    WriteLength(layout[..n], fields);
    assert bytes == head + before + (written + tail);
    if i < n {
      ReadWritten(layout[..n], fields, head, written + tail, i);
    } else {
      assert bytes[last.offset..last.offset + last.width] == written;
      FromTo(fields[last.field], last.width);
    }
  }

  lemma {:induction false} ReadAllWritten(layout: seq<Spec>, fields: map<Field, nat>, bytes: seq<byte>)
    requires DistinctFields(layout) && InRange(layout, |bytes|) && FieldsOk(layout, fields)
    requires forall i :: 0 <= i < |layout| ==> Read(bytes, layout[i].offset, layout[i].width) == fields[layout[i].field]
    ensures ReadFields(layout, bytes) == fields
  {
    ReadFieldsOk(layout, bytes);
    var r := ReadFields(layout, bytes);
    forall f | f in fields ensures f in r && r[f] == fields[f] {
      assert Mentions(layout, f);
      var i :| 0 <= i < |layout| && layout[i].field == f;
      ReadFieldAt(layout, bytes, i);
    }
    assert r.Keys == fields.Keys;
  }

  lemma {:induction false} ReadFieldAt(layout: seq<Spec>, bytes: seq<byte>, i: nat)
    requires DistinctFields(layout) && InRange(layout, |bytes|) && i < |layout|
    ensures layout[i].field in ReadFields(layout, bytes)
    ensures ReadFields(layout, bytes)[layout[i].field] == Read(bytes, layout[i].offset, layout[i].width)
  {
    var n := |layout| - 1;
    if i < n { ReadFieldAt(layout[..n], bytes, i); }
  }

  // ----- depth both ways -----

  lemma SixFields(bytes: seq<byte>, at: nat)
    requires at + DEPTH_WIDTH <= |bytes|
    ensures WriteLevel(ReadLevel(bytes, at)) == bytes[at..at + DEPTH_WIDTH]
    ensures LevelOk(ReadLevel(bytes, at))
  {
    hide Pow256, FromBytes, ToBytes;
    ToFrom(bytes[at..at + 4]);
    ToFrom(bytes[at + 4..at + 8]);
    ToFrom(bytes[at + 8..at + 10]);
    ToFrom(bytes[at + 10..at + 12]);
    ToFrom(bytes[at + 12..at + 16]);
    ToFrom(bytes[at + 16..at + 20]);
    Joined(bytes, at, at + 4, at + 8);
    Joined(bytes, at, at + 8, at + 10);
    Joined(bytes, at, at + 10, at + 12);
    Joined(bytes, at, at + 12, at + 16);
    Joined(bytes, at, at + 16, at + 20);
  }

  lemma Joined(bytes: seq<byte>, a: nat, b: nat, c: nat)
    requires a <= b <= c <= |bytes|
    ensures bytes[a..b] + bytes[b..c] == bytes[a..c]
  {
  }

  lemma {:induction false} WriteReadDepth(bytes: seq<byte>, start: nat, count: nat)
    requires start + count * DEPTH_WIDTH <= |bytes|
    ensures |ReadDepth(bytes, start, count)| == count && DepthOk(ReadDepth(bytes, start, count))
    ensures WriteDepth(ReadDepth(bytes, start, count)) == bytes[start..start + count * DEPTH_WIDTH]
  {
    hide WriteLevel, ReadLevel, LevelOk;
    if count > 0 {
      var at := start + (count - 1) * DEPTH_WIDTH;
      WriteReadDepth(bytes, start, count - 1);
      SixFields(bytes, at);
      var d := ReadDepth(bytes, start, count);
      assert d[..count - 1] == ReadDepth(bytes, start, count - 1);
      assert bytes[start..start + count * DEPTH_WIDTH] == bytes[start..at] + bytes[at..at + DEPTH_WIDTH];
    }
  }

  lemma ReadWrittenLevel(d: DepthLevel, head: seq<byte>, tail: seq<byte>)
    requires LevelOk(d)
    ensures ReadLevel(head + WriteLevel(d) + tail, |head|) == d
  {
    hide Pow256, FromBytes, ToBytes;
    var at := |head|;
    var b := head + WriteLevel(d) + tail;
    assert b[at..at + 4] == ToBytes(d.bidQuantity, 4);
    assert b[at + 4..at + 8] == ToBytes(d.askQuantity, 4);
    assert b[at + 8..at + 10] == ToBytes(d.bidOrders, 2);
    assert b[at + 10..at + 12] == ToBytes(d.askOrders, 2);
    assert b[at + 12..at + 16] == ToBytes(d.bidPrice, 4);
    assert b[at + 16..at + 20] == ToBytes(d.askPrice, 4);
    FromTo(d.bidQuantity, 4);
    FromTo(d.askQuantity, 4);
    FromTo(d.bidOrders, 2);
    FromTo(d.askOrders, 2);
    FromTo(d.bidPrice, 4);
    FromTo(d.askPrice, 4);
  }

  lemma {:induction false} ReadWrittenDepth(depth: seq<DepthLevel>, head: seq<byte>, tail: seq<byte>)
    requires DepthOk(depth)
    ensures ReadDepth(head + WriteDepth(depth) + tail, |head|, |depth|) == depth
  {
    hide WriteLevel, ReadLevel, LevelOk;
    if depth != [] {
      var n := |depth| - 1;
      var bytes := head + WriteDepth(depth) + tail;
      var before, last := WriteDepth(depth[..n]), WriteLevel(depth[n]);
      assert bytes == head + before + (last + tail);
      ReadWrittenDepth(depth[..n], head, last + tail);
      assert bytes == (head + before) + last + tail;
      ReadWrittenLevel(depth[n], head + before, tail);
    }
  }

  // ----- packets both ways -----

  lemma HeaderRead(p: Packet, tail: seq<byte>)
    requires p.code < 256 && p.length < Pow256(2) && p.segment < 256 && p.securityId < Pow256(4)
    ensures var bytes := Header(p) + tail;
      && bytes[0] == p.code && Read(bytes, 1, 2) == p.length && bytes[3] == p.segment && Read(bytes, 4, 4) == p.securityId
  {
    var bytes := Header(p) + tail;
    assert bytes[1..3] == ToBytes(p.length, 2);
    assert bytes[4..8] == ToBytes(p.securityId, 4);
    FromTo(p.length, 2);
    FromTo(p.securityId, 4);
    assert ToBytes(p.code, 1)[0] == p.code && ToBytes(p.segment, 1)[0] == p.segment;
  }

  lemma HeaderWrite(p: Packet, bytes: seq<byte>)
    requires |bytes| >= 8 && p.code == bytes[0] && p.length == Read(bytes, 1, 2) && p.segment == bytes[3] && p.securityId == Read(bytes, 4, 4)
    ensures Header(p) == bytes[..8]
    ensures p.securityId < Pow256(4)
  {
    ToFrom(bytes[1..3]);
    ToFrom(bytes[4..8]);
    assert ToBytes(p.code, 1) == [bytes[0]] && ToBytes(p.segment, 1) == [bytes[3]];
  }

  lemma SmallLengths(code: nat)
    requires Length(code).Some?
    ensures code < 256 && 8 <= Length(code).value < Pow256(2)
  {
    assert Pow256(2) == 256 * Pow256(1) && Pow256(1) == 256 * Pow256(0);
  }

  lemma EncodeLength(p: Packet)
    requires WellFormed(p)
    ensures |Encode(p)| == p.length
  {
    hide Layout, Length, WriteFields, WriteDepth, Header;
    LayoutsCover(p.code);
    WriteLength(Layout(p.code), p.fields);
  }

  lemma LayoutRoundTrip(p: Packet)
    requires WellFormed(p)
    ensures ByLayout(Encode(p)) == Some(p)
  {
    hide Layout, WriteFields, WriteDepth, Header, ReadFields, ReadDepth, FromBytes, Length, Pow256;
    var layout := Layout(p.code);
    LayoutsCover(p.code);
    LayoutInRange(p.code);
    SmallLengths(p.code);
    EncodeLength(p);
    WriteLength(layout, p.fields);
    var head, body, depth := Header(p), WriteFields(layout, p.fields), WriteDepth(p.depth);
    var bytes := Encode(p);
    assert bytes == head + (body + depth);
    HeaderRead(p, body + depth);
    forall i | 0 <= i < |layout| ensures Read(bytes, layout[i].offset, layout[i].width) == p.fields[layout[i].field] {
      ReadWritten(layout, p.fields, head, depth, i);
    }
    ReadAllWritten(layout, p.fields, bytes);
    assert bytes == (head + body) + depth + [];
    ReadWrittenDepth(p.depth, head + body, []);
  }

  lemma LayoutBytesRoundTrip(bytes: seq<byte>)
    requires ByLayout(bytes).Some?
    ensures WellFormed(ByLayout(bytes).value) && Encode(ByLayout(bytes).value) == bytes
    ensures ByLayout(bytes).value.length == |bytes|
  {
    hide Layout, WriteFields, WriteDepth, Header, ReadFields, ReadDepth, FromBytes, Length, Pow256, FieldsOk, Chained,
      DistinctFields, InRange, BodyEnd, DepthOk, Read;
    var p := ByLayout(bytes).value;
    var layout := Layout(p.code);
    LayoutsCover(p.code);
    LayoutInRange(p.code);
    HeaderWrite(p, bytes);
    WriteRead(layout, bytes);
    ReadFieldsOk(layout, bytes);
    WriteReadDepth(bytes, BodyEnd(layout), DepthCount(p.code));
    assert bytes == bytes[..8] + bytes[8..BodyEnd(layout)] + bytes[BodyEnd(layout)..];
  }

  /** Decoding an encoded packet returns it, unless it is a market-status packet: the general
      decoder refuses those, and the message loop reads them itself. */
  lemma PacketRoundTrip(p: Packet)
    requires WellFormed(p)
    ensures DecodePacket(Encode(p)) == if p.code == MARKET_STATUS then Err("unsupported response code") else Ok(p)
    ensures |Encode(p)| >= 8 && DecodeFrame(Encode(p)) == Ok(p)
  {
    hide FromBytes, Layout, ReadFields, ReadDepth, Encode, Length, WellFormed;
    LayoutRoundTrip(p);
    DecodersAgree(Encode(p));
  }

  /** Re-encoding an accepted packet returns its exact bytes. */
  lemma BytesRoundTrip(bytes: seq<byte>)
    requires DecodePacket(bytes).Ok?
    ensures WellFormed(DecodePacket(bytes).value) && Encode(DecodePacket(bytes).value) == bytes
  {
    hide DecodePacket, ByLayout, WellFormed, Encode, DecodeFrame;
    DecodersAgree(bytes);
    LayoutBytesRoundTrip(bytes);
  }

  // ----- messages both ways -----

  /** Decoding any concatenation of encoded packets returns those packets. */
  lemma {:induction false} MessageRoundTrip(ps: seq<Packet>)
    requires AllWellFormed(ps)
    ensures DecodeAll(EncodeAll(ps)) == Ok(ps)
  {
    hide Encode, DecodeFrame, DecodePacket, ByLayout, WellFormed, FromBytes, DecodeAll;
    if ps == [] {
      NothingLeft([], 0, []);
    } else {
      var first, rest := Encode(ps[0]), EncodeAll(ps[1..]);
      assert ps == [ps[0]] + ps[1..];
      EncodedHead(ps[0], ps[1..]);
      MessageRoundTrip(ps[1..]);
      PacketRoundTrip(ps[0]);
      LengthField(ps[0], rest);
      HeadOfTwo(first, rest);
      NextPacket(first + rest, 0);
    }
  }

  lemma HeadOfTwo(first: seq<byte>, rest: seq<byte>)
    ensures (first + rest)[0..] == first + rest && (first + rest)[0..|first|] == first && (first + rest)[|first|..] == rest
  {
  }

  lemma EncodedHead(p: Packet, rest: seq<Packet>)
    ensures EncodeAll([p] + rest) == Encode(p) + EncodeAll(rest)
    ensures AllWellFormed([p] + rest) <==> WellFormed(p) && AllWellFormed(rest)
  {
    hide Encode, WellFormed;
    var ps := [p] + rest;
    assert ps[0] == p && ps[1..] == rest;
    assert forall i :: 0 <= i < |rest| ==> rest[i] == ps[i + 1];
  }

  lemma LengthField(p: Packet, rest: seq<byte>)
    requires WellFormed(p)
    ensures |Encode(p)| == p.length && 8 <= p.length
    ensures Read(Encode(p) + rest, 1, 2) == p.length
  {
    hide Layout, WriteFields, WriteDepth, Header, FromBytes, Pow256;
    EncodeLength(p);
    SmallLengths(p.code);
    var tail := WriteFields(Layout(p.code), p.fields) + WriteDepth(p.depth);
    assert Encode(p) + rest == Header(p) + (tail + rest);
    HeaderRead(p, tail + rest);
  }

  /** Re-encoding what an accepted message decoded to returns the message: every byte belongs to
      exactly one packet. */
  lemma {:induction false} MessageBytesRoundTrip(message: seq<byte>)
    requires DecodeAll(message).Ok?
    ensures AllWellFormed(DecodeAll(message).value) && EncodeAll(DecodeAll(message).value) == message
    decreases |message|
  {
    hide Encode, DecodeFrame, DecodePacket, ByLayout, WellFormed, FromBytes, DecodeAll;
    assert message[0..] == message;
    if message == [] {
      NothingLeft(message, 0, []);
    } else {
      NextPacket(message, 0);
      var length := Read(message, 1, 2);
      var first, rest := message[..length], message[length..];
      assert message[0..length] == first && first[1..3] == message[1..3];
      DecodersAgree(first);
      LayoutBytesRoundTrip(first);
      MessageBytesRoundTrip(rest);
      EncodedHead(DecodeFrame(first).value, DecodeAll(rest).value);
      assert message == first + rest;
    }
  }

  /** A message is accepted exactly when it is a non-empty concatenation of well-formed packets,
      and then it decodes to them and to nothing else. */
  lemma AcceptedMessages(message: seq<byte>, ps: seq<Packet>)
    ensures DecodeMessage(message) == Ok(ps) <==> ps != [] && AllWellFormed(ps) && message == EncodeAll(ps)
  {
    hide Encode, DecodeFrame, DecodePacket, ByLayout, WellFormed, FromBytes, DecodeAll;
    if DecodeMessage(message) == Ok(ps) {
      MessageBytesRoundTrip(message);
    }
    if ps != [] && AllWellFormed(ps) && message == EncodeAll(ps) {
      MessageRoundTrip(ps);
      LengthField(ps[0], EncodeAll(ps[1..]));
    }
  }
}
