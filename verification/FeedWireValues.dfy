/** The live-feed format spelled out byte by byte: which bytes every field of every packet is. */
module FeedWireValues {
  import opened Outcomes
  import opened FeedWire

  /** Two bytes, the low one first. */
  ghost function Half(bytes: seq<byte>, at: nat): nat
    requires at + 2 <= |bytes|
  {
    bytes[at] as nat + 256 * (bytes[at + 1] as nat)
  }

  /** Four bytes, the lowest first. */
  ghost function Word(bytes: seq<byte>, at: nat): nat
    requires at + 4 <= |bytes|
  {
    bytes[at] as nat + 256 * (bytes[at + 1] as nat) + 65_536 * (bytes[at + 2] as nat) + 16_777_216 * (bytes[at + 3] as nat)
  }

  ghost predicate HeaderBytes(bytes: seq<byte>, p: Packet) {
    && |bytes| >= 8
    && p.code == bytes[0] && p.length == Half(bytes, 1) == |bytes| && p.segment == bytes[3] && p.securityId == Word(bytes, 4)
  }

  ghost predicate TickerBytes(bytes: seq<byte>, p: Packet) {
    && |bytes| == 16 && p.fields.Keys == {LastPrice, LastTradeEpoch}
    && p.fields[LastPrice] == Word(bytes, 8) && p.fields[LastTradeEpoch] == Word(bytes, 12)
    && p.depth == []
  }

  ghost predicate QuoteBytes(bytes: seq<byte>, p: Packet) {
    && |bytes| == 50
    && p.fields.Keys == {LastPrice, LastQuantity, LastTradeEpoch, AveragePrice, Volume, TotalSellQuantity, TotalBuyQuantity,
                         DayOpen, DayClose, DayHigh, DayLow}
    && p.fields[LastPrice] == Word(bytes, 8) && p.fields[LastQuantity] == Half(bytes, 12)
    && p.fields[LastTradeEpoch] == Word(bytes, 14) && p.fields[AveragePrice] == Word(bytes, 18)
    && p.fields[Volume] == Word(bytes, 22) && p.fields[TotalSellQuantity] == Word(bytes, 26)
    && p.fields[TotalBuyQuantity] == Word(bytes, 30) && p.fields[DayOpen] == Word(bytes, 34)
    && p.fields[DayClose] == Word(bytes, 38) && p.fields[DayHigh] == Word(bytes, 42) && p.fields[DayLow] == Word(bytes, 46)
    && p.depth == []
  }

  ghost predicate InterestBytes(bytes: seq<byte>, p: Packet) {
    |bytes| == 12 && p.fields.Keys == {OpenInterest} && p.fields[OpenInterest] == Word(bytes, 8) && p.depth == []
  }

  ghost predicate PreviousBytes(bytes: seq<byte>, p: Packet) {
    && |bytes| == 16 && p.fields.Keys == {PreviousClose, PreviousOpenInterest}
    && p.fields[PreviousClose] == Word(bytes, 8) && p.fields[PreviousOpenInterest] == Word(bytes, 12)
    && p.depth == []
  }

  ghost predicate StatusBytes(bytes: seq<byte>, p: Packet) {
    |bytes| == 8 && p.fields.Keys == {} && p.depth == []
  }

  /** One of five levels of 20 bytes. */
  ghost predicate LevelBytes(bytes: seq<byte>, at: nat, d: DepthLevel) {
    && at + 20 <= |bytes|
    && d.bidQuantity == Word(bytes, at) && d.askQuantity == Word(bytes, at + 4)
    && d.bidOrders == Half(bytes, at + 8) && d.askOrders == Half(bytes, at + 10)
    && d.bidPrice == Word(bytes, at + 12) && d.askPrice == Word(bytes, at + 16)
  }

  ghost predicate FiveLevels(bytes: seq<byte>, depth: seq<DepthLevel>) {
    && |depth| == 5
    && LevelBytes(bytes, 62, depth[0]) && LevelBytes(bytes, 82, depth[1]) && LevelBytes(bytes, 102, depth[2])
    && LevelBytes(bytes, 122, depth[3]) && LevelBytes(bytes, 142, depth[4])
  }

  ghost predicate FullFields(bytes: seq<byte>, fields: map<Field, nat>)
    requires |bytes| == 162
  {
    && fields.Keys == {LastPrice, LastQuantity, LastTradeEpoch, AveragePrice, Volume, TotalSellQuantity, TotalBuyQuantity,
                       OpenInterest, HighestOpenInterest, LowestOpenInterest, DayOpen, DayClose, DayHigh, DayLow}
    && fields[LastPrice] == Word(bytes, 8) && fields[LastQuantity] == Half(bytes, 12)
    && fields[LastTradeEpoch] == Word(bytes, 14) && fields[AveragePrice] == Word(bytes, 18)
    && fields[Volume] == Word(bytes, 22) && fields[TotalSellQuantity] == Word(bytes, 26)
    && fields[TotalBuyQuantity] == Word(bytes, 30) && fields[OpenInterest] == Word(bytes, 34)
    && fields[HighestOpenInterest] == Word(bytes, 38) && fields[LowestOpenInterest] == Word(bytes, 42)
    && fields[DayOpen] == Word(bytes, 46) && fields[DayClose] == Word(bytes, 50)
    && fields[DayHigh] == Word(bytes, 54) && fields[DayLow] == Word(bytes, 58)
  }

  ghost predicate FullBytes(bytes: seq<byte>, p: Packet) {
    |bytes| == 162 && FullFields(bytes, p.fields) && FiveLevels(bytes, p.depth)
  }

  ghost predicate DisconnectBytes(bytes: seq<byte>, p: Packet) {
    |bytes| == 10 && p.fields.Keys == {DisconnectCode} && p.fields[DisconnectCode] == Half(bytes, 8) && p.depth == []
  }

  /** The bytes are this packet. */
  ghost predicate Spells(bytes: seq<byte>, p: Packet) {
    && HeaderBytes(bytes, p)
    && match p.code
       case 2 => TickerBytes(bytes, p)
       case 4 => QuoteBytes(bytes, p)
       case 5 => InterestBytes(bytes, p)
       case 6 => PreviousBytes(bytes, p)
       case 7 => StatusBytes(bytes, p)
       case 8 => FullBytes(bytes, p)
       case 50 => DisconnectBytes(bytes, p)
       case _ => false
  }

  // ----- reading integers -----

  lemma HalfRead(bytes: seq<byte>, at: nat)
    requires at + 2 <= |bytes|
    ensures Read(bytes, at, 2) == Half(bytes, at)
  {
    var s := bytes[at..at + 2];
    assert s[1..][1..] == [];
    assert FromBytes(s) == s[0] + 256 * FromBytes(s[1..]) && FromBytes(s[1..]) == s[1] + 256 * FromBytes([]);
  }

  lemma WordRead(bytes: seq<byte>, at: nat)
    requires at + 4 <= |bytes|
    ensures Read(bytes, at, 4) == Word(bytes, at)
  {
    var s := bytes[at..at + 4];
    assert s[1..][1..] == s[2..] && s[2..][1..] == s[3..] && s[3..][1..] == [];
    assert FromBytes(s) == s[0] + 256 * FromBytes(s[1..]);
    assert FromBytes(s[1..]) == s[1] + 256 * FromBytes(s[2..]);
    assert FromBytes(s[2..]) == s[2] + 256 * FromBytes(s[3..]);
    assert FromBytes(s[3..]) == s[3] + 256 * FromBytes([]);
  }

  // ----- reading fields -----

  /** The integer that a field of this width is. */
  ghost function Sum(bytes: seq<byte>, at: nat, width: nat): nat
    requires at + width <= |bytes| && (width == 2 || width == 4)
  {
    if width == 2 then Half(bytes, at) else Word(bytes, at)
  }

  /** Field `i` of a layout is `f`, at these bytes. */
  lemma FieldAt(code: nat, bytes: seq<byte>, i: nat, f: Field, at: nat, width: nat)
    requires Length(code) == Some(|bytes|) && i < |Layout(code)| && Layout(code)[i] == Spec(f, at, width) && (width == 2 || width == 4)
    ensures InRange(Layout(code), |bytes|) && at + width <= |bytes|
    ensures f in ReadFields(Layout(code), bytes) && ReadFields(Layout(code), bytes)[f] == Sum(bytes, at, width)
  {
    hide Layout, Half, Word, Read, Length, ReadFields;
    LayoutInRange(code);
    LayoutsCover(code);
    ReadFieldAt(Layout(code), bytes, i);
    if width == 2 { HalfRead(bytes, at); } else { WordRead(bytes, at); }
  }

  ghost function Named(layout: seq<Spec>): set<Field> {
    set i | 0 <= i < |layout| :: layout[i].field
  }

  lemma FieldNames(code: nat, bytes: seq<byte>)
    requires Length(code) == Some(|bytes|)
    ensures InRange(Layout(code), |bytes|) && ReadFields(Layout(code), bytes).Keys == Named(Layout(code))
  {
    hide Layout, Length, ReadFields;
    LayoutInRange(code);
    forall f ensures f in ReadFields(Layout(code), bytes) <==> f in Named(Layout(code)) { ReadKeys(Layout(code), bytes, f); }
  }

  lemma LevelAt(bytes: seq<byte>, at: nat)
    requires at + 20 <= |bytes|
    ensures LevelBytes(bytes, at, ReadLevel(bytes, at))
  {
    hide Half, Word, Read;
    WordRead(bytes, at);
    WordRead(bytes, at + 4);
    HalfRead(bytes, at + 8);
    HalfRead(bytes, at + 10);
    WordRead(bytes, at + 12);
    WordRead(bytes, at + 16);
  }

  lemma {:induction false} DepthAt(bytes: seq<byte>, start: nat, count: nat)
    requires start + count * 20 <= |bytes|
    ensures |ReadDepth(bytes, start, count)| == count
    ensures forall k :: 0 <= k < count ==> LevelBytes(bytes, start + k * 20, ReadDepth(bytes, start, count)[k])
  {
    hide LevelBytes, ReadLevel;
    if count > 0 {
      DepthAt(bytes, start, count - 1);
      LevelAt(bytes, start + (count - 1) * 20);
    }
  }

  // ----- packets -----

  /** The packet that the layout of `code` reads. */
  ghost function Parsed(code: nat, bytes: seq<byte>): Packet
    requires Length(code) == Some(|bytes|) && |bytes| >= 8
  {
    LayoutInRange(code);
    LayoutsCover(code);
    Packet(code, |bytes|, bytes[3], Read(bytes, 4, 4), ReadFields(Layout(code), bytes),
           ReadDepth(bytes, BodyEnd(Layout(code)), DepthCount(code)))
  }

  lemma TickerParsed(bytes: seq<byte>)
    requires |bytes| == 16
    ensures TickerBytes(bytes, Parsed(2, bytes))
  {
    hide Half, Word, Read;
    FieldAt(2, bytes, 0, LastPrice, 8, 4);
    FieldAt(2, bytes, 1, LastTradeEpoch, 12, 4);
    FieldNames(2, bytes);
    assert Named(Layout(2)) == {Layout(2)[0].field, Layout(2)[1].field};
  }

  lemma PreviousParsed(bytes: seq<byte>)
    requires |bytes| == 16
    ensures PreviousBytes(bytes, Parsed(6, bytes))
  {
    hide Half, Word, Read;
    FieldAt(6, bytes, 0, PreviousClose, 8, 4);
    FieldAt(6, bytes, 1, PreviousOpenInterest, 12, 4);
    FieldNames(6, bytes);
    assert Named(Layout(6)) == {Layout(6)[0].field, Layout(6)[1].field};
  }

  lemma SingleParsed(bytes: seq<byte>)
    ensures |bytes| == 12 ==> InterestBytes(bytes, Parsed(5, bytes))
    ensures |bytes| == 10 ==> DisconnectBytes(bytes, Parsed(50, bytes))
    ensures |bytes| == 8 ==> StatusBytes(bytes, Parsed(7, bytes))
  {
    hide Half, Word, Read;
    if |bytes| == 12 {
      FieldAt(5, bytes, 0, OpenInterest, 8, 4);
      FieldNames(5, bytes);
      assert Named(Layout(5)) == {Layout(5)[0].field};
    }
    if |bytes| == 10 {
      FieldAt(50, bytes, 0, DisconnectCode, 8, 2);
      FieldNames(50, bytes);
      assert Named(Layout(50)) == {Layout(50)[0].field};
    }
    if |bytes| == 8 {
      FieldNames(7, bytes);
      assert Named(Layout(7)) == {};
    }
  }

  lemma QuoteParsed(bytes: seq<byte>)
    requires |bytes| == 50
    ensures QuoteBytes(bytes, Parsed(4, bytes))
  {
    hide Half, Word, Read, ReadFields;
    FieldAt(4, bytes, 0, LastPrice, 8, 4);
    FieldAt(4, bytes, 1, LastQuantity, 12, 2);
    FieldAt(4, bytes, 2, LastTradeEpoch, 14, 4);
    FieldAt(4, bytes, 3, AveragePrice, 18, 4);
    FieldAt(4, bytes, 4, Volume, 22, 4);
    FieldAt(4, bytes, 5, TotalSellQuantity, 26, 4);
    FieldAt(4, bytes, 6, TotalBuyQuantity, 30, 4);
    FieldAt(4, bytes, 7, DayOpen, 34, 4);
    FieldAt(4, bytes, 8, DayClose, 38, 4);
    FieldAt(4, bytes, 9, DayHigh, 42, 4);
    FieldAt(4, bytes, 10, DayLow, 46, 4);
    FieldNames(4, bytes);
    QuoteNames();
  }

  lemma QuoteNames()
    ensures Named(Layout(4)) == {LastPrice, LastQuantity, LastTradeEpoch, AveragePrice, Volume, TotalSellQuantity, TotalBuyQuantity,
                                 DayOpen, DayClose, DayHigh, DayLow}
  {
    var layout := Layout(4);
    assert Named(layout) == {layout[0].field, layout[1].field, layout[2].field, layout[3].field, layout[4].field, layout[5].field,
                             layout[6].field, layout[7].field, layout[8].field, layout[9].field, layout[10].field};
  }

  lemma FullNames()
    ensures Named(Layout(8)) == {LastPrice, LastQuantity, LastTradeEpoch, AveragePrice, Volume, TotalSellQuantity, TotalBuyQuantity,
                                 OpenInterest, HighestOpenInterest, LowestOpenInterest, DayOpen, DayClose, DayHigh, DayLow}
  {
    var layout := Layout(8);
    assert Named(layout) == {layout[0].field, layout[1].field, layout[2].field, layout[3].field, layout[4].field, layout[5].field,
                             layout[6].field, layout[7].field, layout[8].field, layout[9].field, layout[10].field,
                             layout[11].field, layout[12].field, layout[13].field};
  }

  lemma FullTrade(bytes: seq<byte>)
    requires |bytes| == 162
    ensures InRange(Layout(8), |bytes|)
    ensures var fields := ReadFields(Layout(8), bytes); LastPrice in fields && fields[LastPrice] == Word(bytes, 8)
    ensures var fields := ReadFields(Layout(8), bytes); LastQuantity in fields && fields[LastQuantity] == Half(bytes, 12)
    ensures var fields := ReadFields(Layout(8), bytes); LastTradeEpoch in fields && fields[LastTradeEpoch] == Word(bytes, 14)
    ensures var fields := ReadFields(Layout(8), bytes); AveragePrice in fields && fields[AveragePrice] == Word(bytes, 18)
    ensures var fields := ReadFields(Layout(8), bytes); Volume in fields && fields[Volume] == Word(bytes, 22)
    ensures var fields := ReadFields(Layout(8), bytes); TotalSellQuantity in fields && fields[TotalSellQuantity] == Word(bytes, 26)
    ensures var fields := ReadFields(Layout(8), bytes); TotalBuyQuantity in fields && fields[TotalBuyQuantity] == Word(bytes, 30)
  {
    hide Half, Word, Read, ReadFields;
    FieldAt(8, bytes, 0, LastPrice, 8, 4);
    FieldAt(8, bytes, 1, LastQuantity, 12, 2);
    FieldAt(8, bytes, 2, LastTradeEpoch, 14, 4);
    FieldAt(8, bytes, 3, AveragePrice, 18, 4);
    FieldAt(8, bytes, 4, Volume, 22, 4);
    FieldAt(8, bytes, 5, TotalSellQuantity, 26, 4);
    FieldAt(8, bytes, 6, TotalBuyQuantity, 30, 4);
  }

  lemma FullRest(bytes: seq<byte>)
    requires |bytes| == 162
    ensures InRange(Layout(8), |bytes|)
    ensures var fields := ReadFields(Layout(8), bytes); OpenInterest in fields && fields[OpenInterest] == Word(bytes, 34)
    ensures var fields := ReadFields(Layout(8), bytes); HighestOpenInterest in fields && fields[HighestOpenInterest] == Word(bytes, 38)
    ensures var fields := ReadFields(Layout(8), bytes); LowestOpenInterest in fields && fields[LowestOpenInterest] == Word(bytes, 42)
    ensures var fields := ReadFields(Layout(8), bytes); DayOpen in fields && fields[DayOpen] == Word(bytes, 46)
    ensures var fields := ReadFields(Layout(8), bytes); DayClose in fields && fields[DayClose] == Word(bytes, 50)
    ensures var fields := ReadFields(Layout(8), bytes); DayHigh in fields && fields[DayHigh] == Word(bytes, 54)
    ensures var fields := ReadFields(Layout(8), bytes); DayLow in fields && fields[DayLow] == Word(bytes, 58)
  {
    hide Half, Word, Read, ReadFields;
    FieldAt(8, bytes, 7, OpenInterest, 34, 4);
    FieldAt(8, bytes, 8, HighestOpenInterest, 38, 4);
    FieldAt(8, bytes, 9, LowestOpenInterest, 42, 4);
    FieldAt(8, bytes, 10, DayOpen, 46, 4);
    FieldAt(8, bytes, 11, DayClose, 50, 4);
    FieldAt(8, bytes, 12, DayHigh, 54, 4);
    FieldAt(8, bytes, 13, DayLow, 58, 4);
  }

  lemma FullParsed(bytes: seq<byte>)
    requires |bytes| == 162
    ensures FullBytes(bytes, Parsed(8, bytes))
  {
    hide Half, Word, Read, ReadFields, ReadDepth, LevelBytes, FullFields;
    LayoutInRange(8);
    FullFieldsRead(bytes);
    FullDepth(bytes);
  }

  lemma FullFieldsRead(bytes: seq<byte>)
    requires |bytes| == 162 && InRange(Layout(8), |bytes|)
    ensures FullFields(bytes, ReadFields(Layout(8), bytes))
  {
    hide Half, Word, Read, ReadFields, Layout, Length, Named;
    FullTrade(bytes);
    FullRest(bytes);
    FullLength();
    FieldNames(8, bytes);
    FullNames();
  }

  lemma FullLength()
    ensures Length(8) == Some(162)
  {
  }

  lemma FullDepth(bytes: seq<byte>)
    requires |bytes| == 162
    ensures FiveLevels(bytes, ReadDepth(bytes, 62, 5))
  {
    hide LevelBytes, ReadDepth;
    DepthAt(bytes, 62, 5);
    var depth := ReadDepth(bytes, 62, 5);
    assert LevelBytes(bytes, 62 + 0 * 20, depth[0]) && LevelBytes(bytes, 62 + 1 * 20, depth[1]) && LevelBytes(bytes, 62 + 2 * 20, depth[2]);
    assert LevelBytes(bytes, 62 + 3 * 20, depth[3]) && LevelBytes(bytes, 62 + 4 * 20, depth[4]);
  }

  /** Every packet that a layout reads is spelled by its bytes. */
  lemma ParsedSpells(code: nat, bytes: seq<byte>)
    requires Length(code) == Some(|bytes|) && |bytes| >= 8 && bytes[0] == code && Half(bytes, 1) == |bytes|
    ensures Spells(bytes, Parsed(code, bytes))
  {
    hide Half, Word, Read, ReadFields, ReadDepth, Layout, TickerBytes, QuoteBytes, InterestBytes, PreviousBytes, StatusBytes,
      FullBytes, DisconnectBytes;
    WordRead(bytes, 4);
    match code
    case 2 => TickerParsed(bytes);
    case 4 => QuoteParsed(bytes);
    case 6 => PreviousParsed(bytes);
    case 8 => FullParsed(bytes);
    case _ => SingleParsed(bytes);
  }

  // ----- at most one packet -----

  lemma SameKeys(f: map<Field, nat>, g: map<Field, nat>)
    requires f.Keys == g.Keys && forall k :: k in f ==> f[k] == g[k]
    ensures f == g
  {
  }

  lemma SameLevel(bytes: seq<byte>, at: nat, d: DepthLevel, e: DepthLevel)
    requires LevelBytes(bytes, at, d) && LevelBytes(bytes, at, e)
    ensures d == e
  {
  }

  lemma SameFull(bytes: seq<byte>, p: Packet, q: Packet)
    requires FullBytes(bytes, p) && FullBytes(bytes, q)
    ensures p.fields == q.fields && p.depth == q.depth
  {
    hide Half, Word, LevelBytes, FullFields;
    SameFullFields(bytes, p.fields, q.fields);
    SameLevel(bytes, 62, p.depth[0], q.depth[0]);
    SameLevel(bytes, 82, p.depth[1], q.depth[1]);
    SameLevel(bytes, 102, p.depth[2], q.depth[2]);
    SameLevel(bytes, 122, p.depth[3], q.depth[3]);
    SameLevel(bytes, 142, p.depth[4], q.depth[4]);
    assert p.depth == [p.depth[0], p.depth[1], p.depth[2], p.depth[3], p.depth[4]];
    assert q.depth == [q.depth[0], q.depth[1], q.depth[2], q.depth[3], q.depth[4]];
  }

  lemma SameFullFields(bytes: seq<byte>, f: map<Field, nat>, g: map<Field, nat>)
    requires |bytes| == 162 && FullFields(bytes, f) && FullFields(bytes, g)
    ensures f == g
  {
    hide Half, Word;
    SameKeys(f, g);
  }

  lemma SameQuote(bytes: seq<byte>, p: Packet, q: Packet)
    requires QuoteBytes(bytes, p) && QuoteBytes(bytes, q)
    ensures p.fields == q.fields && p.depth == q.depth
  {
    hide Half, Word;
    SameKeys(p.fields, q.fields);
  }

  /** Bytes spell at most one packet. */
  lemma SpellsOne(bytes: seq<byte>, p: Packet, q: Packet)
    requires Spells(bytes, p) && Spells(bytes, q)
    ensures p == q
  {
    hide Half, Word, FullBytes, QuoteBytes;
    match p.code
    case 4 => SameQuote(bytes, p, q);
    case 8 => SameFull(bytes, p, q);
    case _ => SameKeys(p.fields, q.fields);
  }

  // ----- decoders -----

  /** The message loop takes a packet exactly when the bytes it was cut to spell one, and returns that. */
  lemma FrameMeaning(bytes: seq<byte>, p: Packet)
    requires |bytes| >= 8 && Half(bytes, 1) == |bytes|
    ensures DecodeFrame(bytes) == Ok(p) <==> Spells(bytes, p)
  {
    hide Half, Read, ReadFields, ReadDepth, Layout, Spells, DecodeFrame, DecodePacket, DecodeStatus;
    HalfRead(bytes, 1);
    DecodersAgree(bytes);
    var code := bytes[0];
    if Length(code) == Some(|bytes|) {
      ParsedSpells(code, bytes);
      assert ByLayout(bytes) == Some(Parsed(code, bytes));
      if Spells(bytes, p) { SpellsOne(bytes, p, Parsed(code, bytes)); }
    } else if Spells(bytes, p) {
      SpelledLength(bytes, p);
    }
  }

  lemma SpelledLength(bytes: seq<byte>, p: Packet)
    requires Spells(bytes, p)
    ensures |bytes| >= 8 && Length(bytes[0]) == Some(|bytes|) && Half(bytes, 1) == |bytes| && p.code == bytes[0]
  {
    hide Half, Word, FullFields, FiveLevels;
  }

  /** The general decoder takes exactly the bytes that spell a packet of another kind than market
      status, and returns that packet. */
  lemma PacketMeaning(bytes: seq<byte>, p: Packet)
    ensures DecodePacket(bytes) == Ok(p) <==> Spells(bytes, p) && p.code != 7
  {
    hide Half, Read, ReadFields, ReadDepth, Layout, Spells, DecodeFrame, DecodePacket, DecodeStatus;
    DecodersAgree(bytes);
    if Spells(bytes, p) { SpelledLength(bytes, p); }
    if |bytes| >= 8 {
      HalfRead(bytes, 1);
      if Half(bytes, 1) == |bytes| { FrameMeaning(bytes, p); }
    }
  }

  /** The message is these packets, one after the other, to the last byte. */
  ghost predicate SpellsAll(message: seq<byte>, ps: seq<Packet>) {
    if ps == [] then message == []
    else ps[0].length <= |message| && Spells(message[..ps[0].length], ps[0]) && SpellsAll(message[ps[0].length..], ps[1..])
  }

  /** A message decodes to a list of packets exactly when its bytes spell them and there is at least one. */
  lemma MessageMeaning(message: seq<byte>, ps: seq<Packet>)
    ensures DecodeMessage(message) == Ok(ps) <==> ps != [] && SpellsAll(message, ps)
  {
    hide Spells;
    AllMeaning(message, ps);
  }

  lemma {:induction false} AllMeaning(message: seq<byte>, ps: seq<Packet>)
    ensures DecodeAll(message) == Ok(ps) <==> SpellsAll(message, ps)
    decreases |message|
  {
    hide Spells, DecodeFrame, Read, Half;
    if DecodeAll(message) == Ok(ps) && message != [] {
      var n := Read(message, 1, 2);
      CutHeader(message, n);
      HalfRead(message[..n], 1);
      FrameMeaning(message[..n], ps[0]);
      SpelledHere(message[..n], ps[0]);
      AllMeaning(message[n..], ps[1..]);
    }
    if SpellsAll(message, ps) && ps != [] {
      var n := ps[0].length;
      SpelledHere(message[..n], ps[0]);
      CutHeader(message, n);
      HalfRead(message[..n], 1);
      FrameMeaning(message[..n], ps[0]);
      AllMeaning(message[n..], ps[1..]);
      assert ps == [ps[0]] + ps[1..];
    }
  }

  lemma SpelledHere(bytes: seq<byte>, p: Packet)
    requires Spells(bytes, p)
    ensures |bytes| >= 8 && Half(bytes, 1) == |bytes| == p.length
  {
    hide Half, Word, FullFields, FiveLevels;
  }

  lemma CutHeader(message: seq<byte>, n: nat)
    requires 8 <= n <= |message|
    ensures Read(message[..n], 1, 2) == Read(message, 1, 2)
  {
    assert message[..n][1..3] == message[1..3];
  }
}
