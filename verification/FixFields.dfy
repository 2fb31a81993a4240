/** The generator's messages read back tag by tag. */
module FixFields {
  import opened Wrappers
  import opened Fix
  import opened FixDamage

  datatype Field = Field(tag: nat, value: Bytes)

  // Fields in the wire format: the tag in decimal, "=", the value, a delimiter.
  function Encode(fields: seq<Field>): Bytes {
    if fields == [] then []
    else Decimal(fields[0].tag) + [EQUALS] + fields[0].value + [SOH] + Encode(fields[1..])
  }

  // One field, without its delimiter. Tag 0 stands for a text without a tag.
  function DecodeField(f: Bytes): Field {
    var digits := LeadingDigits(f);
    if |digits| < |f| && f[|digits|] == EQUALS then Field(Value(digits), f[|digits| + 1..]) else Field(0, f)
  }

  // Reads a message: cuts it at the delimiters, and each piece at its first "=".
  function Decode(s: Bytes): seq<Field>
    decreases |s|
  {
    if s == [] then []
    else
      var end := NextDelimiter(s, 0);
      [DecodeField(s[..end])] + if end < |s| then Decode(s[end + 1..]) else []
  }

  ghost predicate PlainValues(fields: seq<Field>) {
    forall i :: 0 <= i < |fields| ==> Plain(fields[i].value)
  }

  lemma {:induction false} DigitsBefore(digits: Bytes, rest: Bytes)
    requires forall i :: 0 <= i < |digits| ==> IsDigit(digits[i])
    requires rest == [] || !IsDigit(rest[0])
    ensures LeadingDigits(digits + rest) == digits
  {
    if digits == [] {
      assert digits + rest == rest;
    } else {
      assert (digits + rest)[1..] == digits[1..] + rest;
      DigitsBefore(digits[1..], rest);
    }
  }

  lemma FieldDecodes(f: Field)
    ensures DecodeField(Decimal(f.tag) + [EQUALS] + f.value) == f
  {
    var text := Decimal(f.tag) + [EQUALS] + f.value;
    assert text == Decimal(f.tag) + ([EQUALS] + f.value);
    DigitsBefore(Decimal(f.tag), [EQUALS] + f.value);
    ValueOfDecimal(f.tag);
  }

  lemma DecodeFirst(f: Bytes, rest: Bytes)
    requires Plain(f)
    ensures Decode(f + [SOH] + rest) == [DecodeField(f)] + Decode(rest)
  {
    var s := f + [SOH] + rest;
    assert forall i :: 0 <= i < |f| ==> s[i] == f[i] && f[i] in f;
    DelimiterIs(s, 0, |f|);
    assert s[..|f|] == f && s[|f| + 1..] == rest;
  }

  // What is written is read back, as long as no value holds a delimiter.
  lemma {:induction false} DecodeEncode(fields: seq<Field>)
    requires PlainValues(fields)
    ensures Decode(Encode(fields)) == fields
  {
    if fields != [] {
      var f := fields[0];
      DecodeEncode(fields[1..]);
      NumbersArePlain(f.tag, 0);
      DecodeFirst(Decimal(f.tag) + [EQUALS] + f.value, Encode(fields[1..]));
      FieldDecodes(f);
    }
  }

  lemma {:induction false} EncodeAppends(a: seq<Field>, b: seq<Field>)
    ensures Encode(a + b) == Encode(a) + Encode(b)
  {
    if a == [] {
      assert a + b == b;
    } else {
      assert (a + b)[1..] == a[1..] + b;
      EncodeAppends(a[1..], b);
      var first := Decimal(a[0].tag) + [EQUALS] + a[0].value + [SOH];
      assert first + (Encode(a[1..]) + Encode(b)) == first + Encode(a[1..]) + Encode(b);
    }
  }

  // A tag as the generator writes it.
  ghost predicate TagIs(tag: Bytes, number: nat) {
    tag == Decimal(number) + [EQUALS]
  }

  lemma EncodeOne(number: nat, tag: Bytes, value: Bytes)
    requires TagIs(tag, number)
    ensures Encode([Field(number, value)]) == tag + value + [SOH]
  {
    var fields := [Field(number, value)];
    assert fields[1..] == [];
    assert Encode(fields) == tag + value + [SOH] + [];
  }

  lemma EncodeNext(s: Bytes, fields: seq<Field>, number: nat, tag: Bytes, value: Bytes)
    requires s == Encode(fields) && TagIs(tag, number)
    ensures s + tag + value + [SOH] == Encode(fields + [Field(number, value)])
  {
    EncodeOne(number, tag, value);
    EncodeAppends(fields, [Field(number, value)]);
    assert s + (tag + value + [SOH]) == s + tag + value + [SOH];
  }

  lemma TagsAre()
    ensures TagIs([0x38, EQUALS], 8) && TagIs([0x39, EQUALS], 9)
    ensures TagIs(TAG_10, 10) && TagIs(TAG_11, 11) && TagIs(TAG_34, 34) && TagIs(TAG_35, 35) && TagIs(TAG_38, 38)
    ensures TagIs(TAG_40, 40) && TagIs(TAG_41, 41) && TagIs(TAG_44, 44) && TagIs(TAG_52, 52) && TagIs(TAG_54, 54)
    ensures TagIs([0x35, 0x35, EQUALS], 55) && TagIs([0x35, 0x39, EQUALS], 59)
  {
    assert Decimal(8) == [0x38] && Decimal(9) == [0x39];
    assert Decimal(10) == [0x31, 0x30] && Decimal(11) == [0x31, 0x31];
    assert Decimal(34) == [0x33, 0x34] && Decimal(35) == [0x33, 0x35] && Decimal(38) == [0x33, 0x38];
    assert Decimal(40) == [0x34, 0x30] && Decimal(41) == [0x34, 0x31] && Decimal(44) == [0x34, 0x34];
    assert Decimal(52) == [0x35, 0x32] && Decimal(54) == [0x35, 0x34];
    assert Decimal(55) == [0x35, 0x35] && Decimal(59) == [0x35, 0x39];
  }

  // "FIX.4.2" and "AAPL"
  const FIX_4_2: Bytes := [0x46, 0x49, 0x58, 0x2E, 0x34, 0x2E, 0x32]
  const AAPL: Bytes := [0x41, 0x41, 0x50, 0x4C]

  function HeaderFields(bodyLen: nat): seq<Field> {
    [Field(8, FIX_4_2), Field(9, Decimal(bodyLen))]
  }

  function BodyFields(msgType: Bytes, seqNum: nat, now: int, clOrdId: Bytes): seq<Field> {
    [Field(35, msgType), Field(34, Decimal(seqNum)), Field(52, SignedDecimal(now)), Field(11, clOrdId)]
  }

  lemma HeaderEncoded(bodyLen: nat)
    ensures Header(bodyLen) == Encode(HeaderFields(bodyLen))
  {
    TagsAre();
    var s := [0x38, EQUALS] + FIX_4_2 + [SOH];
    EncodeOne(8, [0x38, EQUALS], FIX_4_2);
    EncodeNext(s, [Field(8, FIX_4_2)], 9, [0x39, EQUALS], Decimal(bodyLen));
    assert s + [0x39, EQUALS] == BEGIN;
    assert [Field(8, FIX_4_2)] + [Field(9, Decimal(bodyLen))] == HeaderFields(bodyLen);
  }

  lemma BodyEncoded(msgType: Bytes, seqNum: nat, now: int, clOrdId: Bytes)
    ensures Body(msgType, seqNum, now, clOrdId, []) == Encode(BodyFields(msgType, seqNum, now, clOrdId))
  {
    TagsAre();
    var f1 := [Field(35, msgType)];
    var s1 := TAG_35 + msgType + [SOH];
    EncodeOne(35, TAG_35, msgType);
    var f2 := f1 + [Field(34, Decimal(seqNum))];
    var s2 := s1 + TAG_34 + Decimal(seqNum) + [SOH];
    EncodeNext(s1, f1, 34, TAG_34, Decimal(seqNum));
    var f3 := f2 + [Field(52, SignedDecimal(now))];
    var s3 := s2 + TAG_52 + SignedDecimal(now) + [SOH];
    EncodeNext(s2, f2, 52, TAG_52, SignedDecimal(now));
    EncodeNext(s3, f3, 11, TAG_11, clOrdId);
    assert f3 + [Field(11, clOrdId)] == BodyFields(msgType, seqNum, now, clOrdId);
    assert Body(msgType, seqNum, now, clOrdId, []) == s3 + TAG_11 + clOrdId + [SOH];
  }

  // A whole message with the given body tags.
  function MessageFields(msgType: Bytes, seqNum: nat, now: int, clOrdId: Bytes, tags: seq<Field>): seq<Field> {
    var body := BodyFields(msgType, seqNum, now, clOrdId) + tags;
    var payload := HeaderFields(|Encode(body)|) + body;
    payload + [Field(10, ThreeDigits(Sum(Encode(payload)) % 256))]
  }

  lemma PayloadEncoded(msgType: Bytes, seqNum: nat, now: int, clOrdId: Bytes, bodyTags: Bytes, tags: seq<Field>)
    requires bodyTags == Encode(tags)
    ensures var body := BodyFields(msgType, seqNum, now, clOrdId) + tags;
            Payload(msgType, seqNum, now, clOrdId, bodyTags) == Encode(HeaderFields(|Encode(body)|) + body)
  {
    var front, body := BodyFields(msgType, seqNum, now, clOrdId), BodyFields(msgType, seqNum, now, clOrdId) + tags;
    BodyEncoded(msgType, seqNum, now, clOrdId);
    EncodeAppends(front, tags);
    assert Body(msgType, seqNum, now, clOrdId, bodyTags) == Body(msgType, seqNum, now, clOrdId, []) + bodyTags;
    HeaderEncoded(|Encode(body)|);
    EncodeAppends(HeaderFields(|Encode(body)|), body);
  }

  lemma MessageEncoded(msgType: Bytes, seqNum: nat, now: int, clOrdId: Bytes, bodyTags: Bytes, tags: seq<Field>)
    requires bodyTags == Encode(tags)
    ensures Sealed(Payload(msgType, seqNum, now, clOrdId, bodyTags))
         == Encode(MessageFields(msgType, seqNum, now, clOrdId, tags))
  {
    var body := BodyFields(msgType, seqNum, now, clOrdId) + tags;
    var payload := HeaderFields(|Encode(body)|) + body;
    TagsAre();
    PayloadEncoded(msgType, seqNum, now, clOrdId, bodyTags, tags);
    EncodeNext(Encode(payload), payload, 10, TAG_10, ThreeDigits(Sum(Encode(payload)) % 256));
  }

  lemma MessagePlain(msgType: Bytes, seqNum: nat, now: int, clOrdId: Bytes, tags: seq<Field>)
    requires PlainValues(tags) && Plain(msgType) && Plain(clOrdId)
    ensures PlainValues(MessageFields(msgType, seqNum, now, clOrdId, tags))
  {
    NumbersArePlain(seqNum, now);
    NumbersArePlain(|Encode(BodyFields(msgType, seqNum, now, clOrdId) + tags)|, 0);
    assert Plain(FIX_4_2);
  }

  // A message is read back as its fields: the values that went in, each under
  // its own tag, in this order, with body length and checksum around them.
  lemma MessageReadsBack(msgType: Bytes, seqNum: nat, now: int, clOrdId: Bytes, bodyTags: Bytes, tags: seq<Field>)
    requires bodyTags == Encode(tags) && PlainValues(tags) && Plain(msgType) && Plain(clOrdId)
    ensures Decode(Sealed(Payload(msgType, seqNum, now, clOrdId, bodyTags)))
         == MessageFields(msgType, seqNum, now, clOrdId, tags)
  {
    MessageEncoded(msgType, seqNum, now, clOrdId, bodyTags, tags);
    MessagePlain(msgType, seqNum, now, clOrdId, tags);
    DecodeEncode(MessageFields(msgType, seqNum, now, clOrdId, tags));
  }

  // ---- the three messages

  function LimitFields(side: Bytes, qty: int, price: Bytes): seq<Field> {
    [Field(55, AAPL), Field(54, side), Field(38, SignedDecimal(qty)), Field(44, price), Field(40, [0x32]), Field(59, [0x30])]
  }

  function MarketFields(side: Bytes, qty: int): seq<Field> {
    [Field(55, AAPL), Field(54, side), Field(38, SignedDecimal(qty)), Field(40, [0x31])]
  }

  function ReplaceFields(orig: Bytes, side: Bytes, qty: int, price: Bytes): seq<Field> {
    [Field(41, orig), Field(55, AAPL), Field(54, side), Field(38, SignedDecimal(qty)), Field(44, price)]
  }

  lemma SymbolEncoded(side: Bytes, qty: int)
    ensures SYMBOL + [SOH] + TAG_54 + side + [SOH] + TAG_38 + SignedDecimal(qty) + [SOH]
         == Encode([Field(55, AAPL), Field(54, side), Field(38, SignedDecimal(qty))])
  {
    TagsAre();
    var f1, s1 := [Field(55, AAPL)], SYMBOL + [SOH];
    assert SYMBOL == [0x35, 0x35, EQUALS] + AAPL;
    EncodeOne(55, [0x35, 0x35, EQUALS], AAPL);
    EncodeNext(s1, f1, 54, TAG_54, side);
    EncodeNext(s1 + TAG_54 + side + [SOH], f1 + [Field(54, side)], 38, TAG_38, SignedDecimal(qty));
    assert f1 + [Field(54, side)] + [Field(38, SignedDecimal(qty))]
        == [Field(55, AAPL), Field(54, side), Field(38, SignedDecimal(qty))];
  }

  lemma LimitEncoded(side: Bytes, qty: int, price: Bytes)
    ensures LimitTags(side, qty, price) == Encode(LimitFields(side, qty, price))
  {
    TagsAre();
    SymbolEncoded(side, qty);
    var f1 := [Field(55, AAPL), Field(54, side), Field(38, SignedDecimal(qty))];
    var s1 := SYMBOL + [SOH] + TAG_54 + side + [SOH] + TAG_38 + SignedDecimal(qty) + [SOH];
    var f2, s2 := f1 + [Field(44, price)], s1 + TAG_44 + price + [SOH];
    EncodeNext(s1, f1, 44, TAG_44, price);
    var f3, s3 := f2 + [Field(40, [0x32])], s2 + TAG_40 + [0x32] + [SOH];
    EncodeNext(s2, f2, 40, TAG_40, [0x32]);
    EncodeNext(s3, f3, 59, [0x35, 0x39, EQUALS], [0x30]);
    assert s3 + [0x35, 0x39, EQUALS] + [0x30] == s3 + DAY_ORDER;
    assert f3 + [Field(59, [0x30])] == LimitFields(side, qty, price);
  }

  lemma MarketEncoded(side: Bytes, qty: int)
    ensures MarketTags(side, qty) == Encode(MarketFields(side, qty))
  {
    TagsAre();
    SymbolEncoded(side, qty);
    var f1 := [Field(55, AAPL), Field(54, side), Field(38, SignedDecimal(qty))];
    var s1 := SYMBOL + [SOH] + TAG_54 + side + [SOH] + TAG_38 + SignedDecimal(qty) + [SOH];
    EncodeNext(s1, f1, 40, TAG_40, [0x31]);
    assert f1 + [Field(40, [0x31])] == MarketFields(side, qty);
  }

  lemma ReplaceEncoded(orig: Bytes, side: Bytes, qty: int, price: Bytes)
    ensures ReplaceTags(orig, side, qty, price) == Encode(ReplaceFields(orig, side, qty, price))
  {
    TagsAre();
    SymbolEncoded(side, qty);
    ReplaceSplits(orig, side, qty, price);
    var f1 := [Field(55, AAPL), Field(54, side), Field(38, SignedDecimal(qty))];
    var s1 := SYMBOL + [SOH] + TAG_54 + side + [SOH] + TAG_38 + SignedDecimal(qty) + [SOH];
    EncodeNext(s1, f1, 44, TAG_44, price);
    EncodeOne(41, TAG_41, orig);
    EncodeAppends([Field(41, orig)], f1 + [Field(44, price)]);
    assert [Field(41, orig)] + (f1 + [Field(44, price)]) == ReplaceFields(orig, side, qty, price);
  }

  lemma LimitReadsBack(runId: Bytes, botId: Bytes, seqNum: nat, now: int, side: Bytes, qty: int, price: Bytes)
    requires Plain(runId) && Plain(botId) && Plain(side) && Plain(price)
    ensures Decode(Sealed(LimitPayload(runId, botId, seqNum, now, side, qty, price)))
         == MessageFields([0x44], seqNum, now, ClOrdId(runId, botId, seqNum), LimitFields(side, qty, price))
  {
    NumbersArePlain(seqNum, qty);
    LimitEncoded(side, qty, price);
    MessageReadsBack([0x44], seqNum, now, ClOrdId(runId, botId, seqNum), LimitTags(side, qty, price),
                     LimitFields(side, qty, price));
  }

  lemma MarketReadsBack(runId: Bytes, botId: Bytes, seqNum: nat, now: int, side: Bytes, qty: int)
    requires Plain(runId) && Plain(botId) && Plain(side)
    ensures Decode(Sealed(MarketPayload(runId, botId, seqNum, now, side, qty)))
         == MessageFields([0x44], seqNum, now, ClOrdId(runId, botId, seqNum), MarketFields(side, qty))
  {
    NumbersArePlain(seqNum, qty);
    MarketEncoded(side, qty);
    MessageReadsBack([0x44], seqNum, now, ClOrdId(runId, botId, seqNum), MarketTags(side, qty), MarketFields(side, qty));
  }

  lemma ReplaceReadsBack(runId: Bytes, botId: Bytes, seqNum: nat, now: int, orig: Bytes, side: Bytes, qty: int, price: Bytes)
    requires Plain(runId) && Plain(botId) && Plain(side) && Plain(price) && Plain(orig)
    ensures Decode(Sealed(ReplacePayload(runId, botId, seqNum, now, orig, side, qty, price)))
         == MessageFields([0x47], seqNum, now, ClOrdId(runId, botId, seqNum), ReplaceFields(orig, side, qty, price))
  {
    NumbersArePlain(seqNum, qty);
    ReplaceEncoded(orig, side, qty, price);
    MessageReadsBack([0x47], seqNum, now, ClOrdId(runId, botId, seqNum), ReplaceTags(orig, side, qty, price),
                     ReplaceFields(orig, side, qty, price));
  }

  // The numbers in the fields read back as well.
  lemma NumbersReadBack(n: nat, i: int)
    ensures ScanInt(Decimal(n)) == Some(n) && ScanInt(SignedDecimal(i)) == Some(i)
  {
    DecimalScans(n);
    if i < 0 { NegativeScans(i); } else { DecimalScans(i); }
  }

  lemma NegativeScans(i: int)
    requires i < 0
    ensures ScanInt([MINUS] + Decimal(-i)) == Some(i)
  {
    assert ([MINUS] + Decimal(-i))[1..] == Decimal(-i) == Decimal(-i) + [];
    DigitsBefore(Decimal(-i), []);
    ValueOfDecimal(-i);
  }

  lemma DecimalScans(n: nat)
    ensures ScanInt(Decimal(n)) == Some(n)
  {
    assert Decimal(n) + [] == Decimal(n);
    assert IsDigit(Decimal(n)[0]);
    DigitsBefore(Decimal(n), []);
    ValueOfDecimal(n);
  }
}
