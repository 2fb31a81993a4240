/** Building FIX 4.2 messages byte by byte, and checking their checksum. */
module Fix {
  import opened Wrappers

  newtype Byte = x: int | 0 <= x < 256

  type Bytes = seq<Byte>

  const SOH: Byte := 0x01
  const ZERO: Byte := 0x30
  const PLUS: Byte := 0x2B
  const MINUS: Byte := 0x2D
  const ONE: Byte := 0x31
  const EQUALS: Byte := 0x3D

  // "8=FIX.4.2", SOH, "9="
  const BEGIN: Bytes := [0x38, 0x3D, 0x46, 0x49, 0x58, 0x2E, 0x34, 0x2E, 0x32, 0x01, 0x39, 0x3D]
  const TAG_10: Bytes := [0x31, 0x30, 0x3D]
  const TAG_11: Bytes := [0x31, 0x31, 0x3D]
  const TAG_34: Bytes := [0x33, 0x34, 0x3D]
  const TAG_35: Bytes := [0x33, 0x35, 0x3D]
  const TAG_52: Bytes := [0x35, 0x32, 0x3D]

  // ------------------------------------------------------------------ numbers

  predicate IsDigit(b: Byte) {
    0x30 <= b <= 0x39
  }

  function Digit(d: nat): Byte
    requires d < 10
  {
    (0x30 + d) as Byte
  }

  function Decimal(n: nat): (s: Bytes)
    ensures s != [] && forall i :: 0 <= i < |s| ==> IsDigit(s[i])
  {
    if n < 10 then [Digit(n)] else Decimal(n / 10) + [Digit(n % 10)]
  }

  function SignedDecimal(n: int): Bytes {
    if n < 0 then [MINUS] + Decimal(-n) else Decimal(n)
  }

  function ThreeDigits(n: nat): Bytes
    requires n < 1000
  {
    [Digit(n / 100), Digit(n / 10 % 10), Digit(n % 10)]
  }

  // The number written by a string of digits.
  function Value(s: Bytes): nat
    requires forall i :: 0 <= i < |s| ==> IsDigit(s[i])
  {
    if s == [] then 0
    else
      assert IsDigit(s[|s| - 1]);
      10 * Value(s[..|s| - 1]) + (s[|s| - 1] as int - 0x30)
  }

  lemma {:induction false} ValueOfDecimal(n: nat)
    ensures Value(Decimal(n)) == n
  {
    if n >= 10 {
      ValueOfDecimal(n / 10);
      assert Decimal(n)[..|Decimal(n)| - 1] == Decimal(n / 10);
    }
  }

  lemma ValueOfDigits(a: Byte, b: Byte, c: Byte)
    requires IsDigit(a) && IsDigit(b) && IsDigit(c)
    ensures Value([a]) == a as int - 0x30
    ensures Value([a, b]) == 10 * (a as int - 0x30) + (b as int - 0x30)
    ensures Value([a, b, c]) == 100 * (a as int - 0x30) + 10 * (b as int - 0x30) + (c as int - 0x30)
  {
    assert [a][..0] == [];
    assert [a, b][..1] == [a];
    assert [a, b, c][..2] == [a, b];
  }

  // ----------------------------------------------------------------- building

  function Sum(s: Bytes): nat {
    if s == [] then 0 else Sum(s[..|s| - 1]) + s[|s| - 1] as int
  }

  function Body(msgType: Bytes, seqNum: nat, sendTimeNs: int, clOrdId: Bytes, bodyTags: Bytes): Bytes {
    TAG_35 + msgType + [SOH] + TAG_34 + Decimal(seqNum) + [SOH] + TAG_52 + SignedDecimal(sendTimeNs) + [SOH]
    + TAG_11 + clOrdId + [SOH] + bodyTags
  }

  function Header(bodyLen: nat): Bytes {
    BEGIN + Decimal(bodyLen) + [SOH]
  }

  function Payload(msgType: Bytes, seqNum: nat, sendTimeNs: int, clOrdId: Bytes, bodyTags: Bytes): Bytes {
    var body := Body(msgType, seqNum, sendTimeNs, clOrdId, bodyTags);
    Header(|body|) + body
  }

  // A payload with tag 10 behind it, holding the given checksum.
  function Signed(payload: Bytes, checksum: nat): Bytes
    requires checksum < 256
  {
    payload + TAG_10 + ThreeDigits(checksum) + [SOH]
  }

  function Sealed(payload: Bytes): Bytes {
    Signed(payload, Sum(payload) % 256)
  }

  method SumBytes(s: Bytes, start: nat) returns (sum: nat)
    ensures sum == start + Sum(s)
  {
    sum := start;
    for i := 0 to |s|
      invariant sum == start + Sum(s[..i])
    {
      assert s[..i + 1][..i] == s[..i];
      sum := sum + s[i] as int;
    }
    assert s[..|s|] == s;
  }

  lemma {:induction false} SumAppends(a: Bytes, b: Bytes)
    ensures Sum(a + b) == Sum(a) + Sum(b)
  {
    if b == [] {
      assert a + b == a;
    } else {
      assert (a + b)[..|a + b| - 1] == a + b[..|b| - 1];
      SumAppends(a, b[..|b| - 1]);
    }
  }

  method BuildMessage(msgType: Bytes, seqNum: nat, sendTimeNs: int, clOrdId: Bytes, bodyTags: Bytes)
    returns (raw: Bytes)
    ensures raw == Sealed(Payload(msgType, seqNum, sendTimeNs, clOrdId, bodyTags))
  {
    var body := TAG_35 + msgType + [SOH] + TAG_34 + Decimal(seqNum) + [SOH] + TAG_52 + SignedDecimal(sendTimeNs) + [SOH]
              + TAG_11 + clOrdId + [SOH] + bodyTags;
    raw := AddHeaderAndChecksum(body);
  }

  method AddHeaderAndChecksum(body: Bytes) returns (raw: Bytes)
    ensures raw == Sealed(Header(|body|) + body)
  {
    var header := BEGIN + Decimal(|body|) + [SOH];
    var sum := SumBytes(header, 0);
    sum := SumBytes(body, sum);
    SumAppends(header, body);
    raw := header + body + TAG_10 + ThreeDigits(sum % 256) + [SOH];
  }

  // ----------------------------------------------------------------- checking

  // SOH "10=" stands at position i.
  predicate MarkerAt(s: Bytes, i: nat) {
    i + 4 <= |s| && s[i] == SOH && s[i + 1] == ONE && s[i + 2] == ZERO && s[i + 3] == EQUALS
  }

  predicate HasMarker(s: Bytes) {
    exists i :: 0 <= i < |s| && MarkerAt(s, i)
  }

  // Position of the last marker among the first n positions.
  function LastMarker(s: Bytes, n: nat): (r: Option<nat>)
    ensures r.Some? ==> r.value < n && MarkerAt(s, r.value) && forall i :: r.value < i < n ==> !MarkerAt(s, i)
    ensures r.None? ==> forall i :: 0 <= i < n ==> !MarkerAt(s, i)
  {
    if n == 0 then None
    else if MarkerAt(s, n - 1) then Some(n - 1)
    else LastMarker(s, n - 1)
  }

  predicate IsSpace(b: Byte) {
    b == 0x20 || 0x09 <= b <= 0x0D
  }

  function LeadingDigits(s: Bytes): (r: Bytes)
    ensures r <= s && forall i :: 0 <= i < |r| ==> IsDigit(r[i])
    ensures |r| < |s| ==> !IsDigit(s[|r|])
  {
    if s == [] || !IsDigit(s[0]) then [] else [s[0]] + LeadingDigits(s[1..])
  }

  // U+0085 or U+00A0 in UTF-8; any other blank outside ASCII takes three bytes
  // and would leave nothing of the three that are scanned.
  predicate StartsWithWideSpace(s: Bytes) {
    |s| >= 2 && s[0] == 0xC2 && (s[1] == 0x85 || s[1] == 0xA0)
  }

  // An integer scanned as by the verb d of a formatted scan: blanks but no
  // newline, an optional sign, at least one digit; whatever follows is ignored.
  function ScanInt(s: Bytes): Option<int> {
    if s == [] || s[0] == 0x0A then None
    else if IsSpace(s[0]) then ScanInt(s[1..])
    else if StartsWithWideSpace(s) then ScanInt(s[2..])
    else
      var signed := s[0] == PLUS || s[0] == MINUS;
      var digits := LeadingDigits(if signed then s[1..] else s);
      if digits == [] then None
      else
        var value: int := Value(digits);
        Some(if s[0] == MINUS then -value else value)
  }

  // Expected checksum, and whether the embedded one agrees.
  function Verify(raw: Bytes): (int, bool) {
    var last := LastMarker(raw, |raw|);
    if last.None? && !(TAG_10 <= raw) then (-1, false)
    else
      var idx: int := if last.Some? then last.value else -1;
      var expected := Sum(raw[..idx + 1]) % 256;
      var start := idx + 4;
      if start + 3 > |raw| then (expected, false)
      else (expected, ScanInt(raw[start..start + 3]) == Some(expected))
  }

  method VerifyChecksum(raw: Bytes) returns (expected: int, ok: bool)
    ensures (expected, ok) == Verify(raw)
  {
    var idx: int := -1;
    var last := LastMarker(raw, |raw|);
    if last.None? {
      if !(TAG_10 <= raw) {
        return -1, false;
      }
    } else {
      idx := last.value;
    }
    var payloadEnd := idx + 1;
    var sum := SumBytes(raw[..payloadEnd], 0);
    expected := sum % 256;
    var checksumStart := idx + 4;
    if checksumStart + 3 > |raw| {
      return expected, false;
    }
    var embedded := ScanInt(raw[checksumStart..checksumStart + 3]);
    if embedded.None? {
      return expected, false;
    }
    return expected, expected == embedded.value;
  }

  // The last SOH "10=" decides: what stands before it is summed, and the three
  // bytes behind it are read.
  lemma LastMarkerDecides(raw: Bytes, i: nat)
    requires MarkerAt(raw, i) && forall j: nat :: i < j < |raw| ==> !MarkerAt(raw, j)
    ensures var sum := Sum(raw[..i + 1]) % 256;
            && Verify(raw).0 == sum
            && (Verify(raw).1 <==> i + 7 <= |raw| && ScanInt(raw[i + 4..i + 7]) == Some(sum))
  {
    assert LastMarker(raw, |raw|) == Some(i);
  }

  // Without one, only a message that begins with "10=" can pass, as the
  // checksum of nothing.
  lemma NoMarkerDecides(raw: Bytes)
    requires forall j: nat :: j < |raw| ==> !MarkerAt(raw, j)
    ensures !(TAG_10 <= raw) ==> Verify(raw) == (-1, false)
    ensures TAG_10 <= raw ==>
              Verify(raw).0 == 0 && (Verify(raw).1 <==> |raw| >= 6 && ScanInt(raw[3..6]) == Some(0))
  {
    assert LastMarker(raw, |raw|) == None;
    assert raw[..0] == [];
  }

  // --------------------------------------------------------------- round trip

  predicate Terminated(s: Bytes) {
    s != [] && s[|s| - 1] == SOH
  }

  lemma ScanThreeDigits(n: nat)
    requires n < 256
    ensures ScanInt(ThreeDigits(n)) == Some(n)
  {
    var s := ThreeDigits(n);
    assert LeadingDigits(s) == s by {
      assert s[1..][1..] == s[2..] && s[2..][1..] == [];
    }
    ValueOfDigits(s[0], s[1], s[2]);
  }

  // A terminated payload with seven bytes of trailer behind it: tag 10 is the last marker.
  lemma TrailerIsLast(payload: Bytes, digits: Bytes, raw: Bytes)
    requires Terminated(payload) && |digits| == 3 && raw == payload + TAG_10 + digits + [SOH]
    ensures LastMarker(raw, |raw|) == Some(|payload| - 1)
    ensures raw[..|payload|] == payload && raw[|payload| + 3..|payload| + 6] == digits
  {
    var n := |payload|;
    assert raw[n] == ONE && raw[n + 1] == ZERO && raw[n + 2] == EQUALS;
    assert raw[n + 3] == digits[0] && raw[n + 4] == digits[1] && raw[n + 5] == digits[2];
    assert MarkerAt(raw, n - 1);
  }

  lemma VerifyTrailer(payload: Bytes, digits: Bytes)
    requires Terminated(payload) && |digits| == 3
    ensures Verify(payload + TAG_10 + digits + [SOH])
         == (Sum(payload) % 256, ScanInt(digits) == Some(Sum(payload) % 256))
  {
    TrailerIsLast(payload, digits, payload + TAG_10 + digits + [SOH]);
  }

  // Every message passes its own check, whatever its fields contain, as long as
  // the body tags are empty or end with the delimiter.
  lemma BuiltMessagesVerify(msgType: Bytes, seqNum: nat, sendTimeNs: int, clOrdId: Bytes, bodyTags: Bytes)
    requires bodyTags == [] || Terminated(bodyTags)
    ensures var payload := Payload(msgType, seqNum, sendTimeNs, clOrdId, bodyTags);
            Terminated(payload) && Verify(Sealed(payload)) == (Sum(payload) % 256, true)
  {
    var payload := Payload(msgType, seqNum, sendTimeNs, clOrdId, bodyTags);
    var c := Sum(payload) % 256;
    VerifyTrailer(payload, ThreeDigits(c));
    ScanThreeDigits(c);
  }

  // Without the delimiter, and without a stray marker, the check fails.
  lemma UnterminatedFails(payload: Bytes)
    requires payload != [] && payload[0] != ONE && !HasMarker(payload)
    ensures Verify(Sealed(payload)).1 <==> Terminated(payload)
  {
    var raw, n, c := Sealed(payload), |payload|, Sum(payload) % 256;
    if Terminated(payload) {
      VerifyTrailer(payload, ThreeDigits(c));
      ScanThreeDigits(c);
    } else {
      assert raw[..n] == payload;
      assert raw[n] == ONE && raw[n + 1] == ZERO && raw[n + 2] == EQUALS;
      forall i | 0 <= i < |raw| ensures !MarkerAt(raw, i) {
        if i + 4 <= n { assert MarkerAt(raw, i) ==> MarkerAt(payload, i); }
      }
    }
  }

  // ---- tag 9

  // Position of the first SOH from `from` on.
  function NextDelimiter(s: Bytes, from: nat): (r: nat)
    requires from <= |s|
    ensures from <= r <= |s| && (r < |s| ==> s[r] == SOH) && forall i :: from <= i < r ==> s[i] != SOH
    decreases |s| - from
  {
    if from == |s| || s[from] == SOH then from else NextDelimiter(s, from + 1)
  }

  // Tag 9 of a message, read back: where its value ends, and the value.
  lemma TagNineIs(raw: Bytes, len: Bytes, rest: Bytes)
    requires raw == BEGIN + len + [SOH] + rest && forall i :: 0 <= i < |len| ==> IsDigit(len[i])
    ensures NextDelimiter(raw, |BEGIN|) == |BEGIN| + |len|
    ensures BEGIN <= raw && raw[|BEGIN|..|BEGIN| + |len|] == len && raw[|BEGIN| + |len| + 1..] == rest
  {
    var end := |BEGIN| + |len|;
    forall i | |BEGIN| <= i < end ensures raw[i] != SOH {
      assert raw[i] == len[i - |BEGIN|];
    }
    assert raw[end] == SOH;
    DelimiterIs(raw, |BEGIN|, end);
  }

  // Tag 9 holds the number of bytes from tag 35 up to the delimiter before tag 10.
  lemma BodyLengthIsExact(msgType: Bytes, seqNum: nat, sendTimeNs: int, clOrdId: Bytes, bodyTags: Bytes)
    ensures var raw := Sealed(Payload(msgType, seqNum, sendTimeNs, clOrdId, bodyTags));
            var end := NextDelimiter(raw, |BEGIN|);
            && BEGIN <= raw
            && end + 4 <= |raw| - 7
            && (forall i :: 0 <= i < |raw[|BEGIN|..end]| ==> IsDigit(raw[|BEGIN|..end][i]))
            && Value(raw[|BEGIN|..end]) == |raw[end + 1..|raw| - 7]|
            && TAG_35 <= raw[end + 1..]
            && TAG_10 <= raw[|raw| - 7..]
  {
    var body := Body(msgType, seqNum, sendTimeNs, clOrdId, bodyTags);
    var payload := Payload(msgType, seqNum, sendTimeNs, clOrdId, bodyTags);
    StartsWithTag35(msgType, seqNum, sendTimeNs, clOrdId, bodyTags);
    FramedBody(body, Decimal(|body|), TAG_10 + ThreeDigits(Sum(payload) % 256) + [SOH], Sealed(payload));
    ValueOfDecimal(|body|);
  }

  lemma FramedBody(body: Bytes, len: Bytes, trailer: Bytes, raw: Bytes)
    requires forall i :: 0 <= i < |len| ==> IsDigit(len[i])
    requires TAG_35 <= body && TAG_10 <= trailer && |trailer| == 7
    requires raw == BEGIN + len + [SOH] + body + trailer
    ensures var end := NextDelimiter(raw, |BEGIN|);
            && BEGIN <= raw && end == |BEGIN| + |len| && raw[|BEGIN|..end] == len
            && |raw| == end + 1 + |body| + 7
            && TAG_35 <= raw[end + 1..] && TAG_10 <= raw[|raw| - 7..]
  {
    var front, rest := BEGIN + len + [SOH], body + trailer;
    Associates(front, body, trailer);
    TagNineIs(raw, len, rest);
    SuffixIs(front + body, trailer, raw);
    PrefixStays(TAG_35, body, trailer);
  }

  lemma Associates(a: Bytes, b: Bytes, c: Bytes)
    ensures a + b + c == a + (b + c)
  {
  }

  lemma SuffixIs(front: Bytes, back: Bytes, s: Bytes)
    requires s == front + back
    ensures s[|s| - |back|..] == back
  {
  }

  lemma PrefixStays(p: Bytes, s: Bytes, more: Bytes)
    requires p <= s
    ensures p <= s + more
  {
  }

  lemma StartsWithTag35(msgType: Bytes, seqNum: nat, sendTimeNs: int, clOrdId: Bytes, bodyTags: Bytes)
    ensures TAG_35 <= Body(msgType, seqNum, sendTimeNs, clOrdId, bodyTags)
  {
  }

  lemma {:induction false} DelimiterIs(s: Bytes, from: nat, at: nat)
    requires from <= at < |s| && s[at] == SOH && forall i :: from <= i < at ==> s[i] != SOH
    ensures NextDelimiter(s, from) == at
  {
  }

  // --------------------------------------------------------------- a session

  const U64_SIZE: int := 0x1_0000_0000_0000_0000

  const TAG_38: Bytes := [0x33, 0x38, 0x3D]
  const TAG_40: Bytes := [0x34, 0x30, 0x3D]
  const TAG_41: Bytes := [0x34, 0x31, 0x3D]
  const TAG_44: Bytes := [0x34, 0x34, 0x3D]
  const TAG_54: Bytes := [0x35, 0x34, 0x3D]
  // "55=AAPL"
  const SYMBOL: Bytes := [0x35, 0x35, 0x3D, 0x41, 0x41, 0x50, 0x4C]
  // "59=0"
  const DAY_ORDER: Bytes := [0x35, 0x39, 0x3D, 0x30]
  const NEW_ORDER: Bytes := [0x44]
  const REPLACE_ORDER: Bytes := [0x47]

  function ClOrdId(runId: Bytes, botId: Bytes, seqNum: nat): Bytes {
    runId + [MINUS] + botId + [MINUS] + Decimal(seqNum)
  }

  datatype FixMessage = FixMessage(raw: Bytes, clOrdId: Bytes, seqNum: nat, sendTimeNs: int)

  // A message for this id and sequence number that passes its own check.
  ghost predicate Sound(m: FixMessage, runId: Bytes, botId: Bytes, msgType: Bytes, bodyTags: Bytes) {
    && m.clOrdId == ClOrdId(runId, botId, m.seqNum)
    && m.raw == Sealed(Payload(msgType, m.seqNum, m.sendTimeNs, m.clOrdId, bodyTags))
    && Verify(m.raw).1
  }

  function LimitTags(side: Bytes, qty: int, price: Bytes): Bytes {
    SYMBOL + [SOH] + TAG_54 + side + [SOH] + TAG_38 + SignedDecimal(qty) + [SOH] + TAG_44 + price + [SOH]
    + TAG_40 + [0x32] + [SOH] + DAY_ORDER + [SOH]
  }

  function MarketTags(side: Bytes, qty: int): Bytes {
    SYMBOL + [SOH] + TAG_54 + side + [SOH] + TAG_38 + SignedDecimal(qty) + [SOH] + TAG_40 + [ONE] + [SOH]
  }

  function ReplaceTags(origClOrdId: Bytes, side: Bytes, qty: int, price: Bytes): Bytes {
    TAG_41 + origClOrdId + [SOH] + SYMBOL + [SOH] + TAG_54 + side + [SOH] + TAG_38 + SignedDecimal(qty) + [SOH]
    + TAG_44 + price + [SOH]
  }

  class FixGenerator {
    const runId: Bytes
    const botId: Bytes
    // Atomic 64-bit counter; the first number used is 1.
    var seqNum: nat

    ghost predicate Valid()
      reads this
    {
      seqNum < U64_SIZE
    }

    constructor (runId: Bytes, botId: Bytes)
      ensures Valid() && this.runId == runId && this.botId == botId && seqNum == 0
    {
      this.runId, this.botId, seqNum := runId, botId, 0;
    }

    method NextSeqNum() returns (number: nat)
      requires Valid()
      modifies this
      ensures Valid() && seqNum == number == (old(seqNum) + 1) % U64_SIZE
    {
      seqNum := (seqNum + 1) % U64_SIZE;
      number := seqNum;
    }

    // The clock and the text of the price come from outside.
    method LimitOrder(side: Bytes, qty: int, price: Bytes, now: int) returns (m: FixMessage)
      requires Valid()
      modifies this
      ensures Valid() && seqNum == m.seqNum == (old(seqNum) + 1) % U64_SIZE && m.sendTimeNs == now
      ensures Sound(m, runId, botId, NEW_ORDER, LimitTags(side, qty, price))
    {
      var number := NextSeqNum();
      var cid := ClOrdId(runId, botId, number);
      var raw := BuildMessage(NEW_ORDER, number, now, cid, LimitTags(side, qty, price));
      BuiltMessagesVerify(NEW_ORDER, number, now, cid, LimitTags(side, qty, price));
      m := FixMessage(raw, cid, number, now);
    }

    method MarketOrder(side: Bytes, qty: int, now: int) returns (m: FixMessage)
      requires Valid()
      modifies this
      ensures Valid() && seqNum == m.seqNum == (old(seqNum) + 1) % U64_SIZE && m.sendTimeNs == now
      ensures Sound(m, runId, botId, NEW_ORDER, MarketTags(side, qty))
    {
      var number := NextSeqNum();
      var cid := ClOrdId(runId, botId, number);
      var raw := BuildMessage(NEW_ORDER, number, now, cid, MarketTags(side, qty));
      BuiltMessagesVerify(NEW_ORDER, number, now, cid, MarketTags(side, qty));
      m := FixMessage(raw, cid, number, now);
    }

    method CancelReplace(origClOrdId: Bytes, side: Bytes, qty: int, price: Bytes, now: int) returns (m: FixMessage)
      requires Valid()
      modifies this
      ensures Valid() && seqNum == m.seqNum == (old(seqNum) + 1) % U64_SIZE && m.sendTimeNs == now
      ensures Sound(m, runId, botId, REPLACE_ORDER, ReplaceTags(origClOrdId, side, qty, price))
    {
      var number := NextSeqNum();
      var cid := ClOrdId(runId, botId, number);
      var raw := BuildMessage(REPLACE_ORDER, number, now, cid, ReplaceTags(origClOrdId, side, qty, price));
      BuiltMessagesVerify(REPLACE_ORDER, number, now, cid, ReplaceTags(origClOrdId, side, qty, price));
      m := FixMessage(raw, cid, number, now);
    }
  }

  lemma DashBeforeDigits(a: Bytes, m: nat)
    ensures var s := a + [MINUS] + Decimal(m);
            s[|a|] == MINUS && forall i :: |a| < i < |s| ==> s[i] != MINUS
  {
    var s := a + [MINUS] + Decimal(m);
    forall i | |a| < i < |s| ensures s[i] != MINUS {
      assert s[i] == Decimal(m)[i - |a| - 1];
    }
  }

  // The digits behind the last dash are the sequence number.
  lemma LastDashSplits(a: Bytes, m: nat, b: Bytes, n: nat)
    requires a + [MINUS] + Decimal(m) == b + [MINUS] + Decimal(n)
    ensures a == b && m == n
  {
    var s, t := a + [MINUS] + Decimal(m), b + [MINUS] + Decimal(n);
    DashBeforeDigits(a, m);
    DashBeforeDigits(b, n);
    assert s[..|a|] == a && t[..|b|] == b;
    assert s[|a| + 1..] == Decimal(m) && t[|b| + 1..] == Decimal(n);
    ValueOfDecimal(m);
    ValueOfDecimal(n);
  }

  // Two orders share a ClOrdID exactly when they have the same sequence number
  // and their run and bot ids read the same once joined by a dash. Among runs
  // whose ids are equally long the ClOrdID determines run, bot and number.
  lemma ClOrdIdsCollide(run1: Bytes, bot1: Bytes, seq1: nat, run2: Bytes, bot2: Bytes, seq2: nat)
    ensures ClOrdId(run1, bot1, seq1) == ClOrdId(run2, bot2, seq2)
            <==> seq1 == seq2 && run1 + [MINUS] + bot1 == run2 + [MINUS] + bot2
    ensures |run1| == |run2| ==>
              (ClOrdId(run1, bot1, seq1) == ClOrdId(run2, bot2, seq2) <==> run1 == run2 && bot1 == bot2 && seq1 == seq2)
  {
    var a, b := run1 + [MINUS] + bot1, run2 + [MINUS] + bot2;
    if ClOrdId(run1, bot1, seq1) == ClOrdId(run2, bot2, seq2) {
      LastDashSplits(a, seq1, b, seq2);
      assert |run1| == |run2| ==> a[..|run1|] == run1 && b[..|run2|] == run2;
      assert a[|run1| + 1..] == bot1 && b[|run2| + 1..] == bot2;
    }
  }

  // With ids of different lengths they may: run "a", bot "b-c" and run "a-b", bot "c".
  lemma ClOrdIdsDoCollide(seqNum: nat) returns (run1: Bytes, bot1: Bytes, run2: Bytes, bot2: Bytes)
    ensures ClOrdId(run1, bot1, seqNum) == ClOrdId(run2, bot2, seqNum) && run1 != run2 && bot1 != bot2
  {
    run1, bot1 := [0x61], [0x62, MINUS, 0x63];
    run2, bot2 := [0x61, MINUS, 0x62], [0x63];
    assert run1 + [MINUS] + bot1 == run2 + [MINUS] + bot2;
  }
}
