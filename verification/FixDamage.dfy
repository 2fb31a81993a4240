/** What the checksum finds when one byte of a message has changed. */
module FixDamage {
  import opened Wrappers
  import opened Fix

  // The change to byte p of a sealed payload is found.
  ghost predicate Found(payload: Bytes, p: nat, b: Byte)
    requires p < |payload| + 7
  {
    !Verify(Sealed(payload)[p := b]).1
  }

  // ---- a byte of the fields

  lemma {:induction false} SumChanged(s: Bytes, p: nat, b: Byte)
    requires p < |s|
    ensures Sum(s[p := b]) == Sum(s) - s[p] as int + b as int
  {
    var n := |s| - 1;
    if p == n {
      assert s[p := b][..n] == s[..n];
    } else {
      assert s[p := b][..n] == s[..n][p := b];
      SumChanged(s[..n], p, b);
    }
  }

  lemma ChangedInPayload(payload: Bytes, digits: Bytes, p: nat, b: Byte)
    requires p < |payload|
    ensures (payload + TAG_10 + digits + [SOH])[p := b] == payload[p := b] + TAG_10 + digits + [SOH]
  {
  }

  // Any change in front of the last delimiter of the payload is found.
  lemma PayloadChangeFound(payload: Bytes, p: nat, b: Byte)
    requires Terminated(payload) && p + 1 < |payload| && b != payload[p]
    ensures Found(payload, p, b)
  {
    var c, changed := Sum(payload) % 256, payload[p := b];
    SumChanged(payload, p, b);
    ChangedModulo(Sum(payload), payload[p] as int, b as int);
    ChangedInPayload(payload, ThreeDigits(c), p, b);
    WrongChecksumFails(changed, c);
  }

  lemma WrongChecksumFails(payload: Bytes, checksum: nat)
    requires Terminated(payload) && checksum < 256 && checksum != Sum(payload) % 256
    ensures !Verify(payload + TAG_10 + ThreeDigits(checksum) + [SOH]).1
  {
    VerifyTrailer(payload, ThreeDigits(checksum));
    ScanThreeDigits(checksum);
  }

  lemma ChangedModulo(sum: nat, before: int, after: int)
    requires 0 <= before < 256 && 0 <= after < 256 && before != after && sum - before + after >= 0
    ensures (sum - before + after) % 256 != sum % 256
  {
  }

  // ---- a digit of the checksum

  lemma ScanTwoDigits(a: Byte, b: Byte)
    requires IsDigit(a) && IsDigit(b)
    ensures LeadingDigits([a, b]) == [a, b] && Value([a, b]) == 10 * (a as int - 0x30) + (b as int - 0x30)
  {
    assert [a, b][1..] == [b] && [b][1..] == [];
    assert LeadingDigits([b]) == [b];
    ValueOfDigits(a, b, b);
  }

  lemma ScanChangedFirst(x: Byte, b: Byte, c: Byte)
    requires IsDigit(b) && IsDigit(c)
    ensures var two := 10 * (b as int - 0x30) + (c as int - 0x30);
            ScanInt([x, b, c])
            == if (IsSpace(x) && x != 0x0A) || x == PLUS then Some(two)
               else if x == MINUS then Some(-two)
               else if IsDigit(x) then Some(100 * (x as int - 0x30) + two)
               else None
  {
    var s := [x, b, c];
    assert s[1..] == [b, c];
    ScanTwoDigits(b, c);
    assert ScanInt([b, c]) == Some(10 * (b as int - 0x30) + (c as int - 0x30));
    if IsDigit(x) {
      assert LeadingDigits(s) == [x] + LeadingDigits([b, c]) == s;
      ValueOfDigits(x, b, c);
    }
  }

  lemma ScanChangedLater(a: Byte, x: Byte, y: Byte)
    requires IsDigit(a)
    ensures var d := a as int - 0x30;
            ScanInt([a, x, y])
            == if !IsDigit(x) then Some(d)
               else if !IsDigit(y) then Some(10 * d + (x as int - 0x30))
               else Some(100 * d + 10 * (x as int - 0x30) + (y as int - 0x30))
  {
    var s := [a, x, y];
    assert s[1..] == [x, y] && [x, y][1..] == [y] && [y][1..] == [];
    assert LeadingDigits(s) == [a] + LeadingDigits([x, y]);
    if !IsDigit(x) {
      assert LeadingDigits(s) == [a];
      ValueOfDigits(a, a, a);
    } else if !IsDigit(y) {
      assert LeadingDigits([x, y]) == [x];
      assert LeadingDigits(s) == [a, x];
      ValueOfDigits(a, x, a);
    } else {
      ScanTwoDigits(x, y);
      assert LeadingDigits(s) == s;
      ValueOfDigits(a, x, y);
    }
  }

  // When a checksum with one changed digit still scans to the same number: a
  // leading zero may become a blank or a plus sign, and a checksum of zero may
  // lose a later digit or gain a minus sign.
  predicate Unnoticed(checksum: nat, q: nat, b: Byte) {
    if q == 0 then (checksum < 100 && ((IsSpace(b) && b != 0x0A) || b == PLUS)) || (checksum == 0 && b == MINUS)
    else checksum == 0 && !IsDigit(b)
  }

  lemma ChangedDigitScans(c: nat, q: nat, b: Byte)
    requires c < 256 && q < 3 && b != ThreeDigits(c)[q]
    ensures ScanInt(ThreeDigits(c)[q := b]) == Some(c) <==> Unnoticed(c, q, b)
  {
    var x, y, z := c / 100, c / 10 % 10, c % 10;
    assert c == 100 * x + 10 * y + z;
    var d := ThreeDigits(c);
    if q == 0 {
      assert d[0 := b] == [b, d[1], d[2]];
      ScanChangedFirst(b, d[1], d[2]);
    } else if q == 1 {
      assert d[1 := b] == [d[0], b, d[2]];
      ScanChangedLater(d[0], b, d[2]);
    } else {
      assert d[2 := b] == [d[0], d[1], b];
      ScanChangedLater(d[0], d[1], b);
    }
  }

  lemma ChangedInTrailer(payload: Bytes, digits: Bytes, q: nat, b: Byte)
    requires |digits| == 3 && q < 3
    ensures var raw := payload + TAG_10 + digits + [SOH];
            raw[|payload| + 3 + q] == digits[q]
            && raw[|payload| + 3 + q := b] == payload + TAG_10 + digits[q := b] + [SOH]
  {
  }

  // A change to a checksum digit is found exactly when it matters to the scan.
  lemma DigitChangeFound(payload: Bytes, q: nat, b: Byte)
    requires Terminated(payload) && q < 3 && b != Sealed(payload)[|payload| + 3 + q]
    ensures Found(payload, |payload| + 3 + q, b) <==> !Unnoticed(Sum(payload) % 256, q, b)
  {
    var c := Sum(payload) % 256;
    ChangedInTrailer(payload, ThreeDigits(c), q, b);
    VerifyTrailer(payload, ThreeDigits(c)[q := b]);
    ChangedDigitScans(c, q, b);
  }

  // ---- the marker in front of the checksum

  // Up to three bytes from a position on.
  function Window(s: Bytes, from: nat): Bytes
    requires from <= |s|
  {
    if from + 3 <= |s| then s[from..from + 3] else s[from..]
  }

  // The last SOH "10=" in s is followed by the checksum of what stands before it.
  predicate StrayFits(s: Bytes) {
    var last := LastMarker(s, |s|);
    && last.Some?
    && ScanInt(Window(s, last.value + 4)) == Some(Sum(s[..last.value + 1]) % 256)
  }

  lemma SameLastMarker(s: Bytes, raw: Bytes)
    requires s <= raw && forall i: nat :: |s| <= i + 3 && i < |raw| ==> !MarkerAt(raw, i)
    ensures LastMarker(raw, |raw|) == LastMarker(s, |s|)
  {
    assert forall i: nat :: i + 4 <= |s| ==> (MarkerAt(raw, i) <==> MarkerAt(s, i));
  }

  // When nothing behind s is a marker, the last one inside s is checked instead.
  lemma OnlyStrayDecides(s: Bytes, raw: Bytes)
    requires s <= raw && |s| + 3 <= |raw| && !(TAG_10 <= raw)
    requires forall i: nat :: |s| <= i + 3 && i < |raw| ==> !MarkerAt(raw, i)
    ensures var last := LastMarker(s, |s|);
            Verify(raw).1 <==> last.Some? && ScanInt(raw[last.value + 4..last.value + 7]) == Some(Sum(s[..last.value + 1]) % 256)
  {
    SameLastMarker(s, raw);
    var last := LastMarker(s, |s|);
    if last.Some? {
      assert raw[..last.value + 1] == s[..last.value + 1];
    }
  }

  lemma {:induction false} DigitsStop(s: Bytes, more: Bytes)
    requires Terminated(s)
    ensures LeadingDigits(s + more) == LeadingDigits(s)
  {
    if IsDigit(s[0]) {
      assert (s + more)[1..] == s[1..] + more;
      DigitsStop(s[1..], more);
    }
  }

  // A scan never looks past a delimiter.
  lemma {:induction false} ScanStops(s: Bytes, more: Bytes)
    requires Terminated(s)
    ensures ScanInt(s + more) == ScanInt(s)
  {
    assert (s + more)[1..] == s[1..] + more;
    if IsSpace(s[0]) {
      if s[0] != 0x0A { ScanStops(s[1..], more); }
    } else if StartsWithWideSpace(s) {
      assert (s + more)[2..] == s[2..] + more;
      ScanStops(s[2..], more);
    } else if s[0] == PLUS || s[0] == MINUS {
      DigitsStop(s[1..], more);
    } else {
      DigitsStop(s, more);
    }
  }

  lemma WindowInPayload(payload: Bytes, raw: Bytes, from: nat)
    requires Terminated(payload) && payload <= raw && |payload| + 3 <= |raw| && from < |payload|
    ensures ScanInt(raw[from..from + 3]) == ScanInt(Window(payload, from))
  {
    var w, n := Window(payload, from), |payload|;
    if from + 3 <= n {
      assert raw[from..from + 3] == w;
    } else {
      assert raw[from..from + 3] == w + raw[n..from + 3];
      ScanStops(w, raw[n..from + 3]);
    }
  }

  lemma DamagedTagIsNoMarker(payload: Bytes, p: nat, b: Byte, raw: Bytes)
    requires Terminated(payload) && payload[0] != ONE
    requires |payload| <= p < |payload| + 3 && b != Sealed(payload)[p] && raw == Sealed(payload)[p := b]
    ensures payload <= raw && !(TAG_10 <= raw)
    ensures forall i: nat :: |payload| <= i + 3 && i < |raw| ==> !MarkerAt(raw, i)
  {
    var n, sealed := |payload|, Sealed(payload);
    assert sealed[n] == ONE && sealed[n + 1] == ZERO && sealed[n + 2] == EQUALS;
    forall i: nat | n <= i + 3 && i < |raw| ensures !MarkerAt(raw, i) {
      assert raw[n - 1] == SOH;
    }
    assert raw[0] == payload[0];
  }

  // Damage to "10=" itself.
  lemma TagChangeFound(payload: Bytes, p: nat, b: Byte)
    requires Terminated(payload) && payload[0] != ONE
    requires |payload| <= p < |payload| + 3 && b != Sealed(payload)[p]
    ensures Found(payload, p, b) <==> !StrayFits(payload)
  {
    var raw := Sealed(payload)[p := b];
    DamagedTagIsNoMarker(payload, p, b, raw);
    StrayDecides(payload, raw);
  }

  lemma StrayDecides(payload: Bytes, raw: Bytes)
    requires Terminated(payload) && payload <= raw && |payload| + 3 <= |raw| && !(TAG_10 <= raw)
    requires forall i: nat :: |payload| <= i + 3 && i < |raw| ==> !MarkerAt(raw, i)
    ensures Verify(raw).1 <==> StrayFits(payload)
  {
    OnlyStrayDecides(payload, raw);
    var last := LastMarker(payload, |payload|);
    if last.Some? {
      assert payload[last.value + 3] == EQUALS;
      WindowInPayload(payload, raw, last.value + 4);
    }
  }

  // A payload with another byte for its last delimiter, up to and with "10=".
  function EndChanged(payload: Bytes, b: Byte): Bytes
    requires payload != []
  {
    payload[|payload| - 1 := b] + TAG_10
  }

  lemma ChangedEndIsNoMarker(payload: Bytes, digits: Bytes, b: Byte, s: Bytes, raw: Bytes)
    requires Terminated(payload) && payload[0] != ONE && b != SOH && |digits| == 3 && Plain(digits)
    requires s == EndChanged(payload, b) && raw == s + digits + [SOH]
    ensures !(TAG_10 <= raw)
    ensures forall i: nat :: |payload| <= i + 3 && i < |s| ==> !MarkerAt(s, i)
    ensures forall i: nat :: |s| <= i + 3 && i < |raw| ==> !MarkerAt(raw, i)
  {
    var n := |payload|;
    assert s[n - 1] == b && s[n] == ONE && s[n + 1] == ZERO && s[n + 2] == EQUALS;
    assert forall i :: 0 <= i < |s| ==> raw[i] == s[i];
    assert forall i :: 0 <= i < 3 ==> raw[n + 3 + i] == digits[i];
    if n > 1 { assert raw[0] == payload[0]; }
  }

  // Damage to the delimiter in front of it: "10=" then belongs to the last field.
  lemma DelimiterChangeFound(payload: Bytes, b: Byte)
    requires Terminated(payload) && payload[0] != ONE && b != SOH
    ensures Found(payload, |payload| - 1, b) <==> !StrayFits(EndChanged(payload, b))
  {
    var s, digits := EndChanged(payload, b), ThreeDigits(Sum(payload) % 256);
    var raw := Sealed(payload)[|payload| - 1 := b];
    ChangedInPayload(payload, digits, |payload| - 1, b);
    assert raw == s + digits + [SOH];
    ChangedEndIsNoMarker(payload, digits, b, s, raw);
    OnlyStrayDecides(s, raw);
    var last := LastMarker(s, |s|);
    if last.Some? {
      assert last.value + 4 <= |payload|;
      assert raw[last.value + 4..last.value + 7] == Window(s, last.value + 4);
    }
  }

  // A changed byte of the marker is found exactly when no earlier marker,
  // in the fields or completed by the change, happens to fit.
  lemma MarkerChangeFound(payload: Bytes, p: nat, b: Byte)
    requires Terminated(payload) && payload[0] != ONE
    requires |payload| - 1 <= p < |payload| + 3 && b != Sealed(payload)[p]
    ensures Found(payload, p, b)
            <==> !StrayFits(if p == |payload| - 1 then EndChanged(payload, b) else payload)
  {
    if p == |payload| - 1 {
      assert Sealed(payload)[p] == SOH;
      DelimiterChangeFound(payload, b);
    } else {
      TagChangeFound(payload, p, b);
    }
  }

  // ---- any byte

  // Some other byte in place of the last delimiter leaves a message whose
  // earlier marker fits.
  ghost predicate EndFits(payload: Bytes)
    requires payload != []
  {
    exists b: Byte :: b != SOH && StrayFits(EndChanged(payload, b))
  }

  // Every single changed byte before the final delimiter makes the check fail.
  ghost predicate EveryChangeFound(payload: Bytes) {
    forall p: nat, b: Byte | p < |payload| + 6 && b != Sealed(payload)[p] :: Found(payload, p, b)
  }

  lemma GoodMarkerFound(payload: Bytes, p: nat, b: Byte)
    requires Terminated(payload) && payload[0] != ONE && !StrayFits(payload) && !EndFits(payload)
    requires |payload| - 1 <= p < |payload| + 3 && b != Sealed(payload)[p]
    ensures Found(payload, p, b)
  {
    if p + 1 == |payload| {
      assert Sealed(payload)[p] == SOH;
      DelimiterChangeFound(payload, b);
    } else {
      TagChangeFound(payload, p, b);
    }
  }

  lemma GoodDigitFound(payload: Bytes, p: nat, b: Byte)
    requires Terminated(payload) && Sum(payload) % 256 >= 100
    requires |payload| + 3 <= p < |payload| + 6 && b != Sealed(payload)[p]
    ensures Found(payload, p, b)
  {
    var q := p - |payload| - 3;
    assert p == |payload| + 3 + q;
    DigitChangeFound(payload, q, b);
  }

  lemma GoodPayloadFound(payload: Bytes, p: nat, b: Byte)
    requires Terminated(payload) && payload[0] != ONE
    requires Sum(payload) % 256 >= 100 && !StrayFits(payload) && !EndFits(payload)
    requires p < |payload| + 6 && b != Sealed(payload)[p]
    ensures Found(payload, p, b)
  {
    if p + 1 < |payload| {
      assert Sealed(payload)[p] == payload[p];
      PayloadChangeFound(payload, p, b);
    } else if p < |payload| + 3 {
      GoodMarkerFound(payload, p, b);
    } else {
      GoodDigitFound(payload, p, b);
    }
  }

  lemma SmallChecksumMissed(payload: Bytes)
    requires Terminated(payload) && Sum(payload) % 256 < 100
    ensures PLUS != Sealed(payload)[|payload| + 3] && !Found(payload, |payload| + 3, PLUS)
  {
    ChangedInTrailer(payload, ThreeDigits(Sum(payload) % 256), 0, PLUS);
    DigitChangeFound(payload, 0, PLUS);
  }

  lemma StrayMissed(payload: Bytes)
    requires Terminated(payload) && payload[0] != ONE && (StrayFits(payload) || EndFits(payload))
    ensures !EveryChangeFound(payload)
  {
    var n, sealed := |payload|, Sealed(payload);
    assert sealed[n - 1] == SOH && sealed[n] == ONE;
    if StrayFits(payload) {
      MarkerChangeFound(payload, n, ZERO);
    } else {
      var b: Byte :| b != SOH && StrayFits(EndChanged(payload, b));
      MarkerChangeFound(payload, n - 1, b);
    }
  }

  // Every single changed byte is found exactly when the checksum has no
  // leading zero and no marker inside the fields fits, as they stand or with
  // another byte in place of the last delimiter.
  lemma AnyChangeFound(payload: Bytes)
    requires Terminated(payload) && payload[0] != ONE
    ensures EveryChangeFound(payload)
            <==> Sum(payload) % 256 >= 100 && !StrayFits(payload) && !EndFits(payload)
  {
    if StrayFits(payload) || EndFits(payload) {
      StrayMissed(payload);
    } else if Sum(payload) % 256 < 100 {
      SmallChecksumMissed(payload);
    } else {
      forall p: nat, b: Byte | p < |payload| + 6 && b != Sealed(payload)[p] ensures Found(payload, p, b) {
        GoodPayloadFound(payload, p, b);
      }
    }
  }

  // ---- fields without a delimiter of their own

  predicate Plain(s: Bytes) {
    SOH !in s
  }

  // Fields, each ended by a delimiter, none of which begins with "10".
  ghost predicate Tidy(s: Bytes) {
    Terminated(s) && NoTen([SOH] + s)
  }

  ghost predicate NoTen(s: Bytes) {
    forall i :: 0 <= i < |s| - 2 ==> !(s[i] == SOH && s[i + 1] == ONE && s[i + 2] == ZERO)
  }

  lemma OneField(f: Bytes)
    requires Plain(f) && |f| >= 2 && (f[0] != ONE || f[1] != ZERO)
    ensures Tidy(f + [SOH])
  {
    var s := [SOH] + (f + [SOH]);
    assert s[1] == f[0] && s[2] == f[1];
    assert forall i :: 1 <= i <= |f| ==> s[i] == f[i - 1];
  }

  lemma TidyJoins(a: Bytes, b: Bytes)
    requires Tidy(a) && Tidy(b)
    ensures Tidy(a + b)
  {
    var s, x, y, m := [SOH] + (a + b), [SOH] + a, [SOH] + b, |a|;
    forall i | 0 <= i < |s| - 2 ensures !(s[i] == SOH && s[i + 1] == ONE && s[i + 2] == ZERO) {
      if i + 2 <= m {
        assert s[i] == x[i] && s[i + 1] == x[i + 1] && s[i + 2] == x[i + 2];
      } else if i + 1 <= m {
        assert s[m] == SOH;
      } else {
        assert s[i + 1] == y[i + 1 - m] && s[i + 2] == y[i + 2 - m];
        assert s[m] == SOH && y[0] == SOH && (i > m ==> s[i] == y[i - m]);
      }
    }
  }

  lemma AddField(s: Bytes, tag: Bytes, value: Bytes)
    requires Tidy(s) && Plain(tag) && Plain(value) && |tag| >= 2 && (tag[0] != ONE || tag[1] != ZERO)
    ensures Tidy(s + tag + value + [SOH])
  {
    OneField(tag + value);
    TidyJoins(s, tag + value + [SOH]);
    assert s + (tag + value + [SOH]) == s + tag + value + [SOH];
  }

  lemma NumbersArePlain(n: nat, i: int)
    ensures Plain(Decimal(n)) && Plain(SignedDecimal(i))
  {
  }

  // Tidy payloads hold no marker, and one changed byte at the end completes none.
  lemma TidyHasNoStray(payload: Bytes)
    requires Tidy(payload)
    ensures !StrayFits(payload) && !EndFits(payload)
  {
    NoMarkerAt(payload, payload);
    forall b: Byte | b != SOH ensures !StrayFits(EndChanged(payload, b)) {
      var n, s := |payload|, EndChanged(payload, b);
      NoMarkerAt(payload, s);
      assert s[n - 1] != SOH && s[n] == ONE && s[n + 1] == ZERO && s[n + 2] == EQUALS;
    }
  }

  lemma NoMarkerAt(payload: Bytes, s: Bytes)
    requires Tidy(payload) && payload[..|payload| - 1] <= s
    ensures forall i: nat :: i + 3 < |payload| ==> !MarkerAt(s, i)
  {
    var padded := [SOH] + payload;
    forall i: nat | i + 3 < |payload| ensures !MarkerAt(s, i) {
      assert padded[i + 1] == s[i] && padded[i + 2] == s[i + 1] && padded[i + 3] == s[i + 2];
    }
  }

  lemma HeaderIsTidy(bodyLen: nat)
    ensures Tidy(Header(bodyLen))
  {
    NumbersArePlain(bodyLen, 0);
    OneField(BEGIN[..9]);
    AddField(BEGIN[..9] + [SOH], BEGIN[10..], Decimal(bodyLen));
    assert BEGIN[..9] + [SOH] + BEGIN[10..] == BEGIN;
  }

  lemma PayloadIsTidy(msgType: Bytes, seqNum: nat, sendTimeNs: int, clOrdId: Bytes, bodyTags: Bytes)
    requires Plain(msgType) && Plain(clOrdId) && Tidy(bodyTags)
    ensures Tidy(Payload(msgType, seqNum, sendTimeNs, clOrdId, bodyTags))
  {
    NumbersArePlain(seqNum, sendTimeNs);
    OneField(TAG_35 + msgType);
    var s1 := TAG_35 + msgType + [SOH];
    AddField(s1, TAG_34, Decimal(seqNum));
    var s2 := s1 + TAG_34 + Decimal(seqNum) + [SOH];
    AddField(s2, TAG_52, SignedDecimal(sendTimeNs));
    var s3 := s2 + TAG_52 + SignedDecimal(sendTimeNs) + [SOH];
    AddField(s3, TAG_11, clOrdId);
    TidyJoins(s3 + TAG_11 + clOrdId + [SOH], bodyTags);
    var body := Body(msgType, seqNum, sendTimeNs, clOrdId, bodyTags);
    HeaderIsTidy(|body|);
    TidyJoins(Header(|body|), body);
  }

  lemma LimitTagsAreTidy(side: Bytes, qty: int, price: Bytes)
    requires Plain(side) && Plain(price)
    ensures Tidy(LimitTags(side, qty, price))
  {
    NumbersArePlain(0, qty);
    OneField(SYMBOL);
    var s1 := SYMBOL + [SOH] + TAG_54 + side + [SOH];
    AddField(SYMBOL + [SOH], TAG_54, side);
    AddField(s1, TAG_38, SignedDecimal(qty));
    var s2 := s1 + TAG_38 + SignedDecimal(qty) + [SOH];
    AddField(s2, TAG_44, price);
    var s3 := s2 + TAG_44 + price + [SOH];
    AddField(s3, TAG_40, [0x32]);
    OneField(DAY_ORDER);
    TidyJoins(s3 + TAG_40 + [0x32] + [SOH], DAY_ORDER + [SOH]);
    assert LimitTags(side, qty, price) == s3 + TAG_40 + [0x32] + [SOH] + (DAY_ORDER + [SOH]);
  }

  lemma MarketTagsAreTidy(side: Bytes, qty: int)
    requires Plain(side)
    ensures Tidy(MarketTags(side, qty))
  {
    NumbersArePlain(0, qty);
    OneField(SYMBOL);
    var s1 := SYMBOL + [SOH] + TAG_54 + side + [SOH];
    AddField(SYMBOL + [SOH], TAG_54, side);
    AddField(s1, TAG_38, SignedDecimal(qty));
    AddField(s1 + TAG_38 + SignedDecimal(qty) + [SOH], TAG_40, [ONE]);
  }

  // The tags of a cancel/replace request behind tag 41.
  function ReplaceRest(side: Bytes, qty: int, price: Bytes): Bytes {
    SYMBOL + [SOH] + TAG_54 + side + [SOH] + TAG_38 + SignedDecimal(qty) + [SOH] + TAG_44 + price + [SOH]
  }

  lemma ReplaceRestIsTidy(side: Bytes, qty: int, price: Bytes)
    requires Plain(side) && Plain(price)
    ensures Tidy(ReplaceRest(side, qty, price))
  {
    NumbersArePlain(0, qty);
    OneField(SYMBOL);
    var s1 := SYMBOL + [SOH] + TAG_54 + side + [SOH];
    AddField(SYMBOL + [SOH], TAG_54, side);
    AddField(s1, TAG_38, SignedDecimal(qty));
    AddField(s1 + TAG_38 + SignedDecimal(qty) + [SOH], TAG_44, price);
  }

  lemma ReplaceSplits(orig: Bytes, side: Bytes, qty: int, price: Bytes)
    ensures ReplaceTags(orig, side, qty, price) == TAG_41 + orig + [SOH] + ReplaceRest(side, qty, price)
  {
    var s, m := TAG_41 + orig + [SOH], SYMBOL + [SOH] + TAG_54 + side + [SOH] + TAG_38 + SignedDecimal(qty) + [SOH];
    assert s + SYMBOL + [SOH] + TAG_54 + side + [SOH] + TAG_38 + SignedDecimal(qty) + [SOH] == s + m;
    assert s + m + TAG_44 + price + [SOH] == s + (m + TAG_44 + price + [SOH]);
  }

  lemma ReplaceTagsAreTidy(orig: Bytes, side: Bytes, qty: int, price: Bytes)
    requires Plain(orig) && Plain(side) && Plain(price)
    ensures Tidy(ReplaceTags(orig, side, qty, price))
  {
    OneField(TAG_41 + orig);
    ReplaceRestIsTidy(side, qty, price);
    TidyJoins(TAG_41 + orig + [SOH], ReplaceRest(side, qty, price));
    ReplaceSplits(orig, side, qty, price);
  }

  // ---- the generator's messages

  function LimitPayload(runId: Bytes, botId: Bytes, seqNum: nat, now: int, side: Bytes, qty: int, price: Bytes): Bytes {
    Payload(NEW_ORDER, seqNum, now, ClOrdId(runId, botId, seqNum), LimitTags(side, qty, price))
  }

  function MarketPayload(runId: Bytes, botId: Bytes, seqNum: nat, now: int, side: Bytes, qty: int): Bytes {
    Payload(NEW_ORDER, seqNum, now, ClOrdId(runId, botId, seqNum), MarketTags(side, qty))
  }

  function ReplacePayload(runId: Bytes, botId: Bytes, seqNum: nat, now: int, orig: Bytes, side: Bytes, qty: int,
                          price: Bytes): Bytes
  {
    Payload(REPLACE_ORDER, seqNum, now, ClOrdId(runId, botId, seqNum), ReplaceTags(orig, side, qty, price))
  }

  lemma TidyChangeFound(payload: Bytes)
    requires Tidy(payload) && payload[0] != ONE
    ensures EveryChangeFound(payload) <==> Sum(payload) % 256 >= 100
  {
    TidyHasNoStray(payload);
    AnyChangeFound(payload);
  }

  lemma LimitChangeFound(runId: Bytes, botId: Bytes, seqNum: nat, now: int, side: Bytes, qty: int, price: Bytes)
    requires Plain(runId) && Plain(botId) && Plain(side) && Plain(price)
    ensures var payload := LimitPayload(runId, botId, seqNum, now, side, qty, price);
            EveryChangeFound(payload) <==> Sum(payload) % 256 >= 100
  {
    NumbersArePlain(seqNum, 0);
    LimitTagsAreTidy(side, qty, price);
    PayloadIsTidy(NEW_ORDER, seqNum, now, ClOrdId(runId, botId, seqNum), LimitTags(side, qty, price));
    TidyChangeFound(LimitPayload(runId, botId, seqNum, now, side, qty, price));
  }

  lemma MarketChangeFound(runId: Bytes, botId: Bytes, seqNum: nat, now: int, side: Bytes, qty: int)
    requires Plain(runId) && Plain(botId) && Plain(side)
    ensures var payload := MarketPayload(runId, botId, seqNum, now, side, qty);
            EveryChangeFound(payload) <==> Sum(payload) % 256 >= 100
  {
    NumbersArePlain(seqNum, 0);
    MarketTagsAreTidy(side, qty);
    PayloadIsTidy(NEW_ORDER, seqNum, now, ClOrdId(runId, botId, seqNum), MarketTags(side, qty));
    TidyChangeFound(MarketPayload(runId, botId, seqNum, now, side, qty));
  }

  // As long as no field a caller fills in holds a delimiter, every changed byte
  // of a generated message is found exactly when its checksum has no leading zero.
  lemma PlainMessageChangeFound(runId: Bytes, botId: Bytes, seqNum: nat, now: int, orig: Bytes, side: Bytes, qty: int,
                                price: Bytes)
    requires Plain(runId) && Plain(botId) && Plain(side) && Plain(price) && Plain(orig)
    ensures var limit := LimitPayload(runId, botId, seqNum, now, side, qty, price);
            EveryChangeFound(limit) <==> Sum(limit) % 256 >= 100
    ensures var market := MarketPayload(runId, botId, seqNum, now, side, qty);
            EveryChangeFound(market) <==> Sum(market) % 256 >= 100
    ensures var replace := ReplacePayload(runId, botId, seqNum, now, orig, side, qty, price);
            EveryChangeFound(replace) <==> Sum(replace) % 256 >= 100
  {
    LimitChangeFound(runId, botId, seqNum, now, side, qty, price);
    MarketChangeFound(runId, botId, seqNum, now, side, qty);
    NumbersArePlain(seqNum, 0);
    ReplaceTagsAreTidy(orig, side, qty, price);
    PayloadIsTidy(REPLACE_ORDER, seqNum, now, ClOrdId(runId, botId, seqNum), ReplaceTags(orig, side, qty, price));
    TidyChangeFound(ReplacePayload(runId, botId, seqNum, now, orig, side, qty, price));
  }

  // ---- a field that carries its own tag 10

  lemma StrayIsLast(inner: Bytes, digits: Bytes, rest: Bytes, payload: Bytes)
    requires Terminated(inner) && |digits| == 3 && Plain(digits) && Tidy(rest)
    requires payload == inner + TAG_10 + digits + [SOH] + rest
    ensures LastMarker(payload, |payload|) == Some(|inner| - 1)
    ensures payload[..|inner|] == inner && Window(payload, |inner| + 3) == digits
  {
    var n, padded := |inner|, [SOH] + rest;
    assert payload[n] == ONE && payload[n + 1] == ZERO && payload[n + 2] == EQUALS;
    assert forall i :: 0 <= i < 3 ==> payload[n + 3 + i] == digits[i];
    assert payload[n + 6..] == padded;
    forall i | n <= i < |payload| ensures !MarkerAt(payload, i) {
      if i >= n + 6 {
        assert i + 2 < |payload| ==> payload[i] == padded[i - n - 6] && payload[i + 1] == padded[i - n - 5]
                                     && payload[i + 2] == padded[i - n - 4];
      } else if i >= n + 3 {
        assert payload[i] == digits[i - n - 3];
      }
    }
    assert MarkerAt(payload, n - 1);
  }

  lemma StrayInside(inner: Bytes, rest: Bytes, payload: Bytes)
    requires Terminated(inner) && Tidy(rest)
    requires payload == inner + TAG_10 + ThreeDigits(Sum(inner) % 256) + [SOH] + rest
    ensures Terminated(payload) && StrayFits(payload)
  {
    var c := Sum(inner) % 256;
    StrayIsLast(inner, ThreeDigits(c), rest, payload);
    ScanThreeDigits(c);
    assert rest[|rest| - 1] == SOH;
  }

  // The body of a cancel/replace request up to tag 41.
  function ReplaceFront(seqNum: nat, now: int, cid: Bytes): Bytes {
    TAG_35 + REPLACE_ORDER + [SOH] + TAG_34 + Decimal(seqNum) + [SOH] + TAG_52 + SignedDecimal(now) + [SOH]
    + TAG_11 + cid + [SOH]
  }

  lemma StrayRegroups(header: Bytes, front: Bytes, digits: Bytes, rest: Bytes)
    ensures var tags := TAG_41 + ([SOH] + TAG_10 + digits) + [SOH] + rest;
            header + (front + tags) == (header + (front + TAG_41) + [SOH]) + TAG_10 + digits + [SOH] + rest
  {
    var orig := [SOH] + TAG_10 + digits;
    assert front + (TAG_41 + orig + [SOH] + rest) == (front + TAG_41) + orig + [SOH] + rest;
    assert orig + [SOH] + rest == [SOH] + TAG_10 + digits + [SOH] + rest;
  }

  lemma ReplaceWithStray(runId: Bytes, botId: Bytes, seqNum: nat, now: int, digits: Bytes, side: Bytes, qty: int, price: Bytes)
    requires |digits| == 3
    ensures var front, rest := ReplaceFront(seqNum, now, ClOrdId(runId, botId, seqNum)), ReplaceRest(side, qty, price);
            ReplacePayload(runId, botId, seqNum, now, [SOH] + TAG_10 + digits, side, qty, price)
            == (Header(|front| + 11 + |rest|) + (front + TAG_41) + [SOH]) + TAG_10 + digits + [SOH] + rest
  {
    var cid, orig := ClOrdId(runId, botId, seqNum), [SOH] + TAG_10 + digits;
    var front, rest := ReplaceFront(seqNum, now, cid), ReplaceRest(side, qty, price);
    ReplaceSplits(orig, side, qty, price);
    assert Body(REPLACE_ORDER, seqNum, now, cid, ReplaceTags(orig, side, qty, price))
        == front + (TAG_41 + orig + [SOH] + rest);
    StrayRegroups(Header(|front| + 11 + |rest|), front, digits, rest);
  }

  // For every cancel/replace request there is an OrigClOrdID, SOH "10=" and
  // three digits, with which the check passes when the message's own marker
  // has been destroyed.
  lemma StrayMarkerHidesDamage(runId: Bytes, botId: Bytes, seqNum: nat, now: int, side: Bytes, qty: int, price: Bytes, b: Byte)
    returns (orig: Bytes)
    requires Plain(side) && Plain(price) && b != ONE
    ensures [SOH] + TAG_10 <= orig && |orig| == 7
    ensures var payload := ReplacePayload(runId, botId, seqNum, now, orig, side, qty, price);
            Terminated(payload) && payload[0] != ONE && StrayFits(payload) && !Found(payload, |payload|, b)
  {
    var front, rest := ReplaceFront(seqNum, now, ClOrdId(runId, botId, seqNum)), ReplaceRest(side, qty, price);
    var inner := Header(|front| + 11 + |rest|) + (front + TAG_41) + [SOH];
    orig := [SOH] + TAG_10 + ThreeDigits(Sum(inner) % 256);
    var payload := ReplacePayload(runId, botId, seqNum, now, orig, side, qty, price);
    ReplaceWithStray(runId, botId, seqNum, now, ThreeDigits(Sum(inner) % 256), side, qty, price);
    ReplaceRestIsTidy(side, qty, price);
    StrayInside(inner, rest, payload);
    assert Sealed(payload)[|payload|] == ONE;
    MarkerChangeFound(payload, |payload|, b);
  }

  // ---- a message whose checksum has a leading zero

  lemma SumOfThree(a: Byte, b: Byte, c: Byte)
    ensures Sum([a]) == a as int && Sum([a, b]) == a as int + b as int
    ensures Sum([a, b, c]) == a as int + b as int + c as int
  {
    assert [a][..0] == [] && [a, b][..1] == [a] && [a, b, c][..2] == [a, b];
  }

  lemma SumOfField(s: Bytes, tag: Bytes, value: Bytes)
    requires |tag| == 3
    ensures Sum(s + tag + value + [SOH])
         == Sum(s) + (tag[0] as int + tag[1] as int + tag[2] as int) + Sum(value) + 1
  {
    SumAppends(s + tag + value, [SOH]);
    SumAppends(s + tag, value);
    SumAppends(s, tag);
    SumOfThree(tag[0], tag[1], tag[2]);
    SumOfThree(SOH, SOH, SOH);
    assert tag == [tag[0], tag[1], tag[2]];
  }

  lemma SumOfHeader(a: Byte, b: Byte)
    ensures Sum(BEGIN + [a, b] + [SOH]) == 662 + a as int + b as int
  {
    var p, q: Bytes := [0x38, 0x3D, 0x46] + [0x49, 0x58, 0x2E], [0x34, 0x2E, 0x32] + [0x01, 0x39, 0x3D];
    SumOfThree(0x38, 0x3D, 0x46);
    SumOfThree(0x49, 0x58, 0x2E);
    SumAppends([0x38, 0x3D, 0x46], [0x49, 0x58, 0x2E]);
    SumOfThree(0x34, 0x2E, 0x32);
    SumOfThree(0x01, 0x39, 0x3D);
    SumAppends([0x34, 0x2E, 0x32], [0x01, 0x39, 0x3D]);
    SumAppends(p, q);
    SumOfThree(a, b, SOH);
    SumAppends(p + q, [a, b, SOH]);
    assert BEGIN == p + q;
    assert BEGIN + [a, b] + [SOH] == p + q + [a, b, SOH];
  }

  const RUN_A: Bytes := [0x61]
  const BOT_B1: Bytes := [0x62, 0x31]

  lemma SumsOfSmallFields()
    ensures Decimal(1) == [0x31] && Decimal(0) == [0x30] && Decimal(10) == [0x31, 0x30] && Decimal(49) == [0x34, 0x39]
    ensures var cid := ClOrdId(RUN_A, BOT_B1, 1); |cid| == 6 && Sum(cid) == 383
    ensures Sum(SYMBOL + [SOH]) == 454
  {
    SumOfThree(0x61, MINUS, 0x62);
    SumOfThree(0x31, MINUS, 0x31);
    assert ClOrdId(RUN_A, BOT_B1, 1) == [0x61, MINUS, 0x62] + [0x31, MINUS, 0x31];
    SumAppends([0x61, MINUS, 0x62], [0x31, MINUS, 0x31]);
    SumOfThree(0x35, 0x35, EQUALS);
    SumOfThree(0x41, 0x41, 0x50);
    SumOfThree(0x4C, SOH, SOH);
    SumAppends([0x35, 0x35, EQUALS], [0x41, 0x41, 0x50]);
    SumAppends([0x35, 0x35, EQUALS] + [0x41, 0x41, 0x50], [0x4C, SOH]);
    assert SYMBOL + [SOH] == [0x35, 0x35, EQUALS] + [0x41, 0x41, 0x50] + [0x4C, SOH];
  }

  lemma SmallMarketTags()
    ensures var tags := MarketTags([ONE], 10); |tags| == 24 && Sum(tags) == 1147
  {
    SumsOfSmallFields();
    SumOfThree(0x31, 0x30, 0x30);
    var s1 := SYMBOL + [SOH] + TAG_54 + [ONE] + [SOH];
    var s2 := s1 + TAG_38 + SignedDecimal(10) + [SOH];
    SumOfField(SYMBOL + [SOH], TAG_54, [ONE]);
    SumOfField(s1, TAG_38, SignedDecimal(10));
    SumOfField(s2, TAG_40, [ONE]);
  }

  lemma SmallBody()
    ensures var body := Body(NEW_ORDER, 1, 0, ClOrdId(RUN_A, BOT_B1, 1), MarketTags([ONE], 10));
            |body| == 49 && Sum(body) == 2351
  {
    SumsOfSmallFields();
    SmallMarketTags();
    SumOfThree(0x44, 0, 0);
    SumOfThree(0x31, 0, 0);
    SumOfThree(0x30, 0, 0);
    var cid, s1 := ClOrdId(RUN_A, BOT_B1, 1), TAG_35 + NEW_ORDER + [SOH];
    SumOfField([], TAG_35, NEW_ORDER);
    assert [] + TAG_35 == TAG_35;
    var s2 := s1 + TAG_34 + Decimal(1) + [SOH];
    SumOfField(s1, TAG_34, Decimal(1));
    var s3 := s2 + TAG_52 + SignedDecimal(0) + [SOH];
    SumOfField(s2, TAG_52, SignedDecimal(0));
    SumOfField(s3, TAG_11, cid);
    SumAppends(s3 + TAG_11 + cid + [SOH], MarketTags([ONE], 10));
  }

  // The first market order of run "a", bot "b1", to buy ten shares, sent at time 0.
  ghost predicate FirstOrder(runId: Bytes, botId: Bytes, seqNum: nat, now: int, side: Bytes, qty: int) {
    runId == RUN_A && botId == BOT_B1 && seqNum == 1 && now == 0 && side == [ONE] && qty == 10
  }

  // Its checksum is 050, so that some changed byte goes unnoticed.
  lemma SmallChecksumMessage(runId: Bytes, botId: Bytes, seqNum: nat, now: int, side: Bytes, qty: int)
    requires FirstOrder(runId, botId, seqNum, now, side, qty)
    ensures var payload := MarketPayload(runId, botId, seqNum, now, side, qty);
            Sum(payload) % 256 == 50 && !EveryChangeFound(payload)
  {
    SmallMessageSum(runId, botId, seqNum, now, side, qty);
    MarketChangeFound(runId, botId, seqNum, now, side, qty);
  }

  lemma SmallMessageSum(runId: Bytes, botId: Bytes, seqNum: nat, now: int, side: Bytes, qty: int)
    requires FirstOrder(runId, botId, seqNum, now, side, qty)
    ensures Sum(MarketPayload(runId, botId, seqNum, now, side, qty)) % 256 == 50
  {
    var body := Body(NEW_ORDER, 1, 0, ClOrdId(RUN_A, BOT_B1, 1), MarketTags([ONE], 10));
    SmallBody();
    SumsOfSmallFields();
    SumOfHeader(0x34, 0x39);
    SumAppends(Header(|body|), body);
  }
}
