/**
  Java's modified UTF-8 (`java_io.rs`), which encodes UTF-16 code units one at a time: U+0000 in
  two bytes, and a character outside the basic plane as its two surrogates of three bytes each.
 */
module ModifiedUtf8 {
  import opened Octets
  import opened Options

  /** A UTF-16 code unit. */
  type Unit = u: nat | u < 0x1_0000

  /** A Unicode scalar value, of which the source's strings are made. */
  type Scalar = c: nat | c < 0x11_0000 && !(0xD800 <= c < 0xE000)

  type Text = seq<Scalar>

  const REPLACEMENT: Scalar := 0xFFFD

  // UTF-16 (section 2 of RFC 2781).

  predicate IsHigh(u: Unit) {
    0xD800 <= u < 0xDC00
  }

  predicate IsLow(u: Unit) {
    0xDC00 <= u < 0xE000
  }

  function UnitsOf(c: Scalar): seq<Unit> {
    if c < 0x1_0000 then [c] else [0xD800 + (c - 0x1_0000) / 0x400, 0xDC00 + (c - 0x1_0000) % 0x400]
  }

  function EncodeUtf16(text: Text): seq<Unit> {
    if text == [] then [] else UnitsOf(text[0]) + EncodeUtf16(text[1..])
  }

  /** Each unpaired surrogate becomes the replacement character. */
  function DecodeUtf16Lossy(units: seq<Unit>): Text {
    if units == [] then []
    else if IsHigh(units[0]) && |units| > 1 && IsLow(units[1]) then
      [0x1_0000 + (units[0] - 0xD800) * 0x400 + (units[1] - 0xDC00)] + DecodeUtf16Lossy(units[2..])
    else
      [if IsHigh(units[0]) || IsLow(units[0]) then REPLACEMENT else units[0]] + DecodeUtf16Lossy(units[1..])
  }

  lemma {:induction false} Utf16RoundTrip(text: Text)
    ensures DecodeUtf16Lossy(EncodeUtf16(text)) == text
  {
    if text != [] {
      var units, rest := UnitsOf(text[0]), EncodeUtf16(text[1..]);
      Utf16RoundTrip(text[1..]);
      assert (units + rest)[|units|..] == rest;
      assert text == [text[0]] + text[1..];
    }
  }

  // One code unit.

  function BytesOf(u: Unit): (r: seq<Byte>)
    ensures 1 <= |r| <= 3
  {
    if 0x01 <= u <= 0x7F then [u]
    else if u <= 0x7FF then [0xC0 + u / 0x40, 0x80 + u % 0x40]
    else [0xE0 + u / 0x1000, 0x80 + u / 0x40 % 0x40, 0x80 + u % 0x40]
  }

  function EncodeUnits(units: seq<Unit>): seq<Byte> {
    if units == [] then [] else EncodeUnits(units[..|units| - 1]) + BytesOf(units[|units| - 1])
  }

  function Encode(text: Text): seq<Byte> {
    EncodeUnits(EncodeUtf16(text))
  }

  predicate IsContinuation(b: Byte) {
    b / 0x40 == 2
  }

  /** The offset at which a continuation byte is missing: of the bad byte, or of the end. */
  function Continuation(bytes: seq<Byte>, index: nat): Result<Unit, nat> {
    if index < |bytes| && IsContinuation(bytes[index]) then Success(bytes[index] % 0x40)
    else Failure(if index < |bytes| then index else |bytes|)
  }

  /** The code unit at `i` and how many bytes it takes. */
  function UnitAt(bytes: seq<Byte>, i: nat): (r: Result<(Unit, nat), nat>)
    requires i < |bytes|
    ensures r.Success? ==> 1 <= r.value.1 <= |bytes| - i
  {
    var b := bytes[i];
    if b <= 0x7F then Success((b, 1))
    else if 0xC0 <= b <= 0xDF then
      var last :- Continuation(bytes, i + 1);
      Success((b % 0x20 * 0x40 + last, 2))
    else if 0xE0 <= b <= 0xEF then
      var middle :- Continuation(bytes, i + 1);
      var last :- Continuation(bytes, i + 2);
      Success((b % 0x10 * 0x1000 + middle * 0x40 + last, 3))
    else Failure(i)
  }

  function DecodeUnits(bytes: seq<Byte>, i: nat): Result<seq<Unit>, nat>
    requires i <= |bytes|
    decreases |bytes| - i
  {
    if i == |bytes| then Success([])
    else
      var (unit, width) :- UnitAt(bytes, i);
      var rest :- DecodeUnits(bytes, i + width);
      Success([unit] + rest)
  }

  predicate IsAscii(bytes: seq<Byte>) {
    forall i | 0 <= i < |bytes| :: bytes[i] <= 0x7F
  }

  function DecodeGeneral(bytes: seq<Byte>): Result<Text, nat> {
    var units :- DecodeUnits(bytes, 0);
    Success(DecodeUtf16Lossy(units))
  }

  function Decode(bytes: seq<Byte>): Result<Text, nat> {
    if IsAscii(bytes) then Success(bytes) else DecodeGeneral(bytes)
  }

  // The fast path.

  lemma {:induction false} AsciiUnits(bytes: seq<Byte>, i: nat)
    requires IsAscii(bytes) && i <= |bytes|
    ensures DecodeUnits(bytes, i) == Success(bytes[i..])
    decreases |bytes| - i
  {
    if i < |bytes| {
      var unit: Unit, rest: seq<Unit> := bytes[i], bytes[i + 1..];
      assert UnitAt(bytes, i) == Success((unit, 1));
      AsciiUnits(bytes, i + 1);
      DecodeOneMore(bytes, i, unit, 1, rest);
      assert bytes[i..] == [unit] + rest;
    } else {
      assert bytes[i..] == [];
    }
  }

  lemma {:induction false} PlainUnitsAreTheirText(units: seq<Unit>)
    requires forall i | 0 <= i < |units| :: units[i] <= 0x7F
    ensures DecodeUtf16Lossy(units) == units
  {
    if units != [] {
      PlainUnitsAreTheirText(units[1..]);
      assert units == [units[0]] + units[1..];
    }
  }

  /** The ASCII fast path gives what the general loop would, raw NULs included. */
  lemma FastPathAgrees(bytes: seq<Byte>)
    ensures Decode(bytes) == DecodeGeneral(bytes)
  {
    if IsAscii(bytes) {
      AsciiUnits(bytes, 0);
      PlainUnitsAreTheirText(bytes);
      assert bytes[0..] == bytes;
    }
  }

  // The round trip.

  lemma TwoBytes(u: Unit)
    requires u <= 0x7FF
    ensures 0xC0 <= 0xC0 + u / 0x40 <= 0xDF && IsContinuation(0x80 + u % 0x40)
    ensures (0xC0 + u / 0x40) % 0x20 * 0x40 + (0x80 + u % 0x40) % 0x40 == u
  {
  }

  lemma ThreeBytes(u: Unit)
    ensures 0xE0 <= 0xE0 + u / 0x1000 <= 0xEF
    ensures IsContinuation(0x80 + u / 0x40 % 0x40) && IsContinuation(0x80 + u % 0x40)
    ensures (0xE0 + u / 0x1000) % 0x10 * 0x1000 + (0x80 + u / 0x40 % 0x40) % 0x40 * 0x40 + (0x80 + u % 0x40) % 0x40 == u
  {
    var high, low := u / 0x40, u % 0x40;
    assert u / 0x1000 == high / 0x40 && u == high * 0x40 + low;
  }

  lemma UnitAlone(u: Unit)
    ensures UnitAt(BytesOf(u), 0) == Success((u, |BytesOf(u)|))
  {
    if u > 0x7FF {
      ThreeBytes(u);
    } else if u == 0 || u > 0x7F {
      TwoBytes(u);
    }
  }

  lemma UnitRoundTrip(u: Unit, bytes: seq<Byte>, i: nat)
    requires i <= |bytes| && BytesOf(u) <= bytes[i..]
    ensures UnitAt(bytes, i) == Success((u, |BytesOf(u)|))
  {
    var encoded := BytesOf(u);
    UnitAlone(u);
    assert forall k | 0 <= k < |encoded| :: bytes[i + k] == bytes[i..][k] == encoded[k];
  }

  lemma {:induction false} EncodeUnitsFront(units: seq<Unit>)
    requires units != []
    ensures EncodeUnits(units) == BytesOf(units[0]) + EncodeUnits(units[1..])
  {
    if |units| > 1 {
      EncodeUnitsFront(units[..|units| - 1]);
      assert units[..|units| - 1][1..] == units[1..][..|units| - 2];
    }
  }

  lemma SuffixAfter(bytes: seq<Byte>, i: nat, first: seq<Byte>, rest: seq<Byte>)
    requires i <= |bytes| && bytes[i..] == first + rest
    ensures i + |first| <= |bytes| && first <= bytes[i..] && bytes[i + |first|..] == rest
  {
    assert bytes[i + |first|..] == bytes[i..][|first|..];
  }

  lemma DecodeOneMore(bytes: seq<Byte>, i: nat, unit: Unit, width: nat, rest: seq<Unit>)
    requires i < |bytes| && UnitAt(bytes, i) == Success((unit, width))
    requires DecodeUnits(bytes, i + width) == Success(rest)
    ensures DecodeUnits(bytes, i) == Success([unit] + rest)
  {
  }

  lemma {:induction false} UnitsRoundTrip(units: seq<Unit>, bytes: seq<Byte>, i: nat)
    requires i <= |bytes| && bytes[i..] == EncodeUnits(units)
    ensures DecodeUnits(bytes, i) == Success(units)
    decreases |units|
  {
    if units == [] {
      assert bytes[i..] == [];
    } else {
      var first := BytesOf(units[0]);
      EncodeUnitsFront(units);
      SuffixAfter(bytes, i, first, EncodeUnits(units[1..]));
      UnitRoundTrip(units[0], bytes, i);
      UnitsRoundTrip(units[1..], bytes, i + |first|);
      DecodeOneMore(bytes, i, units[0], |first|, units[1..]);
      assert [units[0]] + units[1..] == units;
    }
  }

  /** Every string comes back, characters outside the basic plane and U+0000 included. */
  lemma RoundTrip(text: Text)
    ensures Decode(Encode(text)) == Success(text)
  {
    FastPathAgrees(Encode(text));
    assert Encode(text)[0..] == Encode(text);
    UnitsRoundTrip(EncodeUtf16(text), Encode(text), 0);
    Utf16RoundTrip(text);
  }

  /** No encoding contains a zero byte. */
  lemma {:induction false} NoZeroByte(units: seq<Unit>)
    ensures 0 !in EncodeUnits(units)
  {
    if units != [] {
      NoZeroByte(units[..|units| - 1]);
    }
  }

  // Re-encoding what was accepted.

  function Zeros(bytes: seq<Byte>): nat {
    if bytes == [] then 0 else (if bytes[0] == 0 then 1 else 0) + Zeros(bytes[1..])
  }

  function Width(units: seq<Unit>): nat {
    if units == [] then 0 else |BytesOf(units[0])| + Width(units[1..])
  }

  lemma {:induction false} WidthIsLength(units: seq<Unit>)
    ensures Width(units) == |EncodeUnits(units)|
  {
    if units != [] {
      WidthIsLength(units[1..]);
      EncodeUnitsFront(units);
    }
  }

  lemma {:induction false} WidthConcat(a: seq<Unit>, b: seq<Unit>)
    ensures Width(a + b) == Width(a) + Width(b)
  {
    if a == [] {
      assert a + b == b;
    } else {
      WidthConcat(a[1..], b);
      assert (a + b)[1..] == a[1..] + b;
    }
  }

  /** Replacing unpaired surrogates keeps every width. */
  lemma {:induction false} LossyKeepsWidth(units: seq<Unit>)
    ensures Width(EncodeUtf16(DecodeUtf16Lossy(units))) == Width(units)
  {
    if units != [] {
      var text := DecodeUtf16Lossy(units);
      if IsHigh(units[0]) && |units| > 1 && IsLow(units[1]) {
        LossyKeepsWidth(units[2..]);
        assert UnitsOf(text[0]) == [units[0], units[1]];
        assert units == [units[0], units[1]] + units[2..];
        WidthConcat([units[0], units[1]], EncodeUtf16(text[1..]));
        WidthConcat([units[0], units[1]], units[2..]);
      } else {
        LossyKeepsWidth(units[1..]);
        WidthConcat(UnitsOf(text[0]), EncodeUtf16(text[1..]));
        assert UnitsOf(text[0]) == [text[0]];
      }
    }
  }

  lemma {:induction false} AcceptedWidth(bytes: seq<Byte>, i: nat)
    requires i <= |bytes| && DecodeUnits(bytes, i).Success?
    ensures Width(DecodeUnits(bytes, i).value) <= |bytes| - i + Zeros(bytes[i..])
    decreases |bytes| - i
  {
    if i < |bytes| {
      var width := UnitAt(bytes, i).value.1;
      AcceptedWidth(bytes, i + width);
      ZerosOfSuffix(bytes, i, i + width);
      assert bytes[i..][1..] == bytes[i + 1..];
      ZerosOfSuffix(bytes, i + 1, i + width);
    }
  }

  lemma {:induction false} ZerosOfSuffix(bytes: seq<Byte>, i: nat, j: nat)
    requires i <= j <= |bytes|
    ensures Zeros(bytes[j..]) <= Zeros(bytes[i..])
    decreases j - i
  {
    if i < j {
      ZerosOfSuffix(bytes, i + 1, j);
      assert bytes[i..][1..] == bytes[i + 1..];
    }
  }

  /** Re-encoding an accepted input is at most one byte longer for each raw zero byte it holds. */
  lemma ReencodingDoesNotGrow(bytes: seq<Byte>)
    requires Decode(bytes).Success?
    ensures |Encode(Decode(bytes).value)| <= |bytes| + Zeros(bytes)
  {
    FastPathAgrees(bytes);
    var units := DecodeUnits(bytes, 0).value;
    AcceptedWidth(bytes, 0);
    assert bytes[0..] == bytes;
    LossyKeepsWidth(units);
    WidthIsLength(EncodeUtf16(DecodeUtf16Lossy(units)));
  }

  // Which accepted bytes come back as they were.

  /** No unit is a surrogate without its other half. */
  predicate Paired(units: seq<Unit>) {
    units == []
    || (if IsHigh(units[0]) then |units| > 1 && IsLow(units[1]) && Paired(units[2..])
        else !IsLow(units[0]) && Paired(units[1..]))
  }

  /** The lead bytes that no shorter form could replace; U+0000 is the pair C0 80 and nothing else. */
  predicate ShortestLead(first: Byte, second: Byte) {
    || 0x01 <= first <= 0x7F
    || 0xC2 <= first <= 0xDF || (first == 0xC0 && second == 0x80)
    || (first == 0xE0 && second >= 0xA0) || 0xE1 <= first <= 0xEF
  }

  /** Every unit from `i` on is in its shortest form. */
  predicate Shortest(bytes: seq<Byte>, i: nat)
    requires i <= |bytes|
    decreases |bytes| - i
  {
    i == |bytes|
    || (UnitAt(bytes, i).Success?
        && ShortestLead(bytes[i], if i + 1 < |bytes| then bytes[i + 1] else 0)
        && Shortest(bytes, i + UnitAt(bytes, i).value.1))
  }

  /** A unit's bytes are its encoding exactly when its lead is a shortest one. */
  lemma UnitIsShortestIff(bytes: seq<Byte>, i: nat)
    requires i < |bytes| && UnitAt(bytes, i).Success?
    ensures
      var (unit, width) := UnitAt(bytes, i).value;
      bytes[i..i + width] == BytesOf(unit)
      <==> ShortestLead(bytes[i], if i + 1 < |bytes| then bytes[i + 1] else 0)
  {
    var (unit, width) := UnitAt(bytes, i).value;
    if width == 2 {
      TwoByteForm(bytes[i], bytes[i + 1], unit);
      assert bytes[i..i + 2] == [bytes[i], bytes[i + 1]];
    } else if width == 3 {
      ThreeByteForm(bytes[i], bytes[i + 1], bytes[i + 2], unit);
      assert bytes[i..i + 3] == [bytes[i], bytes[i + 1], bytes[i + 2]];
    } else {
      assert bytes[i..i + 1] == [bytes[i]];
    }
  }

  lemma TwoByteForm(first: Byte, second: Byte, unit: Unit)
    requires 0xC0 <= first <= 0xDF && IsContinuation(second) && unit == first % 0x20 * 0x40 + second % 0x40
    ensures [first, second] == BytesOf(unit) <==> ShortestLead(first, second)
  {
    assert first == 0xC0 + unit / 0x40 && second == 0x80 + unit % 0x40;
  }

  lemma ThreeByteForm(first: Byte, second: Byte, third: Byte, unit: Unit)
    requires 0xE0 <= first <= 0xEF && IsContinuation(second) && IsContinuation(third)
    requires unit == first % 0x10 * 0x1000 + second % 0x40 * 0x40 + third % 0x40
    ensures [first, second, third] == BytesOf(unit) <==> ShortestLead(first, second)
  {
    var high := first % 0x10 * 0x40 + second % 0x40;
    assert unit == high * 0x40 + third % 0x40;
    assert unit / 0x40 == high && unit % 0x40 == third % 0x40;
    assert unit / 0x1000 == high / 0x40 == first % 0x10 && high % 0x40 == second % 0x40;
  }

  /** The bytes of decoded units are the units' encoding exactly when every form is shortest. */
  lemma {:induction false} UnitsComeBackIff(bytes: seq<Byte>, i: nat)
    requires i <= |bytes| && DecodeUnits(bytes, i).Success?
    ensures EncodeUnits(DecodeUnits(bytes, i).value) == bytes[i..] <==> Shortest(bytes, i)
    decreases |bytes| - i
  {
    hide BytesOf, UnitAt, ShortestLead;
    if i == |bytes| {
      assert bytes[i..] == [];
    } else {
      var (unit, width) := UnitAt(bytes, i).value;
      var rest := DecodeUnits(bytes, i + width).value;
      assert bytes[i..] == bytes[i..i + width] + bytes[i + width..];
      UnitsComeBackIff(bytes, i + width);
      UnitIsShortestIff(bytes, i);
      EncodeUnitsFirst(unit, rest);
      if EncodeUnits([unit] + rest) == bytes[i..] {
        FirstUnitFirst(bytes, i, unit, rest);
      }
    }
  }

  lemma EncodeUnitsFirst(unit: Unit, rest: seq<Unit>)
    ensures EncodeUnits([unit] + rest) == BytesOf(unit) + EncodeUnits(rest)
  {
    EncodeUnitsFront([unit] + rest);
    assert ([unit] + rest)[1..] == rest;
  }

  /** If the units' encoding is what stands here, then so is the first unit's, and the others' after it. */
  lemma FirstUnitFirst(bytes: seq<Byte>, i: nat, unit: Unit, rest: seq<Unit>)
    requires i <= |bytes| && bytes[i..] == BytesOf(unit) + EncodeUnits(rest)
    ensures
      && i < |bytes| && UnitAt(bytes, i) == Success((unit, |BytesOf(unit)|))
      && bytes[i..i + |BytesOf(unit)|] == BytesOf(unit) && bytes[i + |BytesOf(unit)|..] == EncodeUnits(rest)
  {
    SuffixAfter(bytes, i, BytesOf(unit), EncodeUnits(rest));
    UnitRoundTrip(unit, bytes, i);
    assert bytes[i..i + |BytesOf(unit)|] == bytes[i..][..|BytesOf(unit)|];
  }

  /** Units come back from their text exactly when every surrogate is paired. */
  lemma {:induction false} PairedIffComesBack(units: seq<Unit>)
    ensures EncodeUtf16(DecodeUtf16Lossy(units)) == units <==> Paired(units)
  {
    if units != [] {
      var text := DecodeUtf16Lossy(units);
      if IsHigh(units[0]) && |units| > 1 && IsLow(units[1]) {
        PairedIffComesBack(units[2..]);
        assert UnitsOf(text[0]) == [units[0], units[1]];
        SamePrefix([units[0], units[1]], EncodeUtf16(text[1..]), units[2..]);
        assert units == [units[0], units[1]] + units[2..];
      } else {
        PairedIffComesBack(units[1..]);
        assert UnitsOf(text[0]) == [text[0]];
        SamePrefix([units[0]], EncodeUtf16(text[1..]), units[1..]);
        assert units == [units[0]] + units[1..];
      }
    }
  }

  lemma SamePrefix(first: seq<Unit>, a: seq<Unit>, b: seq<Unit>)
    ensures first + a == first + b <==> a == b
  {
    if first + a == first + b {
      assert a == (first + a)[|first|..] && b == (first + b)[|first|..];
    }
  }

  /**
    Accepted bytes re-encode to themselves exactly when every form is the shortest, U+0000 being
    C0 80, and every surrogate is paired.
   */
  lemma ComesBackIff(bytes: seq<Byte>)
    requires Decode(bytes).Success?
    ensures DecodeUnits(bytes, 0).Success?
    ensures Encode(Decode(bytes).value) == bytes <==> Shortest(bytes, 0) && Paired(DecodeUnits(bytes, 0).value)
  {
    FastPathAgrees(bytes);
    var units := DecodeUnits(bytes, 0).value;
    assert bytes[0..] == bytes;
    UnitsComeBackIff(bytes, 0);
    PairedIffComesBack(units);
    if Encode(Decode(bytes).value) == bytes {
      UnitsRoundTrip(EncodeUtf16(DecodeUtf16Lossy(units)), bytes, 0);
    }
  }

  // The reported offset.

  /** The offset of a failure is of the first byte that cannot be right, whatever would follow it. */
  lemma {:induction false} FailureIsAtTheBadByte(bytes: seq<Byte>, other: seq<Byte>, i: nat)
    requires i <= |bytes| && DecodeUnits(bytes, i).Failure?
    requires
      var bad := DecodeUnits(bytes, i).error;
      bad < |bytes| ==> bad < |other| && other[..bad + 1] == bytes[..bad + 1]
    ensures i <= DecodeUnits(bytes, i).error <= |bytes|
    ensures
      var bad := DecodeUnits(bytes, i).error;
      bad < |bytes| ==> i <= |other| && DecodeUnits(other, i) == Failure(bad)
    decreases |bytes| - i
  {
    var bad := DecodeUnits(bytes, i).error;
    var here := UnitAt(bytes, i);
    if here.Success? {
      FailureIsAtTheBadByte(bytes, other, i + here.value.1);
    }
    if bad < |bytes| {
      assert forall k | 0 <= k <= bad :: other[k] == other[..bad + 1][k] == bytes[..bad + 1][k] == bytes[k];
    }
  }

  /** What comes before the reported offset can still be completed to something accepted. */
  lemma {:induction false} BeforeTheBadByteAllIsFine(bytes: seq<Byte>, i: nat) returns (completion: seq<Byte>)
    requires i <= |bytes| && DecodeUnits(bytes, i).Failure?
    ensures i <= DecodeUnits(bytes, i).error <= |bytes|
    ensures DecodeUnits(bytes[..DecodeUnits(bytes, i).error] + completion, i).Success?
    decreases |bytes| - i
  {
    var bad, here := DecodeUnits(bytes, i).error, UnitAt(bytes, i);
    if here.Success? {
      completion := BeforeTheBadByteAllIsFine(bytes, i + here.value.1);
      var other := bytes[..bad] + completion;
      assert forall k | i <= k < i + here.value.1 :: other[k] == bytes[k];
      assert UnitAt(other, i) == here;
    } else {
      completion := if bad == i then [] else if bytes[i] >= 0xE0 && bad == i + 1 then [0x80, 0x80] else [0x80];
      var other := bytes[..bad] + completion;
      if bad > i {
        assert other[i] == bytes[i] && other[|other| - 1] == 0x80;
        assert UnitAt(other, i).Success? && i + UnitAt(other, i).value.1 == |other|;
      }
      assert DecodeUnits(other, |other|) == Success([]);
    }
  }

  // The imperative codec.

  function Prepended(units: seq<Unit>, rest: Result<seq<Unit>, nat>): Result<seq<Unit>, nat> {
    if rest.Success? then Success(units + rest.value) else rest
  }

  lemma OneMoreUnit(units: seq<Unit>, bytes: seq<Byte>, i: nat)
    requires i < |bytes|
    ensures
      match UnitAt(bytes, i)
      case Success((unit, width)) =>
        Prepended(units, DecodeUnits(bytes, i)) == Prepended(units + [unit], DecodeUnits(bytes, i + width))
      case Failure(bad) => Prepended(units, DecodeUnits(bytes, i)) == Failure(bad)
  {
    if UnitAt(bytes, i).Success? {
      var (unit, width) := UnitAt(bytes, i).value;
      if DecodeUnits(bytes, i + width).Success? {
        var rest := DecodeUnits(bytes, i + width).value;
        assert units + ([unit] + rest) == units + [unit] + rest;
      }
    }
  }

  method EncodeUnitInto(unit: Unit, out: seq<Byte>) returns (r: seq<Byte>)
    ensures r == out + BytesOf(unit)
  {
    if 0x0001 <= unit <= 0x007F {
      r := out + [unit];
    } else if unit <= 0x07FF {
      r := out + [0xC0 + unit / 0x40, 0x80 + unit % 0x40];
    } else {
      r := out + [0xE0 + unit / 0x1000, 0x80 + unit / 0x40 % 0x40, 0x80 + unit % 0x40];
    }
  }

  lemma EncodeOneMore(units: seq<Unit>, i: nat, out: seq<Byte>)
    requires i < |units|
    ensures out + EncodeUnits(units[..i]) + BytesOf(units[i]) == out + EncodeUnits(units[..i + 1])
  {
    assert units[..i + 1][..i] == units[..i];
  }

  method EncodeInto(text: Text, out: seq<Byte>) returns (r: seq<Byte>)
    ensures r == out + Encode(text)
  {
    var units := EncodeUtf16(text);
    r := out;
    for i := 0 to |units|
      invariant r == out + EncodeUnits(units[..i])
    {
      r := EncodeUnitInto(units[i], r);
      EncodeOneMore(units, i, out);
    }
    assert units[..|units|] == units;
  }

  method DecodeBytes(bytes: seq<Byte>) returns (r: Result<Text, nat>)
    ensures r == Decode(bytes)
  {
    if IsAscii(bytes) {
      return Success(bytes);
    }
    var units: seq<Unit> := [];
    var i := 0;
    assert Prepended([], DecodeUnits(bytes, 0)) == DecodeUnits(bytes, 0) by {
      if DecodeUnits(bytes, 0).Success? {
        assert [] + DecodeUnits(bytes, 0).value == DecodeUnits(bytes, 0).value;
      }
    }
    while i < |bytes|
      invariant i <= |bytes|
      invariant DecodeUnits(bytes, 0) == Prepended(units, DecodeUnits(bytes, i))
      decreases |bytes| - i
    {
      var b: nat := bytes[i];
      OneMoreUnit(units, bytes, i);
      if b <= 0x7F {
        units := units + [b];
        i := i + 1;
      } else if 0xC0 <= b <= 0xDF {
        var last :- Continuation(bytes, i + 1);
        var unit: Unit := b % 0x20 * 0x40 + last;
        units := units + [unit];
        i := i + 2;
      } else if 0xE0 <= b <= 0xEF {
        var middle :- Continuation(bytes, i + 1);
        var last :- Continuation(bytes, i + 2);
        var unit: Unit := b % 0x10 * 0x1000 + middle * 0x40 + last;
        units := units + [unit];
        i := i + 3;
      } else {
        return Failure(i);
      }
    }
    assert units + [] == units;
    return Success(DecodeUtf16Lossy(units));
  }
}
