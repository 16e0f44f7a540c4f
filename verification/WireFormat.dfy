/**
  The wire format in absolute terms: which bytes stand for which values, whatever the functions
  that read and write them agree on among themselves (`java_io.rs`, `encoded_track.rs`).
 */
module WireFormat {
  import opened Octets
  import opened Options
  import opened ModifiedUtf8
  import opened JavaIo
  import opened EncodedTrack

  // Strings.

  /** The forms of a code unit: one byte, or a lead and one or two continuation bytes of six bits each. */
  predicate IsForm(form: seq<Byte>) {
    match |form|
    case 1 => form[0] < 0x80
    case 2 => 0xC0 <= form[0] < 0xE0 && 0x80 <= form[1] < 0xC0
    case 3 => 0xE0 <= form[0] < 0xF0 && 0x80 <= form[1] < 0xC0 && 0x80 <= form[2] < 0xC0
    case _ => false
  }

  /** The code unit a form stands for: the low bits of its bytes, most significant first. */
  function UnitOf(form: seq<Byte>): int
    requires IsForm(form)
  {
    match |form|
    case 1 => form[0] as int
    case 2 => (form[0] as int - 0xC0) * 0x40 + (form[1] as int - 0x80)
    case _ => (form[0] as int - 0xE0) * 0x1000 + (form[1] as int - 0x80) * 0x40 + (form[2] as int - 0x80)
  }

  /** A unit is written in its shortest form, but for U+0000, which takes two bytes. */
  lemma UnitsAreWrittenSo(u: Unit)
    ensures IsForm(BytesOf(u)) && UnitOf(BytesOf(u)) == u
    ensures |BytesOf(u)| == if u == 0 then 2 else if u < 0x80 then 1 else if u < 0x800 then 2 else 3
  {
  }

  /** A character outside the basic plane is two surrogates, ten of its bits each. */
  lemma CharactersAreWrittenSo(c: Scalar)
    ensures c < 0x1_0000 ==> UnitsOf(c) == [c]
    ensures c >= 0x1_0000 ==>
      && |UnitsOf(c)| == 2 && 0xD800 <= UnitsOf(c)[0] < 0xDC00 && 0xDC00 <= UnitsOf(c)[1] < 0xE000
      && 0x1_0000 + (UnitsOf(c)[0] as int - 0xD800) * 0x400 + (UnitsOf(c)[1] as int - 0xDC00) == c
  {
  }

  function Joined(forms: seq<seq<Byte>>): seq<Byte> {
    if forms == [] then [] else forms[0] + Joined(forms[1..])
  }

  function UnitsIn(forms: seq<seq<Byte>>): seq<int>
    requires AllForms(forms)
  {
    if forms == [] then [] else [UnitOf(forms[0])] + UnitsIn(forms[1..])
  }

  predicate AllForms(forms: seq<seq<Byte>>) {
    forall i | 0 <= i < |forms| :: IsForm(forms[i])
  }

  lemma FormIsRead(form: seq<Byte>, bytes: seq<Byte>, i: nat)
    requires IsForm(form) && i <= |bytes| && form <= bytes[i..]
    ensures i < |bytes| && UnitAt(bytes, i).Success? && UnitAt(bytes, i).value == (UnitOf(form), |form|)
  {
    assert forall k | 0 <= k < |form| :: bytes[i + k] == bytes[i..][k] == form[k];
  }

  lemma ReadIsAForm(bytes: seq<Byte>, i: nat)
    requires i < |bytes| && UnitAt(bytes, i).Success?
    ensures
      var (unit, width) := UnitAt(bytes, i).value;
      IsForm(bytes[i..i + width]) && UnitOf(bytes[i..i + width]) == unit
  {
  }

  lemma {:induction false} FormsAreRead(forms: seq<seq<Byte>>, bytes: seq<Byte>, i: nat)
    requires AllForms(forms) && i <= |bytes| && bytes[i..] == Joined(forms)
    ensures DecodeUnits(bytes, i).Success? && DecodeUnits(bytes, i).value == UnitsIn(forms)
    decreases |forms|
  {
    if forms == [] {
      assert bytes[i..] == [];
    } else {
      SuffixAfter(bytes, i, forms[0], Joined(forms[1..]));
      FormIsRead(forms[0], bytes, i);
      FormsAreRead(forms[1..], bytes, i + |forms[0]|);
    }
  }

  lemma SplitAt(bytes: seq<Byte>, i: nat, width: nat)
    requires i + width <= |bytes|
    ensures bytes[i..] == bytes[i..i + width] + bytes[i + width..]
  {
  }

  lemma {:induction false} ReadAreForms(bytes: seq<Byte>, i: nat) returns (forms: seq<seq<Byte>>)
    requires i <= |bytes| && DecodeUnits(bytes, i).Success?
    ensures AllForms(forms) && Joined(forms) == bytes[i..]
    decreases |bytes| - i
  {
    if i == |bytes| {
      forms := [];
    } else {
      var width := UnitAt(bytes, i).value.1;
      ReadIsAForm(bytes, i);
      var rest := ReadAreForms(bytes, i + width);
      forms := [bytes[i..i + width]] + rest;
      SplitAt(bytes, i, width);
    }
  }

  /** Bytes are accepted exactly when they are a row of forms, overlong ones included, and mean their units. */
  lemma AcceptedIffForms(bytes: seq<Byte>)
    ensures Decode(bytes).Success? <==> exists forms :: AllForms(forms) && Joined(forms) == bytes
    ensures forall forms | AllForms(forms) && Joined(forms) == bytes ::
              DecodeUnits(bytes, 0).Success? && DecodeUnits(bytes, 0).value == UnitsIn(forms)
  {
    FastPathAgrees(bytes);
    assert bytes[0..] == bytes;
    if Decode(bytes).Success? {
      var forms := ReadAreForms(bytes, 0);
    }
    forall forms | AllForms(forms) && Joined(forms) == bytes
      ensures DecodeUnits(bytes, 0).Success? && DecodeUnits(bytes, 0).value == UnitsIn(forms)
    {
      FormsAreRead(forms, bytes, 0);
    }
  }

  // Numbers.

  /** The digits of a number in base 256, most significant first. */
  function Digits4(v: nat): (r: seq<Byte>)
    ensures |r| == 4
  {
    [v / 0x100_0000 % 0x100, v / 0x1_0000 % 0x100, v / 0x100 % 0x100, v % 0x100]
  }

  lemma TwoDigits(v: nat)
    ensures BigEndian(v, 2) == [v / 0x100 % 0x100, v % 0x100]
  {
    assert BigEndian(v / 0x100, 1) == BigEndian(v / 0x100 / 0x100, 0) + [v / 0x100 % 0x100];
  }

  lemma FourMoreDigits(v: nat, width: nat)
    ensures BigEndian(v, width + 4) == BigEndian(v / 0x1_0000_0000, width) + Digits4(v)
  {
    var q1 := v / 0x100;
    var q2 := q1 / 0x100;
    var q3 := q2 / 0x100;
    var q4 := q3 / 0x100;
    assert q2 == v / 0x1_0000 && q3 == v / 0x100_0000 && q4 == v / 0x1_0000_0000;
    assert BigEndian(v, width + 4) == BigEndian(q1, width + 3) + [v % 0x100];
    assert BigEndian(q1, width + 3) == BigEndian(q2, width + 2) + [q1 % 0x100];
    assert BigEndian(q2, width + 2) == BigEndian(q3, width + 1) + [q2 % 0x100];
    assert BigEndian(q3, width + 1) == BigEndian(q4, width) + [q3 % 0x100];
  }

  /** A long is two's complement in eight bytes, most significant first. */
  lemma LongsAreWrittenSo(x: I64)
    ensures
      var v := if x < 0 then x + 0x1_0000_0000_0000_0000 else x;
      Int64(x) == Digits4(v / 0x1_0000_0000) + Digits4(v)
  {
    hide BigEndian, Digits4;
    var v := if x < 0 then x + 0x1_0000_0000_0000_0000 else x;
    FourMoreDigits(v, 4);
    FourMoreDigits(v / 0x1_0000_0000, 0);
    NoDigits(v / 0x1_0000_0000 / 0x1_0000_0000);
  }

  lemma NoDigits(v: nat)
    ensures BigEndian(v, 0) == []
  {
  }

  // Reading at an offset, and what is refused.

  /** A read at `k` takes the `n` bytes there, or says where it was, what it wanted and what was left. */
  lemma TakesWhatIsThere(bytes: seq<Byte>, k: nat, n: nat)
    requires k <= |bytes|
    ensures Input(bytes[k..], k).Take(n)
         == if k + n <= |bytes| then Parse(Success(bytes[k..k + n]), Input(bytes[k + n..], k + n))
            else Parse(Failure(Eof(k, n, |bytes| - k)), Input(bytes[k..], k))
  {
    if k + n <= |bytes| {
      assert bytes[k..][..n] == bytes[k..k + n] && bytes[k..][n..] == bytes[k + n..];
    }
  }

  /** Any byte but zero is true. */
  lemma FlagsAreReadSo(flag: Byte, rest: seq<Byte>, k: nat)
    ensures Input([flag] + rest, k).ReadBool() == Parse(Success(flag != 0), Input(rest, k + 1))
  {
    TakeBack([flag], rest, k);
  }

  /** A string is as long as its first two bytes say; a bad byte in it is named by its place in the input. */
  lemma StringsAreReadSo(bytes: seq<Byte>, k: nat)
    requires k + 2 <= |bytes|
    ensures
      var len := bytes[k] as nat * 0x100 + bytes[k + 1] as nat;
      var read := Input(bytes[k..], k).ReadUtf();
      if k + 2 + len > |bytes| then read.result == Failure(Eof(k + 2, len, |bytes| - k - 2))
      else
        match Decode(bytes[k + 2..k + 2 + len])
        case Success(text) => read == Parse(Success(text), Input(bytes[k + 2 + len..], k + 2 + len))
        case Failure(bad) => read.result == Failure(MalformedUtf8(k + 2 + bad))
  {
    var len := bytes[k] as nat * 0x100 + bytes[k + 1] as nat;
    TakesWhatIsThere(bytes, k, 2);
    TakesWhatIsThere(bytes, k + 2, len);
    var two := bytes[k..k + 2];
    assert two[..1][..0] == [] && two[..1] == [bytes[k]];
    assert FromBigEndian(two[..1]) == two[0];
    assert FromBigEndian(two) == FromBigEndian(two[..1]) * 0x100 + two[1];
    assert Input(bytes[k..], k).ReadU16() == Parse(Success(len), Input(bytes[k + 2..], k + 2));
  }

  // Tracks.

  /** Plain characters, which are written as themselves. */
  predicate Plain(text: Text) {
    |text| < 0x1_0000 && forall i | 0 <= i < |text| :: 0 < text[i] < 0x80
  }

  /** A string on the wire: its length in two bytes, and its characters. */
  function Field(text: Text): seq<Byte>
    requires Plain(text)
  {
    [|text| / 0x100, |text| % 0x100] + text
  }

  /** An optional string on the wire: a byte that says whether it is there, and the string if it is. */
  function OptionalField(text: Option<Text>): seq<Byte>
    requires text.Some? ==> Plain(text.value)
  {
    match text
    case None => [0]
    case Some(t) => [1] + Field(t)
  }

  lemma PlainUnit(c: Scalar)
    requires 0 < c < 0x80
    ensures UnitsOf(c) == [c] && BytesOf(c) == [c]
  {
  }

  lemma {:induction false} PlainIsWrittenAsItself(text: Text)
    requires forall i | 0 <= i < |text| :: 0 < text[i] < 0x80
    ensures EncodeUtf16(text) == text && EncodeUnits(text) == text
  {
    hide UnitsOf, BytesOf;
    if text != [] {
      PlainUnit(text[0]);
      PlainIsWrittenAsItself(text[1..]);
      EncodeUnitsFront(text);
      assert text == [text[0]] + text[1..];
    }
  }

  lemma FieldIsWritten(text: Text)
    requires Plain(text)
    ensures Utf(text) == Success(Field(text))
  {
    PlainIsWrittenAsItself(text);
    TwoDigits(|text|);
  }

  predicate PlainTrack(info: TrackInfo) {
    && Plain(info.title) && Plain(info.author) && Plain(info.identifier) && Plain(info.sourceName)
    && (info.uri.Some? ==> Plain(info.uri.value)) && (info.artworkUrl.Some? ==> Plain(info.artworkUrl.value))
    && (info.isrc.Some? ==> Plain(info.isrc.value))
  }

  predicate PlainTail(tail: SourceTail) {
    tail.Probe? ==> Plain(tail.name)
  }

  /** The tail of a source: nothing, the name of a probe, or whatever another node wrote. */
  function TailField(tail: SourceTail): seq<Byte>
    requires PlainTail(tail)
  {
    match tail
    case Empty => []
    case Probe(name) => Field(name)
    case Raw(bytes) => bytes
  }

  /** The fields of a track in the order they are written, each version with its own. */
  function PlainPayload(info: TrackInfo, tail: SourceTail, version: Byte): seq<Byte>
    requires PlainTrack(info) && PlainTail(tail)
  {
    (if version >= 2 then [version] else [])
    + PlainHead(info) + PlainLinks(info, version) + Field(info.sourceName) + TailField(tail) + Int64(info.position)
  }

  function PlainHead(info: TrackInfo): seq<Byte>
    requires PlainTrack(info)
  {
    Field(info.title) + Field(info.author) + Int64(info.length) + Field(info.identifier)
    + [if info.isStream then 1 else 0]
  }

  function PlainLinks(info: TrackInfo, version: Byte): seq<Byte>
    requires PlainTrack(info)
  {
    (if version >= 2 then OptionalField(info.uri) else [])
    + (if version >= 3 then OptionalField(info.artworkUrl) + OptionalField(info.isrc) else [])
  }

  /** Four bytes: bit 30 says that a version byte follows, the bits below are the size of the payload. */
  function PlainHeader(size: nat, version: Byte): seq<Byte> {
    Digits4(size + if version >= 2 then 0x4000_0000 else 0)
  }

  lemma HeaderIsWrittenSo(size: nat, version: Byte)
    requires size < SIZE_LIMIT
    ensures Header(size, version) == PlainHeader(size, version)
  {
    hide BigEndian, Digits4;
    var v := size + if version >= 2 then 0x4000_0000 else 0;
    FourMoreDigits(v, 0);
    NoDigits(v / 0x1_0000_0000);
  }

  lemma OptionalIsWritten(text: Option<Text>)
    requires text.Some? ==> Plain(text.value)
    ensures NullableUtf(text) == Success(OptionalField(text))
  {
    if text.Some? {
      FieldIsWritten(text.value);
    }
  }

  lemma HeadIsWrittenSo(info: TrackInfo)
    requires PlainTrack(info)
    ensures Head(HeadOf(info)) == Success(PlainHead(info))
  {
    hide Plain, Field, Utf, Int64;
    FieldIsWritten(info.title);
    FieldIsWritten(info.author);
    FieldIsWritten(info.identifier);
    var title, author, length := Field(info.title), Field(info.author), Int64(info.length);
    var identifier, isStream := Field(info.identifier), [if info.isStream then 1 else 0];
    assert title + (author + (length + (identifier + isStream))) == title + author + length + identifier + isStream;
  }

  lemma LinksAreWrittenSo(info: TrackInfo, version: Byte)
    requires PlainTrack(info)
    ensures Links(LinksOf(info), version) == Success(PlainLinks(info, version))
  {
    hide Plain, OptionalField, NullableUtf;
    OptionalIsWritten(info.uri);
    OptionalIsWritten(info.artworkUrl);
    OptionalIsWritten(info.isrc);
    var uri, artworkUrl, isrc := OptionalField(info.uri), OptionalField(info.artworkUrl), OptionalField(info.isrc);
    var none: seq<Byte> := [];
    assert uri + (none + none) == uri + none && none + (none + none) == none + none;
    assert uri + (artworkUrl + isrc) == uri + artworkUrl + isrc;
  }

  lemma SourceIsWrittenSo(info: TrackInfo, tail: SourceTail)
    requires PlainTrack(info) && PlainTail(tail)
    ensures Source(info.sourceName, tail) == Success(Field(info.sourceName) + TailField(tail))
  {
    hide Plain, Field, Utf;
    FieldIsWritten(info.sourceName);
    if tail.Probe? {
      FieldIsWritten(tail.name);
    }
  }

  lemma BodyIsWrittenSo(info: TrackInfo, tail: SourceTail, version: Byte)
    requires PlainTrack(info) && PlainTail(tail) && Supported(version)
    ensures
      var body := Body(info, tail, version);
      body.Success? && body.value + Int64(info.position) == PlainPayload(info, tail, version)
  {
    hide Plain, Field, TailField, Int64, Head, Links, Source, PlainHead, PlainLinks;
    HeadIsWrittenSo(info);
    LinksAreWrittenSo(info, version);
    SourceIsWrittenSo(info, tail);
    Flat(VersionByte(version), PlainHead(info), PlainLinks(info, version), Field(info.sourceName), TailField(tail));
  }

  lemma Flat(a: seq<Byte>, b: seq<Byte>, c: seq<Byte>, d: seq<Byte>, e: seq<Byte>)
    ensures a + (b + (c + (d + e))) == a + b + c + d + e
  {
  }

  /**
    Every track of plain strings, byte for byte: the header, then the version and the fields in
    this order, and the position last.
   */
  lemma TracksAreWrittenSo(info: TrackInfo, tail: SourceTail, version: Byte)
    requires PlainTrack(info) && PlainTail(tail) && Supported(version)
    requires |PlainPayload(info, tail, version)| < SIZE_LIMIT
    ensures
      var payload := PlainPayload(info, tail, version);
      Encoded(info, tail, version) == Success(PlainHeader(|payload|, version) + payload)
  {
    hide PlainTrack, PlainTail, PlainPayload, Body, PlainHeader, Header;
    BodyIsWrittenSo(info, tail, version);
    HeaderIsWrittenSo(|PlainPayload(info, tail, version)|, version);
  }

  /** The header of what is read: the size, and whether a version byte follows. */
  lemma HeaderIsReadSo(bytes: seq<Byte>)
    requires |bytes| >= 4
    ensures
      var word := ((bytes[0] as nat * 0x100 + bytes[1] as nat) * 0x100 + bytes[2] as nat) * 0x100 + bytes[3] as nat;
      && Input(bytes, 0).ReadI32() == Parse(Success(Signed32(word)), Input(bytes[4..], 4))
      && Bits32(Signed32(word)) == word
  {
    assert bytes[0..] == bytes;
    TakesWhatIsThere(bytes, 0, 4);
    var four := bytes[0..4];
    assert four[..3][..2] == four[..2] && four[..2][..1] == four[..1] && four[..1][..0] == [];
    assert FromBigEndian(four) == FromBigEndian(four[..3]) * 0x100 + bytes[3];
    assert FromBigEndian(four[..3]) == FromBigEndian(four[..2]) * 0x100 + bytes[2];
    assert FromBigEndian(four[..2]) == FromBigEndian(four[..1]) * 0x100 + bytes[1];
    assert FromBigEndian(four[..1]) == bytes[0];
    FromBigEndianBound(four);
    PowersOf256();
  }

  /** The size a header declares, in its lower thirty bits. */
  function DeclaredSize(bytes: seq<Byte>): nat
    requires |bytes| >= 4
  {
    ((bytes[0] as nat % 0x40 * 0x100 + bytes[1] as nat) * 0x100 + bytes[2] as nat) * 0x100 + bytes[3] as nat
  }

  lemma HeaderSplits(b0: Byte, b1: Byte, b2: Byte, b3: Byte)
    ensures
      var word := ((b0 as nat * 0x100 + b1 as nat) * 0x100 + b2 as nat) * 0x100 + b3 as nat;
      && word % SIZE_LIMIT == ((b0 as nat % 0x40 * 0x100 + b1 as nat) * 0x100 + b2 as nat) * 0x100 + b3 as nat
      && word / SIZE_LIMIT == b0 as nat / 0x40
  {
  }

  lemma PayloadIsReadSo(bytes: seq<Byte>)
    requires |bytes| >= 4
    ensures Decoded(bytes)
         == if |bytes| - 4 < DeclaredSize(bytes) then Failure(SizeMismatch(DeclaredSize(bytes), |bytes| - 4))
            else ReadPayload(bytes[4..][..DeclaredSize(bytes)], bytes[0] / 0x40 % 2 == 1)
  {
    hide ReadPayload;
    HeaderIsReadSo(bytes);
    hide Input.ReadI32;
    HeaderSplits(bytes[0], bytes[1], bytes[2], bytes[3]);
  }

  lemma PayloadIsRefusedSo(payload: seq<Byte>)
    ensures |payload| < 8 ==> forall versioned :: ReadPayload(payload, versioned) == Failure(MissingPosition)
    ensures |payload| == 8 ==> ReadPayload(payload, true) == Failure(Io(Eof(0, 1, 0)))
    ensures |payload| > 8 && !(1 <= payload[0] <= 3) ==>
      ReadPayload(payload, true) == Failure(UnsupportedVersion(payload[0]))
  {
    hide ReadFields, EightBytes, Signed64;
    if |payload| >= 8 {
      var fields := payload[..|payload| - 8];
      assert fields[0..] == fields;
      TakesWhatIsThere(fields, 0, 1);
    }
  }

  /** What is refused before any field is read, in this order, each with its own error. */
  lemma RefusedSo(bytes: seq<Byte>)
    ensures |bytes| < 4 ==> Decoded(bytes) == Failure(Io(Eof(0, 4, |bytes|)))
    ensures |bytes| >= 4 ==>
      var size, versioned := DeclaredSize(bytes), bytes[0] / 0x40 % 2 == 1;
      if |bytes| - 4 < size then Decoded(bytes) == Failure(SizeMismatch(size, |bytes| - 4))
      else if size < 8 then Decoded(bytes) == Failure(MissingPosition)
      else if versioned && size == 8 then Decoded(bytes) == Failure(Io(Eof(0, 1, 0)))
      else versioned && !(1 <= bytes[4] <= 3) ==> Decoded(bytes) == Failure(UnsupportedVersion(bytes[4]))
  {
    hide ReadPayload, DeclaredSize;
    if |bytes| >= 4 {
      PayloadIsReadSo(bytes);
      if DeclaredSize(bytes) <= |bytes| - 4 {
        PayloadIsRefusedSo(bytes[4..][..DeclaredSize(bytes)]);
      }
    }
  }

  /** The strings of a track in the order they are written. */
  function StringsOf(info: TrackInfo, tail: SourceTail, version: Byte): seq<Text> {
    [info.title, info.author, info.identifier] + LinkStrings(LinksOf(info), version)
    + [info.sourceName] + (if tail.Probe? then [tail.name] else [])
  }

  function LinkStrings(f: LinkFields, version: Byte): seq<Text> {
    (if version >= 2 then Present(f.uri) else [])
    + if version >= 3 then Present(f.artworkUrl) + Present(f.isrc) else []
  }

  function Present(text: Option<Text>): seq<Text> {
    if text.Some? then [text.value] else []
  }

  /** The first of the strings that is too long, if any, and how long it is. */
  function FirstTooLong(strings: seq<Text>): Option<nat> {
    if strings == [] then None
    else if |Encode(strings[0])| >= 0x1_0000 then Some(|Encode(strings[0])|)
    else FirstTooLong(strings[1..])
  }

  /** What writing fields comes to: their bytes, or the error of the first string that is too long. */
  predicate FailsAsFirst<T>(r: Result<T, JavaIoError>, strings: seq<Text>) {
    match FirstTooLong(strings)
    case None => r.Success?
    case Some(len) => r == Failure(StringTooLong(len))
  }

  lemma {:induction false} FirstOfMore(a: seq<Text>, b: seq<Text>)
    ensures FirstTooLong(a + b) == if FirstTooLong(a).Some? then FirstTooLong(a) else FirstTooLong(b)
  {
    if a == [] {
      assert a + b == b;
    } else {
      FirstOfMore(a[1..], b);
      assert (a + b)[1..] == a[1..] + b;
    }
  }

  lemma OneString(text: Text)
    ensures FailsAsFirst(Utf(text), [text]) && FailsAsFirst(NullableUtf(Some(text)), [text])
    ensures FailsAsFirst(NullableUtf(None), [])
  {
    hide Encode;
    var rest: seq<Text> := [];
    assert [text][1..] == rest && FirstTooLong(rest).None?;
  }

  lemma HeadFailsSo(f: HeadFields)
    ensures FailsAsFirst(Head(f), [f.title, f.author, f.identifier])
  {
    hide Utf, Encode;
    OneString(f.title);
    OneString(f.author);
    OneString(f.identifier);
    FirstOfMore([f.title], [f.author]);
    FirstOfMore([f.title, f.author], [f.identifier]);
    assert [f.title] + [f.author] == [f.title, f.author];
    assert [f.title, f.author] + [f.identifier] == [f.title, f.author, f.identifier];
  }

  lemma OneLink(text: Option<Text>)
    ensures FailsAsFirst(NullableUtf(text), Present(text))
  {
    if text.Some? {
      OneString(text.value);
    } else {
      OneString([]);
    }
  }

  lemma LinksFailSo(f: LinkFields, version: Byte)
    ensures FailsAsFirst(Links(f, version), LinkStrings(f, version))
  {
    hide NullableUtf, Present;
    OneLink(f.uri);
    OneLink(f.artworkUrl);
    OneLink(f.isrc);
    var none: seq<Text> := [];
    var uri := if version >= 2 then Present(f.uri) else none;
    FirstOfMore(Present(f.artworkUrl), Present(f.isrc));
    FirstOfMore(uri, if version >= 3 then Present(f.artworkUrl) + Present(f.isrc) else none);
  }

  lemma SourceFailsSo(sourceName: Text, tail: SourceTail)
    ensures FailsAsFirst(Source(sourceName, tail), [sourceName] + if tail.Probe? then [tail.name] else [])
  {
    hide Utf, Encode;
    OneString(sourceName);
    var none: seq<Text> := [];
    if tail.Probe? {
      OneString(tail.name);
    }
    FirstOfMore([sourceName], if tail.Probe? then [tail.name] else none);
  }

  /** A track with a string too long to write is refused, for the first such string, with its length. */
  lemma TooLongIsNamed(info: TrackInfo, tail: SourceTail, version: Byte)
    requires Supported(version) && FirstTooLong(StringsOf(info, tail, version)).Some?
    ensures Encoded(info, tail, version)
         == Failure(Io(StringTooLong(FirstTooLong(StringsOf(info, tail, version)).value)))
  {
    hide Head, Links, Source, LinkStrings, FirstTooLong, Int64;
    var head, links := [info.title, info.author, info.identifier], LinkStrings(LinksOf(info), version);
    var none: seq<Text> := [];
    var source := [info.sourceName] + if tail.Probe? then [tail.name] else none;
    HeadFailsSo(HeadOf(info));
    LinksFailSo(LinksOf(info), version);
    SourceFailsSo(info.sourceName, tail);
    FirstOfMore(head + links, source);
    FirstOfMore(head, links);
    assert StringsOf(info, tail, version) == head + links + source;
  }

  /** The text of an ASCII literal. */
  function Chars(s: string): (r: Text)
    ensures |r| == |s|
  {
    seq(|s|, i requires 0 <= i < |s| => if s[i] < 128 as char then s[i] as nat else 0)
  }

  predicate Ascii(s: string) {
    forall i | 0 <= i < |s| :: 0 as char < s[i] < 128 as char
  }

  lemma AsciiIsPlain(s: string)
    requires Ascii(s) && |s| < 0x1_0000
    ensures Plain(Chars(s)) && Field(Chars(s)) == [|s| / 0x100, |s| % 0x100] + Chars(s)
  {
  }

  /** The names of the sources whose tail is a probe name. */
  lemma ProbingSources(sourceName: Text)
    ensures IsProbing(sourceName) <==> sourceName == Chars("http") || sourceName == Chars("local")
  {
  }

  const TITLE := "Rick Astley - Never Gonna Give You Up"
  const AUTHOR := "RickAstleyVEVO"
  const IDENTIFIER := "dQw4w9WgXcQ"
  const URI := "https://www.youtube.com/watch?v=dQw4w9WgXcQ"
  const SOURCE := "youtube"

  const ORIGINAL := TrackInfo(
    Chars(IDENTIFIER), true, Chars(AUTHOR), 212_000, false, 0, Chars(TITLE), Some(Chars(URI)), Chars(SOURCE),
    None, None)

  const ORIGINAL_HEAD: seq<Byte> :=
    ([0, 0x25] + Chars(TITLE)) + ([0, 0x0E] + Chars(AUTHOR))
    + [0, 0, 0, 0, 0, 3, 0x3C, 0x20]
    + ([0, 0x0B] + Chars(IDENTIFIER)) + [0]

  const ORIGINAL_PAYLOAD: seq<Byte> :=
    [2] + ORIGINAL_HEAD
    + ([1] + ([0, 0x2B] + Chars(URI)) + [])
    + ([0, 7] + Chars(SOURCE)) + []
    + [0, 0, 0, 0, 0, 0, 0, 0]

  lemma StringsArePlain()
    ensures Ascii(AUTHOR) && |AUTHOR| == 0x0E && Ascii(IDENTIFIER) && |IDENTIFIER| == 0x0B
    ensures Ascii(SOURCE) && |SOURCE| == 7 && !IsProbing(Chars(SOURCE))
  {
    ProbingSources(Chars(SOURCE));
  }

  lemma TitleIsPlain()
    ensures Ascii(TITLE) && |TITLE| == 0x25
  {
  }

  lemma UriIsPlain()
    ensures Ascii(URI) && |URI| == 0x2B
  {
  }

  lemma OriginalNumbers()
    ensures Int64(212_000) == [0, 0, 0, 0, 0, 3, 0x3C, 0x20] && Int64(0) == [0, 0, 0, 0, 0, 0, 0, 0]
    ensures PlainHeader(0x8D, 2) == [0x40, 0, 0, 0x8D]
  {
    LongsAreWrittenSo(212_000);
    LongsAreWrittenSo(0);
  }

  lemma OriginalIsPlain()
    ensures PlainTrack(ORIGINAL)
  {
    hide Chars, TITLE, AUTHOR, IDENTIFIER, URI, SOURCE, Field, Ascii, Plain;
    StringsArePlain();
    TitleIsPlain();
    UriIsPlain();
    AsciiIsPlain(TITLE);
    AsciiIsPlain(AUTHOR);
    AsciiIsPlain(IDENTIFIER);
    AsciiIsPlain(URI);
    AsciiIsPlain(SOURCE);
  }

  lemma OriginalHead()
    requires PlainTrack(ORIGINAL)
    ensures PlainHead(ORIGINAL) == ORIGINAL_HEAD && |ORIGINAL_HEAD| == 0x4D
  {
    hide Chars, TITLE, AUTHOR, IDENTIFIER, Int64, Field, Ascii, Plain;
    StringsArePlain();
    TitleIsPlain();
    OriginalNumbers();
    AsciiIsPlain(TITLE);
    AsciiIsPlain(AUTHOR);
    AsciiIsPlain(IDENTIFIER);
  }

  lemma OriginalPayload()
    ensures PlainTrack(ORIGINAL) && PlainPayload(ORIGINAL, Empty, 2) == ORIGINAL_PAYLOAD && |ORIGINAL_PAYLOAD| == 0x8D
  {
    hide Chars, URI, SOURCE, Int64, Field, Ascii, Plain, PlainHead, ORIGINAL_HEAD;
    OriginalIsPlain();
    OriginalHead();
    StringsArePlain();
    UriIsPlain();
    OriginalNumbers();
    AsciiIsPlain(URI);
    AsciiIsPlain(SOURCE);
  }

  /** A track as the original server wrote it: it is read as what it is, and written back the same. */
  lemma OriginalTrackIsUnderstood()
    ensures Encoded(ORIGINAL, Empty, 2) == Success([0x40, 0, 0, 0x8D] + ORIGINAL_PAYLOAD)
    ensures Decoded([0x40, 0, 0, 0x8D] + ORIGINAL_PAYLOAD) == Success(DecodedTrack(ORIGINAL, Empty, 2))
  {
    hide Chars, TITLE, AUTHOR, IDENTIFIER, URI, SOURCE, Encoded, Decoded, PlainTrack, PlainPayload, IsProbing;
    hide PlainHeader, ORIGINAL_PAYLOAD;
    StringsArePlain();
    OriginalNumbers();
    OriginalPayload();
    TracksAreWrittenSo(ORIGINAL, Empty, 2);
    var bytes := [0x40, 0, 0, 0x8D] + ORIGINAL_PAYLOAD;
    RoundTripIff(DecodedTrack(ORIGINAL, Empty, 2), []);
    assert bytes + [] == bytes;
  }
}
