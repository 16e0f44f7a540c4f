/**
  When a track written elsewhere survives decoding and re-encoding byte for byte
  (`encoded_track.rs`, `java_io.rs`): exactly when each of its fields is in the form this codec
  writes, its header carries just the flag its version needs, and nothing follows its payload.
 */
module TrackBytes {
  import opened EncodedTrack
  import opened JavaIo
  import opened ModifiedUtf8
  import opened Octets
  import opened Options

  // Each field as this codec would write it.

  /** The bytes of a string all in shortest form, with every surrogate paired. */
  predicate KeptAsIs(bytes: seq<Byte>) {
    DecodeUnits(bytes, 0).Success? && Shortest(bytes, 0) && Paired(DecodeUnits(bytes, 0).value)
  }

  predicate UtfAsWritten(input: Input) {
    var len := input.ReadU16();
    && len.result.Success?
    && var body := len.next.Take(len.result.value).result;
       body.Success? && KeptAsIs(body.value)
  }

  predicate NullableAsWritten(input: Input) {
    BoolAsWritten(input) && (input.rest[0] == 1 ==> UtfAsWritten(Input(input.rest[1..], input.offset + 1)))
  }

  /** The flag here is 0 or 1; any other value is read as true. */
  predicate BoolAsWritten(input: Input) {
    input.rest != [] && input.rest[0] <= 1
  }

  predicate HeadAsWritten(input: Input) {
    var author := input.ReadUtf().next;
    var length := author.ReadUtf().next;
    var identifier := length.ReadI64().next;
    var isStream := identifier.ReadUtf().next;
    UtfAsWritten(input) && UtfAsWritten(author) && UtfAsWritten(identifier) && BoolAsWritten(isStream)
  }

  predicate LinksAsWritten(input: Input, version: Byte) {
    var artworkUrl := input.ReadNullableUtf().next;
    var isrc := artworkUrl.ReadNullableUtf().next;
    && (version >= VERSION_WITH_URI ==> NullableAsWritten(input))
    && (version >= VERSION_WITH_ARTWORK_AND_ISRC ==> NullableAsWritten(artworkUrl) && NullableAsWritten(isrc))
  }

  /** A probing source's tail is its probe name alone. */
  predicate SourceAsWritten(input: Input) {
    && UtfAsWritten(input)
    && var name := input.ReadUtf();
       name.result.Success? && IsProbing(name.result.value) ==>
         UtfAsWritten(name.next) && name.next.ReadUtf().next.rest == []
  }

  predicate FieldsAsWritten(input: Input, version: Byte) {
    && HeadAsWritten(input)
    && (ReadHead(input).Success? ==>
          var links := ReadHead(input).value.1;
          && LinksAsWritten(links, version)
          && (ReadLinks(links, version).Success? ==> SourceAsWritten(ReadLinks(links, version).value.1)))
  }

  /** The fields of an unpadded track: what is between the header, the version byte and the position. */
  function FieldsOf(bytes: seq<Byte>, version: Byte): Input
    requires |bytes| >= HEADER_BYTES + POSITION_BYTES
  {
    var body := bytes[HEADER_BYTES..|bytes| - POSITION_BYTES];
    Input(if version > 1 && body != [] then body[1..] else body, |VersionByte(version)|)
  }

  // One field: it is in the written form exactly when the bytes it takes are those it would be written as.

  lemma UtfIff(input: Input, text: Text, next: Input)
    requires input.ReadUtf() == Parse(Success(text), next)
    ensures UtfAsWritten(input) <==> Utf(text).Success? && input.rest == Utf(text).value + next.rest
  {
    hide Encode, Decode, DecodeUnits, Shortest, Paired, BigEndian, FromBigEndian;
    var digits := input.rest[..2];
    var body := input.rest[2..2 + FromBigEndian(digits)];
    DigitsRoundTrip(digits);
    FromBigEndianBound(digits);
    PowersOf256();
    assert input.rest[2..][..FromBigEndian(digits)] == body;
    ComesBackIff(body);
    assert input.rest == digits + body + next.rest;
    SameBody(digits, BigEndian(|Encode(text)|, 2), body, Encode(text), next.rest);
  }

  lemma SameBody(a: seq<Byte>, b: seq<Byte>, body: seq<Byte>, other: seq<Byte>, rest: seq<Byte>)
    requires |a| == |b| && (|body| == |other| ==> a == b)
    ensures a + body + rest == b + other + rest <==> body == other
  {
    if a + body + rest == b + other + rest {
      assert |body| == |other|;
      assert (a + body + rest)[|a|..|a| + |body|] == body && (b + other + rest)[|b|..|b| + |other|] == other;
    }
  }

  lemma NullableIff(input: Input, text: Option<Text>, next: Input)
    requires input.ReadNullableUtf() == Parse(Success(text), next)
    ensures NullableAsWritten(input) <==>
      NullableUtf(text).Success? && input.rest == NullableUtf(text).value + next.rest
  {
    hide Input.ReadUtf, Utf, UtfAsWritten;
    var after := Input(input.rest[1..], input.offset + 1);
    assert input.rest == [input.rest[0]] + after.rest;
    if text.Some? {
      UtfIff(after, text.value, next);
      if Utf(text.value).Success? {
        assert Bool(true) + Utf(text.value).value + next.rest == Bool(true) + (Utf(text.value).value + next.rest);
      }
    }
  }

  lemma BoolIff(input: Input, value: bool, next: Input)
    requires input.ReadBool() == Parse(Success(value), next)
    ensures BoolAsWritten(input) <==> input.rest == Bool(value) + next.rest
  {
    assert input.rest == input.rest[..1] + input.rest[1..];
  }

  lemma {:induction false} DigitsRoundTrip(bytes: seq<Byte>)
    ensures BigEndian(FromBigEndian(bytes), |bytes|) == bytes
  {
    if bytes != [] {
      DigitsRoundTrip(bytes[..|bytes| - 1]);
    }
  }

  /** An integer has only one form. */
  lemma Int64Always(input: Input, value: I64, next: Input)
    requires input.ReadI64() == Parse(Success(value), next)
    ensures input.rest == Int64(value) + next.rest
  {
    DigitsRoundTrip(input.rest[..8]);
    assert input.rest == input.rest[..8] + input.rest[8..];
  }

  // Groups of fields.

  lemma HeadIff(input: Input, f: HeadFields, next: Input)
    requires ReadHead(input) == Success((f, next))
    ensures HeadAsWritten(input) <==> Head(f).Success? && input.rest == Head(f).value + next.rest
  {
    hide Input.ReadUtf, Input.ReadI64, Input.ReadBool, Utf, Int64, UtfAsWritten, BoolAsWritten;
    var author := input.ReadUtf().next;
    var length := author.ReadUtf().next;
    var identifier := length.ReadI64().next;
    var isStream := identifier.ReadUtf().next;
    UtfIff(input, f.title, author);
    UtfIff(author, f.author, length);
    Int64Always(length, f.length, identifier);
    UtfIff(identifier, f.identifier, isStream);
    BoolIff(isStream, f.isStream, next);
    if HeadAsWritten(input) {
      Nest5(Utf(f.title).value, Utf(f.author).value, Int64(f.length), Utf(f.identifier).value,
            Bool(f.isStream), next.rest);
    } else if Head(f).Success? && input.rest == Head(f).value + next.rest {
      var after4 := Bool(f.isStream) + next.rest;
      var after3 := Utf(f.identifier).value + after4;
      var after2 := Int64(f.length) + after3;
      var after1 := Utf(f.author).value + after2;
      Nest5(Utf(f.title).value, Utf(f.author).value, Int64(f.length), Utf(f.identifier).value,
            Bool(f.isStream), next.rest);
      ReadBackUtf(f.title, after1, input.offset);
      ReadBackUtf(f.author, after2, author.offset);
      ReadBackInt64(f.length, after3, length.offset);
      ReadBackUtf(f.identifier, after4, identifier.offset);
      assert false;
    }
  }

  lemma Nest5(a: seq<Byte>, b: seq<Byte>, c: seq<Byte>, d: seq<Byte>, e: seq<Byte>, rest: seq<Byte>)
    ensures a + (b + (c + (d + e))) + rest == a + (b + (c + (d + (e + rest))))
  {
  }

  lemma LinksIff(input: Input, version: Byte, f: LinkFields, next: Input)
    requires ReadLinks(input, version) == Success((f, next))
    ensures LinksAsWritten(input, version) <==>
      Links(f, version).Success? && input.rest == Links(f, version).value + next.rest
  {
    hide Input.ReadNullableUtf, NullableUtf, NullableAsWritten;
    var artworkUrl := input.ReadNullableUtf().next;
    var isrc := artworkUrl.ReadNullableUtf().next;
    if version >= VERSION_WITH_ARTWORK_AND_ISRC {
      NullableIff(input, f.uri, artworkUrl);
      NullableIff(artworkUrl, f.artworkUrl, isrc);
      NullableIff(isrc, f.isrc, next);
      if LinksAsWritten(input, version) {
        Nest3(NullableUtf(f.uri).value, NullableUtf(f.artworkUrl).value, NullableUtf(f.isrc).value, next.rest);
      } else if Links(f, version).Success? && input.rest == Links(f, version).value + next.rest {
        var after2 := NullableUtf(f.isrc).value + next.rest;
        var after1 := NullableUtf(f.artworkUrl).value + after2;
        Nest3(NullableUtf(f.uri).value, NullableUtf(f.artworkUrl).value, NullableUtf(f.isrc).value, next.rest);
        ReadBackNullableUtf(f.uri, after1, input.offset);
        ReadBackNullableUtf(f.artworkUrl, after2, artworkUrl.offset);
        assert false;
      }
    } else if version >= VERSION_WITH_URI {
      NullableIff(input, f.uri, next);
      if Links(f, version).Success? {
        assert Links(f, version).value == NullableUtf(f.uri).value;
      }
    } else {
      assert Links(f, version).value + next.rest == next.rest;
    }
  }

  lemma Nest3(a: seq<Byte>, b: seq<Byte>, c: seq<Byte>, rest: seq<Byte>)
    ensures a + (b + c) + rest == a + (b + (c + rest))
  {
  }

  lemma SourceIff(input: Input, sourceName: Text, tail: SourceTail)
    requires ReadSource(input) == Success((sourceName, tail))
    ensures SourceAsWritten(input) <==>
      Source(sourceName, tail).Success? && input.rest == Source(sourceName, tail).value
  {
    hide Input.ReadUtf, Utf, UtfAsWritten;
    var after := input.ReadUtf().next;
    UtfIff(input, sourceName, after);
    if IsProbing(sourceName) {
      var end := after.ReadUtf().next;
      UtfIff(after, tail.name, end);
      if SourceAsWritten(input) {
        assert after.rest == Utf(tail.name).value + [] == Utf(tail.name).value;
      } else if Source(sourceName, tail).Success? && input.rest == Source(sourceName, tail).value {
        ReadBackUtf(sourceName, Utf(tail.name).value, input.offset);
        assert Utf(tail.name).value + [] == Utf(tail.name).value;
        ReadBackUtf(tail.name, [], after.offset);
        assert false;
      }
    } else if Source(sourceName, tail).Success? && input.rest == Source(sourceName, tail).value {
      var rest := if tail.Raw? then tail.bytes else [];
      ReadBackUtf(sourceName, rest, input.offset);
    }
  }

  lemma FieldsIff(input: Input, version: Byte, track: DecodedTrack)
    requires ReadFields(input, version, track.info.position) == Success(track)
    ensures
      var head, links := Head(HeadOf(track.info)), Links(LinksOf(track.info), version);
      var source := Source(track.info.sourceName, track.tail);
      FieldsAsWritten(input, version) <==>
        head.Success? && links.Success? && source.Success? && input.rest == head.value + (links.value + source.value)
  {
    hide Head, Links, Source, ReadHead, ReadLinks, ReadSource, HeadAsWritten, LinksAsWritten, SourceAsWritten;
    var head, links, source := Head(HeadOf(track.info)),
      Links(LinksOf(track.info), version), Source(track.info.sourceName, track.tail);
    var afterHead := ReadHead(input).value.1;
    var afterLinks := ReadLinks(afterHead, version).value.1;
    HeadIff(input, HeadOf(track.info), afterHead);
    LinksIff(afterHead, version, LinksOf(track.info), afterLinks);
    SourceIff(afterLinks, track.info.sourceName, track.tail);
    if head.Success? && links.Success? && source.Success? && input.rest == head.value + (links.value + source.value) {
      ReadBackHead(HeadOf(track.info), links.value + source.value, input.offset);
      LinksFitWhatWasRead(afterHead, version);
      ReadBackLinks(LinksOf(track.info), version, source.value, afterHead.offset);
    }
  }

  lemma LinksFitWhatWasRead(input: Input, version: Byte)
    requires ReadLinks(input, version).Success?
    ensures FieldsFitVersion(ReadLinks(input, version).value.0, version)
  {
    hide Input.ReadNullableUtf;
  }

  // The whole track.

  /** The header's two parts, and that nothing follows the payload it declares. */
  predicate FrameAsWritten(bytes: seq<Byte>, version: Byte) {
    && |bytes| >= HEADER_BYTES + POSITION_BYTES
    && var header := FromBigEndian(bytes[..HEADER_BYTES]);
       |bytes| == HEADER_BYTES + header % SIZE_LIMIT && header / SIZE_LIMIT == (if version > 1 then 1 else 0)
  }

  lemma PositionAlways(digits: seq<Byte>)
    requires |digits| == POSITION_BYTES
    ensures Int64(Signed64(EightBytes(digits))) == digits
  {
    DigitsRoundTrip(digits);
  }

  /** An unpadded track, cut where the decoder cuts it. */
  lemma FrameIsCut(bytes: seq<Byte>)
    requires Decoded(bytes).Success? && FrameAsWritten(bytes, Decoded(bytes).value.version)
    ensures
      var track := Decoded(bytes).value;
      && ReadFields(FieldsOf(bytes, track.version), track.version, track.info.position) == Success(track)
      && bytes == bytes[..HEADER_BYTES]
                  + (VersionByte(track.version) + FieldsOf(bytes, track.version).rest + Int64(track.info.position))
  {
    hide ReadFields, ReadPayload, Decoded, Int64, EightBytes, Signed64;
    var track, payload := Decoded(bytes).value, bytes[HEADER_BYTES..];
    var split := |payload| - POSITION_BYTES;
    PayloadIsRead(bytes);
    ReadFieldsKeepsItsParameters(payload, track.version > 1);
    PositionAlways(payload[split..]);
    CutIsWhole(bytes);
    if track.version > 1 {
      FirstAndRest(payload[..split]);
    }
  }

  lemma CutIsWhole(bytes: seq<Byte>)
    requires |bytes| >= HEADER_BYTES + POSITION_BYTES
    ensures
      var payload := bytes[HEADER_BYTES..];
      var split := |payload| - POSITION_BYTES;
      && payload[..split] == bytes[HEADER_BYTES..|bytes| - POSITION_BYTES]
      && bytes == bytes[..HEADER_BYTES] + (payload[..split] + payload[split..])
  {
  }

  lemma FirstAndRest(body: seq<Byte>)
    requires body != []
    ensures body == [body[0]] + body[1..]
  {
  }

  lemma PayloadIsRead(bytes: seq<Byte>)
    requires Decoded(bytes).Success? && FrameAsWritten(bytes, Decoded(bytes).value.version)
    ensures ReadPayload(bytes[HEADER_BYTES..], Decoded(bytes).value.version > 1) == Decoded(bytes)
  {
    hide ReadPayload, Input.ReadI32, FromBigEndian;
    HeaderIsRead(bytes);
    var payload := bytes[HEADER_BYTES..];
    assert payload[..|payload|] == payload;
  }

  lemma HeaderIsRead(bytes: seq<Byte>)
    requires |bytes| >= HEADER_BYTES
    ensures
      var header := Input(bytes, 0).ReadI32();
      && header.result.Success? && Bits32(header.result.value) == FromBigEndian(bytes[..HEADER_BYTES])
      && header.next.rest == bytes[HEADER_BYTES..]
  {
  }

  /** The version and position of a decoded track are those its payload states. */
  lemma ReadFieldsKeepsItsParameters(payload: seq<Byte>, versioned: bool)
    requires ReadPayload(payload, versioned).Success?
    ensures
      var track := ReadPayload(payload, versioned).value;
      var split := |payload| - POSITION_BYTES;
      && split >= 0
      && track.info.position == Signed64(EightBytes(payload[split..]))
      && (versioned ==> split > 0 && track.version == payload[0]) && (!versioned ==> track.version == 1)
      && ReadFields(Input(if versioned then payload[..split][1..] else payload[..split], if versioned then 1 else 0),
                    track.version, track.info.position) == Success(track)
  {
    hide ReadHead, ReadLinks, ReadSource, EightBytes, Signed64;
  }

  /**
    A decoded track re-encodes to the very bytes it came from if and only if each of its fields is
    in the written form, its header has just the flag its version needs, and nothing follows it.
   */
  lemma SurvivesByteForByteIff(bytes: seq<Byte>)
    requires Decoded(bytes).Success?
    ensures
      var track := Decoded(bytes).value;
      Encoded(track.info, track.tail, track.version) == Success(bytes)
      <==> FrameAsWritten(bytes, track.version) && FieldsAsWritten(FieldsOf(bytes, track.version), track.version)
  {
    var track := Decoded(bytes).value;
    var again := Encoded(track.info, track.tail, track.version);
    DecodedIsRepresentable(bytes);
    if again == Success(bytes) {
      EncodedIsFramed(track, bytes);
    }
    if FrameAsWritten(bytes, track.version) {
      FrameIsCut(bytes);
      FieldsIff(FieldsOf(bytes, track.version), track.version, track);
      FramedFieldsDecide(track, bytes);
    }
  }

  lemma EncodedIsFramed(track: DecodedTrack, bytes: seq<Byte>)
    requires Encoded(track.info, track.tail, track.version) == Success(bytes)
    ensures FrameAsWritten(bytes, track.version)
  {
    hide Body, Int64;
    EncodedShape(track.info, track.tail, track.version);
    var payload := Body(track.info, track.tail, track.version).value + Int64(track.info.position);
    ReadBackHeader(|payload|, track.version, payload);
    HeaderIsRead(bytes);
  }

  /** Within the right frame, re-encoding gives the same bytes exactly when it gives the same fields. */
  lemma FramedFieldsDecide(track: DecodedTrack, bytes: seq<Byte>)
    requires Supported(track.version) && FrameAsWritten(bytes, track.version)
    requires
      bytes == bytes[..HEADER_BYTES]
               + (VersionByte(track.version) + FieldsOf(bytes, track.version).rest + Int64(track.info.position))
    ensures
      var head, links := Head(HeadOf(track.info)), Links(LinksOf(track.info), track.version);
      var source := Source(track.info.sourceName, track.tail);
      Encoded(track.info, track.tail, track.version) == Success(bytes) <==>
        && head.Success? && links.Success? && source.Success?
        && FieldsOf(bytes, track.version).rest == head.value + (links.value + source.value)
  {
    hide Head, Links, Source, Int64;
    var version, rest := track.version, FieldsOf(bytes, track.version).rest;
    var payload := VersionByte(version) + rest + Int64(track.info.position);
    assert bytes[HEADER_BYTES..] == payload;
    DigitsRoundTrip(bytes[..HEADER_BYTES]);
    assert Header(|payload|, version) == bytes[..HEADER_BYTES];
    if Body(track.info, track.tail, version).Success? {
      var body := Body(track.info, track.tail, version).value;
      var written := body[|VersionByte(version)|..];
      assert body == VersionByte(version) + written;
      SameMiddle(VersionByte(version), rest, written, Int64(track.info.position));
      if Encoded(track.info, track.tail, version) == Success(bytes) {
        assert bytes[HEADER_BYTES..] == body + Int64(track.info.position);
      }
    }
  }

  lemma SameMiddle(first: seq<Byte>, a: seq<Byte>, b: seq<Byte>, last: seq<Byte>)
    ensures first + a + last == first + b + last <==> a == b
  {
    if first + a + last == first + b + last {
      assert |a| == |b|;
      assert (first + a + last)[|first|..|first| + |a|] == a && (first + b + last)[|first|..|first| + |b|] == b;
    }
  }

  // Accepted tracks that do not come back.

  /** A version 1 track, otherwise empty, whose title is these bytes. */
  function Titled(title: seq<Byte>): seq<Byte> {
    var empty := BigEndian(0, 2);
    var fields := BigEndian(|title|, 2) + title + (empty + (Int64(0) + (empty + (Bool(false) + empty))));
    Header(|fields| + POSITION_BYTES, 1) + (fields + Int64(0))
  }

  lemma ReadAnyUtf(bytes: seq<Byte>, rest: seq<Byte>, offset: nat)
    requires |bytes| < TWO_16 && Decode(bytes).Success?
    ensures
      Input(BigEndian(|bytes|, 2) + bytes + rest, offset).ReadUtf()
        == Parse(Success(Decode(bytes).value), Input(rest, offset + 2 + |bytes|))
  {
    hide Decode, FromBigEndian, BigEndian;
    assert BigEndian(|bytes|, 2) + bytes + rest == BigEndian(|bytes|, 2) + (bytes + rest);
    TakeBack(BigEndian(|bytes|, 2), bytes + rest, offset);
    TakeBack(bytes, rest, offset + 2);
    PowersOf256();
    BigEndianRoundTrip(|bytes|, 2);
  }

  lemma EmptyUtf()
    ensures Utf([]) == Success(BigEndian(0, 2))
  {
    assert BigEndian(0, 2) + [] == BigEndian(0, 2);
  }

  lemma TitledFieldsAreRead(title: seq<Byte>, rest: seq<Byte>)
    requires |title| < TWO_16 && Decode(title).Success?
    requires rest == BigEndian(0, 2) + (Int64(0) + (BigEndian(0, 2) + (Bool(false) + BigEndian(0, 2))))
    ensures
      ReadFields(Input(BigEndian(|title|, 2) + title + rest, 0), 1, 0)
        == Success(DecodedTrack(
                     TrackInfo([], true, [], 0, false, 0, Decode(title).value, None, [], None, None), Empty, 1))
  {
    hide Input.ReadUtf, Input.ReadI64, Input.ReadBool, Utf, Int64, Decode, BigEndian;
    EmptyUtf();
    var empty := BigEndian(0, 2);
    var o := 2 + |title|;
    ReadAnyUtf(title, rest, 0);
    ReadBackUtf([], Int64(0) + (empty + (Bool(false) + empty)), o);
    ReadBackInt64(0, empty + (Bool(false) + empty), o + 2);
    ReadBackUtf([], Bool(false) + empty, o + 10);
    ReadBackBool(false, empty, o + 12);
    assert empty + [] == empty;
    ReadBackUtf([], [], o + 13);
  }

  /** Such a track is accepted, with that title decoded. */
  lemma TitledIsAccepted(title: seq<Byte>)
    requires |title| < TWO_16 && Decode(title).Success?
    ensures
      Decoded(Titled(title))
        == Success(DecodedTrack(
                     TrackInfo([], true, [], 0, false, 0, Decode(title).value, None, [], None, None), Empty, 1))
  {
    hide Decode, ReadFields, ReadPayload, Int64, BigEndian, Input.ReadI32;
    var empty := BigEndian(0, 2);
    var rest := empty + (Int64(0) + (empty + (Bool(false) + empty)));
    var fields := BigEndian(|title|, 2) + title + rest;
    var payload := fields + Int64(0);
    TitledFieldsAreRead(title, rest);
    ReadBackHeader(|payload|, 1, payload);
    assert payload[..|payload|] == payload;
    UnversionedPayload(fields, DecodedTrack(
      TrackInfo([], true, [], 0, false, 0, Decode(title).value, None, [], None, None), Empty, 1));
  }

  lemma UnversionedPayload(fields: seq<Byte>, track: DecodedTrack)
    requires ReadFields(Input(fields, 0), 1, 0) == Success(track)
    ensures ReadPayload(fields + Int64(0), false) == Success(track)
  {
    ReadBackFrame(fields, 1, 0, track);
    assert VersionByte(1) + fields == fields;
  }

  /** It comes back byte for byte exactly when its title is in shortest form and its surrogates are paired. */
  lemma TitledSurvivesIff(title: seq<Byte>)
    requires |title| < TWO_16 && Decode(title).Success?
    ensures Decoded(Titled(title)).Success?
    ensures
      var track := Decoded(Titled(title)).value;
      Encoded(track.info, track.tail, track.version) == Success(Titled(title)) <==> KeptAsIs(title)
  {
    TitledIsAccepted(title);
    TitledEncodes(title);
    ComesBackIff(title);
  }

  lemma TitledEncodes(title: seq<Byte>)
    requires |title| < TWO_16 && Decode(title).Success?
    ensures
      var info := TrackInfo([], true, [], 0, false, 0, Decode(title).value, None, [], None, None);
      Encoded(info, Empty, 1) == Success(Titled(title)) <==> Encode(Decode(title).value) == title
  {
    hide Decode, Encode, Int64, BigEndian;
    var text, empty := Decode(title).value, BigEndian(0, 2);
    var info := TrackInfo([], true, [], 0, false, 0, text, None, [], None, None);
    EmptyUtf();
    if Encoded(info, Empty, 1) == Success(Titled(title)) {
      EncodingSucceedsIff(info, Empty, 1);
      EmptyHasNoBytes();
      assert |Encode(text)| == |title|;
    }
    if |Encode(text)| == |title| {
      TitledBody(info, text, title);
    }
  }

  lemma EmptyHasNoBytes()
    ensures Encode([]) == []
  {
  }

  lemma TitledBody(info: TrackInfo, text: Text, title: seq<Byte>)
    requires info == TrackInfo([], true, [], 0, false, 0, text, None, [], None, None)
    requires |Encode(text)| == |title| < TWO_16
    ensures Encoded(info, Empty, 1) == Success(Titled(Encode(text)))
    ensures Titled(Encode(text)) == Titled(title) <==> Encode(text) == title
  {
    hide Encode, Int64, BigEndian;
    var empty := BigEndian(0, 2);
    var rest := empty + (Int64(0) + (empty + (Bool(false) + empty)));
    EmptyUtf();
    Nest5(BigEndian(|title|, 2) + Encode(text), empty, Int64(0), empty, Bool(false), empty);
    var none: seq<Byte> := [];
    assert none + (none + none) == none;
    assert Links(LinksOf(info), 1) == Success([]);
    assert Source([], Empty) == Success(empty) by {
      assert empty + [] == empty;
    }
    var head := BigEndian(|title|, 2) + Encode(text) + rest;
    assert Head(HeadOf(info)) ==
      Success(BigEndian(|title|, 2) + Encode(text) + (empty + (Int64(0) + (empty + Bool(false)))));
    assert [] + (Head(HeadOf(info)).value + ([] + empty)) == head;
    assert Body(info, Empty, 1) == Success(head);
    var a := Header(|title| + 17 + POSITION_BYTES, 1) + BigEndian(|title|, 2);
    SameMiddle(a, title, Encode(text), rest + Int64(0));
    assert Titled(title) == a + title + (rest + Int64(0));
    assert Titled(Encode(text)) == a + Encode(text) + (rest + Int64(0));
  }

  /** Three titles that are accepted but not kept: an overlong form, a raw zero byte, half a surrogate pair. */
  lemma SomeAcceptedTitlesAreNotKept()
    ensures Decode([0xC1, 0xA1]) == Success([0x61]) && !KeptAsIs([0xC1, 0xA1])
    ensures Decode([0x00]) == Success([0]) && !KeptAsIs([0x00])
    ensures Decode([0xED, 0xA0, 0x80]) == Success([REPLACEMENT]) && !KeptAsIs([0xED, 0xA0, 0x80])
  {
    var overlong: seq<Byte>, half: seq<Byte>, none: seq<Unit> := [0xC1, 0xA1], [0xED, 0xA0, 0x80], [];
    var a: Unit, high: Unit := 0x61, 0xD800;
    assert overlong[0] == 0xC1 && !IsAscii(overlong) && UnitAt(overlong, 0) == Success((a, 2));
    DecodeOneMore(overlong, 0, a, 2, none);
    assert [a] + none == [a];
    PlainUnitsAreTheirText([a]);
    assert half[0] == 0xED && !IsAscii(half) && UnitAt(half, 0) == Success((high, 3));
    DecodeOneMore(half, 0, high, 3, none);
    assert [high] + none == [high];
    assert [high][1..] == none && DecodeUtf16Lossy(none) == [];
    assert DecodeUtf16Lossy([high]) == [REPLACEMENT] + DecodeUtf16Lossy(none) == [REPLACEMENT];
    assert DecodeGeneral(half) == Success([REPLACEMENT]);
    assert !Paired([high]);
  }
}
