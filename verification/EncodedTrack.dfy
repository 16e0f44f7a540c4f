/**
  The encodedTrack format (`encoded_track.rs`), from its bytes on: a header patched in once the
  payload is written, versioned fields, a source-specific tail of unstated length, and the
  position in the last eight bytes.
 */
module EncodedTrack {
  import opened JavaIo
  import opened ModifiedUtf8
  import opened Octets
  import opened Options

  const TRACK_INFO_VERSION: nat := 3
  const VERSION_WITH_URI: nat := 2
  const VERSION_WITH_ARTWORK_AND_ISRC: nat := 3
  const SIZE_LIMIT: nat := 0x4000_0000
  const HEADER_BYTES: nat := 4
  const POSITION_BYTES: nat := 8

  // "http" and "local"
  const HTTP: Text := [104, 116, 116, 112]
  const LOCAL: Text := [108, 111, 99, 97, 108]

  datatype TrackInfo = TrackInfo(
    identifier: Text,
    isSeekable: bool,
    author: Text,
    length: I64,
    isStream: bool,
    position: I64,
    title: Text,
    uri: Option<Text>,
    sourceName: Text,
    artworkUrl: Option<Text>,
    isrc: Option<Text>)

  datatype SourceTail = Empty | Probe(name: Text) | Raw(bytes: seq<Byte>)

  datatype DecodedTrack = DecodedTrack(info: TrackInfo, tail: SourceTail, version: Byte)

  datatype CodecError =
    | Io(error: JavaIoError)
    | UnsupportedVersion(version: Byte)
    | SizeMismatch(declared: nat, actual: nat)
    | MissingPosition
    | Invalid(payload: nat)

  predicate IsProbing(sourceName: Text) {
    sourceName == HTTP || sourceName == LOCAL
  }

  predicate Supported(version: Byte) {
    1 <= version <= TRACK_INFO_VERSION
  }

  function Lift<T>(r: Result<T, JavaIoError>): Result<T, CodecError> {
    match r
    case Success(value) => Success(value)
    case Failure(error) => Failure(Io(error))
  }

  // The layout, as bytes.

  datatype HeadFields = HeadFields(title: Text, author: Text, length: I64, identifier: Text, isStream: bool)

  datatype LinkFields = LinkFields(uri: Option<Text>, artworkUrl: Option<Text>, isrc: Option<Text>)

  function HeadOf(info: TrackInfo): HeadFields {
    HeadFields(info.title, info.author, info.length, info.identifier, info.isStream)
  }

  function LinksOf(info: TrackInfo): LinkFields {
    LinkFields(info.uri, info.artworkUrl, info.isrc)
  }

  function Head(f: HeadFields): Result<seq<Byte>, JavaIoError> {
    var title :- Utf(f.title);
    var author :- Utf(f.author);
    var identifier :- Utf(f.identifier);
    Success(title + (author + (Int64(f.length) + (identifier + Bool(f.isStream)))))
  }

  function Links(f: LinkFields, version: Byte): Result<seq<Byte>, JavaIoError> {
    var uri :- if version >= VERSION_WITH_URI then NullableUtf(f.uri) else Success([]);
    var artworkUrl :- if version >= VERSION_WITH_ARTWORK_AND_ISRC then NullableUtf(f.artworkUrl) else Success([]);
    var isrc :- if version >= VERSION_WITH_ARTWORK_AND_ISRC then NullableUtf(f.isrc) else Success([]);
    Success(uri + (artworkUrl + isrc))
  }

  function Source(sourceName: Text, tail: SourceTail): Result<seq<Byte>, JavaIoError> {
    var name :- Utf(sourceName);
    var rest :- match tail
                case Empty => Success([])
                case Probe(probe) => Utf(probe)
                case Raw(raw) => Success(raw);
    Success(name + rest)
  }

  function VersionByte(version: Byte): seq<Byte> {
    if version > 1 then [version] else []
  }

  /** Everything between the header and the position. */
  function Body(info: TrackInfo, tail: SourceTail, version: Byte): Result<seq<Byte>, JavaIoError> {
    var head :- Head(HeadOf(info));
    var links :- Links(LinksOf(info), version);
    var source :- Source(info.sourceName, tail);
    Success(VersionByte(version) + (head + (links + source)))
  }

  function Header(size: nat, version: Byte): seq<Byte> {
    BigEndian(size + (if version > 1 then SIZE_LIMIT else 0), HEADER_BYTES)
  }

  function Encoded(info: TrackInfo, tail: SourceTail, version: Byte): Result<seq<Byte>, CodecError> {
    if !Supported(version) then Failure(UnsupportedVersion(version))
    else
      var body :- Lift(Body(info, tail, version));
      var payload := body + Int64(info.position);
      if |payload| >= SIZE_LIMIT then Failure(Invalid(|payload|))
      else Success(Header(|payload|, version) + payload)
  }

  // Reading it back.

  function Then<T>(p: Parse<T>): Result<(T, Input), JavaIoError> {
    match p.result
    case Success(value) => Success((value, p.next))
    case Failure(error) => Failure(error)
  }

  function ReadHead(input: Input): Result<(HeadFields, Input), JavaIoError> {
    var title :- Then(input.ReadUtf());
    var author :- Then(title.1.ReadUtf());
    var length :- Then(author.1.ReadI64());
    var identifier :- Then(length.1.ReadUtf());
    var isStream :- Then(identifier.1.ReadBool());
    Success((HeadFields(title.0, author.0, length.0, identifier.0, isStream.0), isStream.1))
  }

  function ReadLinks(input: Input, version: Byte): Result<(LinkFields, Input), JavaIoError> {
    var uri :- if version >= VERSION_WITH_URI then Then(input.ReadNullableUtf()) else Success((None, input));
    var artworkUrl :-
      if version >= VERSION_WITH_ARTWORK_AND_ISRC then Then(uri.1.ReadNullableUtf()) else Success((None, uri.1));
    var isrc :-
      if version >= VERSION_WITH_ARTWORK_AND_ISRC then Then(artworkUrl.1.ReadNullableUtf())
      else Success((None, artworkUrl.1));
    Success((LinkFields(uri.0, artworkUrl.0, isrc.0), isrc.1))
  }

  function ReadSource(input: Input): Result<(Text, SourceTail), JavaIoError> {
    var name :- Then(input.ReadUtf());
    if IsProbing(name.0) then
      var probe :- Then(name.1.ReadUtf());
      Success((name.0, Probe(probe.0)))
    else if name.1.rest == [] then Success((name.0, Empty))
    else Success((name.0, Raw(name.1.rest)))
  }

  function ReadFields(input: Input, version: Byte, position: I64): Result<DecodedTrack, JavaIoError> {
    var head :- ReadHead(input);
    var links :- ReadLinks(head.1, version);
    var source :- ReadSource(links.1);
    var info := TrackInfo(
      head.0.identifier, !head.0.isStream, head.0.author, head.0.length, head.0.isStream, position,
      head.0.title, links.0.uri, source.0, links.0.artworkUrl, links.0.isrc);
    Success(DecodedTrack(info, source.1, version))
  }

  /** The payload without its header; `versioned` is the flag that a version byte leads it. */
  function ReadPayload(payload: seq<Byte>, versioned: bool): Result<DecodedTrack, CodecError> {
    if |payload| < POSITION_BYTES then Failure(MissingPosition)
    else
      var split := |payload| - POSITION_BYTES;
      var position := Signed64(EightBytes(payload[split..]));
      var input := Input(payload[..split], 0);
      var version :- if versioned then Lift(Then(input.ReadU8())) else Success((1, input));
      if !Supported(version.0) then Failure(UnsupportedVersion(version.0))
      else Lift(ReadFields(version.1, version.0, position))
  }

  function Decoded(bytes: seq<Byte>): Result<DecodedTrack, CodecError> {
    var header :- Lift(Then(Input(bytes, 0).ReadI32()));
    var bits := Bits32(header.0);
    var size, flags := bits % SIZE_LIMIT, bits / SIZE_LIMIT;
    var payload := header.1.rest;
    if |payload| < size then Failure(SizeMismatch(size, |payload|))
    else ReadPayload(payload[..size], flags % 2 == 1)
  }

  // Reading undoes writing, field group by field group.

  lemma ReadBackHead(f: HeadFields, rest: seq<Byte>, offset: nat)
    requires Head(f).Success?
    ensures
      var head := Head(f).value;
      ReadHead(Input(head + rest, offset)) == Success((f, Input(rest, offset + |head|)))
  {
    hide Input.ReadUtf, Input.ReadI64, Input.ReadBool, Utf, Int64;
    var title, author, identifier := Utf(f.title).value, Utf(f.author).value, Utf(f.identifier).value;
    var length, isStream := Int64(f.length), Bool(f.isStream);
    var after4 := isStream + rest;
    var after3 := identifier + after4;
    var after2 := length + after3;
    var after1 := author + after2;
    assert Head(f).value + rest == title + after1;
    ReadBackUtf(f.title, after1, offset);
    ReadBackUtf(f.author, after2, offset + |title|);
    ReadBackInt64(f.length, after3, offset + |title| + |author|);
    ReadBackUtf(f.identifier, after4, offset + |title| + |author| + 8);
    ReadBackBool(f.isStream, rest, offset + |title| + |author| + 8 + |identifier|);
  }

  ghost predicate FieldsFitVersion(f: LinkFields, version: Byte) {
    && (version < VERSION_WITH_URI ==> f.uri.None?)
    && (version < VERSION_WITH_ARTWORK_AND_ISRC ==> f.artworkUrl.None? && f.isrc.None?)
  }

  lemma ReadBackLinks(f: LinkFields, version: Byte, rest: seq<Byte>, offset: nat)
    requires Links(f, version).Success? && FieldsFitVersion(f, version)
    ensures
      var links := Links(f, version).value;
      ReadLinks(Input(links + rest, offset), version)
        == Success((f, Input(rest, offset + |links|)))
  {
    hide Input.ReadNullableUtf, NullableUtf;
    var links := Links(f, version).value;
    if version >= VERSION_WITH_ARTWORK_AND_ISRC {
      var uri, artworkUrl, isrc := NullableUtf(f.uri).value, NullableUtf(f.artworkUrl).value, NullableUtf(f.isrc).value;
      var after2 := isrc + rest;
      var after1 := artworkUrl + after2;
      assert links + rest == uri + after1;
      ReadBackNullableUtf(f.uri, after1, offset);
      ReadBackNullableUtf(f.artworkUrl, after2, offset + |uri|);
      ReadBackNullableUtf(f.isrc, rest, offset + |uri| + |artworkUrl|);
    } else if version >= VERSION_WITH_URI {
      assert links == NullableUtf(f.uri).value;
      ReadBackNullableUtf(f.uri, rest, offset);
    } else {
      assert links + rest == rest;
    }
  }

  ghost predicate TailFitsSource(sourceName: Text, tail: SourceTail) {
    if IsProbing(sourceName) then tail.Probe? else tail.Empty? || (tail.Raw? && tail.bytes != [])
  }

  lemma ReadBackSource(sourceName: Text, tail: SourceTail, offset: nat)
    requires Source(sourceName, tail).Success? && TailFitsSource(sourceName, tail)
    ensures ReadSource(Input(Source(sourceName, tail).value, offset)) == Success((sourceName, tail))
  {
    hide Input.ReadUtf, Utf;
    var name := Utf(sourceName).value;
    match tail
    case Empty =>
      assert name + [] == name;
      ReadBackUtf(sourceName, [], offset);
    case Raw(raw) => ReadBackUtf(sourceName, raw, offset);
    case Probe(probe) =>
      ReadBackUtf(sourceName, Utf(probe).value, offset);
      assert Utf(probe).value + [] == Utf(probe).value;
      ReadBackUtf(probe, [], offset + |name|);
  }

  /** A track that the format can hold: what a version lacks is absent, and the tail is its source's. */
  ghost predicate Representable(track: DecodedTrack) {
    && Supported(track.version)
    && track.info.isSeekable == !track.info.isStream
    && FieldsFitVersion(LinksOf(track.info), track.version)
    && TailFitsSource(track.info.sourceName, track.tail)
  }

  lemma ReadBackFields(track: DecodedTrack, offset: nat)
    requires Representable(track) && Body(track.info, track.tail, track.version).Success?
    ensures
      var head, links := Head(HeadOf(track.info)), Links(LinksOf(track.info), track.version);
      var source := Source(track.info.sourceName, track.tail);
      && head.Success? && links.Success? && source.Success?
      && ReadFields(Input(head.value + (links.value + source.value), offset), track.version, track.info.position)
           == Success(track)
  {
    hide Head, Links, Source, ReadHead, ReadLinks, ReadSource, TailFitsSource;
    var info, version := track.info, track.version;
    var head, links, source := Head(HeadOf(info)).value,
      Links(LinksOf(info), version).value, Source(info.sourceName, track.tail).value;
    ReadBackHead(HeadOf(info), links + source, offset);
    ReadBackLinks(LinksOf(info), version, source, offset + |head|);
    ReadBackSource(info.sourceName, track.tail, offset + |head| + |links|);
  }

  lemma PositionComesBack(position: I64)
    ensures Signed64(EightBytes(Int64(position))) == position
  {
    PowersOf256();
    BigEndianRoundTrip(Bits64(position), 8);
  }

  /** The version and the position frame the fields. */
  lemma ReadBackFrame(fields: seq<Byte>, version: Byte, position: I64, track: DecodedTrack)
    requires Supported(version)
    requires ReadFields(Input(fields, |VersionByte(version)|), version, position) == Success(track)
    ensures ReadPayload(VersionByte(version) + fields + Int64(position), version > 1) == Success(track)
  {
    PositionComesBack(position);
    hide ReadFields, Int64, EightBytes, Signed64;
    var body := VersionByte(version) + fields;
    var payload := body + Int64(position);
    assert payload[..|body|] == body && payload[|body|..] == Int64(position);
    if version > 1 {
      TakeBack([version], fields, 0);
    } else {
      assert body == fields;
    }
  }

  lemma ReadBackPayload(track: DecodedTrack)
    requires Representable(track) && Body(track.info, track.tail, track.version).Success?
    ensures
      var payload := Body(track.info, track.tail, track.version).value + Int64(track.info.position);
      ReadPayload(payload, track.version > 1) == Success(track)
  {
    assert Supported(track.version);
    hide Head, Links, Source, ReadFields, ReadPayload, Representable, Int64;
    var info, version := track.info, track.version;
    ReadBackFields(track, |VersionByte(version)|);
    var fields := Head(HeadOf(info)).value +
      (Links(LinksOf(info), version).value + Source(info.sourceName, track.tail).value);
    assert Body(info, track.tail, version).value == VersionByte(version) + fields;
    ReadBackFrame(fields, version, info.position, track);
  }

  /** The header gives back the size and the flag, and leaves the rest to be read. */
  lemma ReadBackHeader(size: nat, version: Byte, rest: seq<Byte>)
    requires size < SIZE_LIMIT
    ensures
      var header := Input(Header(size, version) + rest, 0).ReadI32();
      && header.result.Success? && header.next.rest == rest
      && Bits32(header.result.value) % SIZE_LIMIT == size
      && Bits32(header.result.value) / SIZE_LIMIT == if version > 1 then 1 else 0
  {
    TakeBack(Header(size, version), rest, 0);
    PowersOf256();
    BigEndianRoundTrip(size + (if version > 1 then SIZE_LIMIT else 0), HEADER_BYTES);
  }

  lemma EncodedShape(info: TrackInfo, tail: SourceTail, version: Byte)
    requires Encoded(info, tail, version).Success?
    ensures
      && Supported(version) && Body(info, tail, version).Success?
      && var payload := Body(info, tail, version).value + Int64(info.position);
         |payload| < SIZE_LIMIT && Encoded(info, tail, version).value == Header(|payload|, version) + payload
  {
  }

  lemma RoundTripOfRepresentable(track: DecodedTrack, trailing: seq<Byte>)
    requires Encoded(track.info, track.tail, track.version).Success? && Representable(track)
    ensures Decoded(Encoded(track.info, track.tail, track.version).value + trailing) == Success(track)
  {
    hide Body, Header, ReadPayload, Representable, Input.ReadI32;
    EncodedShape(track.info, track.tail, track.version);
    var payload := Body(track.info, track.tail, track.version).value + Int64(track.info.position);
    assert Encoded(track.info, track.tail, track.version).value + trailing
        == Header(|payload|, track.version) + (payload + trailing);
    ReadBackHeader(|payload|, track.version, payload + trailing);
    assert (payload + trailing)[..|payload|] == payload;
    ReadBackPayload(track);
  }

  /** Whatever is accepted is representable. */
  lemma DecodedIsRepresentable(bytes: seq<Byte>)
    requires Decoded(bytes).Success?
    ensures Representable(Decoded(bytes).value)
  {
    hide Input.ReadI32, Input.ReadUtf, Input.ReadNullableUtf, ReadHead, Input.ReadU8;
  }

  /**
    A successful encode, with anything after it, decodes to the same track exactly when the track
    is one that the format can hold.
   */
  lemma RoundTripIff(track: DecodedTrack, trailing: seq<Byte>)
    requires Encoded(track.info, track.tail, track.version).Success?
    ensures
      Decoded(Encoded(track.info, track.tail, track.version).value + trailing) == Success(track)
      <==> Representable(track)
  {
    var bytes := Encoded(track.info, track.tail, track.version).value + trailing;
    if Representable(track) {
      RoundTripOfRepresentable(track, trailing);
    }
    if Decoded(bytes) == Success(track) {
      DecodedIsRepresentable(bytes);
    }
  }

  /** Decoding, re-encoding and decoding again gives the track of the first decoding. */
  lemma ReencodingKeepsTheTrack(bytes: seq<Byte>)
    requires Decoded(bytes).Success?
    requires
      var track := Decoded(bytes).value;
      Encoded(track.info, track.tail, track.version).Success?
    ensures
      var track := Decoded(bytes).value;
      Decoded(Encoded(track.info, track.tail, track.version).value) == Success(track)
  {
    var track := Decoded(bytes).value;
    DecodedIsRepresentable(bytes);
    RoundTripOfRepresentable(track, []);
    var again := Encoded(track.info, track.tail, track.version).value;
    assert again + [] == again;
  }

  /** What this codec wrote of a representable track re-encodes byte for byte. */
  lemma OwnOutputSurvivesByteForByte(track: DecodedTrack)
    requires Encoded(track.info, track.tail, track.version).Success? && Representable(track)
    ensures
      var bytes := Encoded(track.info, track.tail, track.version).value;
      && Decoded(bytes).Success?
      && var again := Decoded(bytes).value;
         Encoded(again.info, again.tail, again.version) == Success(bytes)
  {
    RoundTripOfRepresentable(track, []);
    var bytes := Encoded(track.info, track.tail, track.version).value;
    assert bytes + [] == bytes;
  }

  /** Bytes past the declared size change nothing. */
  lemma TrailingBytesAreIgnored(bytes: seq<Byte>, trailing: seq<Byte>)
    requires Decoded(bytes).Success?
    ensures Decoded(bytes + trailing) == Decoded(bytes)
  {
    hide ReadPayload;
    var header := bytes[..HEADER_BYTES];
    var payload := bytes[HEADER_BYTES..];
    assert bytes + trailing == header + (payload + trailing) && bytes == header + payload;
    TakeBack(header, payload, 0);
    TakeBack(header, payload + trailing, 0);
    var size := Bits32(Signed32(FourBytes(header))) % SIZE_LIMIT;
    assert (payload + trailing)[..size] == payload[..size];
  }

  /** A truncated track is always refused, and the error names how much is missing. */
  lemma TruncationIsDetected(info: TrackInfo, tail: SourceTail, version: Byte, kept: nat)
    requires Encoded(info, tail, version).Success? && kept < |Encoded(info, tail, version).value|
    ensures
      var bytes := Encoded(info, tail, version).value;
      Decoded(bytes[..kept])
        == if kept < HEADER_BYTES then Failure(Io(Eof(0, HEADER_BYTES, kept)))
           else Failure(SizeMismatch(|bytes| - HEADER_BYTES, kept - HEADER_BYTES))
  {
    hide Body, Int64, BigEndian, ReadPayload;
    EncodedShape(info, tail, version);
    if kept >= HEADER_BYTES {
      var payload := Body(info, tail, version).value + Int64(info.position);
      var cut := payload[..kept - HEADER_BYTES];
      assert Encoded(info, tail, version).value[..kept] == Header(|payload|, version) + cut;
      ReadBackHeader(|payload|, version, cut);
    }
  }

  // When encoding succeeds.

  function UtfSize(text: Text): nat {
    2 + |Encode(text)|
  }

  function NullableSize(text: Option<Text>): nat {
    1 + if text.Some? then UtfSize(text.value) else 0
  }

  /** The bytes a track takes after its header. */
  function PayloadSize(info: TrackInfo, tail: SourceTail, version: Byte): nat {
    (if version > 1 then 1 else 0)
    + UtfSize(info.title) + UtfSize(info.author) + 8 + UtfSize(info.identifier) + 1
    + (if version >= VERSION_WITH_URI then NullableSize(info.uri) else 0)
    + (if version >= VERSION_WITH_ARTWORK_AND_ISRC then NullableSize(info.artworkUrl) + NullableSize(info.isrc) else 0)
    + UtfSize(info.sourceName)
    + (match tail case Empty => 0 case Probe(name) => UtfSize(name) case Raw(raw) => |raw|)
    + 8
  }

  predicate Fits(text: Text) {
    |Encode(text)| < TWO_16
  }

  predicate StringsFit(info: TrackInfo, tail: SourceTail, version: Byte) {
    && Fits(info.title) && Fits(info.author) && Fits(info.identifier) && Fits(info.sourceName)
    && (version >= VERSION_WITH_URI && info.uri.Some? ==> Fits(info.uri.value))
    && (version >= VERSION_WITH_ARTWORK_AND_ISRC && info.artworkUrl.Some? ==> Fits(info.artworkUrl.value))
    && (version >= VERSION_WITH_ARTWORK_AND_ISRC && info.isrc.Some? ==> Fits(info.isrc.value))
    && (tail.Probe? ==> Fits(tail.name))
  }

  lemma UtfFits(text: Text)
    ensures Utf(text).Success? <==> Fits(text)
    ensures Utf(text).Success? ==> |Utf(text).value| == UtfSize(text)
  {
  }

  lemma NullableFits(text: Option<Text>)
    ensures NullableUtf(text).Success? <==> (text.Some? ==> Fits(text.value))
    ensures NullableUtf(text).Success? ==> |NullableUtf(text).value| == NullableSize(text)
  {
  }

  lemma HeadSize(f: HeadFields)
    ensures Head(f).Success? <==> Fits(f.title) && Fits(f.author) && Fits(f.identifier)
    ensures Head(f).Success? ==> |Head(f).value| == UtfSize(f.title) + UtfSize(f.author) + 8 + UtfSize(f.identifier) + 1
  {
    hide Utf, Int64, Fits, UtfSize;
    UtfFits(f.title);
    UtfFits(f.author);
    UtfFits(f.identifier);
  }

  lemma LinksSize(f: LinkFields, version: Byte)
    ensures Links(f, version).Success? <==>
      && (version >= VERSION_WITH_URI && f.uri.Some? ==> Fits(f.uri.value))
      && (version >= VERSION_WITH_ARTWORK_AND_ISRC && f.artworkUrl.Some? ==> Fits(f.artworkUrl.value))
      && (version >= VERSION_WITH_ARTWORK_AND_ISRC && f.isrc.Some? ==> Fits(f.isrc.value))
    ensures Links(f, version).Success? ==>
      var uriSize := if version >= VERSION_WITH_URI then NullableSize(f.uri) else 0;
      var otherSize :=
        if version >= VERSION_WITH_ARTWORK_AND_ISRC then NullableSize(f.artworkUrl) + NullableSize(f.isrc) else 0;
      |Links(f, version).value| == uriSize + otherSize
  {
    hide NullableUtf, Fits, NullableSize;
    NullableFits(f.uri);
    NullableFits(f.artworkUrl);
    NullableFits(f.isrc);
  }

  lemma BodySize(info: TrackInfo, tail: SourceTail, version: Byte)
    ensures Body(info, tail, version).Success? <==> StringsFit(info, tail, version)
    ensures Body(info, tail, version).Success? ==>
      |Body(info, tail, version).value| + 8 == PayloadSize(info, tail, version)
  {
    hide Utf, Head, Links, Fits, UtfSize, NullableSize;
    HeadSize(HeadOf(info));
    LinksSize(LinksOf(info), version);
    UtfFits(info.sourceName);
    if tail.Probe? {
      UtfFits(tail.name);
    }
  }

  /** A track encodes exactly when its version is known, each string fits 65535 bytes and all of it the header. */
  lemma EncodingSucceedsIff(info: TrackInfo, tail: SourceTail, version: Byte)
    ensures Encoded(info, tail, version).Success?
       <==> Supported(version) && StringsFit(info, tail, version) && PayloadSize(info, tail, version) < SIZE_LIMIT
    ensures Encoded(info, tail, version).Success? ==>
      |Encoded(info, tail, version).value| == HEADER_BYTES + PayloadSize(info, tail, version)
  {
    hide Body, StringsFit, PayloadSize;
    BodySize(info, tail, version);
  }

  /** The smallest track there is: every string empty, no source tail. */
  lemma EmptyTrackEncodes(version: Byte)
    requires Supported(version)
    ensures
      var info := TrackInfo([], true, [], 0, false, 0, [], None, [], None, None);
      Representable(DecodedTrack(info, Empty, version)) && Encoded(info, Empty, version).Success?
  {
    EncodingSucceedsIff(TrackInfo([], true, [], 0, false, 0, [], None, [], None, None), Empty, version);
  }

  // The imperative codec.

  method WriteHead(body: DataOutput, info: TrackInfo) returns (r: Result<(), JavaIoError>)
    modifies body
    ensures
      match Head(HeadOf(info))
      case Success(head) => r == Success(()) && body.bytes == old(body.bytes) + head
      case Failure(error) => r == Failure(error)
  {
    hide Utf, Int64;
    var _ :- body.WriteUtf(info.title);
    var _ :- body.WriteUtf(info.author);
    body.WriteI64(info.length);
    var _ :- body.WriteUtf(info.identifier);
    body.WriteBool(info.isStream);
    return Success(());
  }

  method WriteLinks(body: DataOutput, info: TrackInfo, version: Byte) returns (r: Result<(), JavaIoError>)
    modifies body
    ensures
      match Links(LinksOf(info), version)
      case Success(links) => r == Success(()) && body.bytes == old(body.bytes) + links
      case Failure(error) => r == Failure(error)
  {
    hide NullableUtf;
    if version >= VERSION_WITH_URI {
      var _ :- body.WriteNullableUtf(info.uri);
    }
    if version >= VERSION_WITH_ARTWORK_AND_ISRC {
      var _ :- body.WriteNullableUtf(info.artworkUrl);
      var _ :- body.WriteNullableUtf(info.isrc);
    }
    return Success(());
  }

  method WriteSource(body: DataOutput, sourceName: Text, tail: SourceTail) returns (r: Result<(), JavaIoError>)
    modifies body
    ensures
      match Source(sourceName, tail)
      case Success(source) => r == Success(()) && body.bytes == old(body.bytes) + source
      case Failure(error) => r == Failure(error)
  {
    hide Utf;
    var _ :- body.WriteUtf(sourceName);
    match tail {
      case Empty =>
      case Probe(probe) => var _ :- body.WriteUtf(probe);
      case Raw(raw) => body.WriteRaw(raw);
    }
    return Success(());
  }

  lemma Regroup(header: seq<Byte>, version: seq<Byte>, head: seq<Byte>, links: seq<Byte>,
                source: seq<Byte>, position: seq<Byte>)
    ensures header + version + head + links + source + position
         == header + (version + (head + (links + source)) + position)
  {
  }

  method WritePayload(body: DataOutput, info: TrackInfo, tail: SourceTail, version: Byte)
    returns (r: Result<(), JavaIoError>)
    modifies body
    ensures
      match Body(info, tail, version)
      case Success(written) => r == Success(()) && body.bytes == old(body.bytes) + (written + Int64(info.position))
      case Failure(error) => r == Failure(error)
  {
    hide Head, Links, Source, Int64;
    if version > 1 {
      body.WriteU8(version);
    }
    assert body.bytes == old(body.bytes) + VersionByte(version);
    var _ :- WriteHead(body, info);
    var _ :- WriteLinks(body, info, version);
    var _ :- WriteSource(body, info.sourceName, tail);
    body.WriteI64(info.position);
    Regroup(old(body.bytes), VersionByte(version), Head(HeadOf(info)).value, Links(LinksOf(info), version).value,
            Source(info.sourceName, tail).value, Int64(info.position));
    return Success(());
  }

  method EncodeTrack(info: TrackInfo, tail: SourceTail, version: Byte) returns (r: Result<seq<Byte>, CodecError>)
    ensures r == Encoded(info, tail, version)
  {
    hide Body, Int64, BigEndian;
    if version == 0 || version > TRACK_INFO_VERSION {
      return Failure(UnsupportedVersion(version));
    }
    var body := new DataOutput();
    body.WriteI32(0);
    var written := WritePayload(body, info, tail, version);
    var _ :- Lift(written);

    var out := body.bytes;
    var payload := |out| - HEADER_BYTES;
    assert out[HEADER_BYTES..] == Body(info, tail, version).value + Int64(info.position);
    if payload >= SIZE_LIMIT {
      return Failure(Invalid(payload));
    }
    var flags := if version > 1 then SIZE_LIMIT else 0;
    return Success(BigEndian(payload + flags, HEADER_BYTES) + out[HEADER_BYTES..]);
  }

  method DecodeTrack(bytes: seq<Byte>) returns (r: Result<DecodedTrack, CodecError>)
    ensures r == Decoded(bytes)
  {
    hide ReadFields, Input.ReadI32, Input.ReadU8;
    var outer := new DataInput(bytes);
    var word := outer.ReadI32();
    var header :- Lift(word);
    var size, flags := Bits32(header) % SIZE_LIMIT, Bits32(header) / SIZE_LIMIT;
    var payload := bytes[outer.offset..];
    if |payload| < size {
      return Failure(SizeMismatch(size, |payload|));
    }
    payload := payload[..size];
    if |payload| < POSITION_BYTES {
      return Failure(MissingPosition);
    }
    var split := |payload| - POSITION_BYTES;
    var position := Signed64(EightBytes(payload[split..]));

    var input := new DataInput(payload[..split]);
    var version: Byte := 1;
    if flags % 2 == 1 {
      var read := input.ReadU8();
      version :- Lift(read);
    }
    if version == 0 || version > TRACK_INFO_VERSION {
      return Failure(UnsupportedVersion(version));
    }
    var fields := DecodeFields(input, version, position);
    r := Lift(fields);
  }

  method DecodeFields(input: DataInput, version: Byte, position: I64) returns (r: Result<DecodedTrack, JavaIoError>)
    requires input.Valid()
    modifies input
    ensures r == ReadFields(old(input.AsInput()), version, position)
  {
    hide Input.ReadUtf, Input.ReadI64, Input.ReadBool, Input.ReadNullableUtf;
    var title :- input.ReadUtf();
    var author :- input.ReadUtf();
    var length :- input.ReadI64();
    var identifier :- input.ReadUtf();
    var isStream :- input.ReadBool();
    var uri: Option<Text> := None;
    if version >= VERSION_WITH_URI {
      uri :- input.ReadNullableUtf();
    }
    var artworkUrl: Option<Text>, isrc: Option<Text> := None, None;
    if version >= VERSION_WITH_ARTWORK_AND_ISRC {
      artworkUrl :- input.ReadNullableUtf();
      isrc :- input.ReadNullableUtf();
    }
    var sourceName :- input.ReadUtf();
    var tail;
    if IsProbing(sourceName) {
      var probe :- input.ReadUtf();
      tail := Probe(probe);
    } else {
      var rest := input.bytes[input.offset..];
      tail := if rest == [] then Empty else Raw(rest);
    }
    var info := TrackInfo(
      identifier, !isStream, author, length, isStream, position, title, uri, sourceName, artworkUrl, isrc);
    return Success(DecodedTrack(info, tail, version));
  }
}
