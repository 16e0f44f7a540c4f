/**
  Java's `DataInput` and `DataOutput` (`java_io.rs`): big-endian integers and length-prefixed
  modified UTF-8, read by a cursor over fixed bytes and written into a growing buffer. `Input`
  is what is left to read; the two classes are proved against its functions.
 */
module JavaIo {
  import opened Octets
  import opened Options
  import opened ModifiedUtf8

  const TWO_16: nat := 0x1_0000
  const TWO_32: nat := 0x1_0000_0000
  const TWO_64: nat := 0x1_0000_0000_0000_0000

  type I32 = x: int | -0x8000_0000 <= x < 0x8000_0000
  type I64 = x: int | -0x8000_0000_0000_0000 <= x < 0x8000_0000_0000_0000

  datatype JavaIoError =
    | Eof(offset: nat, wanted: nat, available: nat)
    | MalformedUtf8(offset: nat)
    | StringTooLong(len: nat)

  // Big-endian integers.

  function Pow256(n: nat): nat {
    if n == 0 then 1 else 0x100 * Pow256(n - 1)
  }

  function BigEndian(value: nat, width: nat): (r: seq<Byte>)
    ensures |r| == width
  {
    if width == 0 then [] else BigEndian(value / 0x100, width - 1) + [value % 0x100]
  }

  function FromBigEndian(bytes: seq<Byte>): nat {
    if bytes == [] then 0 else FromBigEndian(bytes[..|bytes| - 1]) * 0x100 + bytes[|bytes| - 1]
  }

  lemma {:induction false} BigEndianRoundTrip(value: nat, width: nat)
    requires value < Pow256(width)
    ensures FromBigEndian(BigEndian(value, width)) == value
  {
    if width > 0 {
      BigEndianRoundTrip(value / 0x100, width - 1);
      var bytes := BigEndian(value, width);
      assert bytes[..width - 1] == BigEndian(value / 0x100, width - 1);
    }
  }

  lemma PowersOf256()
    ensures Pow256(1) == 0x100 && Pow256(2) == TWO_16 && Pow256(4) == TWO_32 && Pow256(8) == TWO_64
  {
    assert Pow256(1) == 0x100 * Pow256(0) && Pow256(2) == 0x100 * Pow256(1);
    assert Pow256(3) == 0x100 * Pow256(2) && Pow256(4) == 0x100 * Pow256(3);
    assert Pow256(5) == 0x100 * Pow256(4) && Pow256(6) == 0x100 * Pow256(5);
    assert Pow256(7) == 0x100 * Pow256(6) && Pow256(8) == 0x100 * Pow256(7);
  }

  function Bits32(x: I32): nat {
    if x < 0 then x + TWO_32 else x
  }

  function Bits64(x: I64): nat {
    if x < 0 then x + TWO_64 else x
  }

  function Signed32(bits: nat): I32
    requires bits < TWO_32
  {
    if bits < TWO_32 / 2 then bits else bits - TWO_32
  }

  function Signed64(bits: nat): I64
    requires bits < TWO_64
  {
    if bits < TWO_64 / 2 then bits else bits - TWO_64
  }

  lemma {:induction false} FromBigEndianBound(bytes: seq<Byte>)
    ensures FromBigEndian(bytes) < Pow256(|bytes|)
  {
    if bytes != [] {
      FromBigEndianBound(bytes[..|bytes| - 1]);
    }
  }

  function FourBytes(bytes: seq<Byte>): nat
    requires |bytes| == 4
    ensures FourBytes(bytes) < TWO_32
  {
    FromBigEndianBound(bytes);
    PowersOf256();
    FromBigEndian(bytes)
  }

  function EightBytes(bytes: seq<Byte>): nat
    requires |bytes| == 8
    ensures EightBytes(bytes) < TWO_64
  {
    FromBigEndianBound(bytes);
    PowersOf256();
    FromBigEndian(bytes)
  }

  // Reading.

  /** The outcome of a read, and what is left afterwards, on failure too. */
  datatype Parse<+T> = Parse(result: Result<T, JavaIoError>, next: Input)

  datatype Input = Input(rest: seq<Byte>, offset: nat)
  {
    function Take(n: nat): (p: Parse<seq<Byte>>)
      ensures p.result.Success? ==> |p.result.value| == n
    {
      if |rest| < n then Parse(Failure(Eof(offset, n, |rest|)), this)
      else Parse(Success(rest[..n]), Input(rest[n..], offset + n))
    }

    function ReadU8(): Parse<Byte> {
      var p := Take(1);
      if p.result.Failure? then Parse(Failure(p.result.error), p.next) else Parse(Success(p.result.value[0]), p.next)
    }

    function ReadBool(): Parse<bool> {
      var p := ReadU8();
      if p.result.Failure? then Parse(Failure(p.result.error), p.next) else Parse(Success(p.result.value != 0), p.next)
    }

    function ReadU16(): Parse<nat> {
      var p := Take(2);
      if p.result.Failure? then Parse(Failure(p.result.error), p.next)
      else Parse(Success(FromBigEndian(p.result.value)), p.next)
    }

    function ReadI32(): Parse<I32> {
      var p := Take(4);
      if p.result.Failure? then Parse(Failure(p.result.error), p.next)
      else Parse(Success(Signed32(FourBytes(p.result.value))), p.next)
    }

    function ReadI64(): Parse<I64> {
      var p := Take(8);
      if p.result.Failure? then Parse(Failure(p.result.error), p.next)
      else Parse(Success(Signed64(EightBytes(p.result.value))), p.next)
    }

    function ReadUtf(): Parse<Text> {
      var len := ReadU16();
      if len.result.Failure? then Parse(Failure(len.result.error), len.next)
      else
        var bytes := len.next.Take(len.result.value);
        if bytes.result.Failure? then Parse(Failure(bytes.result.error), bytes.next)
        else
          match Decode(bytes.result.value)
          case Success(text) => Parse(Success(text), bytes.next)
          case Failure(relative) => Parse(Failure(MalformedUtf8(len.next.offset + relative)), bytes.next)
    }

    function ReadNullableUtf(): Parse<Option<Text>> {
      var present := ReadBool();
      if present.result.Failure? then Parse(Failure(present.result.error), present.next)
      else if !present.result.value then Parse(Success(None), present.next)
      else
        var text := present.next.ReadUtf();
        if text.result.Failure? then Parse(Failure(text.result.error), text.next)
        else Parse(Success(Some(text.result.value)), text.next)
    }
  }

  // Writing: the bytes each write appends, or its error.

  function Bool(value: bool): seq<Byte> {
    [if value then 1 else 0]
  }

  function Int64(value: I64): (r: seq<Byte>)
    ensures |r| == 8
  {
    BigEndian(Bits64(value), 8)
  }

  function Utf(text: Text): Result<seq<Byte>, JavaIoError> {
    var encoded := Encode(text);
    if |encoded| < TWO_16 then Success(BigEndian(|encoded|, 2) + encoded) else Failure(StringTooLong(|encoded|))
  }

  function NullableUtf(text: Option<Text>): Result<seq<Byte>, JavaIoError> {
    match text
    case None => Success(Bool(false))
    case Some(t) =>
      var bytes :- Utf(t);
      Success(Bool(true) + bytes)
  }

  // Each read undoes the write before it, whatever follows.

  lemma TakeBack(bytes: seq<Byte>, rest: seq<Byte>, offset: nat)
    ensures Input(bytes + rest, offset).Take(|bytes|) == Parse(Success(bytes), Input(rest, offset + |bytes|))
  {
    assert (bytes + rest)[..|bytes|] == bytes && (bytes + rest)[|bytes|..] == rest;
  }

  lemma ReadBackBool(value: bool, rest: seq<Byte>, offset: nat)
    ensures Input(Bool(value) + rest, offset).ReadBool() == Parse(Success(value), Input(rest, offset + 1))
  {
    TakeBack(Bool(value), rest, offset);
  }

  lemma ReadBackInt64(value: I64, rest: seq<Byte>, offset: nat)
    ensures Input(Int64(value) + rest, offset).ReadI64() == Parse(Success(value), Input(rest, offset + 8))
  {
    TakeBack(Int64(value), rest, offset);
    PowersOf256();
    BigEndianRoundTrip(Bits64(value), 8);
  }

  lemma ReadBackUtf(text: Text, rest: seq<Byte>, offset: nat)
    requires Utf(text).Success?
    ensures
      var bytes := Utf(text).value;
      Input(bytes + rest, offset).ReadUtf() == Parse(Success(text), Input(rest, offset + |bytes|))
  {
    var encoded := Encode(text);
    var length := BigEndian(|encoded|, 2);
    assert Utf(text).value + rest == length + (encoded + rest);
    TakeBack(length, encoded + rest, offset);
    PowersOf256();
    BigEndianRoundTrip(|encoded|, 2);
    TakeBack(encoded, rest, offset + 2);
    RoundTrip(text);
  }

  lemma ReadBackNullableUtf(text: Option<Text>, rest: seq<Byte>, offset: nat)
    requires NullableUtf(text).Success?
    ensures
      var bytes := NullableUtf(text).value;
      Input(bytes + rest, offset).ReadNullableUtf() == Parse(Success(text), Input(rest, offset + |bytes|))
  {
    match text
    case None => ReadBackBool(false, rest, offset);
    case Some(t) =>
      var bytes := Utf(t).value;
      assert NullableUtf(text).value + rest == Bool(true) + (bytes + rest);
      ReadBackBool(true, bytes + rest, offset);
      ReadBackUtf(t, rest, offset + 1);
  }

  // The imperative reader and writer.

  class DataInput {
    const bytes: seq<Byte>
    var offset: nat

    ghost predicate Valid()
      reads this
    {
      offset <= |bytes|
    }

    function AsInput(): Input
      reads this
      requires Valid()
    {
      Input(bytes[offset..], offset)
    }

    constructor (bytes: seq<Byte>)
      ensures this.bytes == bytes && Valid() && AsInput() == Input(bytes, 0)
    {
      this.bytes, offset := bytes, 0;
    }

    method Take(n: nat) returns (r: Result<seq<Byte>, JavaIoError>)
      requires Valid()
      modifies this
      ensures Valid() && Parse(r, AsInput()) == old(AsInput()).Take(n)
    {
      var available := |bytes| - offset;
      if available < n {
        return Failure(Eof(offset, n, available));
      }
      r := Success(bytes[offset..offset + n]);
      assert bytes[offset..][..n] == bytes[offset..offset + n] && bytes[offset..][n..] == bytes[offset + n..];
      offset := offset + n;
    }

    method ReadU8() returns (r: Result<Byte, JavaIoError>)
      requires Valid()
      modifies this
      ensures Valid() && Parse(r, AsInput()) == old(AsInput()).ReadU8()
    {
      var b :- Take(1);
      return Success(b[0]);
    }

    method ReadBool() returns (r: Result<bool, JavaIoError>)
      requires Valid()
      modifies this
      ensures Valid() && Parse(r, AsInput()) == old(AsInput()).ReadBool()
    {
      var b :- ReadU8();
      return Success(b != 0);
    }

    method ReadU16() returns (r: Result<nat, JavaIoError>)
      requires Valid()
      modifies this
      ensures Valid() && Parse(r, AsInput()) == old(AsInput()).ReadU16()
    {
      var b :- Take(2);
      assert b[..1][..0] == [] && FromBigEndian(b[..1]) == b[0];
      return Success(b[0] as nat * 0x100 + b[1] as nat);
    }

    method ReadI32() returns (r: Result<I32, JavaIoError>)
      requires Valid()
      modifies this
      ensures Valid() && Parse(r, AsInput()) == old(AsInput()).ReadI32()
    {
      var b :- Take(4);
      return Success(Signed32(FourBytes(b)));
    }

    method ReadI64() returns (r: Result<I64, JavaIoError>)
      requires Valid()
      modifies this
      ensures Valid() && Parse(r, AsInput()) == old(AsInput()).ReadI64()
    {
      var b :- Take(8);
      return Success(Signed64(EightBytes(b)));
    }

    method ReadUtf() returns (r: Result<Text, JavaIoError>)
      requires Valid()
      modifies this
      ensures Valid() && Parse(r, AsInput()) == old(AsInput()).ReadUtf()
    {
      var len :- ReadU16();
      var start := offset;
      var encoded :- Take(len);
      var decoded := DecodeBytes(encoded);
      return match decoded
             case Success(text) => Success(text)
             case Failure(relative) => Failure(MalformedUtf8(start + relative));
    }

    method ReadNullableUtf() returns (r: Result<Option<Text>, JavaIoError>)
      requires Valid()
      modifies this
      ensures Valid() && Parse(r, AsInput()) == old(AsInput()).ReadNullableUtf()
    {
      var present :- ReadBool();
      if !present {
        return Success(None);
      }
      var text :- ReadUtf();
      return Success(Some(text));
    }
  }

  class DataOutput {
    var bytes: seq<Byte>

    constructor ()
      ensures bytes == []
    {
      bytes := [];
    }

    method WriteU8(value: Byte)
      modifies this
      ensures bytes == old(bytes) + [value]
    {
      bytes := bytes + [value];
    }

    method WriteBool(value: bool)
      modifies this
      ensures bytes == old(bytes) + Bool(value)
    {
      bytes := bytes + [if value then 1 else 0];
    }

    method WriteI32(value: I32)
      modifies this
      ensures bytes == old(bytes) + BigEndian(Bits32(value), 4)
    {
      bytes := bytes + BigEndian(Bits32(value), 4);
    }

    method WriteI64(value: I64)
      modifies this
      ensures bytes == old(bytes) + Int64(value)
    {
      bytes := bytes + BigEndian(Bits64(value), 8);
    }

    method WriteRaw(value: seq<Byte>)
      modifies this
      ensures bytes == old(bytes) + value
    {
      bytes := bytes + value;
    }

    /** Writes behind a placeholder length and patches it, or leaves the buffer as it was. */
    method WriteUtf(value: Text) returns (r: Result<(), JavaIoError>)
      modifies this
      ensures
        match Utf(value)
        case Success(written) => r == Success(()) && bytes == old(bytes) + written
        case Failure(error) => r == Failure(error) && bytes == old(bytes)
    {
      var start := |bytes|;
      bytes := bytes + BigEndian(0, 2);
      bytes := EncodeInto(value, bytes);

      var len := |bytes| - start - 2;
      if len >= TWO_16 {
        bytes := bytes[..start];
        return Failure(StringTooLong(len));
      }
      bytes := bytes[..start] + BigEndian(len, 2) + bytes[start + 2..];
      return Success(());
    }

    method WriteNullableUtf(value: Option<Text>) returns (r: Result<(), JavaIoError>)
      modifies this
      ensures
        match NullableUtf(value)
        case Success(written) => r == Success(()) && bytes == old(bytes) + written
        case Failure(error) => r == Failure(error) && bytes == old(bytes)
    {
      var start := |bytes|;
      WriteBool(value.Some?);
      if value.Some? {
        r := WriteUtf(value.value);
        if r.Failure? {
          bytes := bytes[..start];
          return;
        }
      }
      return Success(());
    }
  }
}
