/** WAV encoding of 24 kHz samples for the avatar, and the buffer that feeds it. */
module WavAudio {
  import opened Text

  type Byte = b: int | 0 <= b < 256

  const WORD := 0x1_0000_0000
  const HALF := 0x1_0000

  /** The low bytes of a number, little-endian. */
  function Bytes(n: nat, count: nat): (r: seq<Byte>)
    ensures |r| == count
  {
    if count == 0 then [] else [n % 256] + Bytes(n / 256, count - 1)
  }

  /** `setUint16` and `setUint32`; larger values wrap around. */
  function Le16(n: nat): (r: seq<Byte>)
    ensures |r| == 2
  {
    Bytes(n, 2)
  }

  function Le32(n: nat): (r: seq<Byte>)
    ensures |r| == 4
  {
    Bytes(n, 4)
  }

  function Number(b: seq<Byte>): nat {
    if b == [] then 0 else b[0] as int + 256 * Number(b[1..])
  }

  function Power256(k: nat): nat {
    if k == 0 then 1 else 256 * Power256(k - 1)
  }

  lemma {:induction false} BytesRead(n: nat, count: nat)
    ensures Power256(count) > 0 && Number(Bytes(n, count)) == n % Power256(count)
  {
    if count > 0 {
      BytesRead(n / 256, count - 1);
      SplitRemainder(n, Power256(count - 1));
    }
  }

  lemma SplitRemainder(n: nat, p: nat)
    requires p > 0
    ensures n % (256 * p) == n % 256 + 256 * (n / 256 % p)
  {
    var q, r := n / 256, n % 256;
    var q', r' := q / p, q % p;
    assert n == 256 * (q' * p + r') + r == (256 * p) * q' + (256 * r' + r);
    assert 256 * r' + r < 256 * p;
    RemainderUnique(n, 256 * p, q', 256 * r' + r);
  }

  lemma MultipleBelow(d: nat, x: int, y: int)
    requires d * x == y && -(d as int) < y < d
    ensures x == 0
  {}

  lemma RemainderUnique(n: nat, d: nat, q: nat, r: nat)
    requires n == d * q + r && r < d
    ensures n % d == r
  {
    var x := n / d - q;
    assert d * x + n % d == r;
    MultipleBelow(d, x, r - n % d);
  }

  lemma Le32Reads(n: nat)
    ensures Number(Le32(n)) == n % WORD
  {
    BytesRead(n, 4);
    assert Power256(4) == 256 * Power256(3) == WORD by { assert Power256(2) == HALF; }
  }

  lemma Le16Reads(n: nat)
    ensures Number(Le16(n)) == n % HALF
  {
    BytesRead(n, 2);
    assert Power256(2) == HALF;
  }

  // ---- samples

  function Clamp(s: real): real {
    if s > 1.0 then 1.0 else if s < -1.0 then -1.0 else s
  }

  /** Conversion to an integer drops the fraction, towards zero. */
  function Truncate(x: real): int {
    if x < 0.0 then -(-x).Floor else x.Floor
  }

  function Quantize(s: real): (q: int)
    ensures -0x8000 <= q <= 0x7fff
  {
    var c := Clamp(s);
    Truncate(if c < 0.0 then c * 32768.0 else c * 32767.0)
  }

  /** `setInt16`: the low 16 bits in two's complement. */
  function Int16Bytes(q: int): (r: seq<Byte>)
    ensures |r| == 2
  {
    Le16(q % HALF)
  }

  function ReadInt16(b: seq<Byte>): int
    requires |b| == 2
  {
    if Number(b) >= 0x8000 then Number(b) - HALF else Number(b)
  }

  /** How the session's own decoder reads a 16-bit sample. */
  function Dequantize(q: int): real {
    if q < 0 then q as real / 32768.0 else q as real / 32767.0
  }

  lemma Int16Reads(q: int)
    requires -0x8000 <= q <= 0x7fff
    ensures ReadInt16(Int16Bytes(q)) == q
  {
    Le16Reads(q % HALF);
  }

  /** A 16-bit sample never wraps around, and reads back within one step of the clamped sample, on its inner side. */
  lemma SampleRoundTrip(s: real)
    ensures ReadInt16(Int16Bytes(Quantize(s))) == Quantize(s)
    ensures var d, c := Dequantize(Quantize(s)), Clamp(s);
            if c < 0.0 then 0.0 <= d - c < 1.0 / 32768.0 else 0.0 <= c - d < 1.0 / 32767.0
  {
    Int16Reads(Quantize(s));
    var q := Quantize(s);
    var c := Clamp(s);
    if c < 0.0 {
      var x := -(c * 32768.0);
      assert q == -(x.Floor);
      assert x - 1.0 < x.Floor as real <= x;
    } else {
      var x := c * 32767.0;
      assert x - 1.0 < x.Floor as real <= x;
    }
  }

  // ---- the file

  const RIFF: seq<Byte> := [0x52, 0x49, 0x46, 0x46]
  const WAVE: seq<Byte> := [0x57, 0x41, 0x56, 0x45]
  const FMT: seq<Byte> := [0x66, 0x6d, 0x74, 0x20]
  const DATA: seq<Byte> := [0x64, 0x61, 0x74, 0x61]

  function Header(dataSize: nat, rate: nat): (h: seq<Byte>)
    ensures |h| == 44
  {
    RiffChunk(dataSize) + FormatChunk(rate) + (DATA + Le32(dataSize))
  }

  function RiffChunk(dataSize: nat): (h: seq<Byte>)
    ensures |h| == 12
  {
    RIFF + Le32(36 + dataSize) + WAVE
  }

  /** The format chunk from its fields: size, format, channels, rate, byte rate, block size, bits. */
  function FormatOf(
    size: seq<Byte>, format: seq<Byte>, channels: seq<Byte>, rate: seq<Byte>, byteRate: seq<Byte>,
    block: seq<Byte>, bits: seq<Byte>
  ): seq<Byte> {
    FMT + size + format + channels + rate + byteRate + block + bits
  }

  /** Mono PCM at 16 bits. */
  function FormatChunk(rate: nat): (h: seq<Byte>)
    ensures |h| == 24
  {
    FormatOf(Le32(16), Le16(1), Le16(1), Le32(rate), Le32(rate * 2), Le16(2), Le16(16))
  }

  function SampleByte(samples: seq<real>, k: nat): Byte
    requires k < 2 * |samples|
  {
    Int16Bytes(Quantize(samples[k / 2]))[k % 2]
  }

  function SampleBytes(samples: seq<real>): (b: seq<Byte>)
    ensures |b| == 2 * |samples|
  {
    seq(2 * |samples|, k requires 0 <= k < 2 * |samples| => SampleByte(samples, k))
  }

  function Wav(samples: seq<real>, rate: nat): seq<Byte> {
    Header(2 * |samples|, rate) + SampleBytes(samples)
  }

  /** Writes bytes at the offset; what lies before it stays. */
  method Put(view: array<Byte>, offset: nat, bytes: seq<Byte>) returns (next: nat)
    requires offset + |bytes| <= view.Length
    modifies view
    ensures next == offset + |bytes|
    ensures view[..next] == old(view[..offset]) + bytes
  {
    for i := 0 to |bytes|
      invariant view[..offset] == old(view[..offset])
      invariant forall k :: 0 <= k < i ==> view[offset + k] == bytes[k]
    {
      view[offset + i] := bytes[i];
    }
    next := offset + |bytes|;
  }

  method PutHeader(view: array<Byte>, dataSize: nat, rate: nat)
    requires view.Length >= 44
    modifies view
    ensures view[..44] == Header(dataSize, rate)
  {
    PutRiff(view, Le32(36 + dataSize));
    PutFormat(view, Le32(16), Le16(1), Le16(1), Le32(rate), Le32(rate * 2), Le16(2), Le16(16));
    PutData(view, Le32(dataSize));
  }

  method PutRiff(view: array<Byte>, size: seq<Byte>)
    requires view.Length >= 12 && |size| == 4
    modifies view
    ensures view[..12] == RIFF + size + WAVE
  {
    var at := Put(view, 0, RIFF);
    at := Put(view, at, size);
    at := Put(view, at, WAVE);
  }

  method PutData(view: array<Byte>, size: seq<Byte>)
    requires view.Length >= 44 && |size| == 4
    modifies view
    ensures view[..44] == old(view[..36]) + (DATA + size)
  {
    var at := Put(view, 36, DATA);
    AppendAssoc(old(view[..36]), DATA, size);
    at := Put(view, at, size);
  }

  method PutFormat(
    view: array<Byte>, size: seq<Byte>, format: seq<Byte>, channels: seq<Byte>, rate: seq<Byte>, byteRate: seq<Byte>,
    block: seq<Byte>, bits: seq<Byte>
  )
    requires view.Length >= 36 && |size| == |rate| == |byteRate| == 4
    requires |format| == |channels| == |block| == |bits| == 2
    modifies view
    ensures view[..36] == old(view[..12]) + FormatOf(size, format, channels, rate, byteRate, block, bits)
  {
    var at := Put(view, 12, FMT);
    at := Put(view, at, size);
    at := Put(view, at, format);
    at := Put(view, at, channels);
    at := Put(view, at, rate);
    at := Put(view, at, byteRate);
    at := Put(view, at, block);
    at := Put(view, at, bits);
  }

  /** `float32ToWavBlob`. */
  method Encode(samples: seq<real>, rate: nat) returns (view: array<Byte>)
    ensures fresh(view) && view[..] == Wav(samples, rate)
  {
    var dataSize := 2 * |samples|;
    view := new Byte[44 + dataSize];
    PutHeader(view, dataSize, rate);
    ghost var header := view[..44];
    PutSamples(view, samples);
    assert view[..] == header + view[44..];
  }

  method PutSamples(view: array<Byte>, samples: seq<real>)
    requires view.Length == 44 + 2 * |samples|
    modifies view
    ensures view[..44] == old(view[..44]) && view[44..] == SampleBytes(samples)
  {
    var offset := 44;
    for i := 0 to |samples|
      invariant offset == 44 + 2 * i
      invariant view[..44] == old(view[..44])
      invariant forall k: nat :: k < 2 * i ==> view[44 + k] == SampleByte(samples, k)
    {
      ghost var before := view[..offset];
      var bytes := Int16Bytes(Quantize(samples[i]));
      offset := Put(view, offset, bytes);
      assert view[..44] == before[..44];
      assert SampleByte(samples, 2 * i) == bytes[0] && SampleByte(samples, 2 * i + 1) == bytes[1];
      assert view[44 + 2 * i] == bytes[0] && view[44 + 2 * i + 1] == bytes[1];
      forall k: nat | k < 2 * i ensures view[44 + k] == SampleByte(samples, k) {
        assert view[44 + k] == before[44 + k];
      }
    }
  }

  // ---- reading a file back

  datatype Sound = Sound(rate: nat, samples: seq<real>)

  function Samples(b: seq<Byte>): (r: seq<real>)
    requires |b| % 2 == 0
    ensures |r| == |b| / 2
  {
    seq(|b| / 2, i requires 0 <= i < |b| / 2 => Dequantize(ReadInt16(b[2 * i..2 * i + 2])))
  }

  /** The sample rate of a mono 16-bit PCM format chunk. */
  function ReadFormat(f: seq<Byte>): Option<nat>
    requires |f| == 24
  {
    var rate := Number(f[12..16]);
    if f[..4] == FMT && Number(f[4..8]) == 16 && Number(f[8..10]) == 1 && Number(f[10..12]) == 1
       && Number(f[16..20]) == rate * 2 && Number(f[20..22]) == 2 && Number(f[22..24]) == 16
    then Some(rate) else None
  }

  /** A reader that insists on every header field, sizes included. */
  function Decode(b: seq<Byte>): Option<Sound> {
    if |b| < 44 || b[0..4] != RIFF || b[8..12] != WAVE || b[36..40] != DATA then None
    else DecodeFields(b[4..8], b[12..36], b[40..44], b[44..])
  }

  function DecodeFields(size: seq<Byte>, format: seq<Byte>, dataSize: seq<Byte>, data: seq<Byte>): Option<Sound>
    requires |size| == |dataSize| == 4 && |format| == 24
  {
    if |data| % 2 != 0 || Number(size) != 36 + |data| || Number(dataSize) != |data| || ReadFormat(format).None?
    then None
    else Some(Sound(ReadFormat(format).value, Samples(data)))
  }

  function Quantized(samples: seq<real>): (r: seq<real>)
    ensures |r| == |samples|
  {
    seq(|samples|, i requires 0 <= i < |samples| => Dequantize(Quantize(samples[i])))
  }

  lemma SamplesRead(samples: seq<real>)
    ensures Samples(SampleBytes(samples)) == Quantized(samples)
  {
    var b := SampleBytes(samples);
    forall i: nat | i < |samples| ensures Samples(b)[i] == Quantized(samples)[i] {
      assert b[2 * i..2 * i + 2] == Int16Bytes(Quantize(samples[i]));
      SampleRoundTrip(samples[i]);
    }
  }

  lemma FileFields(size: seq<Byte>, format: seq<Byte>, dataSize: seq<Byte>, data: seq<Byte>)
    requires |size| == |dataSize| == 4 && |format| == 24
    ensures var b := RIFF + size + WAVE + format + (DATA + dataSize) + data;
            && b[0..4] == RIFF && b[4..8] == size && b[8..12] == WAVE && b[12..36] == format
            && b[36..40] == DATA && b[40..44] == dataSize && b[44..] == data
  {
    var b := RIFF + size + WAVE + format + (DATA + dataSize) + data;
    assert b[36..44] == DATA + dataSize;
    assert b[36..40] == b[36..44][..4] && b[40..44] == b[36..44][4..];
  }

  lemma FormatFields(
    size: seq<Byte>, format: seq<Byte>, channels: seq<Byte>, rate: seq<Byte>, byteRate: seq<Byte>,
    block: seq<Byte>, bits: seq<Byte>
  )
    requires |size| == |rate| == |byteRate| == 4 && |format| == |channels| == |block| == |bits| == 2
    ensures var f := FormatOf(size, format, channels, rate, byteRate, block, bits);
            && f[..4] == FMT && f[4..8] == size && f[8..10] == format && f[10..12] == channels
            && f[12..16] == rate && f[16..20] == byteRate && f[20..22] == block && f[22..24] == bits
  {}

  predicate Spells(b: seq<Byte>, text: string) {
    |b| == |text| && forall i :: 0 <= i < |b| ==> b[i] == text[i] as int
  }

  /** The four markers of every file, in ASCII and in their places. */
  lemma MarkersSpelled(samples: seq<real>, rate: nat)
    ensures var b := Wav(samples, rate);
            && |b| >= 44 && Spells(b[0..4], "RIFF") && Spells(b[8..12], "WAVE") && Spells(b[12..16], "fmt ")
            && Spells(b[36..40], "data")
  {
    var b := Wav(samples, rate);
    assert b[0..4] == RIFF && b[8..12] == WAVE;
    assert b[12..16] == FMT;
    assert b[36..40] == DATA;
  }

  /** The sizes of the file and the byte rate, as the header repeats it, fit their 32-bit fields. */
  predicate FieldsHold(dataSize: nat, rate: nat) {
    36 + dataSize < WORD && rate % WORD * 2 < WORD
  }

  /** What the encoder's output decodes to: the rate modulo 2^32 and the same number of samples, each rounded once. */
  lemma DecodesTo(samples: seq<real>, rate: nat)
    ensures Decode(Wav(samples, rate)) ==
              if FieldsHold(2 * |samples|, rate) then Some(Sound(rate % WORD, Quantized(samples))) else None
  {
    SamplesRead(samples);
    FileDecodes(Wav(samples, rate), SampleBytes(samples), Quantized(samples), rate);
  }

  /** If and only if: the output decodes to the rate and the samples, each rounded once, exactly when the file size and
      the byte rate fit their 32-bit fields. */
  lemma DecodesExactly(samples: seq<real>, rate: nat)
    ensures Decode(Wav(samples, rate)) == Some(Sound(rate, Quantized(samples)))
            <==> 36 + 2 * |samples| < WORD && rate * 2 < WORD
  {
    DecodesTo(samples, rate);
    if rate < WORD { RemainderUnique(rate, WORD, 0, rate); }
  }

  lemma FileDecodes(file: seq<Byte>, data: seq<Byte>, samples: seq<real>, rate: nat)
    requires |data| % 2 == 0 && Samples(data) == samples && file == Header(|data|, rate) + data
    ensures Decode(file) ==
              if FieldsHold(|data|, rate) then Some(Sound(rate % WORD, samples)) else None
  {
    DecodeParts(Le32(36 + |data|), FormatChunk(rate), Le32(|data|), data);
    FieldsDecode(data, rate);
  }

  lemma FieldsDecode(data: seq<Byte>, rate: nat)
    requires |data| % 2 == 0
    ensures DecodeFields(Le32(36 + |data|), FormatChunk(rate), Le32(|data|), data) ==
              if FieldsHold(|data|, rate) then Some(Sound(rate % WORD, Samples(data))) else None
  {
    FormatDecodes(rate);
    FieldFits(36 + |data|);
    FieldFits(|data|);
    FieldsFit(Le32(36 + |data|), FormatChunk(rate), Le32(|data|), data, rate % WORD, 36 + |data| < WORD,
              rate % WORD * 2 < WORD);
  }

  lemma FieldsFit(
    size: seq<Byte>, format: seq<Byte>, dataSize: seq<Byte>, data: seq<Byte>, rate: nat, sizesFit: bool, rateFits: bool
  )
    requires |size| == |dataSize| == 4 && |format| == 24 && |data| % 2 == 0
    requires sizesFit <==> Number(size) == 36 + |data| && Number(dataSize) == |data|
    requires ReadFormat(format) == if rateFits then Some(rate) else None
    ensures DecodeFields(size, format, dataSize, data) ==
              if sizesFit && rateFits then Some(Sound(rate, Samples(data))) else None
  {}

  lemma DecodeParts(size: seq<Byte>, format: seq<Byte>, dataSize: seq<Byte>, data: seq<Byte>)
    requires |size| == |dataSize| == 4 && |format| == 24
    ensures Decode(RIFF + size + WAVE + format + (DATA + dataSize) + data) == DecodeFields(size, format, dataSize, data)
  {
    FileFields(size, format, dataSize, data);
  }

  lemma FieldFits(n: nat)
    ensures Number(Le32(n)) == n <==> n < WORD
  {
    Le32Reads(n);
  }

  lemma FormatDecodes(rate: nat)
    ensures ReadFormat(FormatChunk(rate)) == if rate % WORD * 2 < WORD then Some(rate % WORD) else None
  {
    FormatFields(Le32(16), Le16(1), Le16(1), Le32(rate), Le32(rate * 2), Le16(2), Le16(16));
    FixedFields();
    Le32Reads(rate);
    Le32Reads(rate * 2);
    DoubleWraps(rate);
  }

  lemma DoubleWraps(rate: nat)
    ensures rate * 2 % WORD == rate % WORD * 2 <==> rate % WORD * 2 < WORD
  {
    var q, r := rate / WORD, rate % WORD;
    if r * 2 < WORD { RemainderUnique(rate * 2, WORD, q * 2, r * 2); }
  }

  lemma FixedFields()
    ensures Number(Le32(16)) == 16 && Number(Le16(1)) == 1 && Number(Le16(2)) == 2 && Number(Le16(16)) == 16
  {
    Le32Reads(16);
  }

  // ---- the buffer between flushes

  function Flatten(chunks: seq<seq<real>>): seq<real> {
    if chunks == [] then [] else Flatten(chunks[..|chunks| - 1]) + chunks[|chunks| - 1]
  }

  class AvatarBuffer {
    var chunks: seq<seq<real>>
    var totalSamples: nat

    ghost predicate Valid()
      reads this
    {
      totalSamples == |Flatten(chunks)|
    }

    constructor ()
      ensures Valid() && chunks == []
    {
      chunks, totalSamples := [], 0;
    }

    method Feed(chunk: seq<real>)
      requires Valid()
      modifies this
      ensures Valid() && Flatten(chunks) == Flatten(old(chunks)) + chunk && chunks != []
    {
      assert (chunks + [chunk])[..|chunks|] == chunks;
      chunks := chunks + [chunk];
      totalSamples := totalSamples + |chunk|;
    }

    /** `flushAudio`: nothing without a connected client or without chunks; else one payload with everything pending. */
    method Flush(connected: bool) returns (payload: Option<seq<real>>)
      requires Valid()
      modifies this
      ensures Valid()
      ensures connected && old(chunks) != [] ==> payload == Some(Flatten(old(chunks))) && chunks == []
      ensures !connected || old(chunks) == [] ==> payload == None && chunks == old(chunks)
    {
      if !connected || chunks == [] { return None; }
      var merged := new real[totalSamples];
      var offset := 0;
      for i := 0 to |chunks|
        invariant Valid() && chunks == old(chunks) && totalSamples == merged.Length
        invariant offset == |Flatten(chunks[..i])| && offset <= merged.Length
        invariant merged[..offset] == Flatten(chunks[..i])
      {
        assert chunks[..i + 1][..i] == chunks[..i] && chunks[..i + 1][i] == chunks[i];
        FlattenPrefix(chunks, i + 1);
        CopyInto(merged, offset, chunks[i]);
        offset := offset + |chunks[i]|;
      }
      assert chunks[..|chunks|] == chunks;
      payload := Some(merged[..]);
      assert merged[..] == merged[..offset];
      chunks, totalSamples := [], 0;
    }

    /** `disconnect` drops what is pending. */
    method Disconnect()
      modifies this
      ensures Valid() && chunks == []
    {
      chunks, totalSamples := [], 0;
    }
  }

  /** `merged.set(chunk, offset)`. */
  method CopyInto(merged: array<real>, offset: nat, chunk: seq<real>)
    requires offset + |chunk| <= merged.Length
    modifies merged
    ensures merged[..offset + |chunk|] == old(merged[..offset]) + chunk
  {
    for k := 0 to |chunk|
      invariant merged[..offset] == old(merged[..offset])
      invariant forall j :: 0 <= j < k ==> merged[offset + j] == chunk[j]
    {
      merged[offset + k] := chunk[k];
    }
  }

  lemma {:induction false} FlattenPrefix(chunks: seq<seq<real>>, n: nat)
    requires n <= |chunks|
    ensures |Flatten(chunks[..n])| <= |Flatten(chunks)|
    decreases |chunks|
  {
    if n < |chunks| {
      assert chunks[..|chunks| - 1][..n] == chunks[..n];
      FlattenPrefix(chunks[..|chunks| - 1], n);
    } else {
      assert chunks[..n] == chunks;
    }
  }

  datatype Op = Feed(chunk: seq<real>) | Flush(connected: bool)

  /** The flushed payloads joined, and the chunks still pending, over a run of feeds and flushes. */
  function RunBuffer(chunks: seq<seq<real>>, ops: seq<Op>): (seq<real>, seq<seq<real>>)
    decreases |ops|
  {
    if ops == [] then ([], chunks)
    else
      match ops[0]
      case Feed(chunk) => RunBuffer(chunks + [chunk], ops[1..])
      case Flush(connected) =>
        if !connected || chunks == [] then RunBuffer(chunks, ops[1..])
        else
          var rest := RunBuffer([], ops[1..]);
          (Flatten(chunks) + rest.0, rest.1)
  }

  function AllFed(ops: seq<Op>): seq<real> {
    if ops == [] then [] else (if ops[0].Feed? then ops[0].chunk else []) + AllFed(ops[1..])
  }

  /** What was flushed followed by what is pending is everything fed, in order. */
  lemma {:induction false} NothingLost(chunks: seq<seq<real>>, ops: seq<Op>)
    ensures var (flushed, pending) := RunBuffer(chunks, ops);
            flushed + Flatten(pending) == Flatten(chunks) + AllFed(ops)
    decreases |ops|
  {
    if ops != [] {
      match ops[0]
      case Feed(chunk) =>
        NothingLost(chunks + [chunk], ops[1..]);
        assert (chunks + [chunk])[..|chunks|] == chunks;
        AppendAssoc(Flatten(chunks), chunk, AllFed(ops[1..]));
      case Flush(connected) =>
        assert [] + AllFed(ops[1..]) == AllFed(ops[1..]);
        if !connected || chunks == [] {
          NothingLost(chunks, ops[1..]);
        } else {
          var rest := RunBuffer([], ops[1..]);
          NothingLost([], ops[1..]);
          AppendAssoc(Flatten(chunks), rest.0, Flatten(rest.1));
          assert [] + AllFed(ops[1..]) == AllFed(ops[1..]);
        }
    }
  }
}
