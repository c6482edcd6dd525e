/**
 * chat.client.views.AudioUtils: the canonical 44-byte header of a RIFF/WAVE
 * PCM file (the "WAVE" form of the Microsoft/IBM RIFF format, with a `fmt `
 * chunk and a `data` chunk), the check that a file starts with one, and a
 * hexadecimal dump of a byte array.
 *
 * A file is a byte sequence. Java's `byte` is kept as its unsigned value, and
 * its `int`/`short` arithmetic is written out: 32-bit wrap-around, the
 * `(short)` cast, arithmetic right shift, division truncating toward zero.
 */
module AudioUtils {
  import opened Wrappers
  import opened Model

  /** A Java `short`. */
  type Short = x: int | -0x8000 <= x < 0x8000

  /** The `(short)` cast: keeps the low 16 bits, as a signed value. */
  function ToShort(x: int): (r: Short)
    ensures (r - x) % 0x1_0000 == 0
  {
    var m := x % 0x1_0000;
    if m < 0x8000 then m else m - 0x1_0000
  }

  /** Java's integer division, which truncates toward zero. */
  function JavaDiv(a: int, b: int): (q: int)
    requires b > 0
    ensures a >= 0 ==> q == a / b
    ensures a < 0 ==> q == -((-a) / b)
  {
    if a >= 0 then a / b else -((-a) / b)
  }

  /** The `(int)` cast of a whole-valued float: values out of range saturate. */
  function SaturateToInt(x: int): (r: Int32)
    ensures -0x8000_0000 <= x < 0x8000_0000 ==> r == x
    ensures x >= 0x8000_0000 ==> r == 0x7fff_ffff
    ensures x < -0x8000_0000 ==> r == -0x8000_0000
  {
    if x >= 0x8000_0000 then 0x7fff_ffff else if x < -0x8000_0000 then -0x8000_0000 else x
  }

  /** The bytes of an ASCII string such as "RIFF", as `String.getBytes()` gives them. */
  function Ascii(s: string): (r: seq<Byte>)
    requires forall i :: 0 <= i < |s| ==> s[i] < 128 as char
    ensures |r| == |s|
    ensures forall i :: 0 <= i < |s| ==> r[i] == s[i] as int
  {
    seq(|s|, i requires 0 <= i < |s| => s[i] as int)
  }

  // ---------------------------------------------------------------- little-endian

  /** The unsigned value of two bytes, low byte first. */
  function U16(lo: Byte, hi: Byte): (v: int)
    ensures 0 <= v < 0x1_0000
  {
    lo as int + 256 * (hi as int)
  }

  /** The unsigned value of four bytes, low byte first. */
  function U32(b: seq<Byte>): (v: int)
    requires |b| == 4
    ensures 0 <= v < 0x1_0000_0000
  {
    b[0] as int + 256 * (b[1] as int) + 65536 * (b[2] as int) + 16777216 * (b[3] as int)
  }

  /** `intToLittleEndian(value)`: byte i is `(value >> 8i) & 0xff`. */
  function IntToLittleEndian(value: Int32): (r: seq<Byte>)
    ensures |r| == 4
    ensures U32(r) == value % 0x1_0000_0000
  {
    var r := [value % 256, (value / 256) % 256, (value / 65536) % 256, (value / 16777216) % 256];
    IntBytesReassemble(value);
    r
  }

  /** The four bytes of `v`, put back together, give `v` modulo 2^32. */
  lemma IntBytesReassemble(v: int)
    ensures var r := [v % 256, (v / 256) % 256, (v / 65536) % 256, (v / 16777216) % 256];
      r[0] + 256 * r[1] + 65536 * r[2] + 16777216 * r[3] == v % 0x1_0000_0000
  {
    var x1, x2, x3, x4 := v / 256, v / 65536, v / 16777216, v / 0x1_0000_0000;
    assert x2 == x1 / 256;
    assert x3 == x2 / 256;
    assert x4 == x3 / 256;
    assert v == v % 256 + 256 * x1;
    assert x1 == x1 % 256 + 256 * x2;
    assert x2 == x2 % 256 + 256 * x3;
    assert x3 == x3 % 256 + 256 * x4;
  }

  /** `shortToLittleEndian(value)`: the low byte, then the high byte. */
  function ShortToLittleEndian(value: Short): (r: seq<Byte>)
    ensures |r| == 2
    ensures U16(r[0], r[1]) == value % 0x1_0000
    ensures ToShort(U16(r[0], r[1])) == value
  {
    var lo, hi := value % 256, (value / 256) % 256;
    ShortBytesReassemble(value);
    ShortRoundTrip(value);
    [lo, hi]
  }

  /** A short's 16-bit pattern, cast back with `(short)`, is the short again. */
  lemma ShortRoundTrip(v: Short)
    ensures ToShort(v % 0x1_0000) == v
  {
    if v >= 0 {
      assert v % 0x1_0000 == v;
    } else {
      assert v % 0x1_0000 == v + 0x1_0000;
    }
  }

  lemma ShortBytesReassemble(v: Short)
    ensures U16(v % 256, (v / 256) % 256) == v % 0x1_0000
  {
    var x1, x2 := v / 256, v / 65536;
    assert x2 == x1 / 256;
    assert v == v % 256 + 256 * x1;
    assert x1 == x1 % 256 + 256 * x2;
  }

  // ---------------------------------------------------------------- writeWavManual

  /** `byteRate`: computed in float from the sample rate, then cast to int. */
  function ByteRate(sampleRate: int, bitsPerSample: Int32, channels: Int32): Int32 {
    SaturateToInt(JavaDiv(sampleRate * channels * bitsPerSample, 8))
  }

  /** `blockAlign`: computed in int arithmetic. */
  function BlockAlign(bitsPerSample: Int32, channels: Int32): Int32 {
    Wrap32(JavaDiv(Wrap32(channels * bitsPerSample), 8))
  }

  /**
   * The 44 header bytes `writeWavManual` writes before the samples, in order.
   * The sample rate is a float in the source; here it is a whole number of hertz.
   */
  function WavHeader(dataSize: Int32, sampleRate: int, bitsPerSample: Int32, channels: Int32): (h: seq<Byte>)
    ensures |h| == 44
  {
    Ascii("RIFF") + IntToLittleEndian(Wrap32(36 + dataSize)) + Ascii("WAVE")
    + Ascii("fmt ") + IntToLittleEndian(16) + ShortToLittleEndian(1)
    + ShortToLittleEndian(ToShort(channels)) + IntToLittleEndian(SaturateToInt(sampleRate))
    + IntToLittleEndian(ByteRate(sampleRate, bitsPerSample, channels))
    + ShortToLittleEndian(ToShort(BlockAlign(bitsPerSample, channels)))
    + ShortToLittleEndian(ToShort(bitsPerSample))
    + Ascii("data") + IntToLittleEndian(dataSize)
  }

  /** The whole file: the header, then the PCM bytes. */
  function WavFile(pcm: seq<Byte>, sampleRate: int, bitsPerSample: Int32, channels: Int32): (f: seq<Byte>)
    requires |pcm| < 0x8000_0000
    ensures |f| == 44 + |pcm| && f[44..] == pcm
  {
    WavHeader(|pcm|, sampleRate, bitsPerSample, channels) + pcm
  }

  /** `writeWavManual(pcmBytes, outFile, sampleRate, bitsPerSample, channels)`: the bytes written. */
  method WriteWavManual(pcm: seq<Byte>, sampleRate: int, bitsPerSample: Int32, channels: Int32)
    returns (out: seq<Byte>)
    requires |pcm| < 0x8000_0000  // the length of a Java array is an int
    ensures out == WavFile(pcm, sampleRate, bitsPerSample, channels)
    ensures |out| == 44 + |pcm| && out[44..] == pcm
  {
    var byteRate := ByteRate(sampleRate, bitsPerSample, channels);
    var blockAlign := BlockAlign(bitsPerSample, channels);
    var dataSize := |pcm|;
    var chunkSize := Wrap32(36 + dataSize);
    out := Ascii("RIFF");
    out := out + IntToLittleEndian(chunkSize);
    out := out + Ascii("WAVE");
    out := out + Ascii("fmt ");
    out := out + IntToLittleEndian(16);
    out := out + ShortToLittleEndian(1);
    out := out + ShortToLittleEndian(ToShort(channels));
    out := out + IntToLittleEndian(SaturateToInt(sampleRate));
    out := out + IntToLittleEndian(byteRate);
    out := out + ShortToLittleEndian(ToShort(blockAlign));
    out := out + ShortToLittleEndian(ToShort(bitsPerSample));
    out := out + Ascii("data");
    out := out + IntToLittleEndian(dataSize);
    assert out == WavHeader(dataSize, sampleRate, bitsPerSample, channels);
    out := out + pcm;
  }

  /** The little-endian unsigned 16-bit field at offset k. */
  function Field16(f: seq<Byte>, k: nat): int
    requires k + 2 <= |f|
  {
    U16(f[k], f[k + 1])
  }

  /** The little-endian unsigned 32-bit field at offset k. */
  function Field32(f: seq<Byte>, k: nat): int
    requires k + 4 <= |f|
  {
    U32(f[k..k + 4])
  }

  /** The four chunk tags of the header. */
  lemma HeaderTags(dataSize: Int32, sampleRate: int, bitsPerSample: Int32, channels: Int32)
    ensures var h := WavHeader(dataSize, sampleRate, bitsPerSample, channels);
      h[0..4] == Ascii("RIFF") && h[8..12] == Ascii("WAVE")
      && h[12..16] == Ascii("fmt ") && h[36..40] == Ascii("data")
  {
    var h := WavHeader(dataSize, sampleRate, bitsPerSample, channels);
    assert h[0..4] == Ascii("RIFF");
    assert h[8..12] == Ascii("WAVE");
    assert h[12..16] == Ascii("fmt ");
    assert h[36..40] == Ascii("data");
  }

  /** The size fields and the constant fields of the header. */
  lemma HeaderSizes(dataSize: Int32, sampleRate: int, bitsPerSample: Int32, channels: Int32)
    requires 0 <= dataSize
    ensures var h := WavHeader(dataSize, sampleRate, bitsPerSample, channels);
      Field32(h, 4) == 36 + dataSize && Field32(h, 16) == 16 && Field16(h, 20) == 1
      && Field32(h, 40) == dataSize
  {
    var h := WavHeader(dataSize, sampleRate, bitsPerSample, channels);
    WrapKeepsUnsigned(36 + dataSize);
    assert h[4..8] == IntToLittleEndian(Wrap32(36 + dataSize));
    assert h[16..20] == IntToLittleEndian(16);
    assert h[20..22] == ShortToLittleEndian(1);
    SmallUnsigned(16);
    SmallShort(1);
    DataSizeField(dataSize, sampleRate, bitsPerSample, channels);
  }

  lemma DataSizeField(dataSize: Int32, sampleRate: int, bitsPerSample: Int32, channels: Int32)
    requires 0 <= dataSize
    ensures Field32(WavHeader(dataSize, sampleRate, bitsPerSample, channels), 40) == dataSize
  {
    var h := WavHeader(dataSize, sampleRate, bitsPerSample, channels);
    assert h[40..44] == IntToLittleEndian(dataSize);
    SmallUnsigned(dataSize);
  }

  /** The format fields of the header. */
  lemma HeaderFormat(dataSize: Int32, sampleRate: int, bitsPerSample: Int32, channels: Int32)
    ensures var h := WavHeader(dataSize, sampleRate, bitsPerSample, channels);
      && Field16(h, 22) == channels % 0x1_0000
      && Field32(h, 24) == SaturateToInt(sampleRate) % 0x1_0000_0000
      && Field32(h, 28) == ByteRate(sampleRate, bitsPerSample, channels) % 0x1_0000_0000
      && Field16(h, 32) == BlockAlign(bitsPerSample, channels) % 0x1_0000
      && Field16(h, 34) == bitsPerSample % 0x1_0000
  {
    var h := WavHeader(dataSize, sampleRate, bitsPerSample, channels);
    assert h[22..24] == ShortToLittleEndian(ToShort(channels));
    assert h[24..28] == IntToLittleEndian(SaturateToInt(sampleRate));
    assert h[28..32] == IntToLittleEndian(ByteRate(sampleRate, bitsPerSample, channels));
    assert h[32..34] == ShortToLittleEndian(ToShort(BlockAlign(bitsPerSample, channels)));
    assert h[34..36] == ShortToLittleEndian(ToShort(bitsPerSample));
    ShortCastKeepsLowBits(channels);
    ShortCastKeepsLowBits(BlockAlign(bitsPerSample, channels));
    ShortCastKeepsLowBits(bitsPerSample);
  }

  /** Every field of the header sits at its offset, and the PCM bytes follow unchanged. */
  lemma WavLayout(pcm: seq<Byte>, sampleRate: int, bitsPerSample: Int32, channels: Int32)
    requires |pcm| < 0x8000_0000
    ensures var f := WavFile(pcm, sampleRate, bitsPerSample, channels);
      && |f| == 44 + |pcm| && f[44..] == pcm
      && f[0..4] == Ascii("RIFF") && Field32(f, 4) == 36 + |pcm| && f[8..12] == Ascii("WAVE")
      && f[12..16] == Ascii("fmt ") && Field32(f, 16) == 16 && Field16(f, 20) == 1
      && Field16(f, 22) == channels % 0x1_0000
      && Field32(f, 24) == SaturateToInt(sampleRate) % 0x1_0000_0000
      && Field32(f, 28) == ByteRate(sampleRate, bitsPerSample, channels) % 0x1_0000_0000
      && Field16(f, 32) == BlockAlign(bitsPerSample, channels) % 0x1_0000
      && Field16(f, 34) == bitsPerSample % 0x1_0000
      && f[36..40] == Ascii("data") && Field32(f, 40) == |pcm|
  {
    var h := WavHeader(|pcm|, sampleRate, bitsPerSample, channels);
    var f := WavFile(pcm, sampleRate, bitsPerSample, channels);
    HeaderTags(|pcm|, sampleRate, bitsPerSample, channels);
    HeaderSizes(|pcm|, sampleRate, bitsPerSample, channels);
    HeaderFormat(|pcm|, sampleRate, bitsPerSample, channels);
    assert f[..44] == h;
    forall k: nat | k < 44
      ensures f[k] == h[k]
    {
    }
  }

  /** A value below 2^32 survives the int wrap-around when read back as unsigned. */
  lemma WrapKeepsUnsigned(x: int)
    requires 0 <= x < 0x1_0000_0000
    ensures Wrap32(x) % 0x1_0000_0000 == x
  {
    if x >= 0x8000_0000 {
      assert Wrap32(x) == x - 0x1_0000_0000;
    }
  }

  lemma SmallUnsigned(x: int)
    requires 0 <= x < 0x1_0000_0000
    ensures x % 0x1_0000_0000 == x
  {
  }

  lemma SmallShort(x: int)
    requires 0 <= x < 0x1_0000
    ensures x % 0x1_0000 == x
  {
  }

  lemma ShortCastKeepsLowBits(x: int)
    ensures ToShort(x) % 0x1_0000 == x % 0x1_0000
  {
  }

  /**
   * For the recording format (16000 Hz, 16 bits, mono) and every smaller one
   * without overflow, the rate fields hold the textbook values.
   */
  lemma WavRates(pcm: seq<Byte>, sampleRate: int, bitsPerSample: Int32, channels: Int32)
    requires |pcm| < 0x8000_0000
    requires 0 <= sampleRate * channels * bitsPerSample < 0x8000_0000
    requires 0 <= channels * bitsPerSample < 0x1_0000
    ensures var f := WavFile(pcm, sampleRate, bitsPerSample, channels);
      && Field32(f, 28) == sampleRate * channels * bitsPerSample / 8
      && Field16(f, 32) == channels * bitsPerSample / 8
  {
    var p, q := sampleRate * channels * bitsPerSample, channels * bitsPerSample;
    WavLayout(pcm, sampleRate, bitsPerSample, channels);
    ByteRateValue(p, sampleRate, bitsPerSample, channels);
    BlockAlignValue(q, bitsPerSample, channels);
    SmallUnsigned(p / 8);
    SmallShort(q / 8);
  }

  lemma ByteRateValue(product: int, sampleRate: int, bitsPerSample: Int32, channels: Int32)
    requires product == sampleRate * channels * bitsPerSample
    requires 0 <= product < 0x8000_0000
    ensures ByteRate(sampleRate, bitsPerSample, channels) == product / 8
  {
  }

  lemma BlockAlignValue(product: int, bitsPerSample: Int32, channels: Int32)
    requires product == channels * bitsPerSample
    requires 0 <= product < 0x1_0000
    ensures BlockAlign(bitsPerSample, channels) == product / 8
  {
    assert Wrap32(product) == product;
    assert JavaDiv(product, 8) == product / 8;
  }

  // ---------------------------------------------------------------- isValidWav

  /** The header checks of `isValidWav`: 44 bytes at least, and the four chunk tags in place. */
  predicate HasWavHeader(f: seq<Byte>) {
    |f| >= 44 && f[0..4] == Ascii("RIFF") && f[8..12] == Ascii("WAVE")
    && f[12..16] == Ascii("fmt ") && f[36..40] == Ascii("data")
  }

  /**
   * `isValidWav(wavFile)`: `file` is None when the file cannot be opened or
   * read. One read into a 44-byte buffer; a short read means "not valid".
   */
  method IsValidWav(file: Option<seq<Byte>>) returns (valid: bool)
    ensures valid <==> file.Some? && HasWavHeader(file.value)
  {
    if file.None? {
      return false;
    }
    var content := file.value;
    var header := new Byte[44];
    // FileInputStream.read(byte[]): as many bytes as the file has, up to 44; -1 at end of file
    var count := if |content| < 44 then |content| else 44;
    var i := 0;
    while i < count
      invariant 0 <= i <= count
      invariant header[..i] == content[..i]
    {
      header[i] := content[i];
      i := i + 1;
    }
    var read := if count == 0 then -1 else count;
    if read != 44 {
      return false;
    }
    assert header[..] == content[..44];
    valid := header[0..4] == Ascii("RIFF") && header[8..12] == Ascii("WAVE")
             && header[12..16] == Ascii("fmt ") && header[36..40] == Ascii("data");
  }

  /** Every file that `writeWavManual` writes passes `isValidWav`. */
  lemma WrittenWavIsValid(pcm: seq<Byte>, sampleRate: int, bitsPerSample: Int32, channels: Int32)
    requires |pcm| < 0x8000_0000
    ensures HasWavHeader(WavFile(pcm, sampleRate, bitsPerSample, channels))
  {
    WavLayout(pcm, sampleRate, bitsPerSample, channels);
  }

  // ---------------------------------------------------------------- dumpBytes

  /** One upper-case hexadecimal digit. */
  function UpperHexDigit(v: nat): char
    requires v < 16
  {
    "0123456789ABCDEF"[v]
  }

  /** `String.format("%02X ", b)`: two upper-case hex digits and a space. */
  function HexCell(b: Byte): (r: string)
    ensures |r| == 3 && r[2] == ' '
  {
    [UpperHexDigit(b / 16), UpperHexDigit(b % 16), ' ']
  }

  /** The number of bytes `dumpBytes` renders: `Math.min(n, data.length)`, none when negative. */
  function DumpCount(data: seq<Byte>, n: Int32): (c: nat)
    ensures c <= |data|
    ensures n >= 0 ==> c == if n < |data| then n else |data|
  {
    if n < 0 then 0 else if n < |data| then n else |data|
  }

  /** `dumpBytes(data, n)`: the text it prints after its "[DEBUG] Dump bytes: " prefix. */
  method DumpBytes(data: seq<Byte>, n: Int32) returns (sb: string)
    ensures |sb| == 3 * DumpCount(data, n)
    ensures forall i :: 0 <= i < DumpCount(data, n) ==> sb[3 * i..3 * i + 3] == HexCell(data[i])
  {
    var len := if n < |data| then n else |data|;
    sb := "";
    var i := 0;
    while i < len
      invariant 0 <= i <= DumpCount(data, n)
      invariant |sb| == 3 * i
      invariant forall k :: 0 <= k < i ==> sb[3 * k..3 * k + 3] == HexCell(data[k])
    {
      var before := sb;
      sb := sb + HexCell(data[i]);
      assert forall k :: 0 <= k < i ==> sb[3 * k..3 * k + 3] == before[3 * k..3 * k + 3];
      i := i + 1;
    }
  }
}
