/** `createWavBlob` and `writeString`: a 44-byte RIFF WAVE header (a `fmt `
    chunk for 16-bit mono PCM at 24 kHz and a `data` chunk) written field by
    field into a fresh buffer through a little-endian `DataView`, followed by
    the PCM bytes. A header reader is the encoder's partner. */
module WavEncoder {
  import opened Wrappers
  import opened ByteBuffers

  const SampleRate: nat := 24000
  const NumChannels: nat := 1
  const BitsPerSample: nat := 16
  const BlockAlign: nat := (NumChannels * BitsPerSample) / 8
  const ByteRate: nat := SampleRate * BlockAlign
  const HeaderSize: nat := 44
  /** Size of the `fmt ` chunk body for PCM. */
  const FmtChunkSize: nat := 16
  /** Format tag of uncompressed PCM. */
  const PcmFormat: nat := 1

  const Two16: int := 0x1_0000
  const Two32: int := 0x1_0000_0000

  /** The bytes `setUint16(offset, v, true)` stores: v modulo 2^16, low byte first. */
  function LE16(v: int): (bs: seq<byte>)
    ensures |bs| == 2
  {
    var u := v % Two16;
    [(u % 256) as byte, (u / 256) as byte]
  }

  /** The bytes `setUint32(offset, v, true)` stores: v modulo 2^32, low byte first. */
  function LE32(v: int): (bs: seq<byte>)
    ensures |bs| == 4
  {
    var u := v % Two32;
    [(u % 256) as byte, (u / 256 % 256) as byte, (u / 0x1_0000 % 256) as byte, (u / 0x100_0000) as byte]
  }

  /** A little-endian unsigned 16-bit field. */
  function ReadLE16(bs: seq<byte>): (v: nat)
    requires |bs| == 2
  {
    bs[0] as nat + 256 * bs[1] as nat
  }

  /** A little-endian unsigned 32-bit field. */
  function ReadLE32(bs: seq<byte>): (v: nat)
    requires |bs| == 4
  {
    bs[0] as nat + 256 * bs[1] as nat + 0x1_0000 * bs[2] as nat + 0x100_0000 * bs[3] as nat
  }

  lemma LE16RoundTrip(v: int)
    ensures ReadLE16(LE16(v)) == v % Two16
  {
  }

  lemma LE32RoundTrip(v: int)
    ensures ReadLE32(LE32(v)) == v % Two32
  {
    var u := v % Two32;
    var q0 := u / 256;
    var q1 := q0 / 256;
    assert u / 0x1_0000 == q1;
    assert u / 0x100_0000 == q1 / 256;
    assert u == u % 256 + 256 * (q0 % 256) + 0x1_0000 * (q1 % 256) + 0x100_0000 * (q1 / 256);
  }

  /** The bytes `writeString` stores for an ASCII tag. */
  function Tag(s: string): (bs: seq<byte>)
    ensures |bs| == |s|
  {
    ByteValues(s)
  }

  /** The RIFF chunk descriptor: tag, size of the rest of the file, form type. */
  function RiffDescriptor(dataSize: nat): (h: seq<byte>)
    ensures |h| == 12
  {
    Tag("RIFF") + LE32(36 + dataSize) + Tag("WAVE")
  }

  /** The `fmt ` sub-chunk of 16-bit mono PCM at 24 kHz. */
  function FmtChunk(): (h: seq<byte>)
    ensures |h| == 24
  {
    Tag("fmt ") + LE32(FmtChunkSize) + LE16(PcmFormat) + LE16(NumChannels) + LE32(SampleRate)
    + LE32(ByteRate) + LE16(BlockAlign) + LE16(BitsPerSample)
  }

  /** The `data` sub-chunk's tag and size. */
  function DataChunkHeader(dataSize: nat): (h: seq<byte>)
    ensures |h| == 8
  {
    Tag("data") + LE32(dataSize)
  }

  /** The header as `createWavBlob` lays it out. */
  function Header(dataSize: nat): (h: seq<byte>)
    ensures |h| == HeaderSize
  {
    RiffDescriptor(dataSize) + FmtChunk() + DataChunkHeader(dataSize)
  }

  /** The contents of the blob `createWavBlob` returns. */
  function WavBytes(pcm: seq<byte>): (wav: seq<byte>)
  {
    Header(|pcm|) + pcm
  }

  /** The fields a reader finds in a WAVE header. */
  datatype WavInfo = WavInfo(riffSize: nat, fmtSize: nat, audioFormat: nat, channels: nat, sampleRate: nat,
                             byteRate: nat, blockAlign: nat, bitsPerSample: nat, dataSize: nat, data: seq<byte>)

  /** Reads a canonical 44-byte WAVE header: the four tags at their offsets
      and the little-endian fields between them; the rest is the sample data. */
  function ParseWav(bs: seq<byte>): (r: Option<WavInfo>)
    ensures r.Some? ==> |bs| >= HeaderSize && r.value.data == bs[HeaderSize..]
  {
    if |bs| < HeaderSize || bs[0..4] != Tag("RIFF") || bs[8..12] != Tag("WAVE")
       || bs[12..16] != Tag("fmt ") || bs[36..40] != Tag("data")
    then None
    else Some(WavInfo(ReadLE32(bs[4..8]), ReadLE32(bs[16..20]), ReadLE16(bs[20..22]), ReadLE16(bs[22..24]),
                      ReadLE32(bs[24..28]), ReadLE32(bs[28..32]), ReadLE16(bs[32..34]), ReadLE16(bs[34..36]),
                      ReadLE32(bs[40..44]), bs[HeaderSize..]))
  }

  /** Thirteen fields of the header's sizes laid end to end, followed by the
      sample data, can be cut apart again at the header's fixed offsets. */
  lemma FieldOffsets(a1: seq<byte>, a2: seq<byte>, a3: seq<byte>, a4: seq<byte>, a5: seq<byte>,
                     a6: seq<byte>, a7: seq<byte>, a8: seq<byte>, a9: seq<byte>, a10: seq<byte>,
                     a11: seq<byte>, a12: seq<byte>, a13: seq<byte>, data: seq<byte>)
    requires |a1| == |a2| == |a3| == |a4| == |a5| == 4 && |a6| == |a7| == 2 && |a8| == |a9| == 4
    requires |a10| == |a11| == 2 && |a12| == |a13| == 4
    ensures var w := (a1 + a2 + a3) + (a4 + a5 + a6 + a7 + a8 + a9 + a10 + a11) + (a12 + a13) + data;
      && |w| == HeaderSize + |data|
      && w[0..4] == a1 && w[4..8] == a2 && w[8..12] == a3 && w[12..16] == a4 && w[16..20] == a5
      && w[20..22] == a6 && w[22..24] == a7 && w[24..28] == a8 && w[28..32] == a9 && w[32..34] == a10
      && w[34..36] == a11 && w[36..40] == a12 && w[40..44] == a13 && w[HeaderSize..] == data
  {
  }

  /** Reading back what the encoder writes gives the sample data unchanged,
      `data` size |pcm| and RIFF size 36 + |pcm| (both taken modulo 2^32, as
      `setUint32` stores them), PCM format 1, one channel, 24000 Hz, 16 bits,
      block align channels * bits / 8 = 2 and byte rate
      sampleRate * blockAlign = 48000. */
  lemma {:induction false} WavRoundTrip(pcm: seq<byte>)
    ensures ParseWav(WavBytes(pcm)) == Some(WavInfo((36 + |pcm|) % Two32, 16, 1, 1, 24000, 48000, 2, 16,
                                                    |pcm| % Two32, pcm))
    ensures |WavBytes(pcm)| == 8 + 36 + |pcm|
  {
    var d := |pcm|;
    FieldOffsets(Tag("RIFF"), LE32(36 + d), Tag("WAVE"), Tag("fmt "), LE32(FmtChunkSize), LE16(PcmFormat),
                 LE16(NumChannels), LE32(SampleRate), LE32(ByteRate), LE16(BlockAlign), LE16(BitsPerSample),
                 Tag("data"), LE32(d), pcm);
    LE32RoundTrip(36 + d);
    LE32RoundTrip(d);
    LE32RoundTrip(FmtChunkSize);
    LE32RoundTrip(SampleRate);
    LE32RoundTrip(ByteRate);
    LE16RoundTrip(PcmFormat);
    LE16RoundTrip(NumChannels);
    LE16RoundTrip(BlockAlign);
    LE16RoundTrip(BitsPerSample);
  }

  /** `writeString(view, offset, string)`: one byte per character, character
      i at offset + i; nothing else in the buffer changes. */
  method WriteString(view: array<byte>, offset: nat, s: string)
    requires offset + |s| <= view.Length
    modifies view
    ensures view[..offset + |s|] == old(view[..offset]) + ByteValues(s)
    ensures forall j :: offset + |s| <= j < view.Length ==> view[j] == old(view[j])
  {
    var i := 0;
    while i < |s|
      invariant 0 <= i <= |s|
      invariant view[..offset] == old(view[..offset])
      invariant view[offset..offset + i] == ByteValues(s)[..i]
      invariant forall j :: offset + |s| <= j < view.Length ==> view[j] == old(view[j])
    {
      view[offset + i] := ToUint8(s[i] as int);
      i := i + 1;
    }
    assert view[..offset + |s|] == view[..offset] + view[offset..offset + |s|];
  }

  /** `view.setUint16(offset, v, true)`. */
  method SetUint16(view: array<byte>, offset: nat, v: int)
    requires offset + 2 <= view.Length
    modifies view
    ensures view[..offset + 2] == old(view[..offset]) + LE16(v)
    ensures forall j :: offset + 2 <= j < view.Length ==> view[j] == old(view[j])
  {
    var bs := LE16(v);
    view[offset] := bs[0];
    view[offset + 1] := bs[1];
  }

  /** `view.setUint32(offset, v, true)`. */
  method SetUint32(view: array<byte>, offset: nat, v: int)
    requires offset + 4 <= view.Length
    modifies view
    ensures view[..offset + 4] == old(view[..offset]) + LE32(v)
    ensures forall j :: offset + 4 <= j < view.Length ==> view[j] == old(view[j])
  {
    var bs := LE32(v);
    view[offset] := bs[0];
    view[offset + 1] := bs[1];
    view[offset + 2] := bs[2];
    view[offset + 3] := bs[3];
  }

  /** The writes under the source's "RIFF chunk descriptor" comment. */
  method WriteRiffDescriptor(view: array<byte>, dataSize: nat)
    requires HeaderSize <= view.Length
    modifies view
    ensures view[..12] == RiffDescriptor(dataSize)
    ensures view[12..] == old(view[12..])
  {
    assert view[..0] == [];
    WriteString(view, 0, "RIFF");
    SetUint32(view, 4, 36 + dataSize);
    WriteString(view, 8, "WAVE");
  }

  /** The writes under the source's "FMT sub-chunk" comment. */
  method WriteFmtChunk(view: array<byte>)
    requires HeaderSize <= view.Length
    modifies view
    ensures view[..36] == old(view[..12]) + FmtChunk()
    ensures view[36..] == old(view[36..])
  {
    ghost var before := view[..12];
    WriteString(view, 12, "fmt ");
    SetUint32(view, 16, FmtChunkSize);
    SetUint16(view, 20, PcmFormat);
    SetUint16(view, 22, NumChannels);
    SetUint32(view, 24, SampleRate);
    SetUint32(view, 28, ByteRate);
    SetUint16(view, 32, BlockAlign);
    SetUint16(view, 34, BitsPerSample);
    Regroup(before, Tag("fmt "), LE32(FmtChunkSize), LE16(PcmFormat), LE16(NumChannels), LE32(SampleRate),
            LE32(ByteRate), LE16(BlockAlign), LE16(BitsPerSample));
  }

  lemma Regroup(p: seq<byte>, a1: seq<byte>, a2: seq<byte>, a3: seq<byte>, a4: seq<byte>,
                a5: seq<byte>, a6: seq<byte>, a7: seq<byte>, a8: seq<byte>)
    ensures p + a1 + a2 + a3 + a4 + a5 + a6 + a7 + a8 == p + (a1 + a2 + a3 + a4 + a5 + a6 + a7 + a8)
  {
  }

  /** The writes under the source's "data sub-chunk" comment. */
  method WriteDataChunkHeader(view: array<byte>, dataSize: nat)
    requires HeaderSize <= view.Length
    modifies view
    ensures view[..HeaderSize] == old(view[..36]) + DataChunkHeader(dataSize)
    ensures view[HeaderSize..] == old(view[HeaderSize..])
  {
    WriteString(view, 36, "data");
    SetUint32(view, 40, dataSize);
  }

  /** `createWavBlob(pcmData)`: the buffer holds the 44-byte header and then
      the PCM bytes verbatim. */
  method CreateWavBlob(pcmData: seq<byte>) returns (buffer: array<byte>)
    ensures fresh(buffer)
    ensures buffer.Length == HeaderSize + |pcmData|
    ensures buffer[..] == WavBytes(pcmData)
  {
    var dataSize := |pcmData|;
    buffer := new byte[HeaderSize + dataSize];
    WriteRiffDescriptor(buffer, dataSize);
    WriteFmtChunk(buffer);
    WriteDataChunkHeader(buffer, dataSize);
    ghost var header := buffer[..HeaderSize];
    assert header == Header(dataSize);
    forall j | 0 <= j < dataSize {
      buffer[HeaderSize + j] := pcmData[j];
    }
    assert buffer[..HeaderSize] == header;
    assert buffer[HeaderSize..] == pcmData;
    assert buffer[..] == buffer[..HeaderSize] + buffer[HeaderSize..];
  }
}
