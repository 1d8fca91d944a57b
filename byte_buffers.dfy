/** Byte arrays as the source builds them: a `Uint8Array` filled from a binary
    string one character code at a time, and the in-place concatenation of
    several such arrays into one buffer. */
module ByteBuffers {

  /** One element of a `Uint8Array`. */
  newtype byte = x: int | 0 <= x < 256

  /** A store into a `Uint8Array` keeps the value modulo 256. */
  function ToUint8(code: int): (b: byte)
    ensures b as int == code % 256
  {
    (code % 256) as byte
  }

  /** The bytes of a binary string, one per character code. */
  function ByteValues(s: string): (bs: seq<byte>)
    ensures |bs| == |s|
    ensures forall i :: 0 <= i < |s| ==> bs[i] as int == s[i] as int % 256
  {
    seq(|s|, i requires 0 <= i < |s| => ToUint8(s[i] as int))
  }

  /** A binary string (every character code below 256, as `atob` returns it)
      is carried over byte for byte: byte i is character code i. */
  lemma {:induction false} BinaryStringBytes(s: string)
    requires forall i :: 0 <= i < |s| ==> s[i] as int < 256
    ensures |ByteValues(s)| == |s|
    ensures forall i :: 0 <= i < |s| ==> ByteValues(s)[i] as int == s[i] as int
  {
    forall i | 0 <= i < |s|
      ensures ByteValues(s)[i] as int == s[i] as int
    {
      assert 0 <= s[i] as int < 256;
    }
  }

  /** The loop `bytes[i] = decoded.charCodeAt(i)` over a fresh `Uint8Array`
      of the decoded string's length. */
  method DecodeBinaryString(decoded: string) returns (bytes: array<byte>)
    ensures bytes.Length == |decoded|
    ensures forall i :: 0 <= i < |decoded| ==> bytes[i] as int == decoded[i] as int % 256
  {
    bytes := new byte[|decoded|];
    var i := 0;
    while i < |decoded|
      invariant 0 <= i <= |decoded|
      invariant forall j :: 0 <= j < i ==> bytes[j] as int == decoded[j] as int % 256
    {
      bytes[i] := ToUint8(decoded[i] as int);
      i := i + 1;
    }
  }

  /** The concatenation of a list of buffers, in order. */
  function Flatten(parts: seq<seq<byte>>): (r: seq<byte>)
  {
    if parts == [] then [] else parts[0] + Flatten(parts[1..])
  }

  /** `parts.reduce((acc, val) => acc + val.length, 0)` */
  function TotalLength(parts: seq<seq<byte>>): (n: nat)
  {
    if parts == [] then 0 else |parts[0]| + TotalLength(parts[1..])
  }

  /** The offset at which part i starts: the summed lengths of the parts before it. */
  function Offset(parts: seq<seq<byte>>, i: nat): (n: nat)
    requires i <= |parts|
  {
    TotalLength(parts[..i])
  }

  lemma {:induction false} FlattenLength(parts: seq<seq<byte>>)
    ensures |Flatten(parts)| == TotalLength(parts)
  {
    if parts != [] {
      FlattenLength(parts[1..]);
    }
  }

  lemma {:induction false} FlattenAppend(parts: seq<seq<byte>>, last: seq<byte>)
    ensures Flatten(parts + [last]) == Flatten(parts) + last
  {
    if parts == [] {
      assert parts + [last] == [last];
    } else {
      assert (parts + [last])[1..] == parts[1..] + [last];
      FlattenAppend(parts[1..], last);
    }
  }

  lemma {:induction false} TotalLengthAppend(parts: seq<seq<byte>>, last: seq<byte>)
    ensures TotalLength(parts + [last]) == TotalLength(parts) + |last|
  {
    FlattenAppend(parts, last);
    FlattenLength(parts + [last]);
    FlattenLength(parts);
  }

  /** Part i sits unchanged at bytes [Offset(i), Offset(i) + |part i|) of the
      concatenation, and the concatenation is exactly as long as all parts together. */
  lemma {:induction false} PartPlacement(parts: seq<seq<byte>>, i: nat)
    requires i < |parts|
    ensures |Flatten(parts)| == TotalLength(parts)
    ensures Offset(parts, i) + |parts[i]| <= |Flatten(parts)|
    ensures Flatten(parts)[Offset(parts, i)..Offset(parts, i) + |parts[i]|] == parts[i]
  {
    FlattenLength(parts);
    var k := Offset(parts, i);
    assert parts == parts[..i] + [parts[i]] + parts[i + 1..];
    FlattenSplit(parts[..i] + [parts[i]], parts[i + 1..]);
    FlattenAppend(parts[..i], parts[i]);
    FlattenLength(parts[..i]);
    assert Flatten(parts) == Flatten(parts[..i]) + parts[i] + Flatten(parts[i + 1..]);
  }

  lemma {:induction false} FlattenSplit(xs: seq<seq<byte>>, ys: seq<seq<byte>>)
    ensures Flatten(xs + ys) == Flatten(xs) + Flatten(ys)
  {
    if xs == [] {
      assert xs + ys == ys;
    } else {
      assert (xs + ys)[1..] == xs[1..] + ys;
      FlattenSplit(xs[1..], ys);
    }
  }

  /** The fill loop: a buffer of the total length, then
      `concatenatedAudio.set(chunk, offset); offset += chunk.length` per part. */
  method Concatenate(parts: seq<seq<byte>>) returns (out: array<byte>)
    ensures out.Length == TotalLength(parts)
    ensures out[..] == Flatten(parts)
  {
    FlattenLength(parts);
    out := new byte[TotalLength(parts)];
    var offset := 0;
    var i := 0;
    while i < |parts|
      invariant 0 <= i <= |parts|
      invariant offset == TotalLength(parts[..i])
      invariant offset <= out.Length
      invariant out[..offset] == Flatten(parts[..i])
    {
      var chunk := parts[i];
      assert parts[..i + 1] == parts[..i] + [chunk];
      TotalLengthAppend(parts[..i], chunk);
      FlattenAppend(parts[..i], chunk);
      PrefixFits(parts, i + 1);
      ghost var before := out[..offset];
      forall j | 0 <= j < |chunk| {
        out[offset + j] := chunk[j];
      }
      assert out[..offset] == before;
      assert out[offset..offset + |chunk|] == chunk;
      assert out[..offset + |chunk|] == out[..offset] + out[offset..offset + |chunk|];
      offset := offset + |chunk|;
      i := i + 1;
    }
    assert parts[..i] == parts;
  }

  /** Every prefix of the parts fits into the total length. */
  lemma {:induction false} PrefixFits(parts: seq<seq<byte>>, i: nat)
    requires i <= |parts|
    ensures TotalLength(parts[..i]) <= TotalLength(parts)
  {
    assert parts == parts[..i] + parts[i..];
    FlattenSplit(parts[..i], parts[i..]);
    FlattenLength(parts);
    FlattenLength(parts[..i]);
  }
}
