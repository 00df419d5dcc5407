/** The tag-length-value encoder of the QR code (packages/core/src/qr/tlv.ts). */
module Tlv {
  import opened Octets
  import opened Options

  /** The thrown RangeError carries the tag and the length of the first value that is too long. */
  datatype Result = Ok(out: array<byte>) | RangeError(tagNumber: nat, byteLength: nat)

  predicate Fits(value: seq<byte>) {
    |value| <= 255
  }

  /** Storing a number in a byte buffer keeps its low eight bits. */
  function Byte(n: nat): byte {
    (n % 256) as byte
  }

  function Segment(value: seq<byte>, tagNumber: nat): (s: seq<byte>)
    ensures |s| == 2 + |value|
  {
    [Byte(tagNumber), Byte(|value|)] + value
  }

  /** The encoding of `values`, whose last value has tag number `|values|`. */
  function Encoded(values: seq<seq<byte>>): seq<byte> {
    if values == [] then []
    else Encoded(values[..|values| - 1]) + Segment(values[|values| - 1], |values|)
  }

  function EncodedLength(values: seq<seq<byte>>): nat {
    if values == [] then 0 else EncodedLength(values[..|values| - 1]) + 2 + |values[|values| - 1]|
  }

  method CreateSegment(bytes: seq<byte>, tagNumber: nat) returns (segment: array<byte>)
    requires Fits(bytes)
    ensures fresh(segment) && segment[..] == Segment(bytes, tagNumber)
  {
    segment := new byte[2 + |bytes|];
    segment[0] := Byte(tagNumber);
    segment[1] := Byte(|bytes|);
    forall k | 0 <= k < |bytes| {
      segment[2 + k] := bytes[k];
    }
    assert segment[2..] == bytes;
  }

  /** The segments of `values`, in order. */
  ghost predicate AreSegments(segments: seq<array<byte>>, values: seq<seq<byte>>)
    reads segments
  {
    |segments| == |values| && forall i :: 0 <= i < |values| ==> segments[i][..] == Segment(values[i], i + 1)
  }

  /** The first loop, which stops at the first value that does not fit. */
  method CreateSegments(values: seq<seq<byte>>) returns (segments: seq<array<byte>>, totalLength: nat)
    ensures |segments| <= |values| && fresh(segments)
    ensures forall i :: 0 <= i < |segments| ==> Fits(values[i])
    ensures |segments| < |values| ==> !Fits(values[|segments|])
    ensures AreSegments(segments, values[..|segments|])
    ensures totalLength == EncodedLength(values[..|segments|])
  {
    segments, totalLength := [], 0;
    var index := 0;
    while index < |values|
      invariant index <= |values| && |segments| == index && fresh(segments)
      invariant totalLength == EncodedLength(values[..index])
      invariant forall i :: 0 <= i < index ==> Fits(values[i])
      invariant AreSegments(segments, values[..index])
    {
      var bytes := values[index];
      if |bytes| > 255 {
        return;
      }
      var segment := CreateSegment(bytes, index + 1);
      assert values[..index + 1][..index] == values[..index];
      segments := segments + [segment];
      totalLength := totalLength + segment.Length;
      index := index + 1;
    }
  }

  /** `out.set(segment, offset)` */
  method SetAt(out: array<byte>, segment: array<byte>, offset: nat)
    requires offset + segment.Length <= out.Length && out != segment
    modifies out
    ensures out[..offset + segment.Length] == old(out[..offset]) + segment[..]
  {
    forall k | 0 <= k < segment.Length {
      out[offset + k] := segment[k];
    }
    assert out[offset..offset + segment.Length] == segment[..];
    assert out[..offset + segment.Length] == out[..offset] + out[offset..offset + segment.Length];
  }

  /** The second loop, which fills the buffer exactly. */
  method JoinSegments(segments: seq<array<byte>>, totalLength: nat, ghost values: seq<seq<byte>>)
    returns (out: array<byte>)
    requires AreSegments(segments, values) && totalLength == EncodedLength(values)
    ensures fresh(out) && out.Length == totalLength && out[..] == Encoded(values)
  {
    out := new byte[totalLength];
    var offset, index := 0, 0;
    while index < |segments|
      invariant index <= |segments| && AreSegments(segments, values) && out !in segments
      invariant offset == EncodedLength(values[..index]) <= out.Length
      invariant out[..offset] == Encoded(values[..index])
    {
      LengthGrows(values, index + 1);
      assert values[..index + 1][..index] == values[..index];
      SetAt(out, segments[index], offset);
      offset := offset + segments[index].Length;
      index := index + 1;
    }
    assert values[..index] == values;
  }

  /** The whole encoder: it fails exactly when some value does not fit, and names the first one. */
  method CreateTLV(values: seq<seq<byte>>) returns (r: Result)
    ensures r.Ok? <==> forall i :: 0 <= i < |values| ==> Fits(values[i])
    ensures r.Ok? ==> fresh(r.out) && r.out[..] == Encoded(values) && r.out.Length == EncodedLength(values)
    ensures r.RangeError? ==>
      && 0 < r.tagNumber <= |values| && r.byteLength == |values[r.tagNumber - 1]| > 255
      && forall i :: 0 <= i < r.tagNumber - 1 ==> Fits(values[i])
  {
    var segments, totalLength := CreateSegments(values);
    if |segments| < |values| {
      return RangeError(|segments| + 1, |values[|segments|]|);
    }
    assert values[..|segments|] == values;
    var out := JoinSegments(segments, totalLength, values);
    return Ok(out);
  }

  lemma {:induction false} LengthGrows(values: seq<seq<byte>>, i: nat)
    requires i <= |values|
    ensures EncodedLength(values[..i]) <= EncodedLength(values)
    decreases |values|
  {
    if i < |values| {
      assert values[..|values| - 1][..i] == values[..i];
      LengthGrows(values[..|values| - 1], i);
    } else {
      assert values[..i] == values;
    }
  }

  lemma {:induction false} EncodedLengthIs(values: seq<seq<byte>>)
    ensures |Encoded(values)| == EncodedLength(values)
  {
    if values != [] {
      EncodedLengthIs(values[..|values| - 1]);
    }
  }

  /** Behind the segments before it stands each value, after its number, from 1, and its length. */
  lemma {:induction false} SegmentStands(values: seq<seq<byte>>, i: nat)
    requires i < |values| && Fits(values[i])
    ensures var at := EncodedLength(values[..i]);
      && at + 2 + |values[i]| <= |Encoded(values)|
      && Encoded(values)[at] as nat == (i + 1) % 256 && Encoded(values)[at + 1] as nat == |values[i]|
      && Encoded(values)[at + 2..at + 2 + |values[i]|] == values[i]
    decreases |values|
  {
    var init := values[..|values| - 1];
    EncodedLengthIs(init);
    if i == |init| {
      assert values[..i] == init;
    } else {
      assert init[..i] == values[..i];
      SegmentStands(init, i);
    }
  }

  // ---- Decoding --------------------------------------------------------------------------------

  /** Reads segments from the front, the next one with tag number `tagNumber`. */
  function Decoded(bytes: seq<byte>, tagNumber: nat): Option<seq<seq<byte>>> {
    if bytes == [] then Some([])
    else if |bytes| < 2 || bytes[0] != Byte(tagNumber) || |bytes| < 2 + bytes[1] as nat then None
    else
      var n := bytes[1] as nat;
      var rest := Decoded(bytes[2 + n..], tagNumber + 1);
      if rest.None? then None else Some([bytes[2..2 + n]] + rest.value)
  }

  /** The encoding from the front, to meet the decoder. */
  function EncodedFrom(values: seq<seq<byte>>, tagNumber: nat): seq<byte> {
    if values == [] then [] else Segment(values[0], tagNumber) + EncodedFrom(values[1..], tagNumber + 1)
  }

  lemma {:induction false} EncodedFromSnoc(values: seq<seq<byte>>, last: seq<byte>, tagNumber: nat)
    ensures EncodedFrom(values + [last], tagNumber)
      == EncodedFrom(values, tagNumber) + Segment(last, tagNumber + |values|)
  {
    if values == [] {
      assert [last][1..] == [];
    } else {
      assert (values + [last])[1..] == values[1..] + [last];
      EncodedFromSnoc(values[1..], last, tagNumber + 1);
    }
  }

  lemma {:induction false} EncodedFromFront(values: seq<seq<byte>>)
    ensures Encoded(values) == EncodedFrom(values, 1)
  {
    if values != [] {
      var init, last := values[..|values| - 1], values[|values| - 1];
      EncodedFromFront(init);
      assert init + [last] == values;
      EncodedFromSnoc(init, last, 1);
    }
  }

  lemma SegmentFirst(value: seq<byte>, tagNumber: nat, rest: seq<byte>)
    requires Fits(value)
    ensures var bytes := Segment(value, tagNumber) + rest;
      && bytes[0] == Byte(tagNumber) && bytes[1] as nat == |value|
      && bytes[2..2 + |value|] == value && bytes[2 + |value|..] == rest
  {
  }

  lemma {:induction false} DecodesFrom(values: seq<seq<byte>>, tagNumber: nat)
    requires forall i :: 0 <= i < |values| ==> Fits(values[i])
    ensures Decoded(EncodedFrom(values, tagNumber), tagNumber) == Some(values)
  {
    if values != [] {
      DecodesFrom(values[1..], tagNumber + 1);
      SegmentFirst(values[0], tagNumber, EncodedFrom(values[1..], tagNumber + 1));
      assert [values[0]] + values[1..] == values;
    }
  }

  lemma {:induction false} EncodesFrom(bytes: seq<byte>, tagNumber: nat)
    requires Decoded(bytes, tagNumber).Some?
    ensures EncodedFrom(Decoded(bytes, tagNumber).value, tagNumber) == bytes
    ensures forall value :: value in Decoded(bytes, tagNumber).value ==> Fits(value)
  {
    if bytes != [] {
      var n := bytes[1] as nat;
      EncodesFrom(bytes[2 + n..], tagNumber + 1);
      var values := Decoded(bytes, tagNumber).value;
      assert values[1..] == Decoded(bytes[2 + n..], tagNumber + 1).value;
      assert Segment(bytes[2..2 + n], tagNumber) + bytes[2 + n..] == bytes;
    }
  }

  /** The exact list of values comes back, and only an encoding decodes. */
  lemma DecodeInvertsEncode(values: seq<seq<byte>>, bytes: seq<byte>)
    requires forall i :: 0 <= i < |values| ==> Fits(values[i])
    ensures bytes == Encoded(values) <==> Decoded(bytes, 1) == Some(values)
  {
    EncodedFromFront(values);
    DecodesFrom(values, 1);
    if Decoded(bytes, 1) == Some(values) {
      EncodesFrom(bytes, 1);
    }
  }
}
