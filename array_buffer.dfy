/**
 * ArrayBuffer.prototype: the byteLength and detached getters, slice (section
 * 24.1.4.3 of ECMAScript 2015) and transfer (the ArrayBuffer transfer
 * proposal). A buffer owns a byte array; detaching it drops the array, after
 * which its byte length reads as 0.
 */
module ArrayBufferBuiltins {
  import opened Wrappers

  /** Heap buffers hold a byte[], direct ones a ByteBuffer; interop buffers wrap a foreign buffer. */
  datatype BufferKind = HeapBuffer | DirectBuffer | InteropBuffer

  class ArrayBuffer {
    var bytes: array<bv8>
    var detached: bool
    /** Whether the buffer was created with a detach key other than undefined. */
    const hasDetachKey: bool
    const kind: BufferKind

    /** A detached buffer holds no bytes. */
    ghost predicate Valid()
      reads this, bytes
    {
      detached ==> bytes.Length == 0
    }

    /** A buffer over an existing byte array. */
    constructor Wrap(kind: BufferKind, bytes: array<bv8>)
      ensures this.kind == kind && this.bytes == bytes && !detached && !hasDetachKey
      ensures Valid()
    {
      this.kind := kind;
      this.bytes := bytes;
      this.detached := false;
      this.hasDetachKey := false;
    }

    /** byteLength: the length of the byte array, 0 once detached. */
    function ByteLength(): (r: int)
      reads this, bytes
      requires Valid()
      ensures r == bytes.Length
      ensures detached ==> r == 0
    {
      if detached then 0 else bytes.Length
    }

    /** DetachArrayBuffer: the byte array is dropped and the buffer is marked detached. */
    method Detach()
      modifies this
      ensures detached && fresh(bytes) && bytes.Length == 0
      ensures Valid()
    {
      detached := true;
      bytes := new bv8[0];
    }
  }

  /** `n` zero bytes. */
  function Zeros(n: nat): (r: seq<bv8>)
    ensures |r| == n && forall i :: 0 <= i < n ==> r[i] == 0
  {
    seq(n, _ => 0)
  }

  /**
   * getStart and getEnd: a negative relative index counts back from the length
   * and stops at 0, a non-negative one stops at the length; an undefined end is
   * the length.
   */
  function RelativeIndex(relative: int, len: nat): (r: nat)
    ensures r <= len
    ensures 0 <= relative <= len ==> r == relative
    ensures -(len as int) <= relative < 0 ==> r == len + relative
    ensures relative < -(len as int) ==> r == 0
    ensures len < relative ==> r == len
  {
    if relative < 0 then (if len + relative > 0 then len + relative else 0)
    else if relative < len then relative else len
  }

  function GetStart(start: int, len: nat): (r: nat)
    ensures r <= len
  {
    RelativeIndex(start, len)
  }

  function GetEnd(end: Option<int>, len: nat): (r: nat)
    ensures r <= len
    ensures end.None? ==> r == len
  {
    RelativeIndex(if end.None? then len else end.value, len)
  }

  /** clamp: the index moved into [lower, upper]. */
  function Clamp(index: int, lower: int, upper: int): (r: int)
    ensures lower <= upper ==> lower <= r <= upper
    ensures lower <= index <= upper ==> r == index
    ensures index < lower ==> r == lower
    ensures lower <= upper < index ==> r == upper
  {
    var m := if index < upper then index else upper;
    if m > lower then m else lower
  }

  /** clampIndex: a negative index counts back from the upper bound, and the result is clamped to [lower, upper]. */
  function ClampIndex(index: int, lower: int, upper: int): (r: int)
    ensures lower <= upper ==> lower <= r <= upper
    ensures 0 <= lower <= index <= upper ==> r == index
    ensures index < 0 && lower <= index + upper <= upper ==> r == index + upper
  {
    Clamp(if index >= 0 then index else index + upper, lower, upper)
  }

  /** getStart and getEnd already give indices in range, which clampIndex keeps. */
  lemma ClampIndexKeepsRelativeIndices(begin: int, end: Option<int>, len: nat)
    ensures ClampIndex(GetStart(begin, len), 0, len) == GetStart(begin, len)
    ensures GetStart(begin, len) <= GetEnd(end, len) ==>
              ClampIndex(GetEnd(end, len), GetStart(begin, len), len) == GetEnd(end, len)
  {
  }

  /**
   * The byte range sliceIntInt copies: the begin is clamped to [0, len], the end
   * to [begin, len].
   */
  function SliceRange(begin: int, end: int, len: nat): (r: (nat, nat))
    ensures r.0 <= r.1 <= len
    ensures 0 <= begin <= end <= len ==> r == (begin, end)
  {
    var clampedBegin := ClampIndex(begin, 0, len);
    var clampedEnd := ClampIndex(end, clampedBegin, len);
    (clampedBegin, clampedEnd)
  }

  /**
   * The heap slice takes max(clampedEnd - clampedBegin, 0) as the new length; the
   * direct slice omits the max, which changes nothing since the end is never
   * below the begin.
   */
  lemma SliceLengthNeverNegative(begin: int, end: int, len: nat)
    ensures var (b, e) := SliceRange(begin, end, len);
            (if e - b > 0 then e - b else 0) == e - b
  {
  }

  /** The bytes a slice of `s` holds. */
  function SliceBytes(s: seq<bv8>, begin: int, end: int): (r: seq<bv8>)
    ensures var (b, e) := SliceRange(begin, end, |s|);
            |r| == e - b && forall i :: 0 <= i < |r| ==> r[i] == s[b + i]
  {
    var (b, e) := SliceRange(begin, end, |s|);
    s[b..e]
  }

  /** Slicing from 0 to the length copies the whole buffer; a negative begin counts from the end. */
  lemma SliceWholeAndTail(s: seq<bv8>, k: nat)
    requires k <= |s|
    ensures SliceBytes(s, 0, |s|) == s
    ensures k > 0 ==> SliceBytes(s, -(k as int), |s|) == s[|s| - k..]
  {
  }

  /** slice copies the bytes from the relative begin to the relative end, or none when the end comes first. */
  lemma RelativeSliceBytes(s: seq<bv8>, begin: int, end: Option<int>)
    ensures var b := GetStart(begin, |s|);
            var e := GetEnd(end, |s|);
            SliceBytes(s, b, e) == if b <= e then s[b..e] else []
  {
    ClampIndexKeepsRelativeIndices(begin, end, |s|);
  }

  /**
   * System.arraycopy: `length` bytes of `src` from `srcPos` land in `dst` from
   * `dstPos`, read before any is written (so the arrays may be the same); the
   * rest of `dst` is unchanged.
   */
  method ArrayCopy(src: array<bv8>, srcPos: nat, dst: array<bv8>, dstPos: nat, length: nat)
    requires srcPos + length <= src.Length && dstPos + length <= dst.Length
    modifies dst
    ensures forall k :: 0 <= k < dst.Length ==>
              dst[k] == if dstPos <= k < dstPos + length then old(src[srcPos + k - dstPos]) else old(dst[k])
  {
    var chunk := src[srcPos..srcPos + length];
    var i := 0;
    while i < length
      invariant 0 <= i <= length
      invariant forall k :: 0 <= k < dst.Length ==>
                  dst[k] == if dstPos <= k < dstPos + i then chunk[k - dstPos] else old(dst[k])
    {
      dst[dstPos + i] := chunk[i];
      i := i + 1;
    }
  }

  /**
   * What the species constructor produced: it threw, it produced something that
   * is not an ArrayBuffer of the receiver's kind, or it produced a buffer, and
   * its user code may have detached the receiver on the way.
   */
  datatype SpeciesResult =
    | SpeciesThrows(error: ErrorKind)
    | NotAnArrayBuffer
    | Constructed(buffer: ArrayBuffer, detachesSource: bool)

  /**
   * constructNewArrayBuffer: the new object must be an ArrayBuffer of the same
   * kind, not detached, not the receiver and at least `newLen` bytes long, and the
   * receiver must still be attached afterwards; each failure is a TypeError.
   */
  method ConstructNewArrayBuffer(source: ArrayBuffer, newLen: nat, species: SpeciesResult) returns (r: Result<ArrayBuffer>)
    requires source.Valid()
    modifies source
    ensures source.Valid()
    ensures !species.Constructed? || !species.detachesSource ==> unchanged(source)
    ensures species.SpeciesThrows? ==> r == Err(species.error)
    ensures species.NotAnArrayBuffer? ==> r == Err(TypeError)
    ensures species.Constructed? ==>
              (r.Ok? <==> species.buffer.kind == source.kind && !old(species.buffer.detached) && species.buffer != source
                          && species.buffer.bytes.Length >= newLen && !old(source.detached) && !species.detachesSource)
    ensures species.Constructed? && r.Err? ==> r.error == TypeError
    ensures r.Ok? ==> r.value == species.buffer && unchanged(source)
  {
    match species
    case SpeciesThrows(e) => return Err(e);
    case NotAnArrayBuffer => return Err(TypeError);
    case Constructed(buffer, detachesSource) =>
      var newDetached := buffer.detached;
      if detachesSource {
        source.Detach();
      }
      if buffer.kind != source.kind {
        return Err(TypeError);
      }
      if newDetached {
        return Err(TypeError);
      }
      if buffer == source {
        return Err(TypeError);
      }
      if buffer.bytes.Length < newLen {
        return Err(TypeError);
      }
      if source.detached {
        return Err(TypeError);
      }
      return Ok(buffer);
  }

  /**
   * sliceIntInt and sliceDirectIntInt: a detached receiver is a TypeError; the
   * new buffer comes from the species constructor and its first bytes are the
   * receiver's bytes in the clamped range.
   */
  method SliceIntInt(source: ArrayBuffer, begin: int, end: int, species: SpeciesResult) returns (r: Result<ArrayBuffer>)
    requires source.kind != InteropBuffer && source.Valid()
    modifies source, if species.Constructed? then {species.buffer.bytes} else {}
    ensures source.Valid()
    ensures old(source.detached) ==> r == Err(TypeError)
    ensures r.Ok? ==> species.Constructed? && r.value == species.buffer && source.detached == old(source.detached)
    ensures r.Ok? ==> |SliceBytes(old(source.bytes[..]), begin, end)| <= |old(species.buffer.bytes[..])|
    ensures r.Ok? ==> r.value.bytes[..] == SliceBytes(old(source.bytes[..]), begin, end)
                                          + old(species.buffer.bytes[..])[|SliceBytes(old(source.bytes[..]), begin, end)|..]
    ensures r.Ok? && r.value.bytes != source.bytes ==> source.bytes[..] == old(source.bytes[..])
  {
    if source.detached {
      return Err(TypeError);
    }
    var len := source.bytes.Length;
    var (clampedBegin, clampedEnd) := SliceRange(begin, end, len);
    var newLen := if clampedEnd - clampedBegin > 0 then clampedEnd - clampedBegin else 0;
    ghost var expected := SliceBytes(source.bytes[..], begin, end);
    assert |expected| == newLen;
    r := ConstructNewArrayBuffer(source, newLen, species);
    if r.Err? {
      return;
    }
    var target := r.value;
    ghost var before := target.bytes[..];
    ArrayCopy(source.bytes, clampedBegin, target.bytes, 0, newLen);
    assert target.bytes[..] == expected + before[newLen..];
  }

  /**
   * slice: begin and end are made relative indices first (an undefined end is the
   * length), then sliced as by sliceIntInt.
   */
  method Slice(source: ArrayBuffer, begin: int, end: Option<int>, species: SpeciesResult) returns (r: Result<ArrayBuffer>)
    requires source.kind != InteropBuffer && source.Valid()
    modifies source, if species.Constructed? then {species.buffer.bytes} else {}
    ensures source.Valid()
    ensures old(source.detached) ==> r == Err(TypeError)
    ensures r.Ok? ==> species.Constructed? && r.value == species.buffer
    ensures r.Ok? ==> (var s := old(source.bytes[..]);
                       var expected := SliceBytes(s, GetStart(begin, |s|), GetEnd(end, |s|));
                       |expected| <= |old(species.buffer.bytes[..])| &&
                       r.value.bytes[..] == expected + old(species.buffer.bytes[..])[|expected|..])
  {
    if source.detached {
      return Err(TypeError);
    }
    var len := source.bytes.Length;
    var b := GetStart(begin, len);
    var e := GetEnd(end, len);
    ClampIndexKeepsRelativeIndices(begin, end, len);
    r := SliceIntInt(source, b, e, species);
  }

  /**
   * The contents of a buffer transferred to `newLength` bytes: the first
   * min(newLength, old length) bytes are kept and any further bytes are zero.
   */
  function Resized(s: seq<bv8>, newLength: nat): (r: seq<bv8>)
    ensures |r| == newLength
    ensures forall i :: 0 <= i < newLength && i < |s| ==> r[i] == s[i]
    ensures forall i :: |s| <= i < newLength ==> r[i] == 0
  {
    if newLength <= |s| then s[..newLength] else s + Zeros(newLength - |s|)
  }

  /** Growing a buffer and shrinking it back restores its contents. */
  lemma ResizedRoundTrip(s: seq<bv8>, n: nat)
    requires |s| <= n
    ensures Resized(Resized(s, n), |s|) == s
  {
    var r := Resized(Resized(s, n), |s|);
    assert forall i :: 0 <= i < |s| ==> r[i] == s[i];
  }

  /** Two resizes, the second not longer than the first, are one resize. */
  lemma ResizedTwice(s: seq<bv8>, n: nat, m: nat)
    requires m <= n
    ensures Resized(Resized(s, n), m) == Resized(s, m)
  {
    var a := Resized(Resized(s, n), m);
    var b := Resized(s, m);
    assert forall i :: 0 <= i < m ==> a[i] == b[i];
  }

  /**
   * transfer: the new length is the old one when undefined, and a RangeError
   * when negative or above the maximum; a detached receiver, a receiver with a
   * detach key and an interop receiver are TypeErrors. Otherwise a new buffer of
   * the same kind gets the bytes (the same array when the length is unchanged,
   * a copy padded with zeros or cut short otherwise) and the receiver is detached.
   */
  method Transfer(buffer: ArrayBuffer, newLength: Option<int>, maxByteLength: int) returns (r: Result<ArrayBuffer>)
    requires buffer.Valid()
    modifies buffer
    ensures newLength.Some? && (newLength.value < 0 || newLength.value > maxByteLength) ==> r == Err(RangeError)
    ensures r.Err? ==> unchanged(buffer)
    ensures r.Ok? <==> (newLength.None? || 0 <= newLength.value <= maxByteLength)
                       && !old(buffer.detached) && !buffer.hasDetachKey && buffer.kind != InteropBuffer
    ensures r.Err? && !(newLength.Some? && (newLength.value < 0 || newLength.value > maxByteLength)) ==> r.error == TypeError
    ensures r.Ok? ==> fresh(r.value) && r.value.kind == buffer.kind && !r.value.detached && r.value.Valid()
    ensures r.Ok? ==> r.value.bytes[..] == Resized(old(buffer.bytes[..]), if newLength.None? then old(buffer.bytes.Length) else newLength.value)
    ensures r.Ok? && (newLength.None? || newLength.value == old(buffer.bytes.Length)) ==> r.value.bytes == old(buffer.bytes)
    ensures r.Ok? ==> buffer.Valid() && IsDetached(buffer) && buffer.ByteLength() == 0
    ensures r.Ok? ==> !IsDetached(r.value)
  {
    var newByteLength := 0;
    if newLength.Some? {
      if newLength.value < 0 || newLength.value > maxByteLength {
        return Err(RangeError);
      }
      newByteLength := newLength.value;
    }
    if buffer.detached {
      return Err(TypeError);
    }
    var oldByteLength := buffer.bytes.Length;
    if newLength.None? {
      newByteLength := oldByteLength;
    }
    if buffer.hasDetachKey {
      return Err(TypeError);
    }
    if buffer.kind == InteropBuffer {
      return Err(TypeError);
    }
    var copyLength := if newByteLength < oldByteLength then newByteLength else oldByteLength;
    var storage := buffer.bytes;
    if newByteLength != oldByteLength {
      var newArray := new bv8[newByteLength](_ => 0);
      ArrayCopy(storage, 0, newArray, 0, copyLength);
      assert newArray[..] == Resized(old(buffer.bytes[..]), newByteLength);
      storage := newArray;
    } else {
      assert storage[..] == Resized(old(buffer.bytes[..]), newByteLength);
    }
    var newBuffer := new ArrayBuffer.Wrap(buffer.kind, storage);
    buffer.Detach();
    return Ok(newBuffer);
  }

  /** detached: whether the buffer has been detached. */
  function IsDetached(buffer: ArrayBuffer): (r: bool)
    reads buffer, buffer.bytes
    requires buffer.Valid()
    ensures r == buffer.detached
    ensures r ==> buffer.ByteLength() == 0
    ensures !r ==> buffer.ByteLength() == buffer.bytes.Length
  {
    buffer.detached
  }
}
