/**
 * `Shader::Buffer` (include/MyRender/shaders/Shader.h, src/shaders/Shader.cpp):
 * one driver buffer object of a fixed target type, with whole-buffer write,
 * resize, size query and read-back.
 *
 * A caller's `std::vector<T>` is modelled by its byte image: `size() *
 * sizeof(T)` bytes.
 */
module ShaderBuffers {
  import opened Common
  import opened GlDriver

  /**
   * What `Buffer::getData` leaves in the caller's bytes `dst` when the buffer
   * holds `src`: it asks for `min(size, capacity)` bytes starting at
   * `byteOffset`, without taking the offset off the length.
   */
  function ReadBack(dst: seq<Byte>, src: seq<Byte>, byteOffset: nat): (r: seq<Byte>)
    ensures |r| == |dst|
  {
    SubData(dst, src, byteOffset, Min(|src|, |dst|))
  }

  /** Writing n bytes and reading back into n bytes from offset 0 returns them. */
  lemma ReadBackRoundTrip(data: seq<Byte>, dst: seq<Byte>)
    requires |dst| == |data|
    ensures ReadBack(dst, data, 0) == data
  {
    assert data[0..|data|] == data;
  }

  /** With room for more, the first n bytes are the data and the rest is left alone. */
  lemma ReadBackLargerDestination(data: seq<Byte>, dst: seq<Byte>)
    requires |dst| >= |data|
    ensures ReadBack(dst, data, 0)[..|data|] == data
    ensures ReadBack(dst, data, 0)[|data|..] == dst[|data|..]
  {
    assert data[0..|data|] == data;
  }

  /** A smaller destination is filled with the first bytes of the buffer. */
  lemma ReadBackSmallerDestination(data: seq<Byte>, dst: seq<Byte>)
    requires |dst| <= |data|
    ensures ReadBack(dst, data, 0) == data[..|dst|]
  {
  }

  /** An offset at or past the end of the buffer copies nothing. */
  lemma ReadBackPastEnd(data: seq<Byte>, dst: seq<Byte>, byteOffset: nat)
    requires byteOffset >= |data|
    ensures ReadBack(dst, data, byteOffset) == dst
  {
    if byteOffset + Min(|data|, |dst|) <= |data| {
      assert Min(|data|, |dst|) == 0;
      assert dst[0..] == dst;
    }
  }

  /**
   * As written, any positive offset into a non-empty buffer, read into a
   * destination at least as large as the buffer, asks for a range that runs
   * past the end; the driver rejects it and nothing is copied.
   */
  lemma ReadBackOffsetCopiesNothing(data: seq<Byte>, dst: seq<Byte>, byteOffset: nat)
    requires 0 < byteOffset && |dst| >= |data|
    ensures ReadBack(dst, data, byteOffset) == dst
  {
  }

  /** The concrete case: an 8-byte buffer read from byte 4 into 8 bytes. */
  lemma ReadBackOffsetExample()
    ensures ReadBack([0, 0, 0, 0, 0, 0, 0, 0], [1, 2, 3, 4, 5, 6, 7, 8], 4) == [0, 0, 0, 0, 0, 0, 0, 0]
    ensures ClampedReadBack([0, 0, 0, 0, 0, 0, 0, 0], [1, 2, 3, 4, 5, 6, 7, 8], 4) == [5, 6, 7, 8, 0, 0, 0, 0]
  {
    ClampedReadBackCopies([0, 0, 0, 0, 0, 0, 0, 0], [1, 2, 3, 4, 5, 6, 7, 8], 4);
  }

  /**
   * The evidently intended read-back: `min(size - byteOffset, capacity)`
   * bytes starting at `byteOffset`, and nothing when the offset is past the end.
   */
  function ClampedReadBack(dst: seq<Byte>, src: seq<Byte>, byteOffset: nat): (r: seq<Byte>)
    ensures |r| == |dst|
  {
    if byteOffset <= |src| then SubData(dst, src, byteOffset, Min(|src| - byteOffset, |dst|)) else dst
  }

  /** The corrected read copies every byte that lies in both ranges and nothing else. */
  lemma ClampedReadBackCopies(dst: seq<Byte>, src: seq<Byte>, byteOffset: nat)
    requires byteOffset <= |src|
    ensures var k := Min(|src| - byteOffset, |dst|);
      && ClampedReadBack(dst, src, byteOffset)[..k] == src[byteOffset..byteOffset + k]
      && ClampedReadBack(dst, src, byteOffset)[k..] == dst[k..]
      && (k == |dst| || byteOffset + k == |src|)
  {
  }

  /** From offset 0 the corrected read and the read as written agree. */
  lemma ClampedReadBackAgreesAtZero(dst: seq<Byte>, src: seq<Byte>)
    ensures ClampedReadBack(dst, src, 0) == ReadBack(dst, src, 0)
  {
  }

  class Buffer {
    /** The buffer object's name, from glGenBuffers. */
    const locId: nat
    const bufferType: nat

    constructor (gl: Gl, bufferType: nat)
      requires gl.Valid()
      modifies gl`nextName, gl`buffers
      ensures gl.Valid() && this.bufferType == bufferType
      ensures locId !in old(gl.buffers) && gl.buffers == old(gl.buffers)[locId := []]
    {
      this.bufferType := bufferType;
      var id := gl.GenBuffer();
      this.locId := id;
    }

    /** The driver name that every other operation on this buffer acts on. */
    function GetId(): (id: nat)
      ensures id == locId
    {
      locId
    }

    /** The target the buffer was created for, which `Shader::setBuffer` checks. */
    function GetType(): (t: nat)
      ensures t == bufferType
    {
      bufferType
    }

    /** glBufferData with the vector's bytes: the whole contents become `data`. */
    method SetData(gl: Gl, data: seq<Byte>)
      requires gl.Valid() && locId in gl.buffers
      modifies gl`buffers
      ensures gl.Valid() && gl.buffers == old(gl.buffers)[locId := data]
    {
      gl.BufferData(locId, data);
    }

    /** glBufferData with no data: exactly `sizeInBytes` bytes of undefined content. */
    method Resize(gl: Gl, sizeInBytes: nat)
      requires gl.Valid() && locId in gl.buffers
      modifies gl`buffers
      ensures gl.Valid() && locId in gl.buffers && |gl.buffers[locId]| == sizeInBytes
      ensures gl.buffers == old(gl.buffers)[locId := gl.buffers[locId]]
    {
      gl.BufferStorage(locId, sizeInBytes);
    }

    /** GL_BUFFER_SIZE; 0 when the driver has no data store for the name. */
    function GetSize(gl: Gl): (size: nat)
      reads gl
      ensures locId in gl.buffers ==> size == |gl.buffers[locId]|
      ensures locId !in gl.buffers ==> size == 0
    {
      gl.BufferSize(locId)
    }

    /**
     * Copies into the caller's bytes in place, as written: `min(size,
     * capacity)` bytes from `byteOffset`, which the driver rejects (copying
     * nothing) when that range runs past the end of the buffer. Never writes
     * past the destination or resizes it.
     */
    method GetData(gl: Gl, dst: array<Byte>, byteOffset: nat)
      requires locId in gl.buffers
      modifies dst
      ensures dst[..] == ReadBack(old(dst[..]), gl.buffers[locId], byteOffset)
    {
      var buffSize := GetSize(gl);
      buffSize := Min(buffSize, dst.Length);
      gl.GetBufferSubData(locId, byteOffset, buffSize, dst);
    }
  }
}
