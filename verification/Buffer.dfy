/** The network buffer: a byte sequence kept in the middle of an array. */
module Buffer {
  import opened Wrappers
  import opened Bytes

  const CHEAP_PREPEND: nat := 8
  const EXTRA: nat := 65536

  predicate HasAt(s: seq<Byte>, x: seq<Byte>, i: nat) { i + |x| <= |s| && s[i..i + |x|] == x }

  /** The first place of x in s, from `from` on. */
  ghost predicate IsFirst(s: seq<Byte>, x: seq<Byte>, from: nat, r: Option<nat>) {
    match r
    case None => forall i: nat :: from <= i ==> !HasAt(s, x, i)
    case Some(k) => from <= k && HasAt(s, x, k) && forall i: nat :: from <= i < k ==> !HasAt(s, x, i)
  }

  class Buffer {
    var buffer: array<Byte>
    var readerIndex: nat
    var writerIndex: nat

    ghost predicate Valid()
      reads this
    {
      readerIndex <= writerIndex <= buffer.Length && CHEAP_PREPEND <= buffer.Length
    }

    function Contents(): (s: seq<Byte>)
      requires Valid()
      reads this, buffer
      ensures |s| == writerIndex - readerIndex
    {
      buffer[readerIndex..writerIndex]
    }

    function ReadableBytes(): nat
      requires Valid()
      reads this
    {
      writerIndex - readerIndex
    }

    function WritableBytes(): nat
      requires Valid()
      reads this
    {
      buffer.Length - writerIndex
    }

    constructor (initialSize: nat)
      ensures Valid() && fresh(buffer) && Contents() == []
      ensures WritableBytes() == initialSize && readerIndex == CHEAP_PREPEND
    {
      buffer := new Byte[CHEAP_PREPEND + initialSize];
      readerIndex, writerIndex := CHEAP_PREPEND, CHEAP_PREPEND;
    }

    method Swap(rhs: Buffer)
      requires Valid() && rhs.Valid()
      modifies this, rhs
      ensures Valid() && rhs.Valid() && buffer == old(rhs.buffer) && rhs.buffer == old(buffer)
      ensures readerIndex == old(rhs.readerIndex) && writerIndex == old(rhs.writerIndex)
      ensures Contents() == old(rhs.Contents()) && rhs.Contents() == old(Contents())
    {
      buffer, rhs.buffer := rhs.buffer, buffer;
      readerIndex, rhs.readerIndex := rhs.readerIndex, readerIndex;
      writerIndex, rhs.writerIndex := rhs.writerIndex, writerIndex;
    }

    /** std::search for CRLF in the readable bytes, from offset `start`. */
    method FindCRLF(start: nat) returns (r: Option<nat>)
      requires Valid() && start <= ReadableBytes()
      ensures IsFirst(Contents(), [13, 10], start, r)
    {
      var i := start;
      while readerIndex + i + 2 <= writerIndex
        invariant start <= i <= ReadableBytes()
        invariant forall j: nat :: start <= j < i ==> !HasAt(Contents(), [13, 10], j)
      {
        assert Contents()[i..i + 2] == [buffer[readerIndex + i], buffer[readerIndex + i + 1]];
        if buffer[readerIndex + i] == 13 && buffer[readerIndex + i + 1] == 10 {
          return Some(i);
        }
        i := i + 1;
      }
      return None;
    }

    method RetrieveAll()
      requires Valid()
      modifies this`readerIndex, this`writerIndex
      ensures Valid() && Contents() == [] && readerIndex == CHEAP_PREPEND
    {
      readerIndex, writerIndex := CHEAP_PREPEND, CHEAP_PREPEND;
    }

    method Retrieve(len: nat)
      requires Valid() && len <= ReadableBytes()
      modifies this`readerIndex, this`writerIndex
      ensures Valid() && Contents() == old(Contents())[len..]
    {
      if len < ReadableBytes() {
        readerIndex := readerIndex + len;
      } else {
        RetrieveAll();
      }
    }

    method RetrieveAsString(len: nat) returns (s: seq<Byte>)
      requires Valid() && len <= ReadableBytes()
      modifies this`readerIndex, this`writerIndex
      ensures Valid() && s == old(Contents())[..len] && Contents() == old(Contents())[len..]
    {
      s := buffer[readerIndex..readerIndex + len];
      Retrieve(len);
    }

    /** Room for len bytes, by growing or by moving the content to the front; the content stays what it is. */
    method MakeSpace(len: nat)
      requires Valid() && WritableBytes() < len
      modifies this, buffer
      ensures Valid() && WritableBytes() >= len && Contents() == old(Contents())
      ensures readerIndex == old(readerIndex) || readerIndex == CHEAP_PREPEND
      ensures buffer == old(buffer) || fresh(buffer)
    {
      if WritableBytes() + readerIndex < len + CHEAP_PREPEND {
        var bigger := new Byte[writerIndex + len];
        for i := 0 to writerIndex
          invariant forall j :: 0 <= j < i ==> bigger[j] == buffer[j]
          modifies bigger
        {
          bigger[i] := buffer[i];
        }
        assert bigger[readerIndex..writerIndex] == buffer[readerIndex..writerIndex];
        buffer := bigger;
      } else {
        assert CHEAP_PREPEND < readerIndex;
        var readable := ReadableBytes();
        ghost var was := buffer[..];
        for i := 0 to readable
          invariant forall j :: CHEAP_PREPEND <= j < CHEAP_PREPEND + i ==> buffer[j] == was[readerIndex - CHEAP_PREPEND + j]
          invariant forall j :: readerIndex + i <= j < writerIndex ==> buffer[j] == was[j]
          modifies buffer
        {
          buffer[CHEAP_PREPEND + i] := buffer[readerIndex + i];
        }
        assert buffer[CHEAP_PREPEND..CHEAP_PREPEND + readable] == was[readerIndex..writerIndex];
        readerIndex := CHEAP_PREPEND;
        writerIndex := readerIndex + readable;
      }
    }

    method EnsureWritableBytes(len: nat)
      requires Valid()
      modifies this, buffer
      ensures Valid() && WritableBytes() >= len && Contents() == old(Contents())
      ensures readerIndex == old(readerIndex) || readerIndex == CHEAP_PREPEND
      ensures buffer == old(buffer) || fresh(buffer)
      ensures old(WritableBytes()) >= len ==> buffer == old(buffer) && writerIndex == old(writerIndex) && readerIndex == old(readerIndex)
    {
      if WritableBytes() < len {
        MakeSpace(len);
      }
    }

    /** std::copy to the free part, and hasWritten. */
    method Fill(data: seq<Byte>)
      requires Valid() && |data| <= WritableBytes()
      modifies this`writerIndex, buffer
      ensures Valid() && Contents() == old(Contents()) + data && writerIndex == old(writerIndex) + |data|
    {
      CopyIn(data, writerIndex);
      assert buffer[readerIndex..writerIndex + |data|] == buffer[readerIndex..writerIndex] + buffer[writerIndex..writerIndex + |data|];
      writerIndex := writerIndex + |data|;
    }

    method Append(data: seq<Byte>)
      requires Valid()
      modifies this, buffer
      ensures Valid() && Contents() == old(Contents()) + data
      ensures readerIndex == old(readerIndex) || readerIndex == CHEAP_PREPEND
      ensures buffer == old(buffer) || fresh(buffer)
      ensures old(WritableBytes()) >= |data| ==> buffer == old(buffer) && WritableBytes() == old(WritableBytes()) - |data|
    {
      EnsureWritableBytes(|data|);
      Fill(data);
    }

    /** std::copy of data to offset `at`. */
    method CopyIn(data: seq<Byte>, at: nat)
      requires at + |data| <= buffer.Length
      modifies buffer
      ensures buffer[at..at + |data|] == data
      ensures forall j :: 0 <= j < at || at + |data| <= j < buffer.Length ==> buffer[j] == old(buffer[j])
    {
      for i := 0 to |data|
        invariant forall j :: 0 <= j < i ==> buffer[at + j] == data[j]
        invariant forall j :: 0 <= j < at || at + i <= j < buffer.Length ==> buffer[j] == old(buffer[j])
      {
        buffer[at + i] := data[i];
      }
    }

    method Prepend(data: seq<Byte>)
      requires Valid() && |data| <= readerIndex
      modifies this`readerIndex, buffer
      ensures Valid() && Contents() == data + old(Contents())
    {
      readerIndex := readerIndex - |data|;
      CopyIn(data, readerIndex);
      assert buffer[readerIndex..writerIndex] == buffer[readerIndex..readerIndex + |data|] + buffer[readerIndex + |data|..writerIndex];
    }

    /** Drop the last len bytes. */
    method Unwrite(len: nat)
      requires Valid() && len <= ReadableBytes()
      modifies this`writerIndex
      ensures Valid() && Contents() == old(Contents())[..|old(Contents())| - len]
    {
      assert buffer[readerIndex..writerIndex - len] == buffer[readerIndex..writerIndex][..writerIndex - readerIndex - len];
      writerIndex := writerIndex - len;
    }

    method Shrink(reserve: nat)
      requires Valid()
      modifies this
      ensures Valid() && Contents() == old(Contents()) && fresh(buffer) && WritableBytes() >= reserve
    {
      var other := new Buffer(1024);
      other.EnsureWritableBytes(ReadableBytes() + reserve);
      other.Append(Contents());
      Swap(other);
    }

    /** readv() into the free part and an extra buffer; got is what the system delivers, None for an error. */
    method ReadFd(got: Option<seq<Byte>>) returns (n: int)
      requires Valid()
      requires got.Some? ==> |got.value| <= WritableBytes() + (if WritableBytes() < EXTRA then EXTRA else 0)
      modifies this, buffer
      ensures Valid() && Contents() == old(Contents()) + (if got.Some? then got.value else [])
      ensures n == if got.Some? then |got.value| else -1
      ensures buffer == old(buffer) || fresh(buffer)
    {
      if got == None { return -1; }
      n := |got.value|;
      var writable := WritableBytes();
      var first := if n <= writable then n else writable;
      Fill(got.value[..first]);
      if n <= writable {
        assert got.value[..first] == got.value;
      } else {
        assert got.value == got.value[..first] + got.value[first..];
        Append(got.value[first..]);
      }
    }

    // ----- integers -----

    method AppendInt(x: int, size: nat)
      requires Valid() && FitsSigned(x, size)
      modifies this, buffer
      ensures Valid() && Contents() == old(Contents()) + SignedToBig(x, size)
      ensures readerIndex == old(readerIndex) || readerIndex == CHEAP_PREPEND
      ensures buffer == old(buffer) || fresh(buffer)
    {
      Append(SignedToBig(x, size));
    }

    method PeekInt(size: nat) returns (x: int)
      requires Valid() && ReadableBytes() >= size
      ensures x == SignedFromBig(Contents()[..size])
    {
      assert buffer[readerIndex..readerIndex + size] == Contents()[..size];
      x := SignedFromBig(buffer[readerIndex..readerIndex + size]);
    }

    method ReadInt(size: nat) returns (x: int)
      requires Valid() && ReadableBytes() >= size
      modifies this`readerIndex, this`writerIndex
      ensures Valid() && x == SignedFromBig(old(Contents())[..size]) && Contents() == old(Contents())[size..]
    {
      x := PeekInt(size);
      Retrieve(size);
    }

    method PrependInt(x: int, size: nat)
      requires Valid() && FitsSigned(x, size) && size <= readerIndex
      modifies this`readerIndex, buffer
      ensures Valid() && Contents() == SignedToBig(x, size) + old(Contents())
    {
      Prepend(SignedToBig(x, size));
    }
  }

  /** An integer put in front of a message is read back, and the message is left. */
  method IntThrough(b: Buffer, x: int, size: nat) returns (y: int)
    requires b.Valid() && FitsSigned(x, size) && size <= b.readerIndex
    modifies b, b.buffer
    ensures b.Valid() && y == x && b.Contents() == old(b.Contents())
  {
    ghost var was := b.Contents();
    b.PrependInt(x, size);
    assert b.Contents()[..size] == SignedToBig(x, size) && b.Contents()[size..] == was;
    SignedRoundTrip(x, size);
    y := b.ReadInt(size);
  }
}
