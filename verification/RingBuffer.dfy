/** The ring buffer in the form of rt_ext/ringbuffer.c: one array, two indices and two mirror bits. */
module RingBuffers {
  import opened Common
  import opened RingBufferModel

  const RT_ALIGN_SIZE := 4

  lemma PatchPrefix(all: seq<Byte>, size: nat, at: nat, data: seq<Byte>)
    requires at + |data| <= size <= |all|
    ensures (all[..at] + data + all[at + |data|..])[..size] == Patch(all[..size], at, data)
    ensures (all[..at] + data + all[at + |data|..])[size..] == all[size..]
  {
  }

  /** Two copies one after the other. */
  lemma TwoPieces(s: seq<Byte>, a: seq<Byte>, b: seq<Byte>)
    requires |a| + |b| <= |s|
    ensures var s1 := s[..0] + a + s[|a|..];
      var s2 := s1[..|a|] + b + s1[|a| + |b|..];
      && |s2| == |s| && s2[..|a| + |b|] == a + b && s2[|a| + |b|..] == s[|a| + |b|..]
  {
    var s1 := s[..0] + a + s[|a|..];
    assert s1[..|a|] == a && s1[|a| + |b|..] == s[|a| + |b|..];
  }

  class RingBuffer {
    const bufferPtr: array<Byte>
    const bufferSize: U15
    var readMirror: bool
    var readIndex: U15
    var writeMirror: bool
    var writeIndex: U15

    ghost function View(): Ring
      requires bufferSize <= bufferPtr.Length
      reads this, bufferPtr
    {
      Ring(bufferPtr[..bufferSize], readMirror, readIndex, writeMirror, writeIndex)
    }

    ghost predicate Valid()
      reads this, bufferPtr
    {
      bufferSize <= bufferPtr.Length && RingBufferModel.Valid(View())
    }

    ghost function Stored(): seq<Byte>
      requires Valid()
      reads this, bufferPtr
    {
      Contents(View())
    }

    /** `rt_ringbuffer_init`: the size is rounded down to the alignment. */
    constructor (pool: array<Byte>, size: U15)
      requires 0 < size <= pool.Length
      ensures Valid() && Stored() == [] && bufferPtr == pool
      ensures bufferSize % RT_ALIGN_SIZE == 0 && bufferSize <= size < bufferSize + RT_ALIGN_SIZE
    {
      readMirror, readIndex := false, 0;
      writeMirror, writeIndex := false, 0;
      bufferPtr := pool;
      bufferSize := size - size % RT_ALIGN_SIZE;
    }

    /** `rt_ringbuffer_data_len`. */
    method DataLength() returns (n: int)
      requires Valid()
      ensures n == |Stored()|
    {
      if readIndex == writeIndex {
        if readMirror == writeMirror {
          return 0;
        }
        return bufferSize;
      }
      if writeIndex > readIndex {
        return writeIndex - readIndex;
      }
      return bufferSize - (readIndex - writeIndex);
    }

    method SpaceLength() returns (n: int)
      requires Valid()
      ensures n == bufferSize - |Stored()| == SpaceLen(View())
    {
      var used := DataLength();
      n := bufferSize - used;
    }

    /** `memcpy` into the buffer. */
    method CopyPiece(at: nat, ptr: array<Byte>, from: nat, n: nat)
      requires bufferSize <= bufferPtr.Length && at + n <= bufferSize && from + n <= ptr.Length && ptr != bufferPtr
      modifies bufferPtr
      ensures bufferPtr[..bufferSize] == Patch(old(bufferPtr[..bufferSize]), at, ptr[from..from + n])
      ensures bufferPtr[bufferSize..] == old(bufferPtr[bufferSize..])
    {
      hide Patch;
      PatchPrefix(bufferPtr[..], bufferSize, at, ptr[from..from + n]);
      MemCopy(bufferPtr, at, ptr, from, n);
    }

    /** The copy and the index update that `put` and `put_force` share; `wrapped` tells the case. */
    method CopyIn(ptr: array<Byte>, length: nat) returns (wrapped: bool)
      requires Valid() && length <= bufferSize && length <= ptr.Length && ptr != bufferPtr
      modifies this`writeMirror, this`writeIndex, bufferPtr
      ensures bufferPtr[bufferSize..] == old(bufferPtr[bufferSize..])
      ensures View() == Write(old(View()), ptr[..length])
      ensures wrapped == (bufferSize - old(writeIndex) <= length)
    {
      hide Patch;
      var toEnd := bufferSize - writeIndex;
      if toEnd > length {
        CopyPiece(writeIndex, ptr, 0, length);
        writeIndex := Truncate15(writeIndex + length);
        return false;
      }
      assert ptr[0..toEnd] == ptr[..length][..toEnd];
      assert ptr[toEnd..length] == ptr[..length][toEnd..];
      CopyPiece(writeIndex, ptr, 0, toEnd);
      CopyPiece(0, ptr, toEnd, length - toEnd);
      writeMirror := !writeMirror;
      writeIndex := Truncate15(length - toEnd);
      return true;
    }

    /** `rt_ringbuffer_put`: append what fits. */
    method Put(ptr: array<Byte>, length: U16) returns (n: int)
      requires Valid() && length <= ptr.Length && ptr != bufferPtr
      modifies this`writeMirror, this`writeIndex, bufferPtr
      ensures Valid() && n == Min(length, bufferSize - |old(Stored())|)
      ensures Stored() == old(Stored()) + ptr[..n]
      ensures View() == RingBufferModel.Put(old(View()), ptr[..length])
      ensures bufferPtr[bufferSize..] == old(bufferPtr[bufferSize..])
    {
      hide Contents, Write, RingBufferModel.Valid;
      PutAppends(View(), ptr[..length]);
      var size := SpaceLength();
      if size == 0 {
        return 0;
      }
      n := if size < length then size else length;
      assert ptr[..length][..n] == ptr[..n];
      var _ := CopyIn(ptr, n);
    }

    /** `rt_ringbuffer_put_force`, with the source length the overflow case needs. */
    method PutForce(ptr: array<Byte>, length: U16) returns (n: int)
      requires Valid() && ForcedLength(View(), length) <= ptr.Length && ptr != bufferPtr
      modifies this, bufferPtr
      ensures n == ForcedLength(old(View()), length)
      ensures View() == RingBufferModel.PutForce(old(View()), ptr[..], length)
      ensures 0 < bufferSize ==> Valid()
      ensures bufferPtr[bufferSize..] == old(bufferPtr[bufferSize..])
    {
      if 0 < bufferSize {
        PutForceCases(View(), ptr[..], length);
      }
      var space := SpaceLength();
      n := length;
      if n > space {
        n := bufferSize;
      }
      assert ptr[..][..n] == ptr[..n];
      var wrapped := CopyIn(ptr, n);
      if !wrapped {
        // the source tests for an overflow here, which only happens in the other case
        if n > space {
          assert false;
        }
        return;
      }
      if n > space {
        readMirror := !readMirror;
        readIndex := writeIndex;
      }
    }

    /** `memcpy` of `n1` bytes from the read index and of `n2` from the start. */
    method CopyOut(ptr: array<Byte>, n1: nat, n2: nat)
      requires bufferSize <= bufferPtr.Length && readIndex + n1 <= bufferSize && n2 <= bufferSize
      requires n1 + n2 <= ptr.Length && ptr != bufferPtr
      modifies ptr
      ensures ptr[..n1 + n2] == bufferPtr[..bufferSize][readIndex..readIndex + n1] + bufferPtr[..bufferSize][..n2]
      ensures ptr[n1 + n2..] == old(ptr[n1 + n2..])
    {
      ghost var before := ptr[..];
      ghost var a, b := bufferPtr[readIndex..readIndex + n1], bufferPtr[0..n2];
      TwoPieces(before, a, b);
      MemCopy(ptr, 0, bufferPtr, readIndex, n1);
      assert ptr[..] == before[..0] + a + before[n1..];
      MemCopy(ptr, n1, bufferPtr, 0, n2);
      assert bufferPtr[..bufferSize][readIndex..readIndex + n1] == a && bufferPtr[..bufferSize][..n2] == b;
    }

    /** `rt_ringbuffer_get`: take the oldest bytes. */
    method Get(ptr: array<Byte>, length: U16) returns (n: int)
      requires Valid() && Min(length, |Stored()|) <= ptr.Length && ptr != bufferPtr
      modifies this`readMirror, this`readIndex, ptr
      ensures Valid() && n == Min(length, |old(Stored())|)
      ensures ptr[..n] == old(Stored())[..n] && ptr[n..] == old(ptr[n..])
      ensures Stored() == old(Stored())[n..]
      ensures View() == RingBufferModel.Get(old(View()), length)
    {
      hide Contents, RingBufferModel.Valid;
      ghost var rb := View();
      GetTakes(rb, length);
      var size := DataLength();
      if size == 0 {
        return 0;
      }
      n := if size < length then size else length;
      n := TakeOut(ptr, n);
    }

    /** The copy and the index update of a read of at most the stored bytes. */
    method TakeOut(ptr: array<Byte>, length: nat) returns (n: int)
      requires Valid() && 0 < |Stored()| && length <= |Stored()| && length <= ptr.Length && ptr != bufferPtr
      modifies this`readMirror, this`readIndex, ptr
      ensures n == length && View() == RingBufferModel.Get(old(View()), length)
      ensures ptr[..n] == Read(old(View()), length) && ptr[n..] == old(ptr[n..])
    {
      hide Truncate15;
      n := length;
      ghost var rb, buf := View(), bufferPtr[..bufferSize];
      var toEnd := bufferSize - readIndex;
      if toEnd > n {
        CopyOut(ptr, n, 0);
        assert ptr[..n] == Read(rb, length) by {
          assert buf[readIndex..readIndex + n] + buf[..0] == buf[readIndex..readIndex + n];
        }
        readIndex := Truncate15(readIndex + n);
        return;
      }
      CopyOut(ptr, toEnd, n - toEnd);
      assert ptr[..n] == Read(rb, length) by {
        assert buf[readIndex..readIndex + toEnd] == buf[readIndex..];
      }
      readMirror := !readMirror;
      readIndex := Truncate15(n - toEnd);
    }

    /** The index step that the byte writes share. */
    method AdvanceWrite() returns (flipped: bool)
      requires bufferSize <= bufferPtr.Length
      modifies this`writeMirror, this`writeIndex
      ensures View() == Advance(old(View()))
      ensures flipped == (old(writeIndex) == bufferSize - 1)
    {
      if writeIndex == bufferSize - 1 {
        writeMirror := !writeMirror;
        writeIndex := 0;
        return true;
      }
      writeIndex := Truncate15(writeIndex + 1);
      return false;
    }

    /** `rt_ringbuffer_putchar`. */
    method PutCharacter(ch: Byte) returns (n: int)
      requires Valid()
      modifies this`writeMirror, this`writeIndex, bufferPtr
      ensures Valid() && n == if |old(Stored())| == bufferSize then 0 else 1
      ensures Stored() == if |old(Stored())| == bufferSize then old(Stored()) else old(Stored()) + [ch]
      ensures View() == PutChar(old(View()), ch)
    {
      PutCharAppends(View(), ch);
      var space := SpaceLength();
      if space == 0 {
        return 0;
      }
      bufferPtr[writeIndex] := ch;
      var _ := AdvanceWrite();
      return 1;
    }

    /** `rt_ringbuffer_putchar_force`: a full ring loses its oldest byte. */
    method PutCharacterForce(ch: Byte) returns (n: int)
      requires Valid() && 0 < bufferSize
      modifies this, bufferPtr
      ensures Valid() && n == 1
      ensures Stored() == DropOldest(old(Stored()), ch, bufferSize)
      ensures View() == PutCharForce(old(View()), ch)
    {
      PutCharForceDropsOldest(View(), ch);
      var full := readIndex == writeIndex && readMirror != writeMirror;
      bufferPtr[writeIndex] := ch;
      var flipped := AdvanceWrite();
      if flipped {
        if full {
          readMirror := !readMirror;
          readIndex := writeIndex;
        }
      } else {
        if full {
          readIndex := writeIndex;
        }
      }
      return 1;
    }

    /** `rt_ringbuffer_getchar`. */
    method GetCharacter() returns (n: int, ch: Byte)
      requires Valid()
      modifies this`readMirror, this`readIndex
      ensures Valid() && View() == GetChar(old(View()))
      ensures old(Stored()) == [] ==> n == 0 && Stored() == []
      ensures old(Stored()) != [] ==> n == 1 && ch == old(Stored())[0] && Stored() == old(Stored())[1..]
    {
      GetCharTakes(View());
      ch := 0;
      var size := DataLength();
      if size == 0 {
        return 0, ch;
      }
      ch := bufferPtr[readIndex];
      if readIndex == bufferSize - 1 {
        readMirror := !readMirror;
        readIndex := 0;
      } else {
        readIndex := Truncate15(readIndex + 1);
      }
      return 1, ch;
    }

    /** `rt_ringbuffer_reset`. */
    method ResetRing()
      requires Valid()
      modifies this
      ensures Valid() && Stored() == [] && View() == Reset(old(View()))
      ensures !readMirror && !writeMirror && readIndex == writeIndex == 0 && bufferPtr[..] == old(bufferPtr[..])
    {
      readMirror := false;
      readIndex := 0;
      writeMirror := false;
      writeIndex := 0;
    }
  }
}
