/** The mirror-bit ring buffer of rt_ext/ringbuffer.c on values. */
module RingBufferModel {
  import opened Common

  type U15 = x: int | 0 <= x < 0x8000

  function Truncate15(x: int): (r: U15)
    ensures 0 <= x < 0x8000 ==> r == x
  {
    x % 0x8000
  }

  datatype Ring = Ring(buf: seq<Byte>, readMirror: bool, readIndex: U15, writeMirror: bool, writeIndex: U15)

  datatype Status = EMPTY | FULL | HALFFULL

  /** Same mirror: the data runs from read to write. Different mirrors: it wraps past the end. */
  ghost predicate Valid(rb: Ring) {
    && |rb.buf| < 0x8000
    && rb.readIndex <= Max(0, |rb.buf| - 1) && rb.writeIndex <= Max(0, |rb.buf| - 1)
    && (rb.readMirror == rb.writeMirror ==> rb.readIndex <= rb.writeIndex)
    && (rb.readMirror != rb.writeMirror ==> rb.writeIndex <= rb.readIndex)
  }

  function StatusOf(rb: Ring): Status {
    if rb.readIndex == rb.writeIndex then
      if rb.readMirror == rb.writeMirror then EMPTY else FULL
    else
      HALFFULL
  }

  function DataLen(rb: Ring): int {
    match StatusOf(rb)
    case EMPTY => 0
    case FULL => |rb.buf|
    case HALFFULL =>
      if rb.writeIndex > rb.readIndex then rb.writeIndex - rb.readIndex
      else |rb.buf| - (rb.readIndex - rb.writeIndex)
  }

  function SpaceLen(rb: Ring): int {
    |rb.buf| - DataLen(rb)
  }

  /** Where the i-th stored byte is. */
  function Place(rb: Ring, i: int): (r: int)
    requires Valid(rb) && 0 <= i < |rb.buf|
    ensures 0 <= r < |rb.buf|
  {
    if rb.readIndex + i < |rb.buf| then rb.readIndex + i else rb.readIndex + i - |rb.buf|
  }

  /** The stored bytes, oldest first. */
  function Contents(rb: Ring): (r: seq<Byte>)
    requires Valid(rb)
    ensures |r| == DataLen(rb) <= |rb.buf|
    ensures forall i :: 0 <= i < |r| ==> r[i] == rb.buf[Place(rb, i)]
  {
    if rb.readMirror == rb.writeMirror then rb.buf[rb.readIndex..rb.writeIndex]
    else rb.buf[rb.readIndex..] + rb.buf[..rb.writeIndex]
  }

  /** `memcpy` into the buffer. */
  function Patch(buf: seq<Byte>, at: nat, data: seq<Byte>): (r: seq<Byte>)
    requires at + |data| <= |buf|
    ensures |r| == |buf|
    ensures forall i :: 0 <= i < |buf| ==> r[i] == if at <= i < at + |data| then data[i - at] else buf[i]
  {
    buf[..at] + data + buf[at + |data|..]
  }

  /** The common tail of the two bulk writes: copy, in two pieces if the end is reached. */
  function Write(rb: Ring, data: seq<Byte>): Ring
    requires Valid(rb) && |data| <= |rb.buf|
  {
    var toEnd := |rb.buf| - rb.writeIndex;
    if toEnd > |data| then
      rb.(buf := Patch(rb.buf, rb.writeIndex, data), writeIndex := Truncate15(rb.writeIndex + |data|))
    else
      rb.(buf := Patch(Patch(rb.buf, rb.writeIndex, data[..toEnd]), 0, data[toEnd..]),
          writeMirror := !rb.writeMirror, writeIndex := Truncate15(|data| - toEnd))
  }

  function Put(rb: Ring, data: seq<Byte>): Ring
    requires Valid(rb)
  {
    var space := SpaceLen(rb);
    if space == 0 then rb else
    if space < |data| then Write(rb, data[..space]) else Write(rb, data)
  }

  function PutChar(rb: Ring, ch: Byte): Ring
    requires Valid(rb)
  {
    if SpaceLen(rb) == 0 then rb else Advance(rb.(buf := rb.buf[rb.writeIndex := ch]))
  }

  /** Step the write index, flipping its mirror at the end. */
  function Advance(rb: Ring): Ring {
    if rb.writeIndex == |rb.buf| - 1 then rb.(writeMirror := !rb.writeMirror, writeIndex := 0)
    else rb.(writeIndex := Truncate15(rb.writeIndex + 1))
  }

  function PutCharForce(rb: Ring, ch: Byte): Ring
    requires Valid(rb) && 0 < |rb.buf|
  {
    var full := StatusOf(rb) == FULL;
    var moved := Advance(rb.(buf := rb.buf[rb.writeIndex := ch]));
    if !full then moved
    else if rb.writeIndex == |rb.buf| - 1 then
      moved.(readMirror := !rb.readMirror, readIndex := moved.writeIndex)
    else
      moved.(readIndex := moved.writeIndex)
  }

  /** The number of source bytes `put_force` copies. */
  function ForcedLength(rb: Ring, length: nat): nat {
    if length > SpaceLen(rb) then |rb.buf| else length
  }

  function PutForce(rb: Ring, data: seq<Byte>, length: nat): Ring
    requires Valid(rb) && ForcedLength(rb, length) <= |data|
  {
    var n := ForcedLength(rb, length);
    var toEnd := |rb.buf| - rb.writeIndex;
    var written := Write(rb, data[..n]);
    if toEnd > n then
      if n > SpaceLen(rb) then written.(readIndex := written.writeIndex) else written
    else
      if n > SpaceLen(rb) then written.(readMirror := !rb.readMirror, readIndex := written.writeIndex) else written
  }

  /** The bytes a read of `length` returns. */
  function Read(rb: Ring, length: nat): seq<Byte>
    requires Valid(rb)
  {
    var n := Min(DataLen(rb), length);
    var toEnd := |rb.buf| - rb.readIndex;
    if toEnd > n then rb.buf[rb.readIndex..rb.readIndex + n]
    else rb.buf[rb.readIndex..] + rb.buf[..n - toEnd]
  }

  /** The ring after a read of `length`. */
  function Get(rb: Ring, length: nat): Ring
    requires Valid(rb)
  {
    var n := Min(DataLen(rb), length);
    if DataLen(rb) == 0 then rb else
    var toEnd := |rb.buf| - rb.readIndex;
    if toEnd > n then rb.(readIndex := Truncate15(rb.readIndex + n))
    else rb.(readMirror := !rb.readMirror, readIndex := Truncate15(n - toEnd))
  }

  function GetChar(rb: Ring): Ring
    requires Valid(rb)
  {
    if DataLen(rb) == 0 then rb
    else if rb.readIndex == |rb.buf| - 1 then rb.(readMirror := !rb.readMirror, readIndex := 0)
    else rb.(readIndex := Truncate15(rb.readIndex + 1))
  }

  function Reset(rb: Ring): Ring {
    Ring(rb.buf, false, 0, false, 0)
  }

  // The ring is a bounded byte queue

  /** Two byte strings given by the bytes of a ring. */
  lemma SameContents(rb: Ring, s: seq<Byte>)
    requires Valid(rb) && DataLen(rb) == |s|
    requires forall i :: 0 <= i < |s| ==> s[i] == rb.buf[Place(rb, i)]
    ensures Contents(rb) == s
  {
    hide Place;
  }

  lemma WriteValid(rb: Ring, data: seq<Byte>)
    requires Valid(rb) && 0 < |rb.buf| && |data| <= SpaceLen(rb)
    ensures Valid(Write(rb, data)) && |Write(rb, data).buf| == |rb.buf|
    ensures DataLen(Write(rb, data)) == DataLen(rb) + |data|
    ensures Write(rb, data).readIndex == rb.readIndex
  {
    hide Truncate15;
  }

  /** A bulk write into the space appends. */
  lemma WriteAppends(rb: Ring, data: seq<Byte>)
    requires Valid(rb) && 0 < |rb.buf| && |data| <= SpaceLen(rb)
    ensures Valid(Write(rb, data)) && |Write(rb, data).buf| == |rb.buf|
    ensures Contents(Write(rb, data)) == Contents(rb) + data
  {
    hide Truncate15;
    WriteValid(rb, data);
    var r := Write(rb, data);
    forall i | 0 <= i < DataLen(r)
      ensures (Contents(rb) + data)[i] == r.buf[Place(r, i)]
    {
      hide Write, Patch, Contents;
      WriteBytes(rb, data, Place(r, i));
      assert Place(r, i) == Place(rb, i);
    }
    SameContents(r, Contents(rb) + data);
  }

  /** Put accepts what fits and appends it, in order. */
  lemma PutAppends(rb: Ring, data: seq<Byte>)
    requires Valid(rb)
    ensures Valid(Put(rb, data)) && |Put(rb, data).buf| == |rb.buf|
    ensures Contents(Put(rb, data)) == Contents(rb) + data[..Min(|data|, SpaceLen(rb))]
  {
    hide Write, Contents;
    if SpaceLen(rb) > 0 {
      WriteAppends(rb, data[..Min(|data|, SpaceLen(rb))]);
      assert data[..|data|] == data;
    }
  }

  lemma GetValid(rb: Ring, length: nat)
    requires Valid(rb)
    ensures Valid(Get(rb, length)) && Get(rb, length).buf == rb.buf
    ensures DataLen(Get(rb, length)) == DataLen(rb) - Min(DataLen(rb), length)
  {
    hide Truncate15;
  }

  /** A read moves the places of the bytes that stay by its length. */
  lemma GetMoves(rb: Ring, length: nat, i: nat)
    requires Valid(rb) && i < DataLen(Get(rb, length)) && Valid(Get(rb, length)) && Get(rb, length).buf == rb.buf
    ensures var n := Min(DataLen(rb), length); n + i < DataLen(rb) && Place(Get(rb, length), i) == Place(rb, n + i)
  {
    hide Truncate15;
    GetValid(rb, length);
  }

  /** Get takes the oldest bytes, in order. */
  lemma GetTakes(rb: Ring, length: nat)
    requires Valid(rb)
    ensures Valid(Get(rb, length)) && Get(rb, length).buf == rb.buf
    ensures Read(rb, length) == Contents(rb)[..Min(DataLen(rb), length)]
    ensures Contents(Get(rb, length)) == Contents(rb)[Min(DataLen(rb), length)..]
  {
    GetValid(rb, length);
    ReadIs(rb, length);
    var n, r := Min(DataLen(rb), length), Get(rb, length);
    forall i | 0 <= i < DataLen(r)
      ensures Contents(rb)[n..][i] == r.buf[Place(r, i)]
    {
      GetMoves(rb, length, i);
      hide Get, Place, DataLen, Contents;
      assert Contents(rb)[n..][i] == Contents(rb)[n + i];
    }
    SameContents(r, Contents(rb)[n..]);
  }

  lemma ReadIs(rb: Ring, length: nat)
    requires Valid(rb)
    ensures Read(rb, length) == Contents(rb)[..Min(DataLen(rb), length)]
  {
    hide Truncate15;
    var n := Min(DataLen(rb), length);
    assert |Read(rb, length)| == n;
    forall i | 0 <= i < n
      ensures Read(rb, length)[i] == Contents(rb)[i]
    {
      assert Contents(rb)[i] == rb.buf[Place(rb, i)];
    }
  }

  lemma PutCharAppends(rb: Ring, ch: Byte)
    requires Valid(rb)
    ensures Valid(PutChar(rb, ch)) && |PutChar(rb, ch).buf| == |rb.buf|
    ensures Contents(PutChar(rb, ch)) == if SpaceLen(rb) == 0 then Contents(rb) else Contents(rb) + [ch]
  {
    hide Truncate15;
    var r := PutChar(rb, ch);
    if SpaceLen(rb) > 0 {
      assert DataLen(r) == DataLen(rb) + 1;
      SameContents(r, Contents(rb) + [ch]);
    }
  }

  lemma GetCharValid(rb: Ring)
    requires Valid(rb)
    ensures Valid(GetChar(rb)) && GetChar(rb).buf == rb.buf
    ensures DataLen(rb) > 0 ==> DataLen(GetChar(rb)) == DataLen(rb) - 1
    ensures DataLen(rb) == 0 ==> GetChar(rb) == rb
  {
    hide Truncate15;
  }

  lemma GetCharTakes(rb: Ring)
    requires Valid(rb)
    ensures Valid(GetChar(rb)) && GetChar(rb).buf == rb.buf
    ensures DataLen(rb) > 0 ==> rb.buf[rb.readIndex] == Contents(rb)[0] && Contents(GetChar(rb)) == Contents(rb)[1..]
    ensures DataLen(rb) == 0 ==> GetChar(rb) == rb
  {
    hide Truncate15;
    GetCharValid(rb);
    var r := GetChar(rb);
    if DataLen(rb) > 0 {
      forall i | 0 <= i < DataLen(r)
        ensures Contents(rb)[1..][i] == r.buf[Place(r, i)]
      {
        assert Contents(rb)[i + 1] == rb.buf[Place(rb, i + 1)];
      }
      SameContents(r, Contents(rb)[1..]);
    }
  }

  /** The forced write of a byte loses the oldest byte exactly when the ring is full. */
  lemma PutCharForceDropsOldest(rb: Ring, ch: Byte)
    requires Valid(rb) && 0 < |rb.buf|
    ensures Valid(PutCharForce(rb, ch)) && |PutCharForce(rb, ch).buf| == |rb.buf|
    ensures Contents(PutCharForce(rb, ch)) == DropOldest(Contents(rb), ch, |rb.buf|)
  {
    hide Truncate15, Contents, Place;
    PutCharForceValid(rb, ch);
    if StatusOf(rb) == FULL {
      FullPutCharForce(rb, ch);
    } else {
      PutCharAppends(rb, ch);
    }
  }

  lemma FullPutCharForce(rb: Ring, ch: Byte)
    requires Valid(rb) && 0 < |rb.buf| && StatusOf(rb) == FULL
    ensures Valid(PutCharForce(rb, ch)) && Contents(PutCharForce(rb, ch)) == Contents(rb)[1..] + [ch]
  {
    hide Truncate15, Contents;
    PutCharForceValid(rb, ch);
    var r := PutCharForce(rb, ch);
    var s := Contents(rb)[1..] + [ch];
    forall i | 0 <= i < |s|
      ensures s[i] == r.buf[Place(r, i)]
    {
      if i < |s| - 1 {
        assert s[i] == Contents(rb)[i + 1];
      }
    }
    SameContents(r, s);
  }

  lemma PutCharForceValid(rb: Ring, ch: Byte)
    requires Valid(rb) && 0 < |rb.buf|
    ensures Valid(PutCharForce(rb, ch)) && |PutCharForce(rb, ch).buf| == |rb.buf|
    ensures DataLen(PutCharForce(rb, ch)) == Min(DataLen(rb) + 1, |rb.buf|)
    ensures StatusOf(rb) == FULL <==> DataLen(rb) == |rb.buf|
  {
    hide Truncate15;
  }

  // Bulk operations are the byte operations iterated

  function PutAll(rb: Ring, s: seq<Byte>): (r: Ring)
    requires Valid(rb)
    ensures Valid(r) && |r.buf| == |rb.buf|
  {
    if s == [] then rb else
    var before := PutAll(rb, s[..|s| - 1]);
    PutCharAppends(before, s[|s| - 1]);
    PutChar(before, s[|s| - 1])
  }

  function GetAll(rb: Ring, n: nat): (r: Ring)
    requires Valid(rb)
    ensures Valid(r) && r.buf == rb.buf
  {
    if n == 0 then rb else
    var before := GetAll(rb, n - 1);
    GetCharTakes(before);
    GetChar(before)
  }

  /** Every byte of the buffer after a bulk write. */
  lemma WriteBytes(rb: Ring, data: seq<Byte>, i: nat)
    requires Valid(rb) && |data| <= |rb.buf| && i < |rb.buf|
    ensures var at := if i >= rb.writeIndex then i - rb.writeIndex else i - rb.writeIndex + |rb.buf|;
      Write(rb, data).buf[i] == if at < |data| then data[at] else rb.buf[i]
  {
    hide Truncate15;
  }

  /** One more byte of a bulk write is one more put of a byte. */
  lemma WriteOneMore(rb: Ring, data: seq<Byte>)
    requires Valid(rb) && 0 < |data| <= SpaceLen(rb)
    ensures Valid(Write(rb, data[..|data| - 1]))
    ensures Write(rb, data) == PutChar(Write(rb, data[..|data| - 1]), data[|data| - 1])
  {
    hide Truncate15, Contents;
    var front := data[..|data| - 1];
    WriteValid(rb, front);
    var before := Write(rb, front);
    forall i | 0 <= i < |rb.buf|
      ensures Write(rb, data).buf[i] == before.buf[before.writeIndex := data[|data| - 1]][i]
    {
      hide Write, Patch, DataLen, Contents;
      WriteBytes(rb, data, i);
      WriteBytes(rb, front, i);
      WriteIndexAfter(rb, front);
    }
    assert Write(rb, data).buf == before.buf[before.writeIndex := data[|data| - 1]];
  }

  lemma WriteIndexAfter(rb: Ring, data: seq<Byte>)
    requires Valid(rb) && |data| < |rb.buf|
    ensures Write(rb, data).writeIndex ==
      if rb.writeIndex + |data| < |rb.buf| then rb.writeIndex + |data| else rb.writeIndex + |data| - |rb.buf|
  {
    hide Truncate15;
  }

  /** Put leaves the same array, indices and mirrors as putting its accepted bytes one by one. */
  lemma PutIsIterated(rb: Ring, data: seq<Byte>)
    requires Valid(rb)
    ensures Put(rb, data) == PutAll(rb, data[..Min(|data|, SpaceLen(rb))])
  {
    var n := Min(|data|, SpaceLen(rb));
    assert data[..|data|] == data;
    if SpaceLen(rb) > 0 {
      WriteIsIterated(rb, data[..n]);
    }
  }

  lemma {:induction false} WriteIsIterated(rb: Ring, data: seq<Byte>)
    requires Valid(rb) && |data| <= SpaceLen(rb) && 0 < SpaceLen(rb)
    ensures Write(rb, data) == PutAll(rb, data)
  {
    if data == [] {
      assert Write(rb, data).buf == rb.buf;
    } else {
      WriteOneMore(rb, data);
      WriteIsIterated(rb, data[..|data| - 1]);
    }
  }

  lemma GetOneMore(rb: Ring, n: nat)
    requires Valid(rb) && 1 < n <= DataLen(rb)
    ensures Valid(Get(rb, n - 1)) && Get(rb, n) == GetChar(Get(rb, n - 1))
  {
    hide Truncate15;
    GetValid(rb, n - 1);
  }

  /** Get leaves the same ring as getting its bytes one by one. */
  lemma {:induction false} GetIsIterated(rb: Ring, n: nat)
    requires Valid(rb) && n <= DataLen(rb)
    ensures Get(rb, n) == GetAll(rb, n)
  {
    if n == 1 {
      assert GetAll(rb, 0) == rb;
    } else if n > 1 {
      GetOneMore(rb, n);
      GetIsIterated(rb, n - 1);
    }
  }

  // Overwriting

  function PutAllForce(rb: Ring, s: seq<Byte>): (r: Ring)
    requires Valid(rb) && 0 < |rb.buf|
    ensures Valid(r) && |r.buf| == |rb.buf|
  {
    if s == [] then rb else
    var before := PutAllForce(rb, s[..|s| - 1]);
    PutCharForceDropsOldest(before, s[|s| - 1]);
    PutCharForce(before, s[|s| - 1])
  }

  /** Forced single-byte writes keep exactly the newest bytes of what was stored and what came. */
  lemma {:induction false} ForcedBytesKeepNewest(rb: Ring, s: seq<Byte>)
    requires Valid(rb) && 0 < |rb.buf|
    ensures Contents(PutAllForce(rb, s)) == Newest(Contents(rb) + s, |rb.buf|)
  {
    hide PutCharForce, Contents, Newest, DropOldest;
    if s == [] {
      NewestShort(Contents(rb), |rb.buf|);
      assert Contents(rb) + s == Contents(rb);
    } else {
      var front, ch := s[..|s| - 1], s[|s| - 1];
      ForcedBytesKeepNewest(rb, front);
      PutCharForceDropsOldest(PutAllForce(rb, front), ch);
      assert Contents(rb) + s == (Contents(rb) + front) + [ch];
      NewestStep(Contents(rb) + front, ch, |rb.buf|);
    }
  }

  /** On overflow the whole buffer is written once and the write index stays where it was. */
  lemma OverflowWrites(rb: Ring, data: seq<Byte>)
    requires Valid(rb) && 0 < |rb.buf| == |data|
    ensures var r := Write(rb, data);
      && r.writeIndex == rb.writeIndex && r.writeMirror == !rb.writeMirror
      && r.buf[rb.writeIndex..] + r.buf[..rb.writeIndex] == data
  {
    hide Truncate15;
    var r := Write(rb, data);
    var s := r.buf[rb.writeIndex..] + r.buf[..rb.writeIndex];
    forall i | 0 <= i < |data|
      ensures s[i] == data[i]
    {
      hide Write, Patch;
      WriteBytes(rb, data, if i < |rb.buf| - rb.writeIndex then rb.writeIndex + i else i - (|rb.buf| - rb.writeIndex));
    }
  }

  /**
   * The exact outcome of a forced bulk write. On overflow the ring ends FULL with the first bytes
   * of the source, except that it ends EMPTY if data was present and did not wrap; the
   * branch inside the first case of the source is never taken.
   */
  lemma PutForceCases(rb: Ring, data: seq<Byte>, length: nat)
    requires Valid(rb) && 0 < |rb.buf| && ForcedLength(rb, length) <= |data|
    ensures Valid(PutForce(rb, data, length))
    ensures length <= SpaceLen(rb) ==> Contents(PutForce(rb, data, length)) == Contents(rb) + data[..length]
    ensures length > SpaceLen(rb) && (rb.readMirror != rb.writeMirror || StatusOf(rb) == EMPTY) ==>
      StatusOf(PutForce(rb, data, length)) == FULL && Contents(PutForce(rb, data, length)) == data[..|rb.buf|]
    ensures length > SpaceLen(rb) && rb.readMirror == rb.writeMirror && StatusOf(rb) != EMPTY ==>
      StatusOf(PutForce(rb, data, length)) == EMPTY && Contents(PutForce(rb, data, length)) == []
    ensures var n := ForcedLength(rb, length); !(|rb.buf| - rb.writeIndex > n && n > SpaceLen(rb))
  {
    hide Write, Patch;
    var n := ForcedLength(rb, length);
    if length <= SpaceLen(rb) {
      WriteAppends(rb, data[..length]);
    } else {
      OverflowWrites(rb, data[..n]);
      OverflowKeepsSize(rb, data[..n]);
    }
  }

  lemma OverflowKeepsSize(rb: Ring, data: seq<Byte>)
    requires Valid(rb) && |data| == |rb.buf|
    ensures |Write(rb, data).buf| == |rb.buf|
    ensures Write(rb, data).readIndex == rb.readIndex && Write(rb, data).readMirror == rb.readMirror
  {
    hide Truncate15;
  }

  /** What the comment of `put_force` promises: old data goes, new data stays. */
  ghost predicate KeepsNewest(rb: Ring, data: seq<Byte>, length: nat)
    requires Valid(rb) && ForcedLength(rb, length) <= |data| && length <= |data|
  {
    Valid(PutForce(rb, data, length)) &&
    Contents(PutForce(rb, data, length)) == Newest(Contents(rb) + data[..length], |rb.buf|)
  }

  function WithBytes(rb: Ring, buf: seq<Byte>): Ring {
    rb.(buf := buf)
  }

  /** A forced write that does what its comment promises, on every content. */
  lemma PutForceKeepsNewest(rb: Ring, data: seq<Byte>, length: nat)
    requires Valid(rb) && 0 < |rb.buf| && ForcedLength(rb, length) <= |data| && length <= |data|
    requires length <= SpaceLen(rb) || (length == |rb.buf| && rb.readMirror != rb.writeMirror)
    ensures KeepsNewest(rb, data, length)
  {
    hide PutForce, Place;
    PutForceCases(rb, data, length);
    if length > SpaceLen(rb) {
      assert (Contents(rb) + data[..length])[DataLen(rb)..] == data[..length];
    }
  }

  /** One marked byte ahead of zeros is not where the promise wants it. */
  lemma MarkMisplaced(kept: seq<Byte>, data: seq<Byte>, length: nat, n: nat)
    requires 0 < n <= |data| && length <= |data| && |kept| + length > n && length != n
    requires forall i :: 0 <= i < |kept| ==> kept[i] == 0
    requires forall i :: 0 <= i < |data| ==> data[i] == if i == 0 then 1 else 0
    ensures Newest(kept + data[..length], n) != data[..n]
  {
    var s := kept + data[..length];
    assert Newest(s, n)[0] == s[|s| - n] == 0;
    assert data[..n][0] == 1;
  }

  /** Otherwise there are contents and input for which it does not. */
  lemma PutForceBreaks(rb: Ring, length: nat) returns (buf: seq<Byte>, data: seq<Byte>)
    requires Valid(rb) && 0 < |rb.buf| && length > SpaceLen(rb)
    requires length != |rb.buf| || rb.readMirror == rb.writeMirror
    ensures |buf| == |rb.buf| && |data| == Max(length, |rb.buf|)
    ensures !KeepsNewest(WithBytes(rb, buf), data, length)
  {
    hide PutForce, Place, Newest;
    var n := |rb.buf|;
    buf := seq(n, i => 0);
    data := seq(Max(length, n), i => if i == 0 then 1 else 0);
    var r := WithBytes(rb, buf);
    PutForceCases(r, data, length);
    NewestShort(Contents(r) + data[..length], n);
    if length != n && (rb.readMirror != rb.writeMirror || StatusOf(rb) == EMPTY) {
      assert forall i :: 0 <= i < DataLen(r) ==> Contents(r)[i] == 0;
      MarkMisplaced(Contents(r), data, length, n);
    }
  }

  /**
   * A forced bulk write keeps exactly the newest bytes, whatever the bytes are, if and only if
   * it does not overflow or it overwrites a wrapped ring with exactly one buffer of data.
   */
  lemma PutForceExactly(rb: Ring, length: nat)
    requires Valid(rb) && 0 < |rb.buf|
    ensures
      (forall buf: seq<Byte>, data: seq<Byte> :: |buf| == |rb.buf| && |data| == Max(length, |rb.buf|) ==>
         KeepsNewest(WithBytes(rb, buf), data, length))
      <==> length <= SpaceLen(rb) || (length == |rb.buf| && rb.readMirror != rb.writeMirror)
  {
    if length <= SpaceLen(rb) || (length == |rb.buf| && rb.readMirror != rb.writeMirror) {
      forall buf: seq<Byte>, data: seq<Byte> | |buf| == |rb.buf| && |data| == Max(length, |rb.buf|)
        ensures KeepsNewest(WithBytes(rb, buf), data, length)
      {
        PutForceKeepsNewest(WithBytes(rb, buf), data, length);
      }
    } else {
      var buf, data := PutForceBreaks(rb, length);
    }
  }

  // Runs of reads and writes

  datatype Op = DoPut(data: seq<Byte>) | DoGet(length: nat) | DoPutChar(ch: Byte) | DoGetChar

  /** The ring together with everything accepted and everything returned. */
  datatype Log = Log(rb: Ring, accepted: seq<Byte>, returned: seq<Byte>)

  function Step(l: Log, op: Op): Log
    requires Valid(l.rb)
  {
    var rb := l.rb;
    match op
    case DoPut(data) =>
      l.(rb := Put(rb, data), accepted := l.accepted + data[..Min(|data|, SpaceLen(rb))])
    case DoGet(length) => l.(rb := Get(rb, length), returned := l.returned + Read(rb, length))
    case DoPutChar(ch) =>
      l.(rb := PutChar(rb, ch), accepted := if SpaceLen(rb) == 0 then l.accepted else l.accepted + [ch])
    case DoGetChar =>
      l.(rb := GetChar(rb),
         returned := if DataLen(rb) == 0 then l.returned else l.returned + [rb.buf[rb.readIndex]])
  }

  /** Whether nothing accepted is lost, repeated or reordered. */
  ghost predicate Accounted(l: Log) {
    Valid(l.rb) && l.accepted == l.returned + Contents(l.rb)
  }

  lemma PutConserves(l: Log, data: seq<Byte>)
    requires Accounted(l)
    ensures Accounted(Step(l, DoPut(data))) && |Step(l, DoPut(data)).rb.buf| == |l.rb.buf|
  {
    hide Put, Contents;
    PutAppends(l.rb, data);
  }

  lemma GetConserves(l: Log, length: nat)
    requires Accounted(l)
    ensures Accounted(Step(l, DoGet(length))) && |Step(l, DoGet(length)).rb.buf| == |l.rb.buf|
  {
    hide Get, Read, Contents;
    GetTakes(l.rb, length);
    var n := Min(DataLen(l.rb), length);
    assert Contents(l.rb) == Contents(l.rb)[..n] + Contents(l.rb)[n..];
  }

  lemma PutCharConserves(l: Log, ch: Byte)
    requires Accounted(l)
    ensures Accounted(Step(l, DoPutChar(ch))) && |Step(l, DoPutChar(ch)).rb.buf| == |l.rb.buf|
  {
    hide PutChar, Contents;
    PutCharAppends(l.rb, ch);
  }

  lemma Regroup(a: seq<Byte>, b: seq<Byte>)
    requires b != []
    ensures a + b == (a + [b[0]]) + b[1..]
  {
  }

  lemma GetCharConserves(l: Log)
    requires Accounted(l)
    ensures Accounted(Step(l, DoGetChar)) && |Step(l, DoGetChar).rb.buf| == |l.rb.buf|
  {
    hide GetChar, Contents, Place, Valid, StatusOf;
    GetCharTakes(l.rb);
    if DataLen(l.rb) > 0 {
      Regroup(l.returned, Contents(l.rb));
    }
  }

  lemma StepConservesBytes(l: Log, op: Op)
    requires Accounted(l)
    ensures Accounted(Step(l, op)) && |Step(l, op).rb.buf| == |l.rb.buf|
  {
    hide Accounted, Step;
    match op
    case DoPut(data) => PutConserves(l, data);
    case DoGet(length) => GetConserves(l, length);
    case DoPutChar(ch) => PutCharConserves(l, ch);
    case DoGetChar => GetCharConserves(l);
  }

  function Run(l: Log, ops: seq<Op>): (r: Log)
    requires Accounted(l)
    ensures Accounted(r) && |r.rb.buf| == |l.rb.buf|
  {
    if ops == [] then l else
    var before := Run(l, ops[..|ops| - 1]);
    StepConservesBytes(before, ops[|ops| - 1]);
    Step(before, ops[|ops| - 1])
  }

  /** From an empty ring, what comes out is a prefix of what went in, and the rest is in the ring. */
  lemma BytesOutArePrefix(buf: seq<Byte>, ops: seq<Op>)
    requires |buf| < 0x8000
    ensures var l := Log(Ring(buf, false, 0, false, 0), [], []);
      && Accounted(l)
      && Run(l, ops).returned <= Run(l, ops).accepted
      && |Run(l, ops).accepted| - |Run(l, ops).returned| <= |buf|
  {
    var l := Log(Ring(buf, false, 0, false, 0), [], []);
    assert Contents(l.rb) == [];
    var r := Run(l, ops);
    assert Accounted(r);
  }
}
