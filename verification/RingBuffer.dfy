// The circular log buffer (logs/ringbuffer.go): fixed storage written in place, read back as the last
// bytes of everything ever written, or as the last lines of that.
module RingBuffer {
  import opened Int64
  import opened LogLines

  const DEFAULT_CAPACITY := 0x10_0000

  // Go's copy of a whole slice into storage.
  method Copy(dst: array<Byte>, at: nat, src: seq<Byte>)
    requires at + |src| <= dst.Length
    modifies dst
    ensures dst[..] == old(dst[..])[..at] + src + old(dst[..])[at + |src|..]
  {
    for i := 0 to |src|
      invariant dst[..at] == old(dst[..at])
      invariant dst[at..at + i] == src[..i]
      invariant dst[at + i..] == old(dst[at + i..])
    {
      dst[at + i] := src[i];
    }
    assert dst[..] == dst[..at] + dst[at..at + |src|] + dst[at + |src|..];
  }

  // The two copies of a write that goes past the end of the storage.
  method CopyAround(dst: array<Byte>, at: nat, p: seq<Byte>)
    requires at < dst.Length < at + |p| && |p| < dst.Length
    modifies dst
    ensures var remaining := dst.Length - at;
      dst[..] == p[remaining..] + old(dst[..])[|p| - remaining..at] + p[..remaining]
  {
    var remaining := dst.Length - at;
    Copy(dst, at, p[..remaining]);
    assert dst[..][|p| - remaining..] == old(dst[..])[|p| - remaining..at] + p[..remaining];
    Copy(dst, 0, p[remaining..]);
  }

  // The storage holds the end of the stream: all of it from the front, or, once full, the last bytes with the
  // oldest at pos.
  ghost predicate Holds(data: seq<Byte>, pos: nat, wrapped: bool, stream: seq<Byte>) {
    && pos <= |data|
    && (wrapped <==> |data| <= |stream|)
    && (if wrapped then data[pos..] + data[..pos] == stream[|stream| - |data|..] else data[..pos] == stream)
  }

  class RingBuffer {
    const capacity: nat
    const data: array<Byte>
    var writePos: nat
    // A signed 64-bit counter.
    var total: int
    var wrapped: bool

    // Everything ever written.
    ghost var stream: seq<Byte>

    ghost predicate Valid()
      reads this, data
    {
      && 0 < capacity == data.Length
      && writePos < capacity
      && total == Wrap64(|stream|)
      && Holds(data[..], writePos, wrapped, stream)
    }

    constructor (capacity: int)
      ensures Valid() && fresh(data)
      ensures this.capacity == if 0 < capacity then capacity else 1_048_576
      ensures stream == []
    {
      var size: nat := if capacity <= 0 then DEFAULT_CAPACITY else capacity;
      this.capacity := size;
      data := new Byte[size](_ => 0);
      writePos, total, wrapped := 0, 0, false;
      stream := [];
    }

    method Write(p: seq<Byte>) returns (n: nat)
      requires Valid()
      modifies this, data
      ensures Valid()
      ensures n == |p| && stream == old(stream) + p
    {
      n := |p|;
      if n == 0 {
        assert stream + p == stream;
        return;
      }
      Store(p);
      WrapAdds(|stream|, n);
      total := Wrap64(total + n);
      stream := stream + p;
    }

    // The copying part of Write; the stream is extended by the caller.
    method Store(p: seq<Byte>)
      requires Valid() && 0 < |p|
      modifies this`writePos, this`wrapped, data
      ensures writePos < capacity
      ensures Holds(data[..], writePos, wrapped, stream + p)
    {
      var n := |p|;
      if n >= capacity {
        StoreLast(p);
      } else {
        var remaining := capacity - writePos;
        if n <= remaining {
          StoreThrough(p);
        } else {
          StoreAround(p);
        }
      }
    }

    // Input as long as the storage or longer.
    method StoreLast(p: seq<Byte>)
      requires Valid() && capacity <= |p|
      modifies this`writePos, this`wrapped, data
      ensures writePos < capacity
      ensures Holds(data[..], writePos, wrapped, stream + p)
    {
      Copy(data, 0, p[|p| - capacity..]);
      WroteOver(data[..], stream, p);
      writePos := 0;
      wrapped := true;
    }

    // Input that does not go past the end of the storage.
    method StoreThrough(p: seq<Byte>)
      requires Valid() && 0 < |p| <= capacity - writePos
      modifies this`writePos, this`wrapped, data
      ensures writePos < capacity
      ensures Holds(data[..], writePos, wrapped, stream + p)
    {
      ghost var before := data[..];
      Copy(data, writePos, p);
      WroteThrough(before, data[..], stream, writePos, wrapped, p);
      writePos := writePos + |p|;
      if writePos == capacity {
        writePos := 0;
        wrapped := true;
      }
    }

    // Input that does.
    method StoreAround(p: seq<Byte>)
      requires Valid() && capacity - writePos < |p| < capacity
      modifies this`writePos, this`wrapped, data
      ensures writePos < capacity
      ensures Holds(data[..], writePos, wrapped, stream + p)
    {
      var remaining := capacity - writePos;
      ghost var before := data[..];
      CopyAround(data, writePos, p);
      WroteAround(before, data[..], stream, writePos, wrapped, p);
      writePos := |p| - remaining;
      wrapped := true;
    }

    // The last bytes of the stream; nothing when the byte counter has come round to exactly 0.
    method ReadAll() returns (out: seq<Byte>)
      requires Valid()
      ensures out == if |stream| % TWO_TO_THE_64 == 0 then [] else LastBytes(stream, capacity)
    {
      WrapZero(|stream|);
      if total == 0 {
        return [];
      }
      if !wrapped {
        return data[..writePos];
      }
      return data[writePos..] + data[..writePos];
    }

    // The last count lines of what the buffer holds.
    method TailLines(count: int) returns (out: seq<Byte>)
      requires Valid()
      ensures var all := if |stream| % TWO_TO_THE_64 == 0 then [] else LastBytes(stream, capacity);
        out == if count <= 0 then all else LastLines(all, count)
    {
      var all := ReadAll();
      if count <= 0 || |all| == 0 {
        FlattenLines([]);
        return all;
      }

      out := ScanLines(all, count);
    }
  }

  // The newlines from position i on, not counting one at the very end.
  function Newlines(all: seq<Byte>, i: nat): nat
    decreases |all| - i
  {
    if i + 1 >= |all| then 0 else (if all[i] == NEWLINE then 1 else 0) + Newlines(all, i + 1)
  }

  // The loop of TailLines.
  method ScanLines(all: seq<Byte>, count: nat) returns (out: seq<Byte>)
    requires 0 < count && 0 < |all|
    ensures out == LastLines(all, count)
  {
    var found := 0;
    var i := |all| - 1;
    if all[i] == NEWLINE {
      i := i - 1;
    }

    while i >= 0
      invariant -1 <= i < |all|
      invariant i == |all| - 1 ==> all[i] != NEWLINE
      invariant found == Newlines(all, i + 1) < count
    {
      if all[i] == NEWLINE {
        found := found + 1;
        if found >= count {
          ScanHit(all, i, count);
          return all[i + 1..];
        }
      }
      i := i - 1;
    }
    ScanAll(all, count);
    return all;
  }

  lemma {:induction false} NewlinesAreLines(all: seq<Byte>, i: nat)
    requires i < |all|
    ensures |Lines(all[i..])| == Newlines(all, i) + 1
    decreases |all| - i
  {
    assert all[i..] == [all[i]] + all[i + 1..];
    if i + 1 < |all| {
      NewlinesAreLines(all, i + 1);
    }
  }

  lemma ScanHit(all: seq<Byte>, i: nat, count: nat)
    requires i + 1 < |all| && all[i] == NEWLINE && Newlines(all, i) == count
    ensures LastLines(all, count) == all[i + 1..]
  {
    NewlinesAreLines(all, i + 1);
    SuffixIsLastLines(all, i + 1, count);
  }

  lemma ScanAll(all: seq<Byte>, count: nat)
    requires 0 < |all| && Newlines(all, 0) < count
    ensures LastLines(all, count) == all
  {
    NewlinesAreLines(all, 0);
    assert all[0..] == all;
    FlattenLines(all);
  }

  // Input as long as the storage or longer.
  lemma WroteOver(after: seq<Byte>, stream: seq<Byte>, p: seq<Byte>)
    requires |after| <= |p| && after == p[|p| - |after|..]
    ensures Holds(after, 0, true, stream + p)
  {
    assert after[0..] + after[..0] == after;
    assert (stream + p)[|stream + p| - |after|..] == after;
  }

  // Writing up to the end of the storage.
  lemma WroteThrough(data: seq<Byte>, after: seq<Byte>, stream: seq<Byte>, pos: nat, wrapped: bool, p: seq<Byte>)
    requires pos < |data| && 0 < |p| && pos + |p| <= |data|
    requires Holds(data, pos, wrapped, stream)
    requires after == data[..pos] + p + data[pos + |p|..]
    ensures pos + |p| == |data| ==> Holds(after, 0, true, stream + p)
    ensures pos + |p| < |data| ==> Holds(after, pos + |p|, wrapped, stream + p)
  {
    var end := pos + |p|;
    if wrapped {
      assert (stream + p)[|stream + p| - |data|..] == stream[|stream| - |data|..][|p|..] + p;
      assert (data[pos..] + data[..pos])[|p|..] == data[end..] + data[..pos];
      assert after[end..] + after[..end] == data[end..] + (data[..pos] + p);
      assert end == |data| ==> after[0..] + after[..0] == after[end..] + after[..end];
    } else {
      assert after[..end] == stream + p;
      if end == |data| {
        assert after[0..] + after[..0] == (stream + p)[|stream + p| - |data|..];
      }
    }
  }

  // Writing past the end of the storage and on from its start.
  lemma WroteAround(data: seq<Byte>, after: seq<Byte>, stream: seq<Byte>, pos: nat, wrapped: bool, p: seq<Byte>)
    requires pos < |data| && |data| < pos + |p| && |p| < |data|
    requires Holds(data, pos, wrapped, stream)
    requires var head := |data| - pos;
      after == p[head..] + data[|p| - head..pos] + p[..head]
    ensures Holds(after, |p| - (|data| - pos), true, stream + p)
  {
    var end := |p| - (|data| - pos);
    assert after[end..] + after[..end] == data[end..pos] + p;
    if wrapped {
      assert (data[pos..] + data[..pos])[|p|..] == data[end..pos];
      assert (stream + p)[|stream + p| - |data|..] == stream[|stream| - |data|..][|p|..] + p;
    } else {
      assert (stream + p)[|stream + p| - |data|..] == data[..pos][end..] + p;
    }
  }

  // A suffix that begins a line and has count lines is the last count lines.
  lemma {:induction false} SuffixIsLastLines(s: seq<Byte>, m: nat, count: nat)
    requires 0 < m <= |s| && s[m - 1] == NEWLINE && |Lines(s[m..])| == count
    ensures LastLines(s, count) == s[m..]
    ensures count < |Lines(s)|
  {
    if m == 1 {
      LastLinesOfRest(s, count);
      FlattenLines(s[1..]);
    } else {
      assert s[1..][m - 1..] == s[m..];
      SuffixIsLastLines(s[1..], m - 1, count);
      LastLinesOfRest(s, count);
    }
  }

  // For readers: what TailLines returns, in terms of everything ever written, while the byte counter has
  // not come round.
  lemma TailOfStream(stream: seq<Byte>, capacity: nat, count: nat)
    requires 0 < count
    ensures var window, tail := LastBytes(stream, capacity), LastLines(stream, count);
      && LastLines(window, count) == (if |tail| <= |window| then tail else window)
      && |Lines(LastLines(window, count))| == (if count < |Lines(window)| then count else |Lines(window)|)
  {
    var m := if |stream| <= capacity then 0 else |stream| - capacity;
    assert stream[m..] == LastBytes(stream, capacity);
    LastLinesOfWindow(stream, m, count);
    LastLinesCount(LastBytes(stream, capacity), count);
  }
}
