// The writer that puts a pod's name in front of each line of its output (logs/writer.go).
module PrefixWriter {
  import opened ApiTypes
  import opened LogLines
  import opened Totals

  // Whether the byte after s begins a line.
  predicate AtLineStart(s: seq<Byte>) {
    s == [] || s[|s| - 1] == NEWLINE
  }

  // The bytes written for input s, where need says that a prefix is due.
  function Prefixed(prefix: seq<Byte>, need: bool, s: seq<Byte>): seq<Byte>
    decreases |s|
  {
    if s == [] then [] else
      (if need then prefix else []) + [s[0]] + Prefixed(prefix, s[0] == NEWLINE, s[1..])
  }

  class PrefixWriter {
    const prefix: seq<Byte>
    var needPrefix: bool
    // What the destination has received.
    var dest: seq<Byte>

    // Everything handed to Write, and whether the destination took all of it.
    ghost var input: seq<Byte>
    ghost var intact: bool

    ghost predicate Valid()
      reads this
    {
      && needPrefix == AtLineStart(input)
      && (intact ==> dest == Prefixed(prefix, true, input))
    }

    constructor (prefix: seq<Byte>)
      ensures Valid() && this.prefix == prefix && dest == [] && input == [] && intact
    {
      this.prefix := prefix;
      needPrefix, dest := true, [];
      input, intact := [], true;
    }

    // failure is the number of bytes after which the destination reports an error, or None when it takes the
    // whole chunk.  The line state moves on even when it fails.
    method Write(p: seq<Byte>, failure: Option<nat>) returns (n: nat, failed: bool)
      requires Valid()
      modifies this
      ensures Valid()
      ensures input == old(input) + p
      ensures failed == (p != [] && failure.Some?) && n == (if failed then 0 else |p|)
      ensures intact == (old(intact) && !failed)
      ensures var chunk := Prefixed(prefix, AtLineStart(old(input)), p);
        dest == old(dest) + if failed then chunk[..Min(failure.value, |chunk|)] else chunk
    {
      input := input + p;
      if |p| == 0 {
        assert input == old(input);
        return 0, false;
      }

      var buf := Fill(p);
      PrefixedAppend(prefix, true, old(input), p);
      if failure.Some? {
        dest := dest + buf[..Min(failure.value, |buf|)];
        intact := false;
        return 0, true;
      }
      dest := dest + buf;
      return |p|, false;
    }

    // The loop of Write, which fills its buffer.
    method Fill(p: seq<Byte>) returns (buf: seq<Byte>)
      requires p != []
      modifies this`needPrefix
      ensures buf == Prefixed(prefix, old(needPrefix), p)
      ensures needPrefix == AtLineStart(p)
    {
      buf := [];
      ghost var chunk := Prefixed(prefix, needPrefix, p);
      FromStart(prefix, needPrefix, p);
      for i := 0 to |p|
        invariant chunk == buf + PrefixedFrom(prefix, needPrefix, p, i)
        invariant i > 0 ==> needPrefix == (p[i - 1] == NEWLINE)
      {
        OneByte(prefix, needPrefix, p, i, buf, chunk);
        if needPrefix {
          buf := buf + prefix;
          needPrefix := false;
        }
        buf := buf + [p[i]];
        if p[i] == NEWLINE {
          needPrefix := true;
        }
      }
    }
  }

  // The bytes written for the input from position i on.
  function PrefixedFrom(prefix: seq<Byte>, need: bool, p: seq<Byte>, i: nat): seq<Byte>
    requires i <= |p|
    decreases |p| - i
  {
    if i == |p| then [] else
      (if need then prefix else []) + [p[i]] + PrefixedFrom(prefix, p[i] == NEWLINE, p, i + 1)
  }

  lemma {:induction false} FromIs(prefix: seq<Byte>, need: bool, p: seq<Byte>, i: nat)
    requires i <= |p|
    ensures PrefixedFrom(prefix, need, p, i) == Prefixed(prefix, need, p[i..])
    decreases |p| - i
  {
    if i < |p| {
      FromIs(prefix, p[i] == NEWLINE, p, i + 1);
      assert p[i..][1..] == p[i + 1..];
    }
  }

  lemma FromStart(prefix: seq<Byte>, need: bool, p: seq<Byte>)
    ensures PrefixedFrom(prefix, need, p, 0) == Prefixed(prefix, need, p)
  {
    FromIs(prefix, need, p, 0);
    assert p[0..] == p;
  }

  // One byte moves from what is to be written to what is.
  lemma OneByte(prefix: seq<Byte>, need: bool, p: seq<Byte>, i: nat, buf: seq<Byte>, chunk: seq<Byte>)
    requires i < |p| && chunk == buf + PrefixedFrom(prefix, need, p, i)
    ensures var now := (if need then buf + prefix else buf) + [p[i]];
      chunk == now + PrefixedFrom(prefix, p[i] == NEWLINE, p, i + 1)
  {
    var rest := PrefixedFrom(prefix, p[i] == NEWLINE, p, i + 1);
    if need {
      assert buf + (prefix + [p[i]] + rest) == buf + prefix + [p[i]] + rest;
    } else {
      assert [] + [p[i]] + rest == [p[i]] + rest;
      assert buf + ([p[i]] + rest) == buf + [p[i]] + rest;
    }
  }

  lemma {:induction false} PrefixedAppend(prefix: seq<Byte>, need: bool, s: seq<Byte>, t: seq<Byte>)
    ensures Prefixed(prefix, need, s + t)
         == Prefixed(prefix, need, s) + Prefixed(prefix, if s == [] then need else AtLineStart(s), t)
    decreases |s|
  {
    if s == [] {
      assert s + t == t;
    } else {
      assert (s + t)[1..] == s[1..] + t;
      PrefixedAppend(prefix, s[0] == NEWLINE, s[1..], t);
    }
  }

  // The output of successive writes depends only on what was written, not on how it was cut into chunks.
  function WriteAll(prefix: seq<Byte>, need: bool, chunks: seq<seq<Byte>>): seq<Byte>
    decreases |chunks|
  {
    if chunks == [] then [] else
      Prefixed(prefix, need, chunks[0])
      + WriteAll(prefix, if chunks[0] == [] then need else AtLineStart(chunks[0]), chunks[1..])
  }

  lemma {:induction false} ChunksDoNotMatter(prefix: seq<Byte>, need: bool, chunks: seq<seq<Byte>>)
    ensures WriteAll(prefix, need, chunks) == Prefixed(prefix, need, Flatten(chunks))
    decreases |chunks|
  {
    if chunks != [] {
      var next := if chunks[0] == [] then need else AtLineStart(chunks[0]);
      ChunksDoNotMatter(prefix, next, chunks[1..]);
      PrefixedAppend(prefix, need, chunks[0], Flatten(chunks[1..]));
    }
  }

  function WithPrefix(prefix: seq<Byte>, lines: seq<seq<Byte>>): seq<seq<Byte>> {
    seq(|lines|, i requires 0 <= i < |lines| => prefix + lines[i])
  }

  // The output is the input's lines, each with the prefix once in front; a blank line is one too.
  lemma {:induction false} EveryLineOnce(prefix: seq<Byte>, s: seq<Byte>)
    ensures Prefixed(prefix, true, s) == Flatten(WithPrefix(prefix, Lines(s)))
    ensures s != [] ==> Prefixed(prefix, true, s) == prefix + Prefixed(prefix, false, s)
  {
    if s != [] {
      var rest := Lines(s[1..]);
      EveryLineOnce(prefix, s[1..]);
      if s[0] == NEWLINE {
        assert WithPrefix(prefix, Lines(s)) == [prefix + [NEWLINE]] + WithPrefix(prefix, rest);
      } else if rest == [] {
        FlattenLines(s[1..]);
        assert WithPrefix(prefix, Lines(s)) == [prefix + [s[0]]];
      } else {
        FirstLine(prefix, s);
      }
    }
  }

  lemma FirstLine(prefix: seq<Byte>, s: seq<Byte>)
    requires s != [] && s[0] != NEWLINE && Lines(s[1..]) != []
    requires Prefixed(prefix, true, s[1..]) == Flatten(WithPrefix(prefix, Lines(s[1..])))
    requires Prefixed(prefix, true, s[1..]) == prefix + Prefixed(prefix, false, s[1..])
    ensures Prefixed(prefix, true, s) == Flatten(WithPrefix(prefix, Lines(s)))
  {
    var c, rest := s[0], Lines(s[1..]);
    var tail := WithPrefix(prefix, rest[1..]);
    FlattenFirst(prefix, rest[0], rest[1..]);
    FlattenFirst(prefix, [c] + rest[0], rest[1..]);
    Cancel(prefix, Prefixed(prefix, false, s[1..]), rest[0] + Flatten(tail));
    assert [rest[0]] + rest[1..] == rest;
    assert prefix + [c] + (rest[0] + Flatten(tail)) == (prefix + ([c] + rest[0])) + Flatten(tail);
  }

  lemma FlattenFirst(prefix: seq<Byte>, line: seq<Byte>, lines: seq<seq<Byte>>)
    ensures Flatten(WithPrefix(prefix, [line] + lines)) == prefix + (line + Flatten(WithPrefix(prefix, lines)))
    ensures Flatten(WithPrefix(prefix, [line] + lines)) == (prefix + line) + Flatten(WithPrefix(prefix, lines))
  {
    assert WithPrefix(prefix, [line] + lines) == [prefix + line] + WithPrefix(prefix, lines);
  }

  lemma Cancel(prefix: seq<Byte>, s: seq<Byte>, t: seq<Byte>)
    requires prefix + s == prefix + t
    ensures s == t
  {
    assert s == (prefix + s)[|prefix|..];
    assert t == (prefix + t)[|prefix|..];
  }

  // Dropping the first k bytes of each line, where skip counts those still to drop.
  function Strip(k: nat, skip: nat, out: seq<Byte>): seq<Byte>
    decreases |out|
  {
    if out == [] then []
    else if skip > 0 then Strip(k, skip - 1, out[1..])
    else [out[0]] + Strip(k, if out[0] == NEWLINE then k else 0, out[1..])
  }

  lemma {:induction false} StripSkips(k: nat, prefix: seq<Byte>, out: seq<Byte>)
    ensures Strip(k, |prefix|, prefix + out) == Strip(k, 0, out)
  {
    if prefix == [] {
      assert prefix + out == out;
    } else {
      assert (prefix + out)[1..] == prefix[1..] + out;
      StripSkips(k, prefix[1..], out);
    }
  }

  // Taking the prefixes off again gives the input back, whatever bytes the prefix is made of.
  lemma {:induction false} StripUndoes(prefix: seq<Byte>, need: bool, s: seq<Byte>)
    ensures Strip(|prefix|, if need then |prefix| else 0, Prefixed(prefix, need, s)) == s
    decreases |s|
  {
    if s != [] {
      var rest := Prefixed(prefix, s[0] == NEWLINE, s[1..]);
      StripUndoes(prefix, s[0] == NEWLINE, s[1..]);
      StripOne(|prefix|, s[0], rest);
      PrefixedFirst(prefix, need, s[0], rest);
      if need {
        StripSkips(|prefix|, prefix, [s[0]] + rest);
      }
      assert [s[0]] + s[1..] == s;
    }
  }

  lemma StripOne(k: nat, c: Byte, rest: seq<Byte>)
    ensures Strip(k, 0, [c] + rest) == [c] + Strip(k, if c == NEWLINE then k else 0, rest)
  {
    assert ([c] + rest)[1..] == rest;
  }

  lemma PrefixedFirst(prefix: seq<Byte>, need: bool, c: Byte, rest: seq<Byte>)
    ensures (if need then prefix else []) + [c] + rest == if need then prefix + ([c] + rest) else [c] + rest
  {
  }
}
