// Lines of a byte stream, and the last lines of a stream against the last lines of a window onto it.
module LogLines {

  type Byte = b: int | 0 <= b < 256

  const NEWLINE: Byte := 10

  // The lines of s in order, each with the newline that ends it; the last one may lack it.
  function Lines(s: seq<Byte>): seq<seq<Byte>> {
    if s == [] then []
    else if s[0] == NEWLINE then [[NEWLINE]] + Lines(s[1..])
    else
      var rest := Lines(s[1..]);
      if rest == [] then [[s[0]]] else [[s[0]] + rest[0]] + rest[1..]
  }

  function Flatten(lines: seq<seq<Byte>>): seq<Byte> {
    if lines == [] then [] else lines[0] + Flatten(lines[1..])
  }

  // Putting the lines together again gives the stream.
  lemma {:induction false} FlattenLines(s: seq<Byte>)
    ensures Flatten(Lines(s)) == s
  {
    if s != [] {
      FlattenLines(s[1..]);
      var rest := Lines(s[1..]);
      assert s == [s[0]] + s[1..];
      if s[0] != NEWLINE && rest != [] {
        assert Lines(s)[1..] == rest[1..];
      }
    }
  }

  // A line is not empty, a newline can only be its last byte, and only the last line may lack one.
  lemma {:induction false} LinesAreLines(s: seq<Byte>, i: nat)
    requires i < |Lines(s)|
    ensures Lines(s)[i] != []
    ensures forall j :: 0 <= j < |Lines(s)[i]| - 1 ==> Lines(s)[i][j] != 10
    ensures i < |Lines(s)| - 1 ==> Lines(s)[i][|Lines(s)[i]| - 1] == 10
  {
    var rest := Lines(s[1..]);
    if s[0] == NEWLINE {
      if i > 0 {
        LinesAreLines(s[1..], i - 1);
      }
    } else if rest != [] {
      LinesAreLines(s[1..], i);
    }
  }

  function Last(lines: seq<seq<Byte>>, count: nat): seq<seq<Byte>> {
    if |lines| <= count then lines else lines[|lines| - count..]
  }

  // The last count lines; everything, when there are no more.
  function LastLines(s: seq<Byte>, count: nat): seq<Byte> {
    Flatten(Last(Lines(s), count))
  }

  // One more byte in front joins the first line or is a line of its own.
  lemma LinesOfRest(s: seq<Byte>)
    requires s != []
    ensures |Lines(s)| > 0
    ensures || Lines(s)[1..] == Lines(s[1..])
            || (Lines(s[1..]) != [] && Lines(s)[1..] == Lines(s[1..])[1..])
  {
    var rest := Lines(s[1..]);
    if s[0] == NEWLINE {
      assert Lines(s) == [[NEWLINE]] + rest;
    } else if rest != [] {
      assert Lines(s) == [[s[0]] + rest[0]] + rest[1..];
    }
  }

  // Leading bytes that are not part of the last lines do not matter.
  lemma LastLinesOfRest(s: seq<Byte>, count: nat)
    requires s != [] && count < |Lines(s)|
    ensures Last(Lines(s), count) == Last(Lines(s[1..]), count)
    ensures count <= |Lines(s[1..])|
  {
    LinesOfRest(s);
    LastOfShorter(Lines(s), Lines(s[1..]), count);
  }

  lemma LastOfShorter(lines: seq<seq<Byte>>, rest: seq<seq<Byte>>, count: nat)
    requires count < |lines|
    requires lines[1..] == rest || (rest != [] && lines[1..] == rest[1..])
    ensures Last(lines, count) == Last(rest, count)
    ensures count <= |rest|
  {
    assert lines[|lines| - count..] == lines[1..][|lines| - count - 1..];
    if lines[1..] != rest {
      assert rest[|rest| - count..] == rest[1..][|rest| - count - 1..];
    }
  }

  // The last lines are a suffix that has as many lines as asked for, or as there are.
  lemma {:induction false} LastLinesCount(s: seq<Byte>, count: nat)
    ensures |LastLines(s, count)| <= |s| && LastLines(s, count) == s[|s| - |LastLines(s, count)|..]
    ensures |Lines(LastLines(s, count))| == if count < |Lines(s)| then count else |Lines(s)|
  {
    if count < |Lines(s)| {
      LastLinesOfRest(s, count);
      LastLinesCount(s[1..], count);
    } else {
      FlattenLines(s);
    }
  }

  lemma {:induction false} FewerLinesInSuffix(s: seq<Byte>, m: nat)
    requires m <= |s|
    ensures |Lines(s[m..])| <= |Lines(s)|
  {
    if m > 0 {
      assert s[m..] == s[1..][m - 1..];
      FewerLinesInSuffix(s[1..], m - 1);
    }
  }

  // The last bytes of a stream that a buffer of the given capacity can hold.
  function LastBytes(s: seq<Byte>, capacity: nat): seq<Byte> {
    if |s| <= capacity then s else s[|s| - capacity..]
  }

  // Asking a window for its last lines gives the last lines of the whole stream, or the whole window when
  // they do not fit into it.
  lemma {:induction false} LastLinesOfWindow(s: seq<Byte>, m: nat, count: nat)
    requires m <= |s|
    ensures LastLines(s[m..], count) ==
            if |LastLines(s, count)| <= |s| - m then LastLines(s, count) else s[m..]
  {
    if |Lines(s)| <= count {
      FewerLinesInSuffix(s, m);
      FlattenLines(s);
      FlattenLines(s[m..]);
    } else if m > 0 {
      assert s[m..] == s[1..][m - 1..];
      LastLinesOfRest(s, count);
      LastLinesOfWindow(s[1..], m - 1, count);
    } else {
      LastLinesCount(s, count);
      assert s[0..] == s;
    }
  }
}
