// The string operations that selectors are parsed with: Go's Split, Contains and TrimSpace.
module Strings {

  // The pieces of s around each separator, found from the left.
  function Split(s: string, sep: string): (pieces: seq<string>)
    requires sep != ""
    ensures pieces != []
    decreases |s|
  {
    if |s| < |sep| then [s]
    else if s[..|sep|] == sep then [""] + Split(s[|sep|..], sep)
    else
      var rest := Split(s[1..], sep);
      [[s[0]] + rest[0]] + rest[1..]
  }

  predicate Contains(s: string, sub: string)
    decreases |s|
  {
    |sub| <= |s| && (s[..|sub|] == sub || (s != "" && Contains(s[1..], sub)))
  }

  predicate IsSpace(c: char) {
    || '\t' <= c <= '\r' || c == ' ' || c == '\U{85}' || c == '\U{A0}' || c == '\U{1680}'
    || '\U{2000}' <= c <= '\U{200A}' || c == '\U{2028}' || c == '\U{2029}' || c == '\U{202F}'
    || c == '\U{205F}' || c == '\U{3000}'
  }

  function TrimSpace(s: string): string
    decreases |s|
  {
    if s == "" then ""
    else if IsSpace(s[0]) then TrimSpace(s[1..])
    else if IsSpace(s[|s| - 1]) then TrimSpace(s[..|s| - 1])
    else s
  }

  // Splitting finds a separator exactly when the string contains one.
  lemma {:induction false} SplitIffContains(s: string, sep: string)
    requires sep != ""
    ensures |Split(s, sep)| > 1 <==> Contains(s, sep)
    decreases |s|
  {
    if |sep| <= |s| && s[..|sep|] != sep {
      SplitIffContains(s[1..], sep);
    }
  }

  // Joining the pieces again gives the string.
  function Join(pieces: seq<string>, sep: string): string {
    if pieces == [] then ""
    else if |pieces| == 1 then pieces[0]
    else pieces[0] + sep + Join(pieces[1..], sep)
  }

  lemma {:induction false} JoinSplit(s: string, sep: string)
    requires sep != ""
    ensures Join(Split(s, sep), sep) == s
    decreases |s|
  {
    if |sep| <= |s| {
      if s[..|sep|] == sep {
        var rest := Split(s[|sep|..], sep);
        JoinSplit(s[|sep|..], sep);
        assert ([""] + rest)[1..] == rest;
        assert s == s[..|sep|] + s[|sep|..];
      } else {
        var rest := Split(s[1..], sep);
        JoinSplit(s[1..], sep);
        JoinFirst(s[0], rest, sep);
        assert s == [s[0]] + s[1..];
      }
    }
  }

  lemma JoinFirst(c: char, rest: seq<string>, sep: string)
    requires rest != []
    ensures Join([[c] + rest[0]] + rest[1..], sep) == [c] + Join(rest, sep)
  {
    assert ([[c] + rest[0]] + rest[1..])[1..] == rest[1..];
  }

  // A separator of one character splits the two sides of it independently.
  lemma {:induction false} SplitAppend(a: string, c: char, b: string)
    ensures Split(a + [c] + b, [c]) == Split(a, [c]) + Split(b, [c])
    decreases |a|
  {
    var s := a + [c] + b;
    SplitFirst(s, c);
    if a == "" {
      assert s[1..] == b;
    } else {
      assert s[0] == a[0] && s[1..] == a[1..] + [c] + b;
      SplitFirst(a, c);
      SplitAppend(a[1..], c, b);
      if a[0] != c {
        FirstOf(a[0], Split(a[1..], [c]), Split(b, [c]));
      }
    }
  }

  lemma SplitFirst(s: string, c: char)
    requires s != ""
    ensures Split(s, [c]) ==
            if s[0] == c then [""] + Split(s[1..], [c])
            else [[s[0]] + Split(s[1..], [c])[0]] + Split(s[1..], [c])[1..]
  {
    assert s[..1] == [s[0]];
  }

  lemma FirstOf(c: char, p: seq<string>, q: seq<string>)
    requires p != []
    ensures [[c] + (p + q)[0]] + (p + q)[1..] == ([[c] + p[0]] + p[1..]) + q
  {
  }

  // No separator before its first character, and none after.
  lemma {:induction false} SplitOnce(k: string, sep: string, v: string)
    requires sep != "" && sep[0] !in k && !Contains(v, sep)
    ensures Split(k + sep + v, sep) == [k, v]
    ensures Contains(k + sep + v, sep)
    decreases |k|
  {
    var s := k + sep + v;
    if k == "" {
      assert s[..|sep|] == sep && s[|sep|..] == v;
      SplitIffContains(v, sep);
      JoinSplit(v, sep);
    } else {
      assert s[0] == k[0] && s[1..] == k[1..] + sep + v;
      assert s[..|sep|][0] != sep[0];
      SplitOnce(k[1..], sep, v);
      assert [k[1..], v][1..] == [v] && k == [k[0]] + k[1..];
    }
  }

  lemma {:induction false} AbsentCharacter(s: string, sub: string, c: char)
    requires c in sub && c !in s
    ensures !Contains(s, sub)
    decreases |s|
  {
    if |sub| <= |s| {
      assert c !in s[..|sub|];
      if s != "" {
        AbsentCharacter(s[1..], sub, c);
      }
    }
  }

  // What does not begin in a prefix, nor at its end, is only to be found after it.
  lemma {:induction false} NotAcross(k: string, s: string, sub: string)
    requires sub != "" && sub[0] !in k && !Contains(s, sub)
    ensures !Contains(k + s, sub)
    decreases |k|
  {
    if k == "" {
      assert k + s == s;
    } else {
      assert (k + s)[0] == k[0] && (k + s)[1..] == k[1..] + s;
      NotAcross(k[1..], s, sub);
    }
  }

  // All of s but s[i..j] is white space.
  ghost predicate SpacesAround(s: string, i: nat, j: nat) {
    i <= j <= |s| && forall k :: 0 <= k < i || j <= k < |s| ==> IsSpace(s[k])
  }

  lemma SpaceInFront(s: string, i: nat, j: nat)
    requires s != "" && IsSpace(s[0]) && SpacesAround(s[1..], i, j)
    ensures SpacesAround(s, i + 1, j + 1) && s[1..][i..j] == s[i + 1..j + 1]
  {
    forall k | 0 <= k < i + 1 || j + 1 <= k < |s|
      ensures IsSpace(s[k])
    {
      if k > 0 {
        assert s[k] == s[1..][k - 1];
      }
    }
    assert |s[1..][i..j]| == |s[i + 1..j + 1]|;
    assert forall k :: 0 <= k < j - i ==> s[1..][i..j][k] == s[i + 1..j + 1][k];
  }

  lemma SpaceBehind(s: string, i: nat, j: nat)
    requires s != "" && IsSpace(s[|s| - 1]) && SpacesAround(s[..|s| - 1], i, j)
    ensures SpacesAround(s, i, j) && s[..|s| - 1][i..j] == s[i..j]
  {
    forall k | 0 <= k < i || j <= k < |s|
      ensures IsSpace(s[k])
    {
      if k < |s| - 1 {
        assert s[k] == s[..|s| - 1][k];
      }
    }
    assert |s[..|s| - 1][i..j]| == |s[i..j]|;
    assert forall k :: 0 <= k < j - i ==> s[..|s| - 1][i..j][k] == s[i..j][k];
  }

  // What is trimmed off on either side is white space, and what is left neither begins nor ends with any.
  lemma {:induction false} TrimIs(s: string) returns (i: nat, j: nat)
    ensures SpacesAround(s, i, j) && TrimSpace(s) == s[i..j]
    ensures TrimSpace(s) != "" ==> !IsSpace(TrimSpace(s)[0]) && !IsSpace(TrimSpace(s)[|TrimSpace(s)| - 1])
    decreases |s|
  {
    if s == "" {
      i, j := 0, 0;
    } else if IsSpace(s[0]) {
      i, j := TrimIs(s[1..]);
      SpaceInFront(s, i, j);
      i, j := i + 1, j + 1;
    } else if IsSpace(s[|s| - 1]) {
      i, j := TrimIs(s[..|s| - 1]);
      SpaceBehind(s, i, j);
    } else {
      i, j := 0, |s|;
      assert s == s[0..|s|];
    }
  }

  lemma TrimFront(c: char, s: string)
    requires IsSpace(c)
    ensures TrimSpace([c] + s) == TrimSpace(s)
  {
    assert ([c] + s)[1..] == s;
  }

  lemma {:induction false} TrimBack(s: string, c: char)
    requires IsSpace(c)
    ensures TrimSpace(s + [c]) == TrimSpace(s)
    decreases |s|
  {
    if s == "" {
      assert s + [c] == [c] && [c][1..] == "";
    } else if IsSpace(s[0]) {
      assert (s + [c])[1..] == s[1..] + [c];
      TrimBack(s[1..], c);
    } else {
      assert (s + [c])[..|s|] == s;
    }
  }

  // White space of one byte is the blank and the control characters from tab to carriage return.
  lemma BlanksAreSpaces(c: char)
    requires c as int < 0x80
    ensures IsSpace(c) <==> c == ' ' || c == '\t' || c == '\n' || c == '\U{B}' || c == '\U{C}' || c == '\r'
  {
  }
}
