/** The few Python built-ins the core relies on: the exception classes it
    raises, and the str methods strip, upper, split and join. Strings are
    sequences of Unicode code points, as Python's str is. */
module Builtins {
  import opened Wrappers

  /** The exceptions the core raises, with the message Python gives them. */
  datatype Exception =
    | ValueError(message: string)
    | TypeError(message: string)
    | AttributeError(message: string)

  /** str.isspace() on one character: the characters str.strip() removes. */
  predicate IsSpace(c: char) {
    || ('\t' <= c <= '\r')
    || ('\U{1C}' <= c <= '\U{1F}')
    || c == ' ' || c == '\U{85}' || c == '\U{A0}' || c == '\U{1680}'
    || ('\U{2000}' <= c <= '\U{200A}')
    || c == '\U{2028}' || c == '\U{2029}' || c == '\U{202F}' || c == '\U{205F}' || c == '\U{3000}'
  }

  predicate AllSpace(s: string) {
    forall i :: 0 <= i < |s| ==> IsSpace(s[i])
  }

  /** str.lstrip(). */
  function StripLeft(s: string): string {
    if |s| > 0 && IsSpace(s[0]) then StripLeft(s[1..]) else s
  }

  /** str.rstrip(). */
  function StripRight(s: string): string {
    if |s| > 0 && IsSpace(s[|s| - 1]) then StripRight(s[..|s| - 1]) else s
  }

  /** lstrip keeps the suffix of s that starts at its first non-space character. */
  lemma {:induction false} StripLeftMeaning(s: string)
    ensures |StripLeft(s)| <= |s| && StripLeft(s) == s[|s| - |StripLeft(s)|..]
    ensures AllSpace(s[..|s| - |StripLeft(s)|])
    ensures StripLeft(s) == [] || !IsSpace(StripLeft(s)[0])
  {
    if |s| > 0 && IsSpace(s[0]) {
      StripLeftMeaning(s[1..]);
      var k := |s| - |StripLeft(s)|;
      assert s[..k] == [s[0]] + s[1..][..k - 1];
    }
  }

  /** rstrip keeps the prefix of s that ends at its last non-space character. */
  lemma {:induction false} StripRightMeaning(s: string)
    ensures |StripRight(s)| <= |s| && StripRight(s) == s[..|StripRight(s)|]
    ensures AllSpace(s[|StripRight(s)|..])
    ensures StripRight(s) == [] || !IsSpace(StripRight(s)[|StripRight(s)| - 1])
  {
    if |s| > 0 && IsSpace(s[|s| - 1]) {
      var t := s[..|s| - 1];
      StripRightMeaning(t);
      var k := |StripRight(s)|;
      assert s[k..] == t[k..] + [s[|s| - 1]];
    }
  }

  /** str.strip(): s without its leading and trailing whitespace. */
  function Strip(s: string): string {
    StripRight(StripLeft(s))
  }

  /** The stripped string is empty exactly when s is all whitespace, and
      otherwise begins and ends with a character that is not. */
  lemma StripMeaning(s: string)
    ensures Strip(s) == [] <==> AllSpace(s)
    ensures Strip(s) != [] ==> !IsSpace(Strip(s)[0]) && !IsSpace(Strip(s)[|Strip(s)| - 1])
    ensures exists i, j :: 0 <= i <= j <= |s| && Strip(s) == s[i..j] && AllSpace(s[..i]) && AllSpace(s[j..])
  {
    var left := StripLeft(s);
    var r := StripRight(left);
    var k := |s| - |left|;
    StripLeftMeaning(s);
    StripRightMeaning(left);
    assert r == [] ==> AllSpace(s) by {
      assert r == [] ==> left[|r|..] == left;
      assert s[..|s|] == s;
    }
    assert AllSpace(s) ==> left == [] by {
      if left != [] {
        assert left[0] == s[k];
      }
    }
    var j := k + |r|;
    assert r == s[k..j];
    assert s[j..] == left[|r|..];
  }

  /** str.upper() restricted to ASCII: 'a'..'z' become 'A'..'Z'. */
  function UpperChar(c: char): char {
    if 'a' <= c <= 'z' then (c as int - 32) as char else c
  }

  /** The result has the length of s, holds no lower-case ASCII letter, and
      agrees with s at every position that is not one. */
  function Upper(s: string): (r: string)
    ensures |r| == |s|
    ensures forall i :: 0 <= i < |r| ==> !('a' <= r[i] <= 'z')
    ensures forall i :: 0 <= i < |s| && !('a' <= s[i] <= 'z') ==> r[i] == s[i]
    ensures forall i :: 0 <= i < |s| && 'a' <= s[i] <= 'z' ==> r[i] as int == s[i] as int - 32
  {
    if s == [] then [] else [UpperChar(s[0])] + Upper(s[1..])
  }

  /** str.find() on one character, with None for Python's -1. */
  function Find(s: string, c: char): (r: Option<nat>)
    ensures r.None? <==> c !in s
    ensures r.Some? ==> r.value < |s| && s[r.value] == c && c !in s[..r.value]
  {
    if s == [] then None
    else if s[0] == c then Some(0)
    else match Find(s[1..], c)
      case None => None
      case Some(i) => Some(i + 1)
  }

  /** str.split(sep, 1) for a one-character sep: one part when sep does not
      occur, otherwise the text before its first occurrence and everything
      after it. */
  function SplitOnce(s: string, sep: char): (parts: seq<string>)
    ensures sep !in s ==> parts == [s]
    ensures sep in s ==> |parts| == 2 && s == parts[0] + [sep] + parts[1] && sep !in parts[0]
  {
    match Find(s, sep)
    case None => [s]
    case Some(i) =>
      assert s == s[..i] + [sep] + s[i + 1..];
      [s[..i], s[i + 1..]]
  }

  /** sep.join(parts). */
  function Join(sep: string, parts: seq<string>): string {
    if |parts| == 0 then ""
    else if |parts| == 1 then parts[0]
    else parts[0] + sep + Join(sep, parts[1..])
  }

  /** str.split(sep) for a non-empty sep: cut s at every occurrence of sep,
      scanning from the left. */
  function Split(s: string, sep: string): (parts: seq<string>)
    requires |sep| > 0
    ensures |parts| > 0
    decreases |s|
  {
    if |s| < |sep| then [s]
    else if s[..|sep|] == sep then [""] + Split(s[|sep|..], sep)
    else
      var rest := Split(s[1..], sep);
      [[s[0]] + rest[0]] + rest[1..]
  }

  /** x holds the two-character separator sep somewhere. */
  predicate HoldsPair(x: string, sep: string)
    requires |sep| == 2
  {
    exists i :: 0 <= i < |x| - 1 && x[i] == sep[0] && x[i + 1] == sep[1]
  }

  lemma TailWithoutSeparator(x: string, sep: string)
    requires |sep| == 2 && |x| > 0 && !HoldsPair(x, sep)
    ensures !HoldsPair(x[1..], sep)
  {
    forall i | 0 <= i < |x| - 2
      ensures !(x[1..][i] == sep[0] && x[1..][i + 1] == sep[1])
    {
      assert x[1..][i] == x[i + 1] && x[1..][i + 1] == x[i + 2];
    }
  }

  lemma {:induction false} SplitWithoutSeparator(x: string, sep: string)
    requires |sep| == 2 && !HoldsPair(x, sep)
    ensures Split(x, sep) == [x]
    decreases |x|
  {
    if |x| >= 2 {
      assert !(x[0] == sep[0] && x[1] == sep[1]);
      assert x[..2][0] == x[0] && x[..2][1] == x[1];
      TailWithoutSeparator(x, sep);
      SplitWithoutSeparator(x[1..], sep);
      assert [x[0]] + x[1..] == x;
    }
  }

  lemma {:induction false} SplitAtFirstSeparator(x: string, sep: string, y: string)
    requires |sep| == 2 && sep[0] != sep[1] && !HoldsPair(x, sep)
    ensures Split(x + sep + y, sep) == [x] + Split(y, sep)
    decreases |x|
  {
    var s := x + sep + y;
    if x == [] {
      assert s == sep + y;
      assert s[..2] == sep;
      assert s[2..] == y;
    } else {
      if |x| == 1 {
        assert s[1] == sep[0];
      } else {
        assert !(x[0] == sep[0] && x[1] == sep[1]);
      }
      assert s[..2][0] == s[0] && s[..2][1] == s[1];
      TailWithoutSeparator(x, sep);
      assert s[1..] == x[1..] + sep + y;
      SplitAtFirstSeparator(x[1..], sep, y);
      assert [x[0]] + x[1..] == x;
    }
  }

  /** Splitting a join at its separator gives back the parts, provided there
      is at least one part and no part holds the separator. */
  lemma {:induction false} SplitJoin(sep: string, parts: seq<string>)
    requires |sep| == 2 && sep[0] != sep[1]
    requires |parts| > 0
    requires forall k :: 0 <= k < |parts| ==> !HoldsPair(parts[k], sep)
    ensures Split(Join(sep, parts), sep) == parts
    decreases |parts|
  {
    if |parts| == 1 {
      SplitWithoutSeparator(parts[0], sep);
    } else {
      SplitJoin(sep, parts[1..]);
      SplitAtFirstSeparator(parts[0], sep, Join(sep, parts[1..]));
      assert [parts[0]] + parts[1..] == parts;
    }
  }
}
