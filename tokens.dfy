/**
 * Text tokens on the wire: Python's `" ".join(parts)` and `str.split()` with no
 * separator, which splits on runs of whitespace and drops empty tokens.
 */
module Tokens {

  /**
   * The characters `str.split()` treats as whitespace among those an ASCII
   * decoding can produce: tab, line feed, vertical tab, form feed, carriage
   * return, the four separators 0x1C-0x1F, and space.
   */
  predicate IsWhitespace(c: char)
  {
    c == ' ' || (9 <= c as int <= 13) || (28 <= c as int <= 31)
  }

  predicate IsAscii(s: string)
  {
    forall i :: 0 <= i < |s| ==> s[i] as int < 128
  }

  /** A non-empty run of non-whitespace characters: what one split token looks like. */
  predicate IsToken(t: string)
  {
    |t| > 0 && forall i :: 0 <= i < |t| ==> !IsWhitespace(t[i])
  }

  predicate AllTokens(ts: seq<string>)
  {
    forall k :: 0 <= k < |ts| ==> IsToken(ts[k])
  }

  function TotalLength(parts: seq<string>): nat
  {
    if parts == [] then 0 else |parts[0]| + TotalLength(parts[1..])
  }

  /** `" ".join(parts)`: the parts with a single space between adjacent ones. */
  function JoinSpaces(parts: seq<string>): string
  {
    if parts == [] then ""
    else if |parts| == 1 then parts[0]
    else parts[0] + " " + JoinSpaces(parts[1..])
  }

  /** A join has one separator character fewer than it has parts. */
  lemma {:induction false} JoinSpacesLength(parts: seq<string>)
    requires parts != []
    ensures |JoinSpaces(parts)| == TotalLength(parts) + |parts| - 1
  {
    if |parts| > 1 {
      JoinSpacesLength(parts[1..]);
    }
  }

  /** The suffix of s after its leading whitespace. */
  function SkipWhitespace(s: string): (r: string)
    ensures |r| <= |s|
    ensures r == [] || !IsWhitespace(r[0])
  {
    if s != [] && IsWhitespace(s[0]) then SkipWhitespace(s[1..]) else s
  }

  /** The length of the leading run of non-whitespace characters of s. */
  function TokenEnd(s: string): (n: nat)
    ensures n <= |s|
    ensures forall i :: 0 <= i < n ==> !IsWhitespace(s[i])
    ensures n == |s| || IsWhitespace(s[n])
  {
    if s == [] || IsWhitespace(s[0]) then 0 else 1 + TokenEnd(s[1..])
  }

  /** `s.split()`: the maximal runs of non-whitespace characters, in order. */
  function SplitWhitespace(s: string): (r: seq<string>)
    ensures AllTokens(r)
    decreases |s|
  {
    var t := SkipWhitespace(s);
    if t == [] then []
    else
      var n := TokenEnd(t);
      assert n > 0;
      [t[..n]] + SplitWhitespace(t[n..])
  }

  lemma {:induction false} SplitLeadingSpace(s: string)
    ensures SplitWhitespace(" " + s) == SplitWhitespace(s)
  {
    assert (" " + s)[1..] == s;
  }

  lemma {:induction false} TokenEndOfToken(t: string, s: string)
    requires IsToken(t)
    requires s == [] || IsWhitespace(s[0])
    ensures TokenEnd(t + s) == |t|
    decreases |t|
  {
    assert (t + s)[1..] == t[1..] + s;
    if |t| > 1 {
      TokenEndOfToken(t[1..], s);
    } else {
      assert t[1..] + s == s;
    }
  }

  /** A token followed by whitespace (or nothing) is split off as the first token. */
  lemma {:induction false} SplitTokenThen(t: string, s: string)
    requires IsToken(t)
    requires s == [] || IsWhitespace(s[0])
    ensures SplitWhitespace(t + s) == [t] + SplitWhitespace(s)
  {
    TokenEndOfToken(t, s);
    assert (t + s)[..|t|] == t;
    assert (t + s)[|t|..] == s;
  }

  lemma {:induction false} SplitSingleToken(t: string)
    requires IsToken(t)
    ensures SplitWhitespace(t) == [t]
  {
    SplitTokenThen(t, "");
    assert t + "" == t;
  }

  lemma {:induction false} SplitTokenSpace(t: string, rest: string)
    requires IsToken(t)
    ensures SplitWhitespace(t + " " + rest) == [t] + SplitWhitespace(rest)
  {
    var tail := " " + rest;
    assert t + " " + rest == t + tail;
    SplitTokenThen(t, tail);
    SplitLeadingSpace(rest);
  }

  lemma JoinSpacesCons(parts: seq<string>)
    requires |parts| > 1
    ensures JoinSpaces(parts) == parts[0] + " " + JoinSpaces(parts[1..])
  {
  }

  /** One step of SplitJoin: the head token comes off, the rest splits as before. */
  lemma {:induction false} SplitJoinStep(parts: seq<string>)
    requires |parts| > 1 && IsToken(parts[0])
    requires SplitWhitespace(JoinSpaces(parts[1..])) == parts[1..]
    ensures SplitWhitespace(JoinSpaces(parts)) == parts
  {
    JoinSpacesCons(parts);
    SplitTokenSpace(parts[0], JoinSpaces(parts[1..]));
    assert parts == [parts[0]] + parts[1..];
  }

  lemma SplitBlank()
    ensures SplitWhitespace(" ") == []
  {
    assert SkipWhitespace(" ") == SkipWhitespace("");
  }

  lemma Regroup(t1: string, t2: string)
    ensures t1 + " " + t2 + " " == t1 + " " + (t2 + " ")
  {
  }

  /** A trailing space adds no token: "t1 t2 " splits like "t1 t2". */
  lemma {:induction false} SplitTwoTokensTrailingSpace(t1: string, t2: string)
    requires IsToken(t1) && IsToken(t2)
    ensures SplitWhitespace(t1 + " " + t2 + " ") == [t1, t2]
  {
    Regroup(t1, t2);
    SplitTokenSpace(t1, t2 + " ");
    SplitTokenThen(t2, " ");
    SplitBlank();
  }

  /** Splitting a single-space join of tokens gives the tokens back. */
  lemma {:induction false} SplitJoin(parts: seq<string>)
    requires AllTokens(parts)
    ensures SplitWhitespace(JoinSpaces(parts)) == parts
  {
    if |parts| == 1 {
      SplitSingleToken(parts[0]);
    } else if |parts| > 1 {
      assert AllTokens(parts[1..]);
      SplitJoin(parts[1..]);
      SplitJoinStep(parts);
    }
  }

  lemma {:induction false} JoinSpacesAscii(parts: seq<string>)
    requires forall k :: 0 <= k < |parts| ==> IsAscii(parts[k])
    ensures IsAscii(JoinSpaces(parts))
  {
    if |parts| > 1 {
      JoinSpacesAscii(parts[1..]);
    }
  }
}
