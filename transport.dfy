/**
 * What `_send` does with a datagram it receives: keep at most the receive
 * buffer's worth of bytes, decode them as ASCII with replacement, and strip
 * leading and trailing whitespace. The socket itself is not modelled: the
 * received datagram (or None when nothing was received) is a parameter.
 */
module Transport {
  import opened Wrappers
  import opened Bits
  import opened Tokens

  /**
   * The size passed to `recvfrom`. On Linux and macOS a longer datagram is cut
   * to this many bytes; on Windows `recvfrom` raises instead, which `_send`
   * reports as no reply.
   */
  const RecvBufferSize: nat := 4096

  /** What `errors="replace"` puts in place of a byte that is not ASCII. */
  const ReplacementChar: char := '\U{FFFD}'

  /** The bytes `recvfrom(4096)` returns of a datagram, where it truncates. */
  function Truncate(data: seq<nat>): seq<nat>
  {
    if |data| <= RecvBufferSize then data else data[..RecvBufferSize]
  }

  /** `data.decode("ascii", errors="replace")`. */
  function DecodeAscii(data: seq<nat>): string
    requires AllBytes(data)
  {
    seq(|data|, i requires 0 <= i < |data| => if data[i] < 128 then data[i] as char else ReplacementChar)
  }

  /** `s.encode("ascii")` for text that is ASCII: one byte per character. */
  function EncodeAscii(s: string): (data: seq<nat>)
    requires IsAscii(s)
    ensures AllBytes(data)
  {
    seq(|s|, i requires 0 <= i < |s| => s[i] as int)
  }

  /** Decoding what was encoded gives the text back; nothing is replaced. */
  lemma DecodeEncode(s: string)
    requires IsAscii(s)
    ensures DecodeAscii(EncodeAscii(s)) == s
  {
    var d := DecodeAscii(EncodeAscii(s));
    assert forall i :: 0 <= i < |s| ==> d[i] == s[i];
  }

  /** A datagram that fits the receive buffer is read whole. */
  lemma TruncateShort(data: seq<nat>)
    requires |data| <= RecvBufferSize
    ensures Truncate(data) == data
  {
  }

  /** `s.rstrip()` on ASCII text: s without its trailing whitespace. */
  function StripEnd(s: string): string
  {
    if s != [] && IsWhitespace(s[|s| - 1]) then StripEnd(s[..|s| - 1]) else s
  }

  /** `s.strip()`: s without its leading and trailing whitespace. */
  function Strip(s: string): string
  {
    StripEnd(SkipWhitespace(s))
  }

  /**
   * The text `_send` returns for a received datagram, or None when nothing
   * was received.
   */
  function ReceivedText(datagram: Option<seq<nat>>): Option<string>
    requires datagram.Some? ==> AllBytes(datagram.value)
  {
    match datagram
    case None => None
    case Some(data) => Some(Strip(DecodeAscii(Truncate(data))))
  }

  predicate AllWhitespace(w: string)
  {
    forall i :: 0 <= i < |w| ==> IsWhitespace(w[i])
  }

  /**
   * StripEnd keeps a prefix of s, drops only whitespace after it, and leaves
   * a non-whitespace last character.
   */
  lemma {:induction false} StripEndSuffix(s: string)
    ensures |StripEnd(s)| <= |s|
    ensures forall i :: 0 <= i < |StripEnd(s)| ==> StripEnd(s)[i] == s[i]
    ensures forall i :: |StripEnd(s)| <= i < |s| ==> IsWhitespace(s[i])
    ensures StripEnd(s) == [] || !IsWhitespace(StripEnd(s)[|StripEnd(s)| - 1])
    decreases |s|
  {
    if s != [] && IsWhitespace(s[|s| - 1]) {
      var p := s[..|s| - 1];
      StripEndSuffix(p);
    }
  }

  /** Stripped text neither starts nor ends with whitespace. */
  lemma StripEnds(s: string)
    ensures Strip(s) == [] || (!IsWhitespace(Strip(s)[0]) && !IsWhitespace(Strip(s)[|Strip(s)| - 1]))
  {
    StripEndSuffix(SkipWhitespace(s));
  }

  lemma StripEndNoop(s: string)
    requires s == [] || !IsWhitespace(s[|s| - 1])
    ensures StripEnd(s) == s
  {
  }

  lemma SkipWhitespaceNoop(s: string)
    requires s == [] || !IsWhitespace(s[0])
    ensures SkipWhitespace(s) == s
  {
  }

  /** Stripping twice is stripping once. */
  lemma StripIdempotent(s: string)
    ensures Strip(Strip(s)) == Strip(s)
  {
    var r := Strip(s);
    StripEnds(s);
    SkipWhitespaceNoop(r);
    StripEndNoop(r);
  }

  /** Whitespace only: nothing is left once it is skipped. */
  lemma {:induction false} SkipAllWhitespace(w: string)
    requires AllWhitespace(w)
    ensures SkipWhitespace(w) == []
    decreases |w|
  {
    if w != [] {
      assert AllWhitespace(w[1..]);
      SkipAllWhitespace(w[1..]);
    }
  }

  /** Skipping leading whitespace of u + w skips into w only when u is all whitespace. */
  lemma {:induction false} SkipAppend(u: string, w: string)
    ensures SkipWhitespace(u) == [] ==> SkipWhitespace(u + w) == SkipWhitespace(w)
    ensures SkipWhitespace(u) != [] ==> SkipWhitespace(u + w) == SkipWhitespace(u) + w
    decreases |u|
  {
    if u == [] {
      assert u + w == w;
    } else if IsWhitespace(u[0]) {
      assert (u + w)[1..] == u[1..] + w;
      SkipAppend(u[1..], w);
    }
  }

  /** Appending text that starts with whitespace does not lengthen the first token. */
  lemma {:induction false} TokenEndAppend(v: string, w: string)
    requires w == [] || IsWhitespace(w[0])
    ensures TokenEnd(v + w) == TokenEnd(v)
    decreases |v|
  {
    if v == [] {
      assert v + w == w;
    } else if !IsWhitespace(v[0]) {
      assert (v + w)[1..] == v[1..] + w;
      TokenEndAppend(v[1..], w);
    }
  }

  /** Trailing whitespace adds no token. */
  lemma {:induction false} SplitTrailingWhitespace(u: string, w: string)
    requires AllWhitespace(w)
    ensures SplitWhitespace(u + w) == SplitWhitespace(u)
    decreases |u|
  {
    var v := SkipWhitespace(u);
    SkipAppend(u, w);
    if v == [] {
      SkipAllWhitespace(w);
    } else {
      var n := TokenEnd(v);
      TokenEndAppend(v, w);
      assert (v + w)[..n] == v[..n];
      assert (v + w)[n..] == v[n..] + w;
      SplitTrailingWhitespace(v[n..], w);
    }
  }

  /** Skipping leading whitespace first changes nothing about the split. */
  lemma SplitSkip(s: string)
    ensures SplitWhitespace(SkipWhitespace(s)) == SplitWhitespace(s)
  {
    SkipWhitespaceNoop(SkipWhitespace(s));
  }

  /** `strip()` keeps every token: the stripped text splits as the text did. */
  lemma SplitStrip(s: string)
    ensures SplitWhitespace(Strip(s)) == SplitWhitespace(s)
  {
    var t := SkipWhitespace(s);
    StripEndSuffix(t);
    var r := StripEnd(t);
    var w := t[|r|..];
    assert t == r + w;
    SplitTrailingWhitespace(r, w);
    SplitSkip(s);
  }

  /**
   * A reply is at most 4096 characters, each ASCII or the replacement
   * character, with no whitespace at either end, and it has the tokens of
   * the decoded datagram.
   */
  lemma ReceivedTextShape(data: seq<nat>)
    requires AllBytes(data)
    ensures |ReceivedText(Some(data)).value| <= RecvBufferSize
    ensures forall i :: 0 <= i < |ReceivedText(Some(data)).value| ==>
      ReceivedText(Some(data)).value[i] as int < 128 || ReceivedText(Some(data)).value[i] == ReplacementChar
    ensures ReceivedText(Some(data)).value == [] || !IsWhitespace(ReceivedText(Some(data)).value[0])
    ensures ReceivedText(Some(data)).value == [] || !IsWhitespace(ReceivedText(Some(data)).value[|ReceivedText(Some(data)).value| - 1])
    ensures SplitWhitespace(ReceivedText(Some(data)).value) == SplitWhitespace(DecodeAscii(Truncate(data)))
  {
    var d := DecodeAscii(Truncate(data));
    StripEnds(d);
    SplitStrip(d);
    StripEndSuffix(SkipWhitespace(d));
    assert forall i :: 0 <= i < |d| ==> d[i] as int < 128 || d[i] == ReplacementChar;
    StripKeepsDecoded(d);
  }

  /** Stripping text that is ASCII or U+FFFD throughout leaves such text. */
  lemma StripKeepsDecoded(d: string)
    requires forall i :: 0 <= i < |d| ==> d[i] as int < 128 || d[i] == ReplacementChar
    ensures forall i :: 0 <= i < |Strip(d)| ==> Strip(d)[i] as int < 128 || Strip(d)[i] == ReplacementChar
  {
    var t := SkipWhitespace(d);
    SkipWhitespaceSplit(d);
    StripEndSplit(t);
    var r := Strip(d);
    var i := |d| - |t|;
    assert r == d[i..i + |r|] by {
      assert t[..|r|] == d[i..i + |r|];
    }
    forall k | 0 <= k < |r|
      ensures r[k] as int < 128 || r[k] == ReplacementChar
    {
      assert r[k] == d[i + k];
    }
  }

  /**
   * `strip()` removes only the whitespace at either end: the result is a
   * slice of the text, kept verbatim, with whitespace before and after it.
   */
  lemma StripSlice(s: string)
    ensures exists i, j :: 0 <= i <= j <= |s| && Strip(s) == s[i..j] && AllWhitespace(s[..i]) && AllWhitespace(s[j..])
  {
    var t := SkipWhitespace(s);
    SkipWhitespaceSplit(s);
    var i := |s| - |t|;
    var r := StripEnd(t);
    StripEndSplit(t);
    var j := i + |r|;
    assert t[..|r|] == s[i..j];
    assert t[|r|..] == s[j..];
  }

  /** SkipWhitespace drops a run of whitespace and keeps the rest of s verbatim. */
  lemma {:induction false} SkipWhitespaceSplit(s: string)
    ensures SkipWhitespace(s) == s[|s| - |SkipWhitespace(s)|..]
    ensures AllWhitespace(s[..|s| - |SkipWhitespace(s)|])
    decreases |s|
  {
    if s != [] && IsWhitespace(s[0]) {
      var u := s[1..];
      SkipWhitespaceSplit(u);
      var n := |s| - |SkipWhitespace(s)|;
      assert u[n - 1..] == s[n..];
      forall k | 0 <= k < n
        ensures IsWhitespace(s[..n][k])
      {
        if k > 0 {
          assert s[..n][k] == u[..n - 1][k - 1];
        }
      }
    }
  }

  /** StripEnd keeps a prefix of t verbatim and drops only whitespace after it. */
  lemma StripEndSplit(t: string)
    ensures |StripEnd(t)| <= |t|
    ensures StripEnd(t) == t[..|StripEnd(t)|]
    ensures AllWhitespace(t[|StripEnd(t)|..])
  {
    StripEndSuffix(t);
    var r := StripEnd(t);
    forall k | 0 <= k < |t| - |r|
      ensures IsWhitespace(t[|r|..][k])
    {
      assert t[|r|..][k] == t[|r| + k];
    }
  }
}
