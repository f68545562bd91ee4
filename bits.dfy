/**
 * The integer arithmetic behind the little-endian assembly of a memory read:
 * powers of two, left shifts and bitwise OR on non-negative integers.
 */
module Bits {

  function Pow2(k: nat): (r: nat)
    ensures r >= 1
  {
    if k == 0 then 1 else 2 * Pow2(k - 1)
  }

  lemma {:induction false} Pow2Add(j: nat, k: nat)
    ensures Pow2(j + k) == Pow2(j) * Pow2(k)
  {
    if k > 0 {
      Pow2Add(j, k - 1);
      calc {
        Pow2(j + k);
        2 * Pow2(j + k - 1);
        2 * (Pow2(j) * Pow2(k - 1));
        Pow2(j) * (2 * Pow2(k - 1));
        Pow2(j) * Pow2(k);
      }
    }
  }

  /** `a << k` for a non-negative `a`. */
  function ShiftLeft(a: nat, k: nat): nat
  {
    a * Pow2(k)
  }

  /**
   * Python's `a | b` on non-negative integers, computed bit by bit from the
   * least significant end. It dominates both operands and never exceeds their sum.
   */
  function BitOr(a: nat, b: nat): (r: nat)
    ensures a <= r && b <= r
    ensures r <= a + b
    decreases a + b
  {
    if a == 0 then b
    else if b == 0 then a
    else 2 * BitOr(a / 2, b / 2) + (if a % 2 == 1 || b % 2 == 1 then 1 else 0)
  }

  /** OR-ing a value below 2^k with a value shifted left by k adds them: no bit overlaps. */
  lemma {:induction false} BitOrDisjoint(a: nat, b: nat, k: nat)
    requires a < Pow2(k)
    ensures BitOr(a, ShiftLeft(b, k)) == a + ShiftLeft(b, k)
  {
    if k == 0 {
      assert a == 0;
    } else if a != 0 && b != 0 {
      var h := ShiftLeft(b, k - 1);
      assert ShiftLeft(b, k) == 2 * h;
      assert a / 2 < Pow2(k - 1);
      BitOrDisjoint(a / 2, b, k - 1);
      assert BitOr(a, 2 * h) == 2 * BitOr(a / 2, h) + (if a % 2 == 1 then 1 else 0);
    }
  }

  predicate AllBytes(s: seq<nat>)
  {
    forall i :: 0 <= i < |s| ==> s[i] < 256
  }

  /**
   * The reference reading of a byte sequence as a little-endian number:
   * the sum of bytes[i] * 256^i, so the first byte is the least significant.
   */
  function LittleEndian(bytes: seq<nat>): nat
  {
    if bytes == [] then 0 else bytes[0] + 256 * LittleEndian(bytes[1..])
  }

  lemma Pow2Eight()
    ensures Pow2(8) == 256
  {
  }

  /** Appending a byte adds it at weight 256^n, n being the number of bytes before it. */
  lemma {:induction false} LittleEndianSnoc(s: seq<nat>, x: nat)
    ensures LittleEndian(s + [x]) == LittleEndian(s) + ShiftLeft(x, 8 * |s|)
  {
    if s == [] {
      assert LittleEndian([x]) == x + 256 * LittleEndian([]);
    } else {
      assert (s + [x])[1..] == s[1..] + [x];
      LittleEndianSnoc(s[1..], x);
      Pow2Eight();
      Pow2Add(8, 8 * (|s| - 1));
      assert ShiftLeft(x, 8 * |s|) == 256 * ShiftLeft(x, 8 * (|s| - 1));
    }
  }

  /** n bytes read little-endian give a number below 256^n. */
  lemma {:induction false} LittleEndianBound(bytes: seq<nat>)
    requires AllBytes(bytes)
    ensures LittleEndian(bytes) < Pow2(8 * |bytes|)
  {
    if bytes != [] {
      assert AllBytes(bytes[1..]);
      LittleEndianBound(bytes[1..]);
      Pow2Eight();
      Pow2Add(8, 8 * (|bytes| - 1));
      assert LittleEndian(bytes) <= 255 + 256 * (Pow2(8 * (|bytes| - 1)) - 1);
    }
  }

  /**
   * The accumulation of the read loop: starting from 0, each value is shifted
   * left by 8 times its position and OR-ed into the accumulator, in order.
   */
  function OrAssemble(vals: seq<nat>): nat
  {
    if vals == [] then 0
    else BitOr(OrAssemble(vals[..|vals| - 1]), ShiftLeft(vals[|vals| - 1], 8 * (|vals| - 1)))
  }

  /**
   * When every value is a byte, OR-ing the shifted values is the little-endian
   * sum, and the result is below 256^n.
   */
  lemma {:induction false} OrAssembleIsLittleEndian(vals: seq<nat>)
    requires AllBytes(vals)
    ensures OrAssemble(vals) == LittleEndian(vals)
    ensures OrAssemble(vals) < Pow2(8 * |vals|)
  {
    if vals == [] {
    } else {
      var init, last := vals[..|vals| - 1], vals[|vals| - 1];
      assert vals == init + [last];
      assert AllBytes(init);
      OrAssembleIsLittleEndian(init);
      BitOrDisjoint(OrAssemble(init), last, 8 * |init|);
      LittleEndianSnoc(init, last);
      LittleEndianBound(vals);
    }
  }
}
