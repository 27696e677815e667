/**
 * Quadkey decoding: the QuadKeyToTileXY step of the Bing Maps Tile System
 * ("Tile coordinates and quadkeys"), as `quadkey_to_tile_coordinates` does it.
 *
 * A quadkey of length n names a tile at zoom level n.  Its characters are
 * read left to right, most significant first; the character at index j
 * decides bit n-1-j of the tile column x (low bit of the digit) and of the
 * tile row y (high bit of the digit).
 */
module Quadkey {

  /** 2^k, the value of `1 << k`. */
  function Pow2(k: nat): (r: nat)
    ensures r >= 1
  {
    if k == 0 then 1 else 2 * Pow2(k - 1)
  }

  /** v << k: v doubled k times. */
  function Shifted(v: nat, k: nat): nat
  {
    if k == 0 then v else 2 * Shifted(v, k - 1)
  }

  /** Shifting is additive, and shifting 1 gives the mask 2^k. */
  lemma {:induction false} ShiftedAdd(a: nat, b: nat, k: nat)
    ensures Shifted(a + b, k) == Shifted(a, k) + Shifted(b, k)
    ensures Shifted(1, k) == Pow2(k)
  {
    if k > 0 {
      ShiftedAdd(a, b, k - 1);
    }
  }

  /** Shifting by i is doubling, then shifting by i-1. */
  lemma {:induction false} ShiftedDouble(v: nat, i: nat)
    requires i >= 1
    ensures Shifted(v, i) == Shifted(2 * v, i - 1)
  {
    if i > 1 {
      ShiftedDouble(v, i - 1);
    }
  }

  /** Bitwise OR of two non-negative integers (the `|` of `x |= mask`). */
  function BitOr(a: nat, b: nat): (r: nat)
    ensures r <= a + b
    ensures a == 0 ==> r == b
    ensures b == 0 ==> r == a
    decreases a + b
  {
    if a == 0 then b
    else if b == 0 then a
    else 2 * BitOr(a / 2, b / 2) + (if a % 2 == 1 || b % 2 == 1 then 1 else 0)
  }

  /** Bit k of n (0 or 1), counting from the least significant bit. */
  function Bit(n: nat, k: nat): nat
  {
    if k == 0 then n % 2 else Bit(n / 2, k - 1)
  }

  predicate IsDigit(c: char)
  {
    c == '0' || c == '1' || c == '2' || c == '3'
  }

  /** Numeric value of a quadkey digit. */
  function DigitValue(c: char): int
  {
    c as int - '0' as int
  }

  /** The bit a character contributes to x: set by '1' and '3' only. */
  function XBit(c: char): nat
  {
    if c == '1' || c == '3' then 1 else 0
  }

  /** The bit a character contributes to y: set by '2' and '3' only. */
  function YBit(c: char): nat
  {
    if c == '2' || c == '3' then 1 else 0
  }

  /**
   * Outcome of decoding: the tile coordinates and whether every character
   * was a digit.  `valid == false` stands for the error message the decoder
   * prints when it meets any other character.
   */
  datatype Decoded = Decoded(x: nat, y: nat, valid: bool)

  /**
   * Reference definition: decoding reads the quadkey as two binary numbers,
   * most significant digit first, one bit per character.  A character that
   * is not a digit contributes no bit and clears the validity flag.
   */
  function Decode(q: string): (r: Decoded)
    ensures r.x < Pow2(|q|) && r.y < Pow2(|q|)
  {
    if |q| == 0 then Decoded(0, 0, true)
    else
      var p := Decode(q[..|q| - 1]);
      var d := q[|q| - 1];
      Decoded(2 * p.x + XBit(d), 2 * p.y + YBit(d), p.valid && IsDigit(d))
  }

  /** OR-ing the mask 2^k into a multiple of 2^(k+1) is the same as adding it. */
  lemma {:induction false} OrIntoClearBit(m: nat, k: nat)
    ensures BitOr(Shifted(m, k + 1), Pow2(k)) == Shifted(m, k + 1) + Pow2(k)
  {
    var a := Shifted(m, k + 1);
    if a != 0 {
      assert a / 2 == Shifted(m, k) && a % 2 == 0;
      if k == 0 {
        assert BitOr(a, 1) == 2 * BitOr(a / 2, 0) + 1;
      } else {
        assert Pow2(k) / 2 == Pow2(k - 1) && Pow2(k) % 2 == 0;
        OrIntoClearBit(m, k - 1);
        assert BitOr(a, Pow2(k)) == 2 * BitOr(Shifted(m, k), Pow2(k - 1));
      }
    }
  }

  /**
   * One step of the decoder's loop on one coordinate: with p the value read
   * so far, held as p << i, OR-ing the mask 2^(i-1) in when the bit b is
   * set yields (2p + b) << (i-1).
   */
  lemma ShiftStep(p: nat, b: nat, i: nat)
    requires i >= 1 && b < 2
    ensures (if b == 1 then BitOr(Shifted(p, i), Pow2(i - 1)) else Shifted(p, i)) == Shifted(2 * p + b, i - 1)
  {
    ShiftedDouble(p, i);
    ShiftedAdd(2 * p, b, i - 1);
    if b == 1 {
      assert Shifted(p, i) == Shifted(p, (i - 1) + 1);
      OrIntoClearBit(p, i - 1);
    } else {
      assert Shifted(0, i - 1) == 0 by { ShiftedAdd(0, 0, i - 1); }
    }
  }

  /** Bit k of `a | b` is set exactly when bit k of a or of b is. */
  lemma {:induction false} BitOrBits(a: nat, b: nat, k: nat)
    ensures Bit(BitOr(a, b), k) == (if Bit(a, k) == 1 || Bit(b, k) == 1 then 1 else 0)
    decreases k
  {
    BitIsBinary(a, k);
    BitIsBinary(b, k);
    if a == 0 {
      BitOfZero(k);
      BitIsBinary(b, k);
    } else if b == 0 {
      BitOfZero(k);
      BitIsBinary(a, k);
    } else {
      var c := if a % 2 == 1 || b % 2 == 1 then 1 else 0;
      assert BitOr(a, b) == 2 * BitOr(a / 2, b / 2) + c;
      if k > 0 {
        BitOfShifted(BitOr(a / 2, b / 2), c, k - 1);
        BitOrBits(a / 2, b / 2, k - 1);
      }
    }
  }

  /** The mask 2^k has exactly one bit set, bit k. */
  lemma {:induction false} Pow2IsSingleBit(k: nat, j: nat)
    ensures Bit(Pow2(k), j) == if j == k then 1 else 0
  {
    if k == 0 {
      if j > 0 {
        BitOfZero(j - 1);
      }
    } else if j > 0 {
      Pow2IsSingleBit(k - 1, j - 1);
    }
  }

  lemma {:induction false} BitOfZero(k: nat)
    ensures Bit(0, k) == 0
  {
    if k > 0 {
      BitOfZero(k - 1);
    }
  }

  lemma {:induction false} BitIsBinary(n: nat, k: nat)
    ensures Bit(n, k) == 0 || Bit(n, k) == 1
  {
    if k > 0 {
      BitIsBinary(n / 2, k - 1);
    }
  }

  /** Shifting left by one and filling bit 0 with b moves every bit up one place. */
  lemma BitOfShifted(p: nat, b: nat, k: nat)
    requires b < 2
    ensures Bit(2 * p + b, k + 1) == Bit(p, k)
    ensures Bit(2 * p + b, 0) == b
  {
    assert (2 * p + b) / 2 == p;
  }

  /** Two numbers below 2^n that agree on bits 0..n-1 are equal. */
  lemma {:induction false} BitsDetermine(a: nat, b: nat, n: nat)
    requires a < Pow2(n) && b < Pow2(n)
    requires forall k :: 0 <= k < n ==> Bit(a, k) == Bit(b, k)
    ensures a == b
  {
    if n == 0 {
    } else {
      forall k | 0 <= k < n - 1
        ensures Bit(a / 2, k) == Bit(b / 2, k)
      {
        assert Bit(a, k + 1) == Bit(b, k + 1);
      }
      BitsDetermine(a / 2, b / 2, n - 1);
      assert Bit(a, 0) == Bit(b, 0);
    }
  }

  /** Decoding a quadkey extended by one character: shift left, then add its bits. */
  lemma DecodeAppend(q: string, d: char)
    ensures Decode(q + [d]) ==
      Decoded(2 * Decode(q).x + XBit(d), 2 * Decode(q).y + YBit(d), Decode(q).valid && IsDigit(d))
    ensures IsDigit(d) ==>
      Decode(q + [d]).x == 2 * Decode(q).x + DigitValue(d) % 2 &&
      Decode(q + [d]).y == 2 * Decode(q).y + DigitValue(d) / 2
  {
    assert (q + [d])[..|q|] == q;
  }

  /**
   * The character at index j alone decides bit n-1-j: of x by its low bit,
   * of y by its high bit.
   */
  lemma {:induction false} DecodeBit(q: string, j: nat)
    requires j < |q|
    ensures Bit(Decode(q).x, |q| - 1 - j) == XBit(q[j])
    ensures Bit(Decode(q).y, |q| - 1 - j) == YBit(q[j])
  {
    var n := |q|;
    var p := q[..n - 1];
    var d := q[n - 1];
    if j == n - 1 {
      BitOfShifted(Decode(p).x, XBit(d), 0);
      BitOfShifted(Decode(p).y, YBit(d), 0);
    } else {
      BitOfShifted(Decode(p).x, XBit(d), n - 2 - j);
      BitOfShifted(Decode(p).y, YBit(d), n - 2 - j);
      DecodeBit(p, j);
      assert p[j] == q[j];
    }
  }

  /** Decoding succeeds exactly when every character is one of '0'..'3'. */
  lemma {:induction false} DecodeValid(q: string)
    ensures Decode(q).valid <==> forall j :: 0 <= j < |q| ==> IsDigit(q[j])
  {
    if |q| > 0 {
      var p := q[..|q| - 1];
      DecodeValid(p);
      assert forall j :: 0 <= j < |p| ==> p[j] == q[j];
    }
  }

  /**
   * A character outside '0'..'3' sets no bit for its position: the result
   * is the same as for the digit '0' there, only flagged as invalid, so
   * every other position decodes as it would otherwise.
   */
  lemma InvalidDigitSetsNoBit(q: string, j: nat, c: char)
    requires j < |q| && !IsDigit(c)
    ensures Decode(q[j := c]).x == Decode(q[j := '0']).x
    ensures Decode(q[j := c]).y == Decode(q[j := '0']).y
    ensures !Decode(q[j := c]).valid
  {
    var bad, zero := q[j := c], q[j := '0'];
    var n := |q|;
    forall k | 0 <= k < n
      ensures Bit(Decode(bad).x, k) == Bit(Decode(zero).x, k)
      ensures Bit(Decode(bad).y, k) == Bit(Decode(zero).y, k)
    {
      DecodeBit(bad, n - 1 - k);
      DecodeBit(zero, n - 1 - k);
    }
    BitsDetermine(Decode(bad).x, Decode(zero).x, n);
    BitsDetermine(Decode(bad).y, Decode(zero).y, n);
    DecodeValid(bad);
    assert bad[j] == c;
  }

  /** Single digits: the empty quadkey is the root tile (0, 0); "0" is (0, 0) and "3" is (1, 1). */
  lemma DecodeSingleDigits()
    ensures Decode("") == Decoded(0, 0, true)
    ensures Decode("0") == Decoded(0, 0, true)
    ensures Decode("3") == Decoded(1, 1, true)
  {
    DecodeAppend("", '0');
    DecodeAppend("", '3');
    assert "0" == "" + ['0'] && "3" == "" + ['3'];
  }

  /** "13" decodes to x = 0b11, y = 0b01, and "123" to x = 0b101, y = 0b011. */
  lemma DecodeExamples()
    ensures Decode("13") == Decoded(3, 1, true)
    ensures Decode("123") == Decoded(5, 3, true)
  {
    DecodeAppend("", '1');
    DecodeAppend("1", '3');
    DecodeAppend("1", '2');
    DecodeAppend("12", '3');
    assert "1" == "" + ['1'] && "13" == "1" + ['3'];
    assert "12" == "1" + ['2'] && "123" == "12" + ['3'];
  }

  /** "15": the '1' sets bit 1 of x, the '5' sets nothing and flags the key as invalid. */
  lemma DecodeInvalidExample()
    ensures Decode("15") == Decoded(2, 0, false)
  {
    DecodeAppend("", '1');
    DecodeAppend("1", '5');
    assert "1" == "" + ['1'] && "15" == "1" + ['5'];
  }

  /**
   * One iteration of the decoder's loop at position i (from n down to 1):
   * if x, y and the flag hold the decoding of the first n-i characters,
   * shifted left by i, then OR-ing in the mask 2^(i-1) where the next
   * character says so gives the decoding of the first n-i+1 characters,
   * shifted left by i-1.
   */
  lemma DecoderStep(q: string, i: nat, x: nat, y: nat, valid: bool)
    requires 1 <= i <= |q|
    requires x == Shifted(Decode(q[..|q| - i]).x, i)
    requires y == Shifted(Decode(q[..|q| - i]).y, i)
    requires valid == Decode(q[..|q| - i]).valid
    ensures Shifted(Decode(q[..|q| - i + 1]).x, i - 1) ==
      if XBit(q[|q| - i]) == 1 then BitOr(x, Pow2(i - 1)) else x
    ensures Shifted(Decode(q[..|q| - i + 1]).y, i - 1) ==
      if YBit(q[|q| - i]) == 1 then BitOr(y, Pow2(i - 1)) else y
    ensures Decode(q[..|q| - i + 1]).valid == (valid && IsDigit(q[|q| - i]))
  {
    var done := q[..|q| - i];
    var digit := q[|q| - i];
    assert q[..|q| - i + 1] == done + [digit];
    DecodeAppend(done, digit);
    ShiftStep(Decode(done).x, XBit(digit), i);
    ShiftStep(Decode(done).y, YBit(digit), i);
  }

  /**
   * The decoder's loop: for i from n down to 1 it takes the character at
   * index n-i and ORs the mask 2^(i-1) into x, y or both.  Any other
   * character clears `valid` and sets no bit; the loop carries on.
   */
  method QuadkeyToTileCoordinates(quadkey: string) returns (x: nat, y: nat, valid: bool)
    ensures Decoded(x, y, valid) == Decode(quadkey)
  {
    var tileSize := |quadkey|;
    x, y, valid := 0, 0, true;
    var i := tileSize;
    ShiftedAdd(0, 0, i);
    while i > 0
      invariant 0 <= i <= tileSize
      invariant x == Shifted(Decode(quadkey[..tileSize - i]).x, i)
      invariant y == Shifted(Decode(quadkey[..tileSize - i]).y, i)
      invariant valid == Decode(quadkey[..tileSize - i]).valid
    {
      var mask := Pow2(i - 1);
      var digit := quadkey[tileSize - i];
      DecoderStep(quadkey, i, x, y, valid);
      if digit == '0' {
      } else if digit == '1' {
        x := BitOr(x, mask);
      } else if digit == '2' {
        y := BitOr(y, mask);
      } else if digit == '3' {
        x := BitOr(x, mask);
        y := BitOr(y, mask);
      } else {
        valid := false;
      }
      i := i - 1;
    }
    assert quadkey[..tileSize] == quadkey;
  }
}
