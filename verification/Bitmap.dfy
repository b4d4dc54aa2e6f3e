/** The ready bitmap words and __rt_ffs. A word is the number its bits spell; a negative C int
    stands for the unsigned number with the same 32 bits. */
module Bitmap {
  predicate Bit(word: nat, i: nat)
    decreases i
  {
    if i == 0 then word % 2 == 1 else Bit(word / 2, i - 1)
  }

  /** word |= 1 << i */
  function SetBit(word: nat, i: nat): nat
    decreases i
  {
    if i == 0 then word - word % 2 + 1 else 2 * SetBit(word / 2, i - 1) + word % 2
  }

  /** word &= ~(1 << i) */
  function ClearBit(word: nat, i: nat): nat
    decreases i
  {
    if i == 0 then word - word % 2 else 2 * ClearBit(word / 2, i - 1) + word % 2
  }

  lemma {:induction false} SetBitSets(word: nat, i: nat, j: nat)
    ensures Bit(SetBit(word, i), j) <==> i == j || Bit(word, j)
    decreases i
  {
    if i > 0 && j > 0 {
      SetBitSets(word / 2, i - 1, j - 1);
      assert SetBit(word, i) / 2 == SetBit(word / 2, i - 1);
    } else if j > 0 {
      assert SetBit(word, i) / 2 == word / 2;
    }
  }

  lemma {:induction false} ClearBitClears(word: nat, i: nat, j: nat)
    ensures Bit(ClearBit(word, i), j) <==> i != j && Bit(word, j)
    decreases i
  {
    if i > 0 && j > 0 {
      ClearBitClears(word / 2, i - 1, j - 1);
      assert ClearBit(word, i) / 2 == ClearBit(word / 2, i - 1);
    } else if j > 0 {
      assert ClearBit(word, i) / 2 == word / 2;
    }
  }

  function Pow2(n: nat): nat {
    if n == 0 then 1 else 2 * Pow2(n - 1)
  }

  /** Setting or clearing one of the low n bits stays within n bits. */
  lemma {:induction false} BitsStayNarrow(word: nat, i: nat, n: nat)
    requires i < n && word < Pow2(n)
    ensures SetBit(word, i) < Pow2(n) && ClearBit(word, i) < Pow2(n)
    decreases i
  {
    if i > 0 {
      BitsStayNarrow(word / 2, i - 1, n - 1);
    }
  }

  lemma {:induction false} NoHighBits(word: nat, i: nat, n: nat)
    requires n <= i && word < Pow2(n)
    ensures !Bit(word, i)
    decreases n
  {
    if n > 0 {
      NoHighBits(word / 2, i - 1, n - 1);
    } else {
      ZeroHasNoBits(i);
    }
  }

  lemma {:induction false} ZeroHasNoBits(i: nat)
    ensures !Bit(0, i)
    decreases i
  {
    if i > 0 {
      ZeroHasNoBits(i - 1);
    }
  }

  function LowestBit(word: nat): nat
    requires word > 0
    decreases word
  {
    if word % 2 == 1 then 0 else 1 + LowestBit(word / 2)
  }

  /** LowestBit is the least set bit. */
  lemma {:induction false} LowestBitMeaning(word: nat, i: nat)
    requires word > 0
    ensures Bit(word, LowestBit(word))
    ensures i < LowestBit(word) ==> !Bit(word, i)
    decreases word
  {
    if word % 2 == 0 && i > 0 {
      LowestBitMeaning(word / 2, i - 1);
    } else if word % 2 == 0 {
      LowestBitMeaning(word / 2, 0);
    }
  }

  /** __lowest_bit_bitmap: its sixteen rows of sixteen agree except in their first column. */
  const FIRST_COLUMN: seq<nat> := [0, 4, 5, 4, 6, 4, 5, 4, 7, 4, 5, 4, 6, 4, 5, 4]
  const EACH_ROW: seq<nat> := [0, 0, 1, 0, 2, 0, 1, 0, 3, 0, 1, 0, 2, 0, 1, 0]

  function LowestBitBitmap(b: nat): nat
    requires b < 256
  {
    if b % 16 == 0 then FIRST_COLUMN[b / 16] else EACH_ROW[b % 16]
  }

  lemma NibbleTable(b: nat)
    requires 0 < b < 16
    ensures EACH_ROW[b] == LowestBit(b)
    ensures FIRST_COLUMN[b] == 4 + LowestBit(b)
  {
    LowestBitLow(b);
  }

  lemma LowestBitLow(b: nat)
    requires 0 < b < 16
    ensures LowestBit(b) == if b % 2 == 1 then 0 else if b % 4 == 2 then 1 else if b % 8 == 4 then 2 else 3
  {
    if b % 2 == 0 {
      assert LowestBit(b) == 1 + LowestBit(b / 2);
      if b % 4 == 0 {
        assert LowestBit(b / 2) == 1 + LowestBit(b / 4);
        if b % 8 == 0 {
          assert LowestBit(b / 4) == 1 + LowestBit(b / 8);
        }
      }
    }
  }

  /** Shifting out n zero bits lowers the position by n; a non-zero low part decides alone. */
  lemma {:induction false} LowestBitSplit(word: nat, n: nat)
    requires word > 0
    ensures Pow2(n) > 0
    ensures word % Pow2(n) != 0 ==> LowestBit(word) == LowestBit(word % Pow2(n))
    ensures word % Pow2(n) == 0 ==> word / Pow2(n) > 0 && LowestBit(word) == n + LowestBit(word / Pow2(n))
    decreases n
  {
    if n > 0 {
      HalvePow(word, n);
      if word % 2 == 0 {
        LowestBitSplit(word / 2, n - 1);
      }
    }
  }

  lemma HalvePow(word: nat, n: nat)
    requires n > 0
    ensures Pow2(n - 1) > 0 && Pow2(n) > 0
    ensures word % Pow2(n) == 2 * (word / 2 % Pow2(n - 1)) + word % 2
    ensures word / Pow2(n) == word / 2 / Pow2(n - 1)
  {
    PowPositive(n - 1);
    var h, m := word / 2, Pow2(n - 1);
    var q, r := h / m, h % m;
    assert h == q * m + r;
    assert word == q * (2 * m) + (2 * r + word % 2);
    DivideUnique(word, 2 * m, q, 2 * r + word % 2);
  }

  lemma PowPositive(n: nat)
    ensures Pow2(n) > 0
  {
  }

  lemma DivideUnique(a: int, m: int, q: int, r: int)
    requires m > 0 && a == q * m + r && 0 <= r < m
    ensures a / m == q && a % m == r
  {
    var d := a / m - q;
    assert a == (a / m) * m + a % m;
    assert d * m == r - a % m;
    MultipleIsFar(d, m);
  }

  lemma MultipleIsFar(d: int, m: int)
    requires m > 0
    ensures d >= 1 ==> d * m >= m
    ensures d <= -1 ==> d * m <= -m
  {
  }

  /** Every entry of the table is the lowest set bit of its index. */
  lemma TableIsExact(b: nat)
    requires 0 < b < 256
    ensures LowestBitBitmap(b) == LowestBit(b)
  {
    assert Pow2(4) == 16;
    LowestBitSplit(b, 4);
    if b % 16 == 0 {
      NibbleTable(b / 16);
    } else {
      NibbleTable(b % 16);
    }
  }

  lemma NextByte(word: nat)
    requires word > 0
    ensures word % 256 != 0 ==> LowestBit(word) == LowestBitBitmap(word % 256)
    ensures word % 256 == 0 ==> LowestBit(word) == 8 + LowestBit(word / 256)
  {
    assert Pow2(4) == 16 && Pow2(8) == 256;
    LowestBitSplit(word, 8);
    if word % 256 != 0 {
      TableIsExact(word % 256);
    }
  }

  lemma ShiftBytes(value: nat)
    ensures value / 256 / 256 == value / 0x1_0000
    ensures value / 0x1_0000 / 256 == value / 0x100_0000
  {
  }

  /** The byte that decides, and what the lower ones add. */
  lemma BytesDecide(value: nat)
    requires 0 < value < 0x1_0000_0000
    ensures value % 256 != 0 ==> LowestBit(value) == LowestBitBitmap(value % 256)
    ensures value % 256 == 0 && value / 0x100 % 256 != 0 ==> LowestBit(value) == 8 + LowestBitBitmap(value / 0x100 % 256)
    ensures value % 0x1_0000 == 0 ==> value / 0x1_0000 > 0 && LowestBit(value) == 16 + LowestBit(value / 0x1_0000)
  {
    NextByte(value);
    ShiftBytes(value);
    if value % 256 == 0 {
      NextByte(value / 256);
    }
  }

  lemma HighBytesDecide(value: nat)
    requires 0 < value < 0x1_0000
    ensures value % 256 != 0 ==> LowestBit(value) == LowestBitBitmap(value % 256)
    ensures value % 256 == 0 ==> LowestBit(value) == 8 + LowestBitBitmap(value / 256)
  {
    NextByte(value);
    if value % 256 == 0 {
      TableIsExact(value / 256);
    }
  }

  /** __rt_ffs: zero for zero, otherwise one more than the position of the lowest set bit. */
  method Ffs(value: nat) returns (r: nat)
    requires value < 0x1_0000_0000
    ensures value == 0 ==> r == 0
    ensures value > 0 ==> r == LowestBit(value) + 1
  {
    if value == 0 {
      return 0;
    }
    BytesDecide(value);
    if value % 0x100 != 0 {
      return LowestBitBitmap(value % 0x100) + 1;
    }
    if value / 0x100 % 0x100 != 0 {
      return LowestBitBitmap(value / 0x100 % 0x100) + 9;
    }
    HighBytesDecide(value / 0x1_0000);
    if value / 0x1_0000 % 0x100 != 0 {
      return LowestBitBitmap(value / 0x1_0000 % 0x100) + 17;
    }
    ShiftBytes(value);
    return LowestBitBitmap(value / 0x100_0000) + 25;
  }
}
