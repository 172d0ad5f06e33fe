/** The pure helpers of `lcbin.py`: the per-bit capacitance list `c_list`, the
    binary string encoder `int2bin`, its inverse `bin2int`, the switch table
    `binary_array`, the weighted row sum behind the `CpF` column and the list of
    set channels behind `Lcbin.channels`.

    Row `r` of the table is the binary expansion of `r`, least-significant bit
    first: column `k` holds bit `k` of `r`, i.e. `(r / 2^k) % 2`. */
module BitTable {
  import opened Wrappers

  function Pow2(k: nat): (p: nat)
    ensures p >= 1
  {
    if k == 0 then 1 else 2 * Pow2(k - 1)
  }

  /** Bit `k` of `r`: the reference meaning of a table cell. */
  function Bit(r: nat, k: nat): nat
  {
    (r / Pow2(k)) % 2
  }

  /** Number of set bits among the `n` low bits of `r`. */
  function Popcount(r: nat, n: nat): nat
  {
    if n == 0 then 0 else r % 2 + Popcount(r / 2, n - 1)
  }

  // ---------------------------------------------------------------------------
  // Decimal rendering: Python's `str()` of a non-negative int.

  function DecimalDigit(d: nat): char
    requires d < 10
  {
    (48 + d) as char
  }

  predicate IsDecimalChar(c: char)
  {
    48 <= c as int <= 57
  }

  function DecimalValue(s: string): nat
    requires forall i :: 0 <= i < |s| ==> IsDecimalChar(s[i])
  {
    if s == [] then 0
    else
      var c := s[|s| - 1];
      assert IsDecimalChar(c);
      10 * DecimalValue(s[..|s| - 1]) + (c as int - 48)
  }

  /** `str(n)` for `n >= 0`: a non-empty string of decimal digits whose value is
      `n`, with no leading zero ("0" for zero). */
  function NatToString(n: nat): (s: string)
    ensures |s| >= 1
    ensures forall i :: 0 <= i < |s| ==> IsDecimalChar(s[i])
    ensures DecimalValue(s) == n
    ensures n >= 1 ==> s[0] != '0'
    ensures n == 0 ==> s == "0"
    decreases n
  {
    if n < 10 then [DecimalDigit(n)]
    else
      var s := NatToString(n / 10) + [DecimalDigit(n % 10)];
      assert s[..|s| - 1] == NatToString(n / 10);
      s
  }

  // ---------------------------------------------------------------------------
  // int2bin: '{:0{}b}'.format(i, width)

  predicate IsBitChar(c: char)
  {
    c == '0' || c == '1'
  }

  predicate IsBitString(s: string)
  {
    forall i :: 0 <= i < |s| ==> IsBitChar(s[i])
  }

  function BinDigit(b: nat): char
    requires b < 2
  {
    if b == 0 then '0' else '1'
  }

  function Zeros(k: nat): string
  {
    seq(k, _ => '0')
  }

  /** Value of a big-endian bit string, as `int(s, 2)` reads it. */
  function BinValue(s: string): nat
    requires IsBitString(s)
  {
    if s == [] then 0
    else 2 * BinValue(s[..|s| - 1]) + (if s[|s| - 1] == '1' then 1 else 0)
  }

  /** Python's `format(i, 'b')`: the shortest binary spelling, "0" for zero. */
  function BinDigits(i: nat): (s: string)
    ensures |s| >= 1 && IsBitString(s)
    ensures BinValue(s) == i
    decreases i
  {
    if i < 2 then [BinDigit(i)]
    else
      var s := BinDigits(i / 2) + [BinDigit(i % 2)];
      assert s[..|s| - 1] == BinDigits(i / 2);
      s
  }

  /** `int2bin(i, width)`: the binary spelling of `i`, left-padded with '0' to at
      least `width` characters (lcbin.py:252). Only non-negative `i` are modelled. */
  function Int2Bin(i: nat, width: nat): (s: string)
    ensures IsBitString(s)
    ensures |s| >= width && |s| >= 1
    ensures i >= 1 && |s| > width ==> s[0] == '1'
  {
    var d := BinDigits(i);
    BinDigitsLeading(i);
    if width > |d| then Zeros(width - |d|) + d else d
  }

  lemma {:induction false} BinDigitsLeading(i: nat)
    ensures i >= 1 ==> BinDigits(i)[0] == '1'
    ensures i == 0 ==> BinDigits(i) == "0"
    decreases i
  {
    if i >= 2 {
      BinDigitsLeading(i / 2);
    }
  }

  // ---------------------------------------------------------------------------
  // bin2int: int(''.join(map(str, xs)), 2)

  /** `''.join(map(str, xs))` for a list of non-negative ints. */
  function Join(xs: seq<nat>): string
  {
    if xs == [] then "" else NatToString(xs[0]) + Join(xs[1..])
  }

  /** `int(s, 2)` on a string of decimal digits: `None` (Python's ValueError) for
      the empty string or a digit other than 0 and 1; otherwise the number whose
      `|s|` low bits, most significant first, are `s`. */
  function ParseBase2(s: string): (r: Option<nat>)
    requires forall i :: 0 <= i < |s| ==> IsDecimalChar(s[i])
    ensures r.Some? <==> s != [] && IsBitString(s)
    ensures r.Some? ==> r.value < Pow2(|s|) && MsbBits(|s|, r.value) == s
  {
    if s != [] && IsBitString(s) then
      BinValueBound(s);
      MsbBitsOfValue(s);
      Some(BinValue(s))
    else None
  }

  /** `bin2int(xs)` (lcbin.py:264-266): it succeeds exactly when the list is
      non-empty and every element prints with the digits 0 and 1 only. */
  function Bin2Int(xs: seq<nat>): (r: Option<nat>)
    ensures r.Some? <==> xs != [] && forall i :: 0 <= i < |xs| ==> IsBitString(NatToString(xs[i]))
  {
    JoinIsBitString(xs);
    JoinIsDecimal(xs);
    ParseBase2(Join(xs))
  }

  lemma {:induction false} JoinIsDecimal(xs: seq<nat>)
    ensures forall i :: 0 <= i < |Join(xs)| ==> IsDecimalChar(Join(xs)[i])
  {
    if xs != [] {
      JoinIsDecimal(xs[1..]);
      var h, t := NatToString(xs[0]), Join(xs[1..]);
      assert Join(xs) == h + t;
      forall i | 0 <= i < |Join(xs)|
        ensures IsDecimalChar(Join(xs)[i])
      {
        if i >= |h| {
          assert Join(xs)[i] == t[i - |h|];
        }
      }
    }
  }

  lemma {:induction false} JoinIsBitString(xs: seq<nat>)
    ensures Join(xs) == [] <==> xs == []
    ensures IsBitString(Join(xs)) <==> forall i :: 0 <= i < |xs| ==> IsBitString(NatToString(xs[i]))
  {
    if xs != [] {
      JoinIsBitString(xs[1..]);
      var h, t := NatToString(xs[0]), Join(xs[1..]);
      assert Join(xs) == h + t;
      BitStringConcat(h, t);
      PrintsAsBitsCons(xs);
    }
  }

  lemma BitStringConcat(a: string, b: string)
    ensures IsBitString(a + b) <==> IsBitString(a) && IsBitString(b)
  {
    if IsBitString(a + b) {
      assert forall i :: 0 <= i < |a| ==> (a + b)[i] == a[i];
      assert forall i :: 0 <= i < |b| ==> (a + b)[|a| + i] == b[i];
    }
  }

  lemma PrintsAsBitsCons(xs: seq<nat>)
    requires xs != []
    ensures (forall i :: 0 <= i < |xs| ==> IsBitString(NatToString(xs[i])))
        <==> IsBitString(NatToString(xs[0]))
             && forall i :: 0 <= i < |xs[1..]| ==> IsBitString(NatToString(xs[1..][i]))
  {
    assert forall i :: 0 < i < |xs| ==> xs[i] == xs[1..][i - 1];
  }

  /** `list(b)` followed by `.astype(int)`: the digits of a bit string as ints. */
  function CharsToInts(s: string): (xs: seq<nat>)
    requires IsBitString(s)
  {
    seq(|s|, k requires 0 <= k < |s| => if s[k] == '1' then 1 else 0)
  }

  function Reverse<T>(s: seq<T>): seq<T>
  {
    seq(|s|, k requires 0 <= k < |s| => s[|s| - 1 - k])
  }

  lemma {:induction false} JoinOfBits(s: string)
    requires IsBitString(s)
    ensures Join(CharsToInts(s)) == s
  {
    if s != [] {
      assert CharsToInts(s)[1..] == CharsToInts(s[1..]);
      JoinOfBits(s[1..]);
      assert NatToString(CharsToInts(s)[0]) == [s[0]];
    }
  }

  lemma {:induction false} BinValueOfPadded(k: nat, d: string)
    requires IsBitString(d)
    ensures IsBitString(Zeros(k) + d)
    ensures BinValue(Zeros(k) + d) == BinValue(d)
    decreases |d|
  {
    if d == [] {
      assert Zeros(k) + d == Zeros(k);
      BinValueOfZeros(k);
    } else {
      var d' := d[..|d| - 1];
      assert (Zeros(k) + d)[..|Zeros(k) + d| - 1] == Zeros(k) + d';
      BinValueOfPadded(k, d');
    }
  }

  lemma {:induction false} BinValueOfZeros(k: nat)
    ensures BinValue(Zeros(k)) == 0
  {
    if k > 0 {
      assert Zeros(k)[..k - 1] == Zeros(k - 1);
      BinValueOfZeros(k - 1);
    }
  }

  /** int2bin then bin2int gives back the number, for every width. */
  lemma Int2BinRoundTrip(i: nat, width: nat)
    ensures Bin2Int(CharsToInts(Int2Bin(i, width))) == Some(i)
  {
    var d := BinDigits(i);
    if width > |d| {
      BinValueOfPadded(width - |d|, d);
    }
    JoinOfBits(Int2Bin(i, width));
  }

  // ---------------------------------------------------------------------------
  // The fixed-width big-endian spelling and the other round trip.

  /** The `n` low bits of `r`, most significant first. */
  function MsbBits(n: nat, r: nat): (s: string)
    ensures |s| == n && IsBitString(s)
  {
    if n == 0 then [] else MsbBits(n - 1, r / 2) + [BinDigit(r % 2)]
  }

  lemma {:induction false} MsbBitsOfZero(n: nat)
    ensures MsbBits(n, 0) == Zeros(n)
  {
    if n > 0 {
      MsbBitsOfZero(n - 1);
    }
  }

  lemma {:induction false} BinDigitsLength(i: nat, m: nat)
    requires m >= 1 && i < Pow2(m)
    ensures |BinDigits(i)| <= m
    decreases i
  {
    if i >= 2 {
      BinDigitsLength(i / 2, m - 1);
    }
  }

  lemma {:induction false} Int2BinIsMsbBits(i: nat, n: nat)
    requires n >= 1 && i < Pow2(n)
    ensures Int2Bin(i, n) == MsbBits(n, i)
    decreases n
  {
    if i < 2 {
      MsbBitsOfZero(n - 1);
      assert i / 2 == 0 && i % 2 == i;
    } else {
      BinDigitsLength(i / 2, n - 1);
      Int2BinIsMsbBits(i / 2, n - 1);
      var c := [BinDigit(i % 2)];
      assert BinDigits(i) == BinDigits(i / 2) + c;
      if n > |BinDigits(i)| {
        assert Int2Bin(i, n) == Zeros(n - 1 - |BinDigits(i / 2)|) + BinDigits(i / 2) + c;
      }
      assert Int2Bin(i, n) == Int2Bin(i / 2, n - 1) + c;
    }
  }

  /** For `n >= 1` and `i < 2^n`, `int2bin(i, n)` has exactly `n` characters. */
  lemma Int2BinWidth(i: nat, n: nat)
    requires n >= 1 && i < Pow2(n)
    ensures |Int2Bin(i, n)| == n
  {
    Int2BinIsMsbBits(i, n);
  }

  lemma {:induction false} BinValueBound(s: string)
    requires IsBitString(s)
    ensures BinValue(s) < Pow2(|s|)
  {
    if s != [] {
      BinValueBound(s[..|s| - 1]);
    }
  }

  lemma {:induction false} MsbBitsOfValue(s: string)
    requires IsBitString(s)
    ensures MsbBits(|s|, BinValue(s)) == s
  {
    if s != [] {
      var s' := s[..|s| - 1];
      MsbBitsOfValue(s');
      assert s == s' + [s[|s| - 1]];
    }
  }

  /** bin2int then int2bin at the original width gives back the digit string. */
  lemma Bin2IntRoundTrip(s: string)
    requires s != [] && IsBitString(s)
    ensures Bin2Int(CharsToInts(s)) == Some(BinValue(s))
    ensures Int2Bin(BinValue(s), |s|) == s
  {
    JoinOfBits(s);
    BinValueBound(s);
    Int2BinIsMsbBits(BinValue(s), |s|);
    MsbBitsOfValue(s);
  }

  /** The doctests of `int2bin` (lcbin.py:247-250). */
  lemma Int2BinExamples()
    ensures Int2Bin(3, 4) == "0011" && Int2Bin(5, 5) == "00101"
  {
    assert BinDigits(3) == "11";
    assert BinDigits(5) == "101" by {
      assert BinDigits(2) == "10";
    }
  }

  /** The doctests of `bin2int` (lcbin.py:257-262); `str()` joining means that
      `[10, 1]` reads as "101"; an empty list or a digit 2 fails. */
  lemma Bin2IntExamples()
    ensures Bin2Int([0, 1, 1]) == Some(3) && Bin2Int([0, 0, 1, 1]) == Some(3)
    ensures Bin2Int([1, 1, 1, 1, 1]) == Some(31)
  {
    BinValueExamples();
    Bin2IntOfBits("011");
    assert CharsToInts("011") == [0, 1, 1];
    Bin2IntOfBits("0011");
    assert CharsToInts("0011") == [0, 0, 1, 1];
    Bin2IntOfBits("11111");
    assert CharsToInts("11111") == [1, 1, 1, 1, 1];
  }

  lemma Bin2IntOfJoin(xs: seq<nat>, s: string)
    requires Join(xs) == s && s != [] && IsBitString(s)
    ensures Bin2Int(xs) == Some(BinValue(s))
  {
  }

  lemma Bin2IntOfBits(s: string)
    requires s != [] && IsBitString(s)
    ensures Bin2Int(CharsToInts(s)) == Some(BinValue(s))
  {
    JoinOfBits(s);
    Bin2IntOfJoin(CharsToInts(s), s);
  }

  /** Entries are joined as decimal text before parsing, so `[10, 1]` reads as
      "101"; an empty list or a digit above 1 is a ValueError. */
  lemma Bin2IntOddInputs()
    ensures Bin2Int([10, 1]) == Some(5)
    ensures Bin2Int([]) == None && Bin2Int([1, 2]) == None
  {
    BinValueExamples();
    assert NatToString(10) == "10";
    assert Join([10, 1]) == "101";
    Bin2IntOfJoin([10, 1], "101");
    assert NatToString(2) == "2";
  }

  lemma BinValueExamples()
    ensures BinValue("011") == 3 && BinValue("0011") == 3
    ensures BinValue("11111") == 31 && BinValue("101") == 5
  {
    assert "0011"[..3] == "001";
    assert "001"[..2] == "00";
    assert "011"[..2] == "01";
    assert "01"[..1] == "0";
    assert "00"[..1] == "0";
    assert "11111"[..4] == "1111";
    assert "1111"[..3] == "111";
    assert "111"[..2] == "11";
    assert "11"[..1] == "1";
    assert "101"[..2] == "10";
    assert "10"[..1] == "1";
  }

  // ---------------------------------------------------------------------------
  // binary_array

  /** Row `r` of `binary_array(n)`: `reversed(int2bin(r, n))` read as ints. */
  function Row(n: nat, r: nat): seq<nat>
  {
    CharsToInts(Reverse(Int2Bin(r, n)))
  }

  /** `binary_array(n)`: rows 0 .. 2^n - 1, row 0 included (lcbin.py:316-321). */
  function BinaryArray(n: nat): (t: seq<seq<nat>>)
    ensures |t| == Pow2(n)
  {
    seq(Pow2(n), r requires 0 <= r < Pow2(n) => Row(n, r))
  }

  lemma {:induction false} DivUnique(a: nat, b: nat, q: nat, m: nat)
    requires b > 0 && a == b * q + m && m < b
    ensures a / b == q && a % b == m
  {
    var q', m' := a / b, a % b;
    assert a == b * q' + m';
    if q' > q {
      MulAtLeast(b, q' - q);
    } else if q' < q {
      MulAtLeast(b, q - q');
    }
  }

  lemma {:induction false} MulAtLeast(b: nat, k: nat)
    requires k >= 1
    ensures b * k >= b
  {
    if k > 1 {
      MulAtLeast(b, k - 1);
      assert b * k == b * (k - 1) + b;
    }
  }

  lemma Associate(p: int, q: int)
    ensures (2 * p) * q == 2 * (p * q)
  {
  }

  lemma HalfThenPow(r: nat, m: nat)
    ensures (r / 2) / Pow2(m) == r / Pow2(m + 1)
  {
    assert Pow2(m + 1) == 2 * Pow2(m);
    HalfThenDivide(r, Pow2(m));
  }

  lemma HalfThenDivide(r: nat, p: nat)
    requires p >= 1
    ensures (r / 2) / p == r / (2 * p)
  {
    var q := r / (2 * p);
    var rem := r % (2 * p);
    var h, e := rem / 2, rem % 2;
    var pq := p * q;
    assert r == (2 * p) * q + rem;
    assert (2 * p) * q == 2 * pq by {
      Associate(p, q);
    }
    assert rem == 2 * h + e && h < p;
    assert r == 2 * (pq + h) + e;
    DivUnique(r, 2, pq + h, e);
    DivUnique(r / 2, p, q, h);
  }

  lemma {:induction false} MsbBitsAt(n: nat, r: nat, k: nat)
    requires k < n
    ensures MsbBits(n, r)[n - 1 - k] == BinDigit(Bit(r, k))
    decreases n
  {
    if k > 0 {
      MsbBitsAt(n - 1, r / 2, k - 1);
      HalfThenPow(r, k - 1);
    }
  }

  /** Shape and contents of `binary_array(n)` for `n >= 1`: 2^n rows of `n`
      entries, entry `k` of row `r` being bit `k` of `r` (lcbin.py:289-321). */
  lemma BinaryArrayCells(n: nat, r: nat, k: nat)
    requires n >= 1 && r < Pow2(n)
    ensures |BinaryArray(n)[r]| == n
    ensures k < n ==> BinaryArray(n)[r][k] == Bit(r, k) && Bit(r, k) < 2
  {
    Int2BinIsMsbBits(r, n);
    if k < n {
      MsbBitsAt(n, r, k);
    }
  }

  /** `binary_array(n).shape == (2**n, n)` (lcbin.py:311-313). */
  lemma BinaryArrayShape(n: nat)
    requires n >= 1
    ensures |BinaryArray(n)| == Pow2(n)
    ensures forall r :: 0 <= r < |BinaryArray(n)| ==> |BinaryArray(n)[r]| == n
  {
    forall r | 0 <= r < |BinaryArray(n)|
      ensures |BinaryArray(n)[r]| == n
    {
      BinaryArrayCells(n, r, 0);
    }
  }

  /** With `n == 0` the table is not 1 x 0: '{:00b}' still writes one digit. */
  lemma BinaryArrayOfZeroBits()
    ensures BinaryArray(0) == [[0]]
  {
    assert Int2Bin(0, 0) == "0";
    assert Row(0, 0) == [0];
  }

  /** LSB-first bits of `r`, by halving: a second definition of a table row. */
  function LowBits(n: nat, r: nat): (bs: seq<nat>)
    ensures |bs| == n
  {
    if n == 0 then [] else [r % 2] + LowBits(n - 1, r / 2)
  }

  lemma {:induction false} LowBitsAt(n: nat, r: nat, k: nat)
    requires k < n
    ensures LowBits(n, r)[k] == Bit(r, k)
    decreases n
  {
    if k > 0 {
      LowBitsAt(n - 1, r / 2, k - 1);
      HalfThenPow(r, k - 1);
    }
  }

  lemma RowIsLowBits(n: nat, r: nat)
    requires n >= 1 && r < Pow2(n)
    ensures BinaryArray(n)[r] == LowBits(n, r)
  {
    forall k | 0 <= k < n
      ensures BinaryArray(n)[r][k] == LowBits(n, r)[k]
    {
      BinaryArrayCells(n, r, k);
      LowBitsAt(n, r, k);
    }
    BinaryArrayCells(n, r, 0);
  }

  /** A row of `n` copies of `v`. */
  function Filled(n: nat, v: nat): seq<nat>
  {
    seq(n, _ => v)
  }

  lemma {:induction false} LowBitsOfZero(n: nat)
    ensures LowBits(n, 0) == Filled(n, 0)
  {
    if n > 0 {
      LowBitsOfZero(n - 1);
    }
  }

  lemma {:induction false} LowBitsOfAllOnes(n: nat)
    ensures LowBits(n, Pow2(n) - 1) == Filled(n, 1)
  {
    if n > 0 {
      assert (Pow2(n) - 1) / 2 == Pow2(n - 1) - 1;
      LowBitsOfAllOnes(n - 1);
    }
  }

  /** Row 0 is all zeros and the last row is all ones (lcbin.py:305-309). */
  lemma BinaryArrayEnds(n: nat)
    requires n >= 1
    ensures BinaryArray(n)[0] == Filled(n, 0)
    ensures BinaryArray(n)[Pow2(n) - 1] == Filled(n, 1)
  {
    FirstRow(n);
    LastRow(n);
  }

  lemma FirstRow(n: nat)
    requires n >= 1
    ensures BinaryArray(n)[0] == Filled(n, 0)
  {
    RowIsLowBits(n, 0);
    LowBitsOfZero(n);
  }

  lemma LastRow(n: nat)
    requires n >= 1
    ensures BinaryArray(n)[Pow2(n) - 1] == Filled(n, 1)
  {
    var last := Pow2(n) - 1;
    assert LowBits(n, last) == Filled(n, 1) by {
      LowBitsOfAllOnes(n);
    }
    RowIsLowBits(n, last);
  }

  /** Any row, reversed and read by `bin2int`, gives its row index back; so the
      rows enumerate 0 .. 2^n - 1, each exactly once (lcbin.py:115-121). */
  lemma RowsEnumerateIndices(n: nat, r: nat, r': nat)
    requires r < Pow2(n) && r' < Pow2(n)
    ensures Bin2Int(Reverse(BinaryArray(n)[r])) == Some(r)
    ensures r != r' ==> BinaryArray(n)[r] != BinaryArray(n)[r']
  {
    ReverseRow(n, r);
    ReverseRow(n, r');
    Int2BinRoundTrip(r, n);
    Int2BinRoundTrip(r', n);
  }

  lemma ReverseRow(n: nat, r: nat)
    ensures Reverse(Row(n, r)) == CharsToInts(Int2Bin(r, n))
  {
  }

  /** The doctest `binary_array(2)` (lcbin.py:289-293). */
  lemma BinaryArrayOfTwoBits()
    ensures BinaryArray(2) == [[0, 0], [1, 0], [0, 1], [1, 1]]
  {
    assert Pow2(2) == 4;
    RowIsLowBits(2, 0);
    RowIsLowBits(2, 1);
    RowIsLowBits(2, 2);
    RowIsLowBits(2, 3);
    LowBitsOfTwo();
  }

  lemma LowBitsOfTwo()
    ensures LowBits(2, 0) == [0, 0] && LowBits(2, 1) == [1, 0]
    ensures LowBits(2, 2) == [0, 1] && LowBits(2, 3) == [1, 1]
  {
    assert LowBits(2, 2) == [0] + LowBits(1, 1);
    assert LowBits(2, 3) == [1] + LowBits(1, 1);
  }

  // ---------------------------------------------------------------------------
  // c_list and the weighted row sum behind the CpF column

  /** `c_list(c_initial, c_res, n)` (lcbin.py:242). */
  function CList(cInitial: real, cRes: real, n: nat): seq<real>
  {
    seq(n, k requires 0 <= k < n => cInitial + cRes * Pow2(k) as real)
  }

  /** `c_list` has one entry per bit, the first is `c_initial + c_res`, and each
      step above `c_initial` doubles (binary weighting); doctests at lcbin.py:237-240. */
  lemma CListWeights(cInitial: real, cRes: real, n: nat)
    ensures |CList(cInitial, cRes, n)| == n
    ensures n >= 1 ==> CList(cInitial, cRes, n)[0] == cInitial + cRes
    ensures forall k :: 0 <= k < n - 1 ==>
      CList(cInitial, cRes, n)[k + 1] - cInitial == 2.0 * (CList(cInitial, cRes, n)[k] - cInitial)
    ensures CList(0.0, 10.0, 3) == [10.0, 20.0, 40.0]
    ensures CList(2.0, 1.0, 4) == [3.0, 4.0, 6.0, 10.0]
  {
    assert Pow2(1) == 2 && Pow2(2) == 4 && Pow2(3) == 8;
  }

  lemma {:induction false} CListTail(cInitial: real, cRes: real, n: nat)
    requires n >= 1
    ensures CList(cInitial, cRes, n)[1..] == CList(cInitial, 2.0 * cRes, n - 1)
  {
    forall k | 0 <= k < n - 1
      ensures CList(cInitial, cRes, n)[1..][k] == CList(cInitial, 2.0 * cRes, n - 1)[k]
    {
      var p := Pow2(k) as real;
      assert Pow2(k + 1) as real == 2.0 * p;
      assert cRes * (2.0 * p) == (2.0 * cRes) * p;
    }
  }

  /** The row sum `(columns * row).sum()` for one row. */
  function WeightedSum(ws: seq<real>, row: seq<nat>): real
    requires |ws| == |row|
  {
    if ws == [] then 0.0 else ws[0] * row[0] as real + WeightedSum(ws[1..], row[1..])
  }

  lemma {:induction false} WeightedLowBits(cInitial: real, cRes: real, n: nat, r: nat)
    requires r < Pow2(n)
    ensures WeightedSum(CList(cInitial, cRes, n), LowBits(n, r))
         == cInitial * Popcount(r, n) as real + cRes * r as real
    decreases n
  {
    if n > 0 {
      WeightedLowBits(cInitial, 2.0 * cRes, n - 1, r / 2);
      WeightedLowBitsStep(cInitial, cRes, n, r);
    } else {
      WeightedLowBitsEmpty(cInitial, cRes, r);
    }
  }

  lemma WeightedLowBitsStep(cInitial: real, cRes: real, n: nat, r: nat)
    requires n > 0
    requires WeightedSum(CList(cInitial, 2.0 * cRes, n - 1), LowBits(n - 1, r / 2))
          == cInitial * Popcount(r / 2, n - 1) as real + (2.0 * cRes) * (r / 2) as real
    ensures WeightedSum(CList(cInitial, cRes, n), LowBits(n, r))
         == cInitial * Popcount(r, n) as real + cRes * r as real
  {
    var ws, bits, pop := CList(cInitial, cRes, n), LowBits(n, r), Popcount(r / 2, n - 1);
    CListHead(cInitial, cRes, n);
    LowBitsHead(n, r);
    assert WeightedSum(ws[1..], bits[1..]) == cInitial * pop as real + (2.0 * cRes) * (r / 2) as real;
    WeightedStep(ws, bits, cInitial, cRes, r, pop);
  }

  lemma CListHead(cInitial: real, cRes: real, n: nat)
    requires n > 0
    ensures CList(cInitial, cRes, n)[0] == cInitial + cRes
    ensures CList(cInitial, cRes, n)[1..] == CList(cInitial, 2.0 * cRes, n - 1)
  {
    assert Pow2(0) == 1;
    CListTail(cInitial, cRes, n);
  }

  lemma LowBitsHead(n: nat, r: nat)
    requires n > 0
    ensures LowBits(n, r)[0] == r % 2
    ensures LowBits(n, r)[1..] == LowBits(n - 1, r / 2)
    ensures Popcount(r, n) == r % 2 + Popcount(r / 2, n - 1)
  {
  }

  lemma WeightedLowBitsEmpty(cInitial: real, cRes: real, r: nat)
    requires r < Pow2(0)
    ensures WeightedSum(CList(cInitial, cRes, 0), LowBits(0, r))
         == cInitial * Popcount(r, 0) as real + cRes * r as real
  {
    assert r == 0;
  }

  /** One step of the induction above, with the weights and bits abstracted. */
  lemma WeightedStep(ws: seq<real>, bits: seq<nat>, a: real, c: real, r: nat, pop: nat)
    requires |ws| == |bits| > 0 && ws[0] == a + c && bits[0] == r % 2
    requires WeightedSum(ws[1..], bits[1..]) == a * pop as real + (2.0 * c) * (r / 2) as real
    ensures WeightedSum(ws, bits) == a * (r % 2 + pop) as real + c * r as real
  {
    var tail, x := WeightedSum(ws[1..], bits[1..]), WeightedSum(ws, bits);
    assert x == (a + c) * (r % 2) as real + tail;
    StepArith(a, c, r, pop, tail, x);
  }

  lemma StepArith(a: real, c: real, r: nat, pop: nat, tail: real, x: real)
    requires x == (a + c) * (r % 2) as real + tail
    requires tail == a * pop as real + (2.0 * c) * (r / 2) as real
    ensures x == a * (r % 2 + pop) as real + c * r as real
  {
    var b, h, p := (r % 2) as real, (r / 2) as real, pop as real;
    HalfAsReal(r);
    Regroup(a, c, b, h, p, tail, x, r as real);
    assert (r % 2 + pop) as real == b + p;
  }

  lemma HalfAsReal(r: nat)
    ensures r as real == (r % 2) as real + 2.0 * (r / 2) as real
  {
  }

  lemma Regroup(a: real, c: real, b: real, h: real, p: real, tail: real, x: real, rr: real)
    requires x == (a + c) * b + tail && tail == a * p + (2.0 * c) * h && rr == b + 2.0 * h
    ensures x == a * (b + p) + c * rr
  {
  }

  /** The raw capacitance of row `r` (lcbin.py:154, before `c_para`): each set
      bit contributes `c_initial`, and the bit weights `c_res * 2^k` add up to
      `c_res * r`. */
  lemma RowCapacitance(cInitial: real, cRes: real, n: nat, r: nat)
    requires n >= 1 && r < Pow2(n)
    ensures |BinaryArray(n)[r]| == n
    ensures WeightedSum(CList(cInitial, cRes, n), BinaryArray(n)[r])
         == cInitial * Popcount(r, n) as real + cRes * r as real
  {
    RowIsLowBits(n, r);
    WeightedLowBits(cInitial, cRes, n, r);
  }

  // ---------------------------------------------------------------------------
  // channels

  /** `[i for i, b in enumerate(row, start=1) if b]`: the 1-based positions of
      the non-zero entries, strictly increasing. */
  function OnChannels(row: seq<nat>): seq<nat>
  {
    if row == [] then []
    else OnChannels(row[..|row| - 1]) + (if row[|row| - 1] != 0 then [|row|] else [])
  }

  /** The listed channels are the 1-based positions of the non-zero entries,
      each once and in increasing order. */
  lemma {:induction false} OnChannelsSpec(row: seq<nat>)
    ensures forall j :: 0 <= j < |OnChannels(row)| ==>
      1 <= OnChannels(row)[j] <= |row| && row[OnChannels(row)[j] - 1] != 0
    ensures forall c :: 1 <= c <= |row| && row[c - 1] != 0 ==> c in OnChannels(row)
    ensures forall i, j :: 0 <= i < j < |OnChannels(row)| ==> OnChannels(row)[i] < OnChannels(row)[j]
  {
    if row != [] {
      var front := row[..|row| - 1];
      OnChannelsSpec(front);
      var prev, last := OnChannels(front), if row[|row| - 1] != 0 then [|row|] else [];
      assert OnChannels(row) == prev + last;
      assert forall i :: 0 <= i < |front| ==> front[i] == row[i];
    }
  }

  datatype IndexError = OutOfBounds(index: int, size: nat)

  /** `table[ix]` with numpy's rules: negative indices count from the end, and an
      index outside `-len .. len - 1` raises IndexError. */
  function PyIndex<T>(table: seq<T>, ix: int): (r: Result<T, IndexError>)
    ensures r.Ok? <==> -|table| <= ix < |table|
    ensures r.Ok? ==> r.value == table[ix % |table|]
    ensures r.Err? ==> r.error == OutOfBounds(ix, |table|)
  {
    if 0 <= ix + |table| && ix < 0 then Ok(table[|table| + ix])
    else if 0 <= ix < |table| then Ok(table[ix])
    else Err(OutOfBounds(ix, |table|))
  }

  /** `Lcbin.channels(ix)` on the table of `n` bits (lcbin.py:220). */
  function ChannelsOf(n: nat, ix: int): (r: Result<seq<nat>, IndexError>)
    ensures r.Ok? <==> 0 <= ix + Pow2(n) && ix < Pow2(n)
  {
    match PyIndex(BinaryArray(n), ix)
    case Ok(row) => Ok(OnChannels(row))
    case Err(e) => Err(e)
  }

  /** Channel `k + 1` is listed for row `ix` exactly when bit `k` of the row
      index is set; a negative `ix` names row `2^n + ix` (lcbin.py:187-220). */
  lemma ChannelsAreSetBits(n: nat, ix: int, k: nat)
    requires n >= 1 && 0 <= ix + Pow2(n) && ix < Pow2(n) && k < n
    ensures var row: nat := if ix < 0 then Pow2(n) + ix else ix;
      ChannelsOf(n, ix) == ChannelsOf(n, row)
      && (k + 1 in ChannelsOf(n, ix).value <==> Bit(row, k) == 1)
  {
    var row: nat := if ix < 0 then Pow2(n) + ix else ix;
    BinaryArrayCells(n, row, k);
    var cells := BinaryArray(n)[row];
    assert PyIndex(BinaryArray(n), ix) == Ok(cells) == PyIndex(BinaryArray(n), row);
    ChannelOfCell(cells, k);
  }

  lemma ChannelOfCell(cells: seq<nat>, k: nat)
    requires k < |cells|
    ensures k + 1 in OnChannels(cells) <==> cells[k] != 0
  {
    var cs := OnChannels(cells);
    OnChannelsSpec(cells);
    if cells[k] != 0 {
      assert k + 1 in cs;
    }
    if k + 1 in cs {
      var j :| 0 <= j < |cs| && cs[j] == k + 1;
      assert cells[cs[j] - 1] != 0;
    }
  }

  lemma {:induction false} NoChannels(n: nat)
    ensures OnChannels(Filled(n, 0)) == []
  {
    if n > 0 {
      assert Filled(n, 0)[..n - 1] == Filled(n - 1, 0);
      NoChannels(n - 1);
    }
  }

  lemma {:induction false} AllChannels(n: nat)
    ensures OnChannels(Filled(n, 1)) == seq(n, k => k + 1)
  {
    if n > 0 {
      assert Filled(n, 1)[..n - 1] == Filled(n - 1, 1);
      AllChannels(n - 1);
    }
  }

  /** The doctests of `channels` (lcbin.py:194-211) for any width: row 0 has no
      channel, row -1 (the last) has all of them, and row `2^n` is out of bounds. */
  lemma ChannelsEnds(n: nat)
    requires n >= 1
    ensures ChannelsOf(n, 0) == Ok([])
    ensures ChannelsOf(n, -1) == Ok(seq(n, k => k + 1))
    ensures ChannelsOf(n, Pow2(n) - 1) == ChannelsOf(n, -1)
    ensures ChannelsOf(n, Pow2(n)) == Err(OutOfBounds(Pow2(n), Pow2(n)))
  {
    BinaryArrayEnds(n);
    NoChannels(n);
    AllChannels(n);
  }

  /** The doctest `bc.channels(6) == [2, 3]` for six bits (lcbin.py:213-216). */
  lemma ChannelsOfRowSix()
    ensures ChannelsOf(6, 6) == Ok([2, 3])
  {
    RowSix();
    OnChannelsOfRowSix();
  }

  lemma RowSix()
    ensures Pow2(6) == 64 && BinaryArray(6)[6] == [0, 1, 1, 0, 0, 0]
  {
    assert Pow2(6) == 64;
    RowIsLowBits(6, 6);
    assert LowBits(3, 0) == [0, 0, 0] by {
      LowBitsOfZero(3);
    }
    assert LowBits(4, 1) == [1] + LowBits(3, 0);
    assert LowBits(5, 3) == [1] + LowBits(4, 1);
    assert LowBits(6, 6) == [0] + LowBits(5, 3);
  }

  lemma OnChannelsOfRowSix()
    ensures OnChannels([0, 1, 1, 0, 0, 0]) == [2, 3]
  {
    var r3: seq<nat> := [0, 1, 1];
    var r4 := r3 + [0];
    var r5 := r4 + [0];
    OnChannelsOfRowSixFront();
    OnChannelsSnoc(r3, 0);
    OnChannelsSnoc(r4, 0);
    OnChannelsSnoc(r5, 0);
    assert r5 + [0] == [0, 1, 1, 0, 0, 0];
  }

  lemma OnChannelsOfRowSixFront()
    ensures OnChannels([0, 1, 1]) == [2, 3]
  {
    var r1: seq<nat> := [0];
    var r2 := r1 + [1];
    assert OnChannels(r1) == [] by {
      OnChannelsSnoc([], 0);
      assert [] + [0] == r1;
    }
    OnChannelsSnoc(r1, 1);
    OnChannelsSnoc(r2, 1);
    assert r2 + [1] == [0, 1, 1];
  }

  lemma OnChannelsSnoc(row: seq<nat>, x: nat)
    ensures OnChannels(row + [x]) == OnChannels(row) + (if x != 0 then [|row| + 1] else [])
  {
    var longer := row + [x];
    assert longer[..|longer| - 1] == row && longer[|longer| - 1] == x;
  }
}
