/** The `Lcbin` table of `lcbin.py`: a bank of `c_num` switched capacitors
    whose values grow in binary steps, the `CpF` column holding the capacitance
    of every switch combination (optionally in series with one more capacitor),
    the `channels` lookup and the file name `to_csv` builds from the
    parameters. */
module CapacitorBank {
  import opened Wrappers
  import opened BitTable

  // ---------------------------------------------------------------------------
  // Series capacitor

  /** A capacitance in pF as numpy computes it: `Unbounded` is the `inf` that a
      division by zero yields. */
  datatype Cap = Finite(pF: real) | Unbounded

  /** `1 / ((1 / c) + (1 / c_ser))` evaluated with numpy's division by zero:
      `1 / 0 == inf` and `1 / inf == 0` (lcbin.py:155-156). */
  function Series(c: Cap, cSer: real): Cap
    requires cSer != 0.0
  {
    match c
    case Unbounded => Finite(cSer)
    case Finite(x) =>
      if x == 0.0 then Finite(0.0)
      else
        var t := 1.0 / x + 1.0 / cSer;
        if t == 0.0 then Unbounded else Finite(1.0 / t)
  }

  /** The law of capacitors in series: reciprocals add. The result is infinite
      exactly when the reciprocals cancel; zero and infinity follow numpy. */
  lemma SeriesReciprocals(c: Cap, cSer: real)
    requires cSer != 0.0
    ensures c == Finite(0.0) ==> Series(c, cSer) == Finite(0.0)
    ensures c == Unbounded ==> Series(c, cSer) == Finite(cSer)
    ensures c.Finite? && c.pF != 0.0 ==>
      (Series(c, cSer).Finite? <==> 1.0 / c.pF + 1.0 / cSer != 0.0)
    ensures c.Finite? && c.pF != 0.0 && Series(c, cSer).Finite? ==>
      Series(c, cSer).pF != 0.0 && 1.0 / Series(c, cSer).pF == 1.0 / c.pF + 1.0 / cSer
  {
    if c.Finite? && c.pF != 0.0 {
      var t := 1.0 / c.pF + 1.0 / cSer;
      if t != 0.0 {
        ReciprocalInvolutive(t);
      }
    }
  }

  lemma ReciprocalInvolutive(t: real)
    requires t != 0.0
    ensures 1.0 / t != 0.0 && 1.0 / (1.0 / t) == t
  {
  }

  /** Two positive capacitors in series give less than either one alone. */
  lemma SeriesBelowBoth(c: real, cSer: real)
    requires c > 0.0 && cSer > 0.0
    ensures Series(Finite(c), cSer).Finite?
    ensures 0.0 < Series(Finite(c), cSer).pF < c
    ensures Series(Finite(c), cSer).pF < cSer
  {
    var t := 1.0 / c + 1.0 / cSer;
    assert 1.0 / c > 0.0 && 1.0 / cSer > 0.0;
    ReciprocalBelow(c, t);
    ReciprocalBelow(cSer, t);
  }

  lemma ReciprocalBelow(c: real, t: real)
    requires c > 0.0 && t > 1.0 / c
    ensures 0.0 < 1.0 / t < c
  {
    assert t * c > (1.0 / c) * c;
  }

  /** The order of the two capacitors does not matter. */
  lemma SeriesSymmetric(a: real, b: real)
    requires a != 0.0 && b != 0.0
    ensures Series(Finite(a), b) == Series(Finite(b), a)
  {
  }

  // ---------------------------------------------------------------------------
  // The CpF column

  /** Row `r` of the `CpF` column (lcbin.py:154-156), in closed form: the
      parallel capacitance, plus `c_initial` for every switched-in channel,
      plus `c_res` times the row index, then the optional series correction.
      `RowCapacitance` ties the closed form to the numpy row sum. */
  function TableCpF(cInitial: real, cRes: real, n: nat, cPara: real, cSer: real, r: nat): Cap
  {
    var raw := Finite(RawCpF(cInitial, cRes, n, cPara, r));
    if cSer != 0.0 then Series(raw, cSer) else raw
  }

  /** The capacitance of row `r` before the series correction. */
  function RawCpF(cInitial: real, cRes: real, n: nat, cPara: real, r: nat): real
  {
    cPara + cInitial * Popcount(r, n) as real + cRes * r as real
  }

  /** The numpy row sum `c_para + (columns * array[r]).sum()` agrees with the
      closed form (lcbin.py:154). */
  lemma RawRowCpF(cInitial: real, cRes: real, n: nat, cPara: real, r: nat)
    requires n >= 1 && r < Pow2(n)
    ensures |BinaryArray(n)[r]| == n
    ensures cPara + WeightedSum(CList(cInitial, cRes, n), BinaryArray(n)[r])
         == RawCpF(cInitial, cRes, n, cPara, r)
  {
    RowCapacitance(cInitial, cRes, n, r);
    RawCpFTerms(cInitial, cRes, n, cPara, r);
  }

  /** `RawCpF` unfolded once. Stated on its own so that `RawRowCpF` sees the
      expanded sum as a single fact instead of unfolding the definition in a
      context full of sequence terms, which costs the solver far more. */
  lemma RawCpFTerms(cInitial: real, cRes: real, n: nat, cPara: real, r: nat)
    ensures RawCpF(cInitial, cRes, n, cPara, r) == cPara + cInitial * Popcount(r, n) as real + cRes * r as real
  {
  }

  /** Without `c_initial`, `c_para` and a series capacitor the column is
      `c_res * r`; the Quick Start table `Lcbin(10, 4, 12.5)` has
      `CpF == 10 * r` (lcbin.py:25-42). */
  lemma CpFOfResolution(cRes: real, n: nat, r: nat)
    ensures TableCpF(0.0, cRes, n, 0.0, 0.0, r) == Finite(cRes * r as real)
  {
  }

  lemma QuickStartCpF()
    ensures forall r :: 0 <= r < 16 ==> TableCpF(0.0, 10.0, 4, 0.0, 0.0, r) == Finite(10.0 * r as real)
  {
    forall r | 0 <= r < 16
      ensures TableCpF(0.0, 10.0, 4, 0.0, 0.0, r) == Finite(10.0 * r as real)
    {
      CpFOfResolution(10.0, 4, r);
    }
  }

  /** With `c_initial == 0` and no series capacitor the column strictly
      increases down the table for a positive resolution. */
  lemma CpFIncreasing(cRes: real, n: nat, cPara: real, r: nat, r': nat)
    requires r < r' && cRes > 0.0
    ensures TableCpF(0.0, cRes, n, cPara, 0.0, r).pF < TableCpF(0.0, cRes, n, cPara, 0.0, r').pF
  {
    assert cRes * r as real < cRes * r' as real;
  }

  /** With positive parameters a series capacitor lowers every non-empty row
      below both its raw sum and the series capacitor itself; row 0 with no
      parallel capacitance stays 0. */
  lemma CpFWithSeries(cInitial: real, cRes: real, n: nat, cPara: real, cSer: real, r: nat)
    requires cInitial >= 0.0 && cRes > 0.0 && cPara >= 0.0 && cSer > 0.0
    ensures r == 0 && cPara == 0.0 ==> TableCpF(cInitial, cRes, n, cPara, cSer, r) == Finite(0.0)
    ensures r >= 1 || cPara > 0.0 ==>
      var c := TableCpF(cInitial, cRes, n, cPara, cSer, r);
      c.Finite? && 0.0 < c.pF < TableCpF(cInitial, cRes, n, cPara, 0.0, r).pF && c.pF < cSer
  {
    var raw := cPara + cInitial * Popcount(r, n) as real + cRes * r as real;
    assert cInitial * Popcount(r, n) as real >= 0.0;
    if r >= 1 {
      assert cRes * r as real > 0.0;
    }
    if r == 0 {
      assert Popcount(0, n) == 0 by {
        PopcountOfZero(n);
      }
    }
    if raw > 0.0 {
      SeriesBelowBoth(raw, cSer);
    }
  }

  lemma {:induction false} PopcountOfZero(n: nat)
    ensures Popcount(0, n) == 0
  {
    if n > 0 {
      PopcountOfZero(n - 1);
    }
  }

  // ---------------------------------------------------------------------------
  // The to_csv file name

  /** `s.replace('.', 'p')`. */
  function Dotless(s: string): (t: string)
    ensures |t| == |s| && '.' !in t
    ensures forall i :: 0 <= i < |s| && s[i] != '.' ==> t[i] == s[i]
    ensures forall i :: 0 <= i < |s| && s[i] == '.' ==> t[i] == 'p'
  {
    seq(|s|, i requires 0 <= i < |s| => if s[i] == '.' then 'p' else s[i])
  }

  /** `''.join(parts)`. */
  function Concat(parts: seq<string>): string
  {
    if parts == [] then "" else parts[0] + Concat(parts[1..])
  }

  /** The parameter part of the file name, each segment made dot-free. */
  function Stem(init: string, res: string, pat: string, l: string): string
  {
    Dotless("init" + init) + Dotless("res" + res) + Dotless("pat" + pat) + Dotless("l" + l)
  }

  /** The path `to_csv` writes to, given `str()` of each parameter (lcbin.py:171-181). */
  function FileName(directory: string, init: string, res: string, pat: string, l: string): string
  {
    directory + "/" + Stem(init, res, pat, l) + ".csv"
  }

  /** The file name is the directory, a slash, a stem with no '.' of
      `11 + |init| + |res| + |pat| + |l|` characters and the suffix ".csv". */
  lemma FileNameShape(directory: string, init: string, res: string, pat: string, l: string)
    ensures var f := FileName(directory, init, res, pat, l);
      var stem := Stem(init, res, pat, l);
      && |stem| == 11 + |init| + |res| + |pat| + |l|
      && |f| == |directory| + |stem| + 5
      && f[..|directory|] == directory && f[|directory|] == '/'
      && f[|directory| + 1 .. |f| - 4] == stem && f[|f| - 4..] == ".csv"
      && '.' !in stem
      && stem[..4] == "init"
  {
    var stem := Stem(init, res, pat, l);
    var a, b, c, d := Dotless("init" + init), Dotless("res" + res), Dotless("pat" + pat), Dotless("l" + l);
    assert stem == a + b + c + d;
    assert '.' !in a + b;
    assert '.' !in a + b + c;
    assert stem[..4] == a[..4];
  }

  /** `Lcbin(10, 4, 12.5).to_csv('out')` with `c_initial == 0` writes
      `out/init0res10pat4l12p5.csv`. */
  lemma FileNameExample()
    ensures FileName("out", "0", "10", NatToString(4), "12.5") == "out/init0res10pat4l12p5.csv"
  {
    assert NatToString(4) == "4";
    var stem := Stem("0", "10", "4", "12.5");
    StemExample();
    assert "out" + "/" == "out/";
    assert "out/" + stem == "out/init0res10pat4l12p5";
    assert "out/init0res10pat4l12p5" + ".csv" == "out/init0res10pat4l12p5.csv";
  }

  lemma StemExample()
    ensures Stem("0", "10", "4", "12.5") == "init0res10pat4l12p5"
  {
    DotFreeSegment("init", "0");
    DotFreeSegment("res", "10");
    DotFreeSegment("pat", "4");
    assert Dotless("l" + "12.5") == "l12p5";
    assert "init0" + "res10" == "init0res10";
    assert "init0res10" + "pat4" == "init0res10pat4";
  }

  lemma DotFreeSegment(prefix: string, text: string)
    requires '.' !in prefix + text
    ensures Dotless(prefix + text) == prefix + text
  {
  }

  // ---------------------------------------------------------------------------
  // The table object

  /** One `Lcbin` table. `columns` are the channel capacitances, `bits` (the source's `array`) the
      switch table (row 0 included, as the code builds it) and `cpf` the
      `CpF` column, which the series correction overwrites in place. */
  class Lcbin {
    const cRes: real
    const cNum: nat
    const lmh: real
    const cInitial: real
    const cPara: real
    const cSer: real
    const columns: seq<real>
    const bits: seq<seq<nat>>
    var cpf: seq<Cap>

    /** `Lcbin(c_res, c_num, lmh, c_initial, c_para, c_ser)` (lcbin.py:133-156). */
    constructor (cRes: real, cNum: nat, lmh: real, cInitial: real, cPara: real, cSer: real)
      requires cNum >= 1
      ensures this.cRes == cRes && this.cNum == cNum && this.lmh == lmh
      ensures this.cInitial == cInitial && this.cPara == cPara && this.cSer == cSer
      ensures columns == CList(cInitial, cRes, cNum)
      ensures bits == BinaryArray(cNum)
      ensures |cpf| == |bits| == Pow2(cNum)
      ensures forall r :: 0 <= r < |cpf| ==> cpf[r] == TableCpF(cInitial, cRes, cNum, cPara, cSer, r)
    {
      this.cRes := cRes;
      this.cNum := cNum;
      this.lmh := lmh;
      this.cInitial := cInitial;
      this.cPara := cPara;
      this.cSer := cSer;
      columns := CList(cInitial, cRes, cNum);
      bits := BinaryArray(cNum);
      new;
      BinaryArrayShape(cNum);
      var size := Pow2(cNum);
      var weights, table := columns, bits;
      var raw := seq(size, r requires 0 <= r < size => Finite(cPara + WeightedSum(weights, table[r])));
      forall r | 0 <= r < size
        ensures raw[r] == Finite(RawCpF(cInitial, cRes, cNum, cPara, r))
      {
        RawRowCpF(cInitial, cRes, cNum, cPara, r);
      }
      cpf := raw;
      if cSer != 0.0 {
        cpf := seq(size, r requires 0 <= r < size => Series(raw[r], cSer));
        forall r | 0 <= r < size
          ensures cpf[r] == TableCpF(cInitial, cRes, cNum, cPara, cSer, r)
        {
          assert cpf[r] == Series(raw[r], cSer);
        }
      }
    }

    /** `channels(ix)` (lcbin.py:187-220): the 1-based channels switched on in
        row `ix`, or IndexError outside `-len .. len - 1`. */
    function Channels(ix: int): (r: Result<seq<nat>, IndexError>)
      requires bits == BinaryArray(cNum)
      ensures r.Ok? <==> -|bits| <= ix < |bits|
      ensures r == ChannelsOf(cNum, ix)
    {
      match PyIndex(bits, ix)
      case Ok(row) => Ok(OnChannels(row))
      case Err(e) => Err(e)
    }

    /** The file name of `to_csv(directory)` (lcbin.py:171-181); `render` is
        Python's `str()` on the float parameters. */
    method CsvFileName(directory: string, render: real -> string) returns (filename: string)
      ensures filename == FileName(directory, render(cInitial), render(cRes), NatToString(cNum), render(lmh))
      ensures |filename| >= |directory| + 5
      ensures filename[..|directory|] == directory && filename[|directory|] == '/'
      ensures filename[|filename| - 4..] == ".csv"
      ensures '.' !in filename[|directory| + 1 .. |filename| - 4]
    {
      var init := "init" + render(cInitial);
      var res := "res" + render(cRes);
      var pat := "pat" + NatToString(cNum);
      var l := "l" + render(lmh);
      var name := [Dotless(init), Dotless(res), Dotless(pat), Dotless(l)];
      ghost var segments := name;
      name := name + [".csv"];
      name := ["/"] + name;
      name := [directory] + name;
      filename := Concat(name);
      ConcatOfName(directory, segments);
      ConcatOfFour(Dotless(init), Dotless(res), Dotless(pat), Dotless(l));
      FileNameShape(directory, render(cInitial), render(cRes), NatToString(cNum), render(lmh));
    }
  }

  /** `''.join` distributes over list concatenation. */
  lemma {:induction false} ConcatAppend(a: seq<string>, b: seq<string>)
    ensures Concat(a + b) == Concat(a) + Concat(b)
  {
    if a == [] {
      assert a + b == b;
    } else {
      assert (a + b)[1..] == a[1..] + b;
      ConcatAppend(a[1..], b);
    }
  }

  lemma ConcatSingle(x: string)
    ensures Concat([x]) == x
  {
    assert [x][1..] == [];
  }

  lemma ConcatOfFour(a: string, b: string, c: string, d: string)
    ensures Concat([a, b, c, d]) == a + b + c + d
  {
    assert [a, b, c, d] == [a, b] + [c, d];
    assert [a, b] == [a] + [b] && [c, d] == [c] + [d];
    ConcatAppend([a, b], [c, d]);
    ConcatAppend([a], [b]);
    ConcatAppend([c], [d]);
    ConcatSingle(a);
    ConcatSingle(b);
    ConcatSingle(c);
    ConcatSingle(d);
  }

  /** Joining `[directory, '/'] + segments + ['.csv']`. */
  lemma ConcatOfName(directory: string, segments: seq<string>)
    ensures Concat([directory] + (["/"] + (segments + [".csv"]))) == directory + "/" + Concat(segments) + ".csv"
  {
    ConcatAppend([directory], ["/"] + (segments + [".csv"]));
    ConcatAppend(["/"], segments + [".csv"]);
    ConcatAppend(segments, [".csv"]);
    ConcatSingle(directory);
    ConcatSingle("/");
    ConcatSingle(".csv");
  }
}
