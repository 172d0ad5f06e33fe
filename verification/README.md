# sana — switched capacitor bank tables, catalogue combinations, nearest level

A Dafny model of the computational core of `sana`, a small toolkit for tuning
an LC resonator with a bank of switched capacitors.

- **`lcbin.py`**: the binary capacitor bank. `c_num` capacitors have the
  values `c_initial + c_res * 2^k` (`c_list`). Every switch combination is a
  row of the 0/1 table `binary_array(c_num)`; row `r` is the bits of `r`,
  least significant first. The `Lcbin` table adds the total capacitance
  column `CpF` (`c_para` plus the switched-in capacitances, optionally
  combined in series with `c_ser`). It also offers `channels(ix)`, the
  1-based channels to switch on for row `ix`, and `to_csv`, which builds a
  file name from the parameters. `int2bin` and `bin2int` convert between
  numbers and bit strings.
- **`clist.py`**: the catalogue `CAPLIST` of standard capacitor values.
  `combi_proposer(v, combo)` lists the `combo`-tuples of catalogue values
  (repetition allowed) that add up to `v`. `combi_propose_all` builds a dict
  of these lists for several targets, and `has_value` lists the targets
  whose proposals use a given value.
- **`sana.py`**: `nearest_x`, which ranks the samples of an amplitude table
  by their distance from the level `value` below the peak.

Modules:

- `Wrappers` holds `Option` and `Result`.
- `BitTable` holds the pure helpers of `lcbin.py`.
- `CapacitorBank` holds the `Lcbin` class, the series formula, the `CpF`
  column and the file name.
- `Clist` and `Sana` model the other two files.

Modelling choices:

- Capacitances are exact `real`s.
- A numpy division by zero is modelled by the `Cap` datatype, whose
  `Unbounded` case is `inf`.
- A Python tuple is a `seq<int>`.
- A dict is the list of its items in insertion order.
- Python's IndexError, ValueError and missing-key cases are `Result` or
  `Option` values.

`binary_array` keeps row 0, the all-zero row. The constructor's docstring
(lcbin.py:61-63) says row 0 has been removed. The code (lcbin.py:316-321)
and its doctests (lcbin.py:89-90, 305-306) keep it, so the model follows the
code: the table has `2^c_num` rows, starting at 0.

## Model

| member | source | states |
|---|---|---|
| BitTable.NatToString | lcbin.py:173 | `str(n)` of a non-negative int is a non-empty string of decimal digits whose decimal value is `n`, with no leading zero; zero is "0" |
| BitTable.BinDigits | lcbin.py:252 | the `b` format spelling is a non-empty bit string whose base-2 value is the number |
| BitTable.Int2Bin | lcbin.py:245-252 | `int2bin(i, w)` is a bit string of at least `w` (and at least one) characters; for `i >= 1`, if it is longer than `w`, it starts with '1' |
| BitTable.BinDigitsLeading | lcbin.py:252 | the spelling of a positive number starts with '1'; zero is spelled "0" |
| BitTable.Int2BinWidth | lcbin.py:252 | for `i < 2^n` and `n >= 1`, `int2bin(i, n)` has exactly `n` characters |
| BitTable.Int2BinIsMsbBits | lcbin.py:252 | for `n >= 1` and `i < 2^n`, `int2bin(i, n)` is the `n` low bits of `i`, most significant first |
| BitTable.ParseBase2 | lcbin.py:266 | on text of decimal digits (all that `bin2int` hands it), `int(s, 2)` succeeds exactly when `s` is non-empty and all '0'/'1'; its value is below `2^len(s)` and its `len(s)` low bits, most significant first, spell `s` |
| BitTable.Bin2Int | lcbin.py:255-266 | `bin2int(xs)` succeeds exactly when `xs` is non-empty and each element's decimal text is a bit string |
| BitTable.JoinIsDecimal | lcbin.py:264-265 | `','.join(map(str, xs)).replace(',', '')` (`BitTable.Join`) consists of decimal digits only |
| BitTable.JoinIsBitString | lcbin.py:264-265 | the joined text of `BitTable.Join` is empty only for an empty list, and is a bit string exactly when every element's text is |
| BitTable.JoinOfBits | lcbin.py:264-265 | joining the digits of a bit string, read as ints, gives back the string |
| BitTable.BinValueOfPadded | lcbin.py:252 | leading zeros do not change the base-2 value |
| BitTable.Int2BinRoundTrip | lcbin.py:255-266 | `bin2int(list(int2bin(i, w)))` gives back `i` for every width |
| BitTable.Bin2IntRoundTrip | lcbin.py:245-266 | for a non-empty bit string `s`, `bin2int` returns its value, and `int2bin` of that value at width `|s|` gives back `s` |
| BitTable.BinValueBound | lcbin.py:266 | a bit string of length `m` has a value below `2^m` |
| BitTable.MsbBitsOfValue | lcbin.py:252 | the `|s|` low bits of the value of `s` spell `s` |
| BitTable.Int2BinExamples | lcbin.py:247-250 | `int2bin(3, 4) == "0011"` and `int2bin(5, 5) == "00101"` |
| BitTable.Bin2IntOfBits | lcbin.py:255-266 | for every non-empty bit string, `bin2int` of its digits as ints is the string's base-2 value |
| BitTable.Bin2IntExamples | lcbin.py:257-262 | `bin2int` gives 3, 3 and 31 on the doctest inputs |
| BitTable.Bin2IntOddInputs | lcbin.py:264-266 | elements are joined as decimal text: `[10, 1]` reads as "101" = 5; the empty list and a digit 2 raise ValueError |
| BitTable.BinaryArray | lcbin.py:316-321 | `binary_array(n)` has `2^n` rows |
| BitTable.BinaryArrayCells | lcbin.py:316-321 | for `n >= 1`, row `r` has `n` cells, and cell `k` is bit `k` of `r` (0 or 1) |
| BitTable.BinaryArrayShape | lcbin.py:311-313 | for `n >= 1`, `binary_array(n).shape == (2^n, n)` |
| BitTable.BinaryArrayOfZeroBits | lcbin.py:316-321 | `binary_array(0)` is the 1 x 1 table `[[0]]`, because the format pads to at least one digit |
| BitTable.LowBits | lcbin.py:316 | the LSB-first bits of `r` by repeated halving have length `n` |
| BitTable.LowBitsAt | lcbin.py:316 | entry `k` of the halving definition is bit `k` of `r` |
| BitTable.RowIsLowBits | lcbin.py:316-321 | for `n >= 1`, each table row equals the independent halving definition |
| BitTable.BinaryArrayEnds | lcbin.py:305-309 | for `n >= 1`, row 0 is all zeros and the last row is all ones |
| BitTable.RowsEnumerateIndices | lcbin.py:115-121 | `bin2int(reversed(row r)) == r`, so distinct rows differ |
| BitTable.BinaryArrayOfTwoBits | lcbin.py:289-293 | `binary_array(2) == [[0,0],[1,0],[0,1],[1,1]]` |
| BitTable.CListWeights | lcbin.py:235-242 | `c_list` (`BitTable.CList`) has `n` entries; the first is `c_initial + c_res`; each step adds `c_res * 2^k`; the two doctests hold |
| BitTable.CListTail | lcbin.py:242 | dropping the first weight leaves `c_list` with resolution `2 * c_res` |
| BitTable.WeightedLowBits | lcbin.py:154 | the weighted row sum is `c_initial * popcount(r) + c_res * r` |
| BitTable.RowCapacitance | lcbin.py:154 | `(columns * array[r]).sum()` equals `c_initial * popcount(r) + c_res * r` |
| BitTable.OnChannelsSpec | lcbin.py:220 | the channels the comprehension (`BitTable.OnChannels`) lists for a row are exactly the 1-based positions of its non-zero cells, in strictly increasing order |
| BitTable.OnChannelsSnoc | lcbin.py:220 | appending a cell appends its channel number when the cell is non-zero |
| BitTable.PyIndex | lcbin.py:220 | numpy's `array[ix]` succeeds exactly for `-len <= ix < len`, and the entry it returns is `array[ix mod len]` (so `-1` is the last row); any other index is IndexError(ix, len) |
| BitTable.ChannelsOf | lcbin.py:220 | `channels(ix)` succeeds exactly for `-2^n <= ix < 2^n` |
| BitTable.ChannelsAreSetBits | lcbin.py:187-220 | channel `k + 1` is listed for row `ix` (negative counted from the end) exactly when bit `k` of the row index is set |
| BitTable.NoChannels | lcbin.py:196-197 | an all-zero row lists no channel |
| BitTable.AllChannels | lcbin.py:202-203 | an all-ones row lists every channel `1..n` |
| BitTable.ChannelsEnds | lcbin.py:194-211 | for every width `n >= 1`: `channels(0) == []`; `channels(-1) == channels(len-1) == [1..n]`; `channels(len)` is IndexError(len, len) |
| BitTable.ChannelsOfRowSix | lcbin.py:213-216 | `channels(6) == [2, 3]` for six channels |
| BitTable.RowSix | lcbin.py:213-214 | row 6 of the six-bit table is `[0, 1, 1, 0, 0, 0]` |
| CapacitorBank.SeriesReciprocals | lcbin.py:155-156 | for `CapacitorBank.Series`, reciprocals add in series; the result is infinite exactly when they cancel; 0 stays 0 and inf gives `c_ser` |
| CapacitorBank.SeriesBelowBoth | lcbin.py:156 | two positive capacitors in series give less than either |
| CapacitorBank.SeriesSymmetric | lcbin.py:156 | the series formula is symmetric |
| CapacitorBank.RawRowCpF | lcbin.py:154 | the `CpF` entry before the series step (as `CapacitorBank.TableCpF` uses it): `c_para + (columns * array[r]).sum()` equals the closed form `c_para + c_initial * popcount(r) + c_res * r` |
| CapacitorBank.CpFOfResolution | lcbin.py:154 | with no `c_initial`, `c_para` or `c_ser`, `CpF[r] == c_res * r` |
| CapacitorBank.QuickStartCpF | lcbin.py:25-42 | `Lcbin(10, 4, 12.5)` has `CpF[r] == 10 * r` for all 16 rows |
| CapacitorBank.CpFIncreasing | lcbin.py:154 | with `c_res > 0` and neither `c_initial` nor `c_ser`, `CpF` strictly increases with the row index |
| CapacitorBank.CpFWithSeries | lcbin.py:154-156 | with `c_ser > 0`, `c_res > 0`, `c_initial >= 0` and `c_para >= 0`: row 0 without `c_para` stays 0; every other row is finite, positive, below its value without `c_ser` and below `c_ser` |
| CapacitorBank.Lcbin.constructor | lcbin.py:133-156 | the table keeps its parameters; `columns == c_list`, `array == binary_array(c_num)`, `CpF` has `2^c_num` entries and row `r` is the closed form, series-corrected when `c_ser != 0` |
| CapacitorBank.Lcbin.Channels | lcbin.py:187-220 | `self.channels(ix)` succeeds exactly for `-len <= ix < len`, and is the bit-table channel lookup |
| CapacitorBank.Dotless | lcbin.py:177 | `s.replace('.', 'p')` keeps the length, turns every '.' into 'p', keeps every other character, and so leaves no '.' |
| CapacitorBank.FileNameShape | lcbin.py:171-181 | the file name (`CapacitorBank.FileName`) is the directory, '/', a dot-free stem starting with "init" of `11 + ` the parameter text lengths, and ".csv" |
| CapacitorBank.FileNameExample | lcbin.py:171-181 | `Lcbin(10, 4, 12.5).to_csv('out')` names `out/init0res10pat4l12p5.csv` |
| CapacitorBank.ConcatOfName | lcbin.py:177-181 | joining `[directory, '/'] + segments + ['.csv']` gives the directory, '/', the joined segments and ".csv" |
| CapacitorBank.Lcbin.CsvFileName | lcbin.py:171-181 | the method's `name` list, joined, is the file name of the table's parameters: directory prefix, '/', dot-free stem, ".csv" suffix |
| Clist.CaplistAscending | clist.py:10-15 | `CAPLIST` has 56 values in strictly ascending order |
| Clist.CombinationsMembers | clist.py:48 | `combinations_with_replacement(pool, r)` (`Clist.CombinationsWithReplacement`) holds exactly the `r`-tuples drawn in pool order |
| Clist.InPoolOrderMembers | clist.py:48 | every entry of a tuple drawn in pool order comes from the pool |
| Clist.InPoolOrderAscending | clist.py:48 | for an ascending pool, drawn in pool order means non-decreasing with pool entries |
| Clist.LexTransitive | clist.py:48 | Python tuple `<` is transitive |
| Clist.LexTotal | clist.py:48 | Python tuple `<` is total on distinct tuples |
| Clist.SortedUnique | clist.py:48 | two strictly sorted lists with the same members are equal |
| Clist.CombinationsSorted | clist.py:48 | for an ascending pool the combinations come in strictly increasing tuple order |
| Clist.WithSum | clist.py:50-54 | the kept tuples are exactly those of the input whose sum is `v`, and there are no more of them than inputs |
| Clist.WithSumOrder | clist.py:50-54 | the kept tuples keep their original order (a subsequence of the input) |
| Clist.WithSumCounts | clist.py:50-54 | each tuple whose sum is `v` is kept as often as it occurs in the input; every other tuple is dropped |
| Clist.WithSumSorted | clist.py:50-54 | filtering keeps a strictly sorted list sorted |
| Clist.ProposeMembers | clist.py:18-54 | `combi_proposer(v, combo, pool)` (`Clist.Propose`): a tuple is proposed exactly when it has `combo` pool entries in pool order and sums to `v` |
| Clist.ProposeRestrict | clist.py:48-54 | narrowing an ascending catalogue to an ascending sub-catalogue never adds a proposal: every tuple proposed from the subset is proposed from the full catalogue |
| Clist.ProposeAscending | clist.py:18-54 | for an ascending pool the proposals are strictly sorted (so no duplicates) and are exactly the non-decreasing `combo`-tuples of pool values with sum `v` |
| Clist.ProposedPairs | clist.py:18-54 | for a strictly ascending pool (as `CAPLIST` is) and `combo == 2`: `[a, b]` is proposed exactly when `a`, `b` are pool values with `a <= b` and `a + b == v` |
| Clist.PairProposals | clist.py:18-54 | for a strictly ascending pool (as `CAPLIST` is), a strictly sorted list that holds exactly the pool pairs summing to `v` is the proposal list |
| Clist.ProposeDoctest100 | clist.py:23-27 | `combi_proposer(100, 2) == ((18, 82),)` |
| Clist.ProposeDoctest102 | clist.py:29-33 | `combi_proposer(102, 2) == ((11, 91), (20, 82), (27, 75), (51, 51))` |
| Clist.ProposeDoctest128 | clist.py:35-39 | `combi_proposer(128, 2) == ((18, 110),)` |
| Clist.ProposeDoctest256 | clist.py:41-45 | `combi_proposer(256, 2) == ((16, 240), (36, 220), (56, 200))` |
| Clist.PutKeys | clist.py:59 | storing into a dict keeps the keys distinct and appends only a new key |
| Clist.PutLookup | clist.py:59 | after `d[k] = v`, `d[k] == v` and every other key keeps its value |
| Clist.FirstOccurrencesSpec | clist.py:59 | the reference key order is duplicate-free and has the same members as the input |
| Clist.ProposeAllKeys | clist.py:57-59 | `combi_propose_all` (`Clist.ProposeAll`) has one key per distinct target, in order of first occurrence |
| Clist.ProposeAllLookup | clist.py:57-59 | each target maps to `combi_proposer(k, combo)` on `CAPLIST`; any other value is missing |
| Clist.FlattenMembers | clist.py:66-69 | `chain.from_iterable` contains exactly the entries of the tuples |
| Clist.HasValueMembers | clist.py:62-70 | `has_value(var, d)` (`Clist.HasValue`): a key is listed exactly when one of its tuples contains the value |
| Clist.HasValueOrder | clist.py:67-70 | the listed keys are a subsequence of the dict's keys |
| Clist.HasValueOfProposeAll | clist.py:57-70 | on a `combi_propose_all` dict, `has_value(x)` lists exactly the targets with a proposal containing `x`, in order of first occurrence |
| Clist.ProposeAllExample | clist.py:57-70 | `combi_propose_all(2, 100, 128, 100)` has keys 100 and 128; 18 is found under both and 82 only under 100 |
| Sana.MaxAmp | sana.py:5 | `df.max()` is at least every amplitude and is one of them |
| Sana.InsertSorted | sana.py:6 | inserting into rows in ascending distance keeps them ascending |
| Sana.InsertMultiset | sana.py:6 | inserting adds exactly the new row |
| Sana.SortRowsSpec | sana.py:6 | the insertion sort `Sana.SortRows` yields ascending distances and a permutation of its input |
| Sana.NearestXSpec | sana.py:3-7 | for a non-empty table, the result of `Sana.NearestX` is a permutation of the (key, distance from `max - value`) rows, one per sample, ascending, with non-negative distances |
| Sana.NearestXFirst | sana.py:3-7 | the first row is closest to `max - value`; a sample exactly at that level puts distance 0 first |
| Sana.NearestXPeak | sana.py:5-6 | with `value == 0` the peak itself comes first, at distance 0 |
| Sana.NearestXAsWrittenFails | sana.py:6 | as written, every call fails with NameError on `pd` |

## Left out

- `fkHz` (lcbin.py:158-163): floating-point `sqrt` and `pi`, with `inf` for a zero capacitance.
- `dump` and `setattr` (lcbin.py:223-229): display only.
- The CSV write in `to_csv` (lcbin.py:182-185): file I/O, including the `sort` branch. As written it also reads `self.table`, an attribute the class never defines.
- `main` and the command-line interface, `dbmw.py`, `describe_SN.py`, `csv_reader.py` and `__init__.py`: these are not part of this model.
- The resonance analyser `Syncf`: not part of this model.
- CapacitorBank.Lcbin.CsvFileName: `str()` of a float is not modelled. The text of `c_initial`, `c_res` and `lmh` comes from a `render` parameter, and only `c_num` is spelled out in decimal. One `render` serves all three, so Python's per-argument difference between an int and a float (`10` gives "10", `10.0` gives "10.0") is not captured.
- CapacitorBank.Lcbin.CsvFileName: the default directory `os.getcwd()` is not modelled; the directory is a parameter.
- CapacitorBank.Lcbin.constructor: requires `c_num >= 1` (`cNum` is a `nat`). A negative `c_num` makes `2**c_num` a float, and `range` then raises TypeError (lcbin.py:144); that error is not modelled. With `c_num == 0`, `binary_array` yields the 1 x 1 table `[[0]]` (proved in `BinaryArrayOfZeroBits`), which pandas cannot label with the 1-row index and empty column list the constructor assigns.
- BitTable.ParseBase2: Python's `int(s, 2)` also accepts surrounding whitespace, a sign, '_' between digits and a "0b" prefix. The model takes only text of decimal digits, which is all that `bin2int` can produce from non-negative elements.
- BitTable.Bin2Int: the elements are non-negative. For a negative element, `str()` writes a '-', and `bin2int([-1])` returns -1 in Python; the table rows it is used on hold only 0 and 1.
- Clist.Propose: `combo` is a `nat`. A negative `combo` makes `combinations_with_replacement` raise ValueError, which is not modelled.
- Default arguments: `Lcbin`'s `c_initial = c_para = c_ser = 0` (lcbin.py:19-21) and `combi_proposer`'s `caplist=CAPLIST` (clist.py:18) are not modelled as defaults; callers pass every argument, so no behaviour is lost.
- BitTable.Int2Bin: models non-negative numbers only. For a negative number, Python's format writes a '-' sign, and `binary_array` never asks for one.
- Capacitances are exact reals, not IEEE doubles; rounding in `CpF` is not modelled.
- Sana.NearestX: ties between equal distances are broken by insertion order. pandas' default sort does not promise an order for ties, so the contracts state only the sortedness and the permutation. An empty table gives an empty result, and `df.max()` is not evaluated for it.
- Sana.NearestX: the table has a single column of real amplitudes with integer index keys.

## Findings

| source | as written | input that shows it | evidently intended | confidence | as-written member | corrected member |
|---|---|---|---|---|---|---|
| sana.py:1-7 | `pd.DataFrame(...)` is used but pandas is never imported, so `nearest_x` raises NameError | any call, e.g. `nearest_x(df, 3)` for a one-column table | return the sorted table of distances from `max - value` | high (not executed) | Sana.NearestXAsWrittenFails | Sana.NearestXSpec |
