/** `sana.py`: `nearest_x`, which ranks the samples of a one-column amplitude
    table by how far each lies from the level `value` below the peak.

    The table is a list of samples, each an index key and an amplitude; the
    result is the list of (key, distance) rows in ascending distance. */
module Sana {
  import opened Wrappers

  datatype Sample = Sample(key: int, amp: real)

  datatype Row = Row(key: int, distance: real)

  function Abs(x: real): (r: real)
    ensures r >= 0.0 && (r == x || r == -x)
  {
    if x < 0.0 then -x else x
  }

  /** `df.max()`: the largest amplitude. */
  function MaxAmp(samples: seq<Sample>): (m: real)
    requires samples != []
    ensures forall i :: 0 <= i < |samples| ==> samples[i].amp <= m
    ensures exists i :: 0 <= i < |samples| && samples[i].amp == m
  {
    if |samples| == 1 then samples[0].amp
    else
      var rest := MaxAmp(samples[1..]);
      assert forall i :: 1 <= i < |samples| ==> samples[i] == samples[1..][i - 1];
      if samples[0].amp >= rest then samples[0].amp else rest
  }

  /** `down = df.max() - value` (sana.py:5). */
  function Target(samples: seq<Sample>, value: real): real
    requires samples != []
  {
    MaxAmp(samples) - value
  }

  /** `abs(df - down)`: each sample's key with its distance from `target`. */
  function Distances(samples: seq<Sample>, target: real): seq<Row>
  {
    seq(|samples|, i requires 0 <= i < |samples| => Row(samples[i].key, Abs(samples[i].amp - target)))
  }

  predicate SortedByDistance(rows: seq<Row>)
  {
    forall i, j :: 0 <= i < j < |rows| ==> rows[i].distance <= rows[j].distance
  }

  /** Insert `x` before the first row that is not closer than it. */
  function Insert(x: Row, rows: seq<Row>): seq<Row>
  {
    if rows == [] then [x]
    else if x.distance <= rows[0].distance then [x] + rows
    else [rows[0]] + Insert(x, rows[1..])
  }

  /** `sort_values` on the distance column (insertion sort). */
  function SortRows(rows: seq<Row>): seq<Row>
  {
    if rows == [] then [] else Insert(rows[0], SortRows(rows[1..]))
  }

  /** Inserting adds `x` and keeps every row. */
  lemma {:induction false} InsertMultiset(x: Row, rows: seq<Row>)
    ensures multiset(Insert(x, rows)) == multiset(rows) + multiset{x}
  {
    if rows != [] && x.distance > rows[0].distance {
      InsertMultiset(x, rows[1..]);
      assert rows == [rows[0]] + rows[1..];
    }
  }

  /** Inserting into rows in ascending distance keeps them ascending, and
      the first row is `x` or the old first row. */
  lemma {:induction false} InsertSorted(x: Row, rows: seq<Row>)
    requires SortedByDistance(rows)
    ensures SortedByDistance(Insert(x, rows))
    ensures Insert(x, rows)[0] == x || (rows != [] && Insert(x, rows)[0] == rows[0])
  {
    if rows == [] {
    } else if x.distance <= rows[0].distance {
      SortedCons(x, rows);
    } else {
      var tail := rows[1..];
      assert SortedByDistance(tail);
      InsertSorted(x, tail);
      SortedCons(rows[0], Insert(x, tail));
    }
  }

  lemma SortedCons(a: Row, rows: seq<Row>)
    requires SortedByDistance(rows)
    requires rows != [] ==> a.distance <= rows[0].distance
    ensures SortedByDistance([a] + rows)
  {
    forall i, j | 0 <= i < j < |[a] + rows|
      ensures ([a] + rows)[i].distance <= ([a] + rows)[j].distance
    {
      assert ([a] + rows)[j] == rows[j - 1];
      if i > 0 {
        assert ([a] + rows)[i] == rows[i - 1];
      }
    }
  }

  /** The sorted rows are ascending in distance and are the same rows. */
  lemma {:induction false} SortRowsSpec(rows: seq<Row>)
    ensures SortedByDistance(SortRows(rows))
    ensures multiset(SortRows(rows)) == multiset(rows)
  {
    if rows != [] {
      SortRowsSpec(rows[1..]);
      InsertSorted(rows[0], SortRows(rows[1..]));
      InsertMultiset(rows[0], SortRows(rows[1..]));
      assert rows == [rows[0]] + rows[1..];
    }
  }

  /** `nearest_x(df, value)` (sana.py:3-7). An empty table gives an empty
      result. */
  function NearestX(samples: seq<Sample>, value: real): seq<Row>
  {
    if samples == [] then [] else SortRows(Distances(samples, Target(samples, value)))
  }

  /** The result holds one row per sample, the sample's key with its distance
      from `max - value`, and nothing else, in ascending distance. */
  lemma NearestXSpec(samples: seq<Sample>, value: real)
    requires samples != []
    ensures var out := NearestX(samples, value);
      && multiset(out) == multiset(Distances(samples, Target(samples, value)))
      && |out| == |samples|
      && SortedByDistance(out)
      && forall r :: r in out ==> r.distance >= 0.0
  {
    var rows := Distances(samples, Target(samples, value));
    SortRowsSpec(rows);
    var out := NearestX(samples, value);
    assert |out| == |multiset(out)| == |rows|;
    forall r | r in out
      ensures r.distance >= 0.0
    {
      assert r in multiset(rows);
    }
  }

  /** The first row is a closest sample; when some sample sits exactly at
      `max - value`, its distance is 0. */
  lemma NearestXFirst(samples: seq<Sample>, value: real)
    requires samples != []
    ensures var out, target := NearestX(samples, value), Target(samples, value);
      && out != []
      && (forall i :: 0 <= i < |samples| ==> out[0].distance <= Abs(samples[i].amp - target))
      && ((exists i :: 0 <= i < |samples| && samples[i].amp == target) ==> out[0].distance == 0.0)
  {
    var target := Target(samples, value);
    var rows := Distances(samples, target);
    var out := NearestX(samples, value);
    NearestXSpec(samples, value);
    forall i | 0 <= i < |samples|
      ensures out[0].distance <= Abs(samples[i].amp - target)
    {
      assert rows[i] in multiset(out);
      var j :| 0 <= j < |out| && out[j] == rows[i];
      if j > 0 {
        assert out[0].distance <= out[j].distance;
      }
    }
  }

  /** The target is `max - value` measured from the peak: a value of 0
      targets the peak itself, which then comes first at distance 0. */
  lemma NearestXPeak(samples: seq<Sample>)
    requires samples != []
    ensures NearestX(samples, 0.0)[0].distance == 0.0
  {
    NearestXFirst(samples, 0.0);
  }

  datatype NameError = NameError(name: string)

  /** `nearest_x` as the module is written: it never imports pandas, so the
      reference to `pd` on sana.py:6 fails for every table, empty or not. */
  function NearestXAsWritten(samples: seq<Sample>, value: real): (r: Result<seq<Row>, NameError>)
  {
    Err(NameError("pd"))
  }

  /** No call of the function as written returns a table. */
  lemma NearestXAsWrittenFails(samples: seq<Sample>, value: real)
    ensures !NearestXAsWritten(samples, value).Ok?
    ensures NearestXAsWritten(samples, value).error.name == "pd"
  {
  }
}
