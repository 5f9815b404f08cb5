/**
 Row generation of `export_timeseries_csv`: one CSV row per (point, atom)
 pair of a time series, in point order and then atom order.

 The file is a sink: it is opened for writing (truncated) and receives
 exactly the rows handed to `writerow`, so the model returns that sequence
 of rows. Quoting and escaping of fields by the csv library are not modelled.
 */
module CsvExport {
  import opened Records

  /** A CSV field before formatting: a number or a piece of text. */
  datatype Field = Int(value: int) | Text(text: string)

  type Row = seq<Field>

  /**
   The row written for one atom of one point. It always begins with
   `timestep, handle, sti`; it has a fourth column, the point's Scheme dump,
   exactly when the `scheme` flag is set and the point carries a dump.
   */
  function RowFor(p: Point, a: AtomSti, scheme: bool): (row: Row)
    ensures |row| == (if scheme && p.scheme.Some? then 4 else 3)
    ensures row[..3] == [Int(p.timestep), Int(a.handle), Int(a.sti)]
    ensures |row| == 4 ==> row[3] == Text(p.scheme.value)
  {
    if p.scheme.Some? && scheme then
      [Int(p.timestep), Int(a.handle), Int(a.sti), Text(p.scheme.value)]
    else
      [Int(p.timestep), Int(a.handle), Int(a.sti)]
  }

  /** Rows for the first n atoms of point p. */
  function AtomRows(p: Point, n: nat, scheme: bool): seq<Row>
    requires n <= |p.atoms|
  {
    if n == 0 then [] else AtomRows(p, n - 1, scheme) + [RowFor(p, p.atoms[n - 1], scheme)]
  }

  /** All rows written for point p. */
  function PointRows(p: Point, scheme: bool): seq<Row>
  {
    AtomRows(p, |p.atoms|, scheme)
  }

  /** All rows written for a time series: the points' rows one after another. */
  function CsvRows(timeseries: seq<Point>, scheme: bool): seq<Row>
  {
    if timeseries == [] then []
    else
      var n := |timeseries| - 1;
      CsvRows(timeseries[..n], scheme) + PointRows(timeseries[n], scheme)
  }

  /** The number of atoms over all points of a time series. */
  function TotalAtoms(timeseries: seq<Point>): nat
  {
    if timeseries == [] then 0
    else
      var n := |timeseries| - 1;
      TotalAtoms(timeseries[..n]) + |timeseries[n].atoms|
  }

  /** Row j of a point's rows is the row for its atom j. */
  lemma {:induction false} AtomRowsAt(p: Point, n: nat, j: nat, scheme: bool)
    requires j < n <= |p.atoms|
    ensures |AtomRows(p, n, scheme)| == n
    ensures AtomRows(p, n, scheme)[j] == RowFor(p, p.atoms[j], scheme)
  {
    AtomRowsLength(p, n - 1, scheme);
    if j < n - 1 {
      AtomRowsAt(p, n - 1, j, scheme);
    }
  }

  lemma {:induction false} AtomRowsLength(p: Point, n: nat, scheme: bool)
    requires n <= |p.atoms|
    ensures |AtomRows(p, n, scheme)| == n
  {
    if n > 0 {
      AtomRowsLength(p, n - 1, scheme);
    }
  }

  /** Exactly one row per (point, atom) pair. */
  lemma {:induction false} CsvRowCount(timeseries: seq<Point>, scheme: bool)
    ensures |CsvRows(timeseries, scheme)| == TotalAtoms(timeseries)
  {
    if timeseries != [] {
      var n := |timeseries| - 1;
      CsvRowCount(timeseries[..n], scheme);
      AtomRowsLength(timeseries[n], |timeseries[n].atoms|, scheme);
    }
  }

  /**
   Order of the rows: the row for atom j of point i comes after the rows of
   all earlier points, at position TotalAtoms(timeseries[..i]) + j.
   */
  lemma {:induction false} CsvRowAt(timeseries: seq<Point>, scheme: bool, i: nat, j: nat)
    requires i < |timeseries| && j < |timeseries[i].atoms|
    ensures TotalAtoms(timeseries[..i]) + j < |CsvRows(timeseries, scheme)|
    ensures CsvRows(timeseries, scheme)[TotalAtoms(timeseries[..i]) + j]
         == RowFor(timeseries[i], timeseries[i].atoms[j], scheme)
  {
    var n := |timeseries| - 1;
    var init := timeseries[..n];
    CsvRowCount(init, scheme);
    CsvRowCount(timeseries, scheme);
    if i == n {
      assert timeseries[..i] == init;
      AtomRowsAt(timeseries[n], |timeseries[n].atoms|, j, scheme);
    } else {
      CsvRowAt(init, scheme, i, j);
      assert init[..i] == timeseries[..i];
      assert init[i] == timeseries[i];
    }
  }

  /**
   Every row comes from some (point, atom) pair, so every row starts with
   that pair's `timestep, handle, sti` and has the width RowFor states.
   */
  lemma {:induction false} CsvRowOrigin(timeseries: seq<Point>, scheme: bool, k: nat)
    requires k < |CsvRows(timeseries, scheme)|
    ensures exists i, j ::
      && 0 <= i < |timeseries| && 0 <= j < |timeseries[i].atoms|
      && CsvRows(timeseries, scheme)[k] == RowFor(timeseries[i], timeseries[i].atoms[j], scheme)
  {
    var n := |timeseries| - 1;
    var init := timeseries[..n];
    CsvRowCount(init, scheme);
    if k < |CsvRows(init, scheme)| {
      CsvRowOrigin(init, scheme, k);
      var i, j :| 0 <= i < |init| && 0 <= j < |init[i].atoms| &&
        CsvRows(init, scheme)[k] == RowFor(init[i], init[i].atoms[j], scheme);
      assert init[i] == timeseries[i];
    } else {
      var j := k - |CsvRows(init, scheme)|;
      AtomRowsLength(timeseries[n], |timeseries[n].atoms|, scheme);
      AtomRowsAt(timeseries[n], |timeseries[n].atoms|, j, scheme);
    }
  }

  /** With the flag off, every row has exactly three fields: no Scheme text is written. */
  lemma {:induction false} NoSchemeColumnWithoutFlag(timeseries: seq<Point>, k: nat)
    requires k < |CsvRows(timeseries, false)|
    ensures |CsvRows(timeseries, false)[k]| == 3
  {
    CsvRowOrigin(timeseries, false, k);
  }

  /** A time series produces no row at all exactly when none of its points holds an atom. */
  lemma {:induction false} CsvRowsEmpty(timeseries: seq<Point>, scheme: bool)
    ensures CsvRows(timeseries, scheme) == [] <==>
      forall i :: 0 <= i < |timeseries| ==> timeseries[i].atoms == []
  {
    if timeseries != [] {
      var n := |timeseries| - 1;
      var init := timeseries[..n];
      CsvRowsEmpty(init, scheme);
      AtomRowsLength(timeseries[n], |timeseries[n].atoms|, scheme);
      if forall i :: 0 <= i < |init| ==> init[i].atoms == [] {
        assert forall i :: 0 <= i < n ==> timeseries[i] == init[i];
      } else {
        var i :| 0 <= i < |init| && init[i].atoms != [];
        assert timeseries[i] == init[i];
      }
    }
  }

  /**
   Widths can differ inside one export: a point without a Scheme dump gives
   three-field rows while a later point with one gives four-field rows.
   */
  lemma MixedWidthExample()
    ensures CsvRows([Point(0, [AtomSti(1, 5)], None),
                     Point(1, [AtomSti(1, 7), AtomSti(2, 3)], Some("(AtomSpace ...)"))], true)
         == [[Int(0), Int(1), Int(5)],
             [Int(1), Int(1), Int(7), Text("(AtomSpace ...)")],
             [Int(1), Int(2), Int(3), Text("(AtomSpace ...)")]]
  {
  }

  /**
   `export_timeseries_csv`: the nested loop over points and their atoms,
   appending one row per atom. The fourth column is written when the point's
   `scheme` is not `None` and the flag is `True`.
   */
  method ExportTimeseriesCsv(timeseries: seq<Point>, scheme: bool) returns (rows: seq<Row>)
    ensures rows == CsvRows(timeseries, scheme)
    ensures |rows| == TotalAtoms(timeseries)
  {
    rows := [];
    var k := 0;
    while k < |timeseries|
      invariant 0 <= k <= |timeseries|
      invariant rows == CsvRows(timeseries[..k], scheme)
    {
      var point := timeseries[k];
      ghost var before := rows;
      var j := 0;
      while j < |point.atoms|
        invariant 0 <= j <= |point.atoms|
        invariant rows == before + AtomRows(point, j, scheme)
      {
        var atom := point.atoms[j];
        if point.scheme.Some? && scheme {
          rows := rows + [[Int(point.timestep), Int(atom.handle), Int(atom.sti), Text(point.scheme.value)]];
        } else {
          rows := rows + [[Int(point.timestep), Int(atom.handle), Int(atom.sti)]];
        }
        j := j + 1;
      }
      assert timeseries[..k + 1][..k] == timeseries[..k];
      k := k + 1;
    }
    assert timeseries[..k] == timeseries;
    CsvRowCount(timeseries, scheme);
  }
}
