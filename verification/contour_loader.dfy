/** `load_contours` of motif/extract/salamon.py: reads the rows of the contour
    file written by the melodia-contours vamp plugin and returns four parallel
    arrays (contour number, time, frequency, salience).

    Rows arrive already split into cells; the conversion of a cell to a float
    is the parameter `parse` (None where numpy would raise ValueError), and a
    float is only distinguished as finite, infinite or NaN. */
module ContourLoader {
  import opened Wrappers
  import opened BooleanMask

  type Row = seq<string>

  datatype Float = Finite(x: real) | Infinite(negative: bool) | NaN

  /** The ValueError numpy raises on a cell that is not a float. */
  datatype LoadError = NotAFloat(cell: string)

  /** First cell of each of the three strided columns: `row[14::3]`, `row[15::3]`, `row[16::3]`. */
  const TimeStart: nat := 14
  const FreqStart: nat := 15
  const SalienceStart: nat := 16

  /** The four parallel lists (or arrays) the loader works on. */
  datatype Columns<T> = Columns(index: seq<int>, times: seq<T>, freqs: seq<T>, saliences: seq<T>)

  predicate SameLength<T>(c: Columns<T>) {
    |c.times| == |c.index| && |c.freqs| == |c.index| && |c.saliences| == |c.index|
  }

  predicate NoNaN(c: Columns<Float>) {
    && (forall j :: 0 <= j < |c.times| ==> !c.times[j].NaN?)
    && (forall j :: 0 <= j < |c.freqs| ==> !c.freqs[j].NaN?)
    && (forall j :: 0 <= j < |c.saliences| ==> !c.saliences[j].NaN?)
  }

  /** What the source promises of the arrays it returns for a file of `rowCount` rows. */
  predicate WellFormed(c: Columns<Float>, rowCount: nat) {
    && SameLength(c)
    && NoNaN(c)
    && NonDecreasing(c.index)
    && forall j :: 0 <= j < |c.index| ==> 0 <= c.index[j] < rowCount
  }

  // ---------------------------------------------------------------------------
  // The row loop (lines 84-96)
  // ---------------------------------------------------------------------------

  /** Python's `row[start::3]`: every third cell from `start` on, empty when the row is shorter. */
  function StrideSlice<T>(row: seq<T>, start: nat): (r: seq<T>)
    ensures |r| == if start < |row| then (|row| - start + 2) / 3 else 0
    ensures forall j :: 0 <= j < |r| ==> r[j] == row[start + 3 * j]
    decreases |row| - start
  {
    if start >= |row| then [] else [row[start]] + StrideSlice(row, start + 3)
  }

  /** The contour numbers after the loop has read `rows`: row k adds
      `len(row[14::3])` copies of k. */
  function IndexColumn(rows: seq<Row>): seq<int> {
    if rows == [] then []
    else IndexColumn(rows[..|rows| - 1]) + seq(|StrideSlice(rows[|rows| - 1], TimeStart)|, _ => |rows| - 1)
  }

  /** The cells the loop has appended from column `start` on after reading `rows`, in row order. */
  function Column(rows: seq<Row>, start: nat): seq<string> {
    if rows == [] then []
    else Column(rows[..|rows| - 1], start) + StrideSlice(rows[|rows| - 1], start)
  }

  /** The four lists as the loop leaves them. */
  function Accumulated(rows: seq<Row>): Columns<string> {
    Columns(IndexColumn(rows), Column(rows, TimeStart), Column(rows, FreqStart), Column(rows, SalienceStart))
  }

  // ---------------------------------------------------------------------------
  // Truncation and conversion (lines 98-106)
  // ---------------------------------------------------------------------------

  function Min(a: nat, b: nat): nat {
    if a <= b then a else b
  }

  /** Cuts the four lists to the length of the shortest one. */
  function Truncate<T>(c: Columns<T>): (r: Columns<T>)
    ensures SameLength(r)
    ensures r.index <= c.index && r.times <= c.times && r.freqs <= c.freqs && r.saliences <= c.saliences
    ensures |r.index| == |c.index| || |r.index| == |c.times| || |r.index| == |c.freqs| || |r.index| == |c.saliences|
  {
    var n := Min(Min(|c.index|, |c.times|), Min(|c.freqs|, |c.saliences|));
    Columns(c.index[..n], c.times[..n], c.freqs[..n], c.saliences[..n])
  }

  /** `np.array(cells, dtype=float)`: every cell converted, or the error for the first one that is not a float. */
  function ParseFloats(cells: seq<string>, parse: string -> Option<Float>): (r: Result<seq<Float>, LoadError>)
    ensures r.Ok? <==> forall i :: 0 <= i < |cells| ==> parse(cells[i]).Some?
    ensures r.Ok? ==> |r.value| == |cells| && forall i :: 0 <= i < |cells| ==> parse(cells[i]) == Some(r.value[i])
    ensures r.Err? ==> exists i :: 0 <= i < |cells| && parse(cells[i]).None? && r.error == NotAFloat(cells[i])
                                   && forall k :: 0 <= k < i ==> parse(cells[k]).Some?
  {
    if cells == [] then Ok([])
    else match parse(cells[0])
      case None => Err(NotAFloat(cells[0]))
      case Some(v) =>
        match ParseFloats(cells[1..], parse)
        case Ok(vs) => Ok([v] + vs)
        case Err(e) =>
          assert forall i :: 0 <= i < |cells| - 1 ==> cells[1..][i] == cells[i + 1];
          Err(e)
  }

  /** The four arrays built at lines 103-106: the truncated lists, the cells converted to floats. */
  function Converted(rows: seq<Row>, parse: string -> Option<Float>): (r: Result<Columns<Float>, LoadError>)
    ensures r.Ok? ==> SameLength(r.value)
  {
    var cut := Truncate(Accumulated(rows));
    var times :- ParseFloats(cut.times, parse);
    var freqs :- ParseFloats(cut.freqs, parse);
    var saliences :- ParseFloats(cut.saliences, parse);
    Ok(Columns(cut.index, times, freqs, saliences))
  }

  // ---------------------------------------------------------------------------
  // NaN filtering (lines 108-116)
  // ---------------------------------------------------------------------------

  /** `~(isnan(times) | isnan(freqs) | isnan(contour_sal))`; the contour number is not consulted. */
  function KeepMask(c: Columns<Float>): seq<bool>
    requires SameLength(c)
  {
    seq(|c.times|, i requires 0 <= i < |c.times| => !(c.times[i].NaN? || c.freqs[i].NaN? || c.saliences[i].NaN?))
  }

  /** Drops every position at which the time, frequency or salience is NaN from all four arrays. */
  function DropNaN(c: Columns<Float>): (r: Columns<Float>)
    requires SameLength(c)
    ensures SameLength(r) && NoNaN(r)
    ensures forall i :: 0 <= i < |c.index| ==>
              (i in TruePositions(KeepMask(c)) <==> !c.times[i].NaN? && !c.freqs[i].NaN? && !c.saliences[i].NaN?)
    ensures var kept := TruePositions(KeepMask(c));
            |r.index| == |kept| &&
            forall j :: 0 <= j < |kept| ==>
              && kept[j] < |c.index|
              && r.index[j] == c.index[kept[j]] && r.times[j] == c.times[kept[j]]
              && r.freqs[j] == c.freqs[kept[j]] && r.saliences[j] == c.saliences[kept[j]]
  {
    var keep := KeepMask(c);
    Columns(Select(c.index, keep), Select(c.times, keep), Select(c.freqs, keep), Select(c.saliences, keep))
  }

  /** The whole of `load_contours`, as a function of the rows of the file. */
  function Load(rows: seq<Row>, parse: string -> Option<Float>): Result<Columns<Float>, LoadError> {
    var c :- Converted(rows, parse);
    Ok(DropNaN(c))
  }

  /** `load_contours`: the row loop over the file, then truncation, conversion and NaN filtering. */
  method LoadContours(rows: seq<Row>, parse: string -> Option<Float>) returns (r: Result<Columns<Float>, LoadError>)
    ensures r == Load(rows, parse)
    ensures r.Ok? ==> WellFormed(r.value, |rows|)
  {
    var index: seq<int>, times: seq<string>, freqs: seq<string>, saliences: seq<string> := [], [], [], [];
    var contourNum := 0;
    for k := 0 to |rows|
      invariant contourNum == k
      invariant index == IndexColumn(rows[..k])
      invariant times == Column(rows[..k], TimeStart)
      invariant freqs == Column(rows[..k], FreqStart)
      invariant saliences == Column(rows[..k], SalienceStart)
    {
      var row := rows[k];
      assert rows[..k + 1][..k] == rows[..k];
      index := index + seq(|StrideSlice(row, TimeStart)|, _ => contourNum);
      times := times + StrideSlice(row, TimeStart);
      freqs := freqs + StrideSlice(row, FreqStart);
      saliences := saliences + StrideSlice(row, SalienceStart);
      contourNum := contourNum + 1;
    }
    assert rows[..|rows|] == rows;
    var cut := Truncate(Columns(index, times, freqs, saliences));
    var timeValues :- ParseFloats(cut.times, parse);
    var freqValues :- ParseFloats(cut.freqs, parse);
    var salienceValues :- ParseFloats(cut.saliences, parse);
    r := Ok(DropNaN(Columns(cut.index, timeValues, freqValues, salienceValues)));
    LoadWellFormed(rows, parse);
  }

  // ---------------------------------------------------------------------------
  // Properties of the row loop
  // ---------------------------------------------------------------------------

  /** The index list and the time list grow by the same amount for every row. */
  lemma {:induction false} IndexMatchesTimes(rows: seq<Row>)
    ensures |IndexColumn(rows)| == |Column(rows, TimeStart)|
  {
    if rows != [] {
      IndexMatchesTimes(rows[..|rows| - 1]);
    }
  }

  /** Contour numbers are handed out in row order and each names a row that was read. */
  lemma {:induction false} IndexColumnSorted(rows: seq<Row>)
    ensures NonDecreasing(IndexColumn(rows))
    ensures forall p :: 0 <= p < |IndexColumn(rows)| ==> 0 <= IndexColumn(rows)[p] < |rows|
  {
    if rows != [] {
      var init := rows[..|rows| - 1];
      IndexColumnSorted(init);
      var a := IndexColumn(init);
      var b := seq(|StrideSlice(rows[|rows| - 1], TimeStart)|, _ => |rows| - 1);
      assert IndexColumn(rows) == a + b;
      forall p, q | 0 <= p < q < |a + b| ensures (a + b)[p] <= (a + b)[q] {
        if q < |a| {
          assert (a + b)[p] == a[p] && (a + b)[q] == a[q];
        } else if p >= |a| {
          assert (a + b)[p] == b[p - |a|];
        } else {
          assert (a + b)[p] == a[p];
        }
      }
    }
  }

  lemma {:induction false} RepeatCount(v: int, n: nat, x: int)
    ensures multiset(seq(n, _ => v))[x] == if x == v then n else 0
  {
    if n > 0 {
      assert seq(n, _ => v) == seq(n - 1, _ => v) + [v];
      RepeatCount(v, n - 1, x);
    } else {
      assert seq(n, _ => v) == [];
    }
  }

  /** Row k contributes exactly `len(row[14::3])` copies of k; a row of at most 14
      cells contributes none, yet still uses up its number k. */
  lemma {:induction false} RowContribution(rows: seq<Row>, k: nat)
    requires k < |rows|
    ensures multiset(IndexColumn(rows))[k] == |StrideSlice(rows[k], TimeStart)|
    ensures |rows[k]| <= TimeStart ==> k !in IndexColumn(rows)
  {
    var last := |rows| - 1;
    var init := rows[..last];
    var b := seq(|StrideSlice(rows[last], TimeStart)|, _ => last);
    assert IndexColumn(rows) == IndexColumn(init) + b;
    RepeatCount(last, |b|, k);
    if k == last {
      IndexColumnSorted(init);
      assert k !in IndexColumn(init);
    } else {
      RowContribution(init, k);
    }
  }

  /** Cell `start + 3j` of row k lands in its list right after the cells the
      earlier rows contributed, at position |Column(rows[..k], start)| + j. */
  lemma {:induction false} ColumnPlacesRowCells(rows: seq<Row>, start: nat, k: nat, j: nat)
    requires k < |rows| && start + 3 * j < |rows[k]|
    ensures |Column(rows[..k], start)| + j < |Column(rows, start)|
    ensures Column(rows, start)[|Column(rows[..k], start)| + j] == rows[k][start + 3 * j]
  {
    var last := |rows| - 1;
    var init := rows[..last];
    var slice := StrideSlice(rows[last], start);
    assert Column(rows, start) == Column(init, start) + slice;
    if k == last {
      assert rows[..k] == init;
      assert j < |slice|;
      assert slice[j] == rows[k][start + 3 * j];
    } else {
      ColumnPlacesRowCells(init, start, k, j);
      assert init[..k] == rows[..k];
    }
  }

  /** Each time cell of row k is numbered k: the index list is laid out like the time list. */
  lemma {:induction false} IndexPlacesRow(rows: seq<Row>, k: nat, j: nat)
    requires k < |rows| && j < |StrideSlice(rows[k], TimeStart)|
    ensures |Column(rows[..k], TimeStart)| + j < |IndexColumn(rows)|
    ensures IndexColumn(rows)[|Column(rows[..k], TimeStart)| + j] == k
  {
    var last := |rows| - 1;
    var init := rows[..last];
    var b := seq(|StrideSlice(rows[last], TimeStart)|, _ => last);
    assert IndexColumn(rows) == IndexColumn(init) + b;
    IndexMatchesTimes(init);
    if k == last {
      assert rows[..k] == init;
    } else {
      IndexPlacesRow(init, k, j);
      assert init[..k] == rows[..k];
    }
  }

  /** A row "pairs up" when its cells from 14 on come in whole triples. */
  predicate Aligned(row: Row) {
    |row| <= TimeStart || (|row| - TimeStart) % 3 == 0
  }

  /** When every row pairs up, the loop leaves four lists of one length, so nothing is truncated. */
  lemma {:induction false} AlignedRowsSameLength(rows: seq<Row>)
    requires forall k :: 0 <= k < |rows| ==> Aligned(rows[k])
    ensures SameLength(Accumulated(rows))
  {
    if rows != [] {
      AlignedRowsSameLength(rows[..|rows| - 1]);
      AlignedStrides(rows[|rows| - 1]);
    }
  }

  lemma AlignedStrides(row: Row)
    requires Aligned(row)
    ensures |StrideSlice(row, TimeStart)| == |StrideSlice(row, FreqStart)| == |StrideSlice(row, SalienceStart)|
  {
  }

  /** When every row pairs up, position p of the lists holds one triple of one row:
      cells 14+3j, 15+3j and 16+3j of the row whose contour number is at p. */
  lemma {:induction false} AlignedRowsPairUp(rows: seq<Row>, p: nat)
    requires forall k :: 0 <= k < |rows| ==> Aligned(rows[k])
    requires p < |Column(rows, TimeStart)|
    ensures SameLength(Accumulated(rows))
    ensures 0 <= IndexColumn(rows)[p] < |rows|
    ensures PairedAt(rows, p, IndexColumn(rows)[p])
  {
    AlignedRowsSameLength(rows);
    IndexColumnSorted(rows);
    assert rows != [];
    var init := rows[..|rows| - 1];
    AlignedRowsSameLength(init);
    if p < |Column(init, TimeStart)| {
      AlignedRowsPairUp(init, p);
      PairedInPrefix(rows, p, IndexColumn(init)[p]);
    } else {
      PairedInLastRow(rows, p);
    }
  }

  /** Position p of the three cell lists holds cells 14+3j, 15+3j and 16+3j of row k,
      where j counts from the first cell row k contributed. */
  ghost predicate PairedAt(rows: seq<Row>, p: nat, k: nat)
    requires k < |rows|
  {
    var j := p - |Column(rows[..k], TimeStart)|;
    && 0 <= j && SalienceStart + 3 * j < |rows[k]|
    && p < |Column(rows, TimeStart)| && p < |Column(rows, FreqStart)| && p < |Column(rows, SalienceStart)|
    && Column(rows, TimeStart)[p] == rows[k][TimeStart + 3 * j]
    && Column(rows, FreqStart)[p] == rows[k][FreqStart + 3 * j]
    && Column(rows, SalienceStart)[p] == rows[k][SalienceStart + 3 * j]
  }

  lemma PairedInPrefix(rows: seq<Row>, p: nat, k: nat)
    requires rows != [] && k < |rows| - 1
    requires PairedAt(rows[..|rows| - 1], p, k)
    requires |IndexColumn(rows[..|rows| - 1])| == |Column(rows[..|rows| - 1], TimeStart)|
    requires IndexColumn(rows[..|rows| - 1])[p] == k
    ensures IndexColumn(rows)[p] == k
    ensures PairedAt(rows, p, k)
  {
    var init, row := rows[..|rows| - 1], rows[|rows| - 1];
    assert rows == init + [row];
    AccumulatedAppend(init, row);
    assert rows[..k] == init[..k];
    assert IndexColumn(rows)[p] == IndexColumn(init)[p];
    assert Column(rows, TimeStart)[p] == Column(init, TimeStart)[p];
    assert Column(rows, FreqStart)[p] == Column(init, FreqStart)[p];
    assert Column(rows, SalienceStart)[p] == Column(init, SalienceStart)[p];
  }

  lemma PairedInLastRow(rows: seq<Row>, p: nat)
    requires rows != [] && Aligned(rows[|rows| - 1])
    requires SameLength(Accumulated(rows[..|rows| - 1]))
    requires |Column(rows[..|rows| - 1], TimeStart)| <= p < |Column(rows, TimeStart)|
    ensures IndexColumn(rows)[p] == |rows| - 1
    ensures PairedAt(rows, p, |rows| - 1)
  {
    var last := |rows| - 1;
    var init, row := rows[..last], rows[last];
    AlignedStrides(row);
    var j := p - |Column(init, TimeStart)|;
    assert IndexColumn(rows) == IndexColumn(init) + seq(|StrideSlice(row, TimeStart)|, _ => last);
    assert Column(rows, TimeStart) == Column(init, TimeStart) + StrideSlice(row, TimeStart);
    assert Column(rows, FreqStart) == Column(init, FreqStart) + StrideSlice(row, FreqStart);
    assert Column(rows, SalienceStart) == Column(init, SalienceStart) + StrideSlice(row, SalienceStart);
    assert j < |StrideSlice(row, SalienceStart)|;
    assert Column(rows, TimeStart)[p] == StrideSlice(row, TimeStart)[j];
    assert Column(rows, FreqStart)[p] == StrideSlice(row, FreqStart)[j];
    assert Column(rows, SalienceStart)[p] == StrideSlice(row, SalienceStart)[j];
  }

  /** Two rows: row 0 has one time cell and no frequency or salience, row 1 one full triple. */
  const ShortRows: seq<Row> := [
    seq(TimeStart, _ => "") + ["t0"],
    seq(TimeStart, _ => "") + ["t1", "f1", "s1"]]

  lemma ShortRowsAccumulated()
    ensures Accumulated(ShortRows) == Columns([0, 1], ["t0", "t1"], ["f1"], ["s1"])
  {
    var rows := ShortRows;
    var r0, r1 := rows[0], rows[1];
    assert StrideSlice(r0, TimeStart) == ["t0"];
    assert StrideSlice(r0, FreqStart) == [] && StrideSlice(r0, SalienceStart) == [];
    assert StrideSlice(r1, TimeStart) == ["t1"];
    assert StrideSlice(r1, FreqStart) == ["f1"] && StrideSlice(r1, SalienceStart) == ["s1"];
    assert rows[..1] == [r0] && [r0][..0] == [];
    assert IndexColumn(rows) == [0, 1] by {
      assert seq(1, _ => 0) == [0] && seq(1, _ => 1) == [1];
      assert IndexColumn([r0]) == [0];
    }
    assert Column(rows, TimeStart) == ["t0", "t1"] by {
      assert Column([r0], TimeStart) == ["t0"];
    }
    assert Column(rows, FreqStart) == ["f1"] by {
      assert Column([r0], FreqStart) == [];
    }
    assert Column(rows, SalienceStart) == ["s1"] by {
      assert Column([r0], SalienceStart) == [];
    }
  }

  /** A row holding only a time, followed by one complete row: contour 0's only
      time is paired with contour 1's frequency and salience. */
  lemma ShortRowShiftsPairing()
    ensures Truncate(Accumulated(ShortRows)) == Columns([0], ["t0"], ["f1"], ["s1"])
  {
    ShortRowsAccumulated();
  }

  /** Two rows: row 0 ends in a time and a frequency but no salience, row 1 has one full triple. */
  const SaliencelessRows: seq<Row> := [
    seq(TimeStart, _ => "") + ["t0", "f0"],
    seq(TimeStart, _ => "") + ["t1", "f1", "s1"]]

  lemma SaliencelessRowsAccumulated()
    ensures Accumulated(SaliencelessRows) == Columns([0, 1], ["t0", "t1"], ["f0", "f1"], ["s1"])
  {
    var rows := SaliencelessRows;
    var r0, r1 := rows[0], rows[1];
    assert StrideSlice(r0, TimeStart) == ["t0"];
    assert StrideSlice(r0, FreqStart) == ["f0"] && StrideSlice(r0, SalienceStart) == [];
    assert StrideSlice(r1, TimeStart) == ["t1"];
    assert StrideSlice(r1, FreqStart) == ["f1"] && StrideSlice(r1, SalienceStart) == ["s1"];
    assert rows[..1] == [r0] && [r0][..0] == [];
    assert IndexColumn(rows) == [0, 1] by {
      assert seq(1, _ => 0) == [0] && seq(1, _ => 1) == [1];
      assert IndexColumn([r0]) == [0];
    }
    assert Column(rows, TimeStart) == ["t0", "t1"] by {
      assert Column([r0], TimeStart) == ["t0"];
    }
    assert Column(rows, FreqStart) == ["f0", "f1"] by {
      assert Column([r0], FreqStart) == ["f0"];
    }
    assert Column(rows, SalienceStart) == ["s1"] by {
      assert Column([r0], SalienceStart) == [];
    }
  }

  /** A row lacking only its salience, followed by one complete row: contour 0
      keeps its own time and frequency but takes contour 1's salience. */
  lemma MissingSalienceShiftsSaliences()
    ensures Truncate(Accumulated(SaliencelessRows)) == Columns([0], ["t0"], ["f0"], ["s1"])
  {
    SaliencelessRowsAccumulated();
  }

  /** A row of 14 filler cells followed by one triple of time, frequency and salience. */
  function TripleRow(t: string, f: string, sal: string): Row {
    seq(TimeStart, _ => "") + [t, f, sal]
  }

  /** A three-row example file whose middle row has a NaN time, and a conversion
      that reads "nan" as NaN and each other cell of the file as its decimal value. */
  const ExampleRows: seq<Row> := [
    TripleRow("0.1", "440", "0.5"),
    TripleRow("nan", "220", "0.3"),
    TripleRow("0.2", "330", "0.4")]

  function ExampleParse(cell: string): Option<Float> {
    if cell == "nan" then Some(NaN)
    else if cell == "0.1" then Some(Finite(0.1))
    else if cell == "0.2" then Some(Finite(0.2))
    else if cell == "0.3" then Some(Finite(0.3))
    else if cell == "0.4" then Some(Finite(0.4))
    else if cell == "0.5" then Some(Finite(0.5))
    else if cell == "220" then Some(Finite(220.0))
    else if cell == "330" then Some(Finite(330.0))
    else if cell == "440" then Some(Finite(440.0))
    else None
  }

  /** A triple row contributes exactly its triple. */
  lemma TripleRowSlices(t: string, f: string, sal: string)
    ensures var row := TripleRow(t, f, sal);
            StrideSlice(row, TimeStart) == [t] && StrideSlice(row, FreqStart) == [f]
            && StrideSlice(row, SalienceStart) == [sal]
  {
    var row := TripleRow(t, f, sal);
    assert |row| == 17 && row[14] == t && row[15] == f && row[16] == sal;
    assert StrideSlice(row, 17) == [];
    assert StrideSlice(row, 18) == [] && StrideSlice(row, 19) == [];
  }

  /** Appending one row extends every list by that row's contribution. */
  lemma AccumulatedAppend(rows: seq<Row>, row: Row)
    ensures var next := rows + [row];
            && IndexColumn(next) == IndexColumn(rows) + seq(|StrideSlice(row, TimeStart)|, _ => |rows|)
            && Column(next, TimeStart) == Column(rows, TimeStart) + StrideSlice(row, TimeStart)
            && Column(next, FreqStart) == Column(rows, FreqStart) + StrideSlice(row, FreqStart)
            && Column(next, SalienceStart) == Column(rows, SalienceStart) + StrideSlice(row, SalienceStart)
  {
    assert (rows + [row])[..|rows|] == rows;
  }

  /** Appending a triple row adds one position, numbered by the row, holding its triple. */
  lemma AppendTripleRow(rows: seq<Row>, t: string, f: string, sal: string)
    ensures var c := Accumulated(rows);
            Accumulated(rows + [TripleRow(t, f, sal)]) ==
            Columns(c.index + [|rows|], c.times + [t], c.freqs + [f], c.saliences + [sal])
  {
    TripleRowSlices(t, f, sal);
    AccumulatedAppend(rows, TripleRow(t, f, sal));
    assert seq(1, _ => |rows|) == [|rows|];
  }

  /** Three triple rows give three positions, numbered 0, 1 and 2, holding their triples in order. */
  lemma ThreeTripleRows(t0: string, f0: string, s0: string, t1: string, f1: string, s1: string,
                        t2: string, f2: string, s2: string)
    ensures Accumulated([TripleRow(t0, f0, s0), TripleRow(t1, f1, s1), TripleRow(t2, f2, s2)]) ==
            Columns([0, 1, 2], [t0, t1, t2], [f0, f1, f2], [s0, s1, s2])
  {
    var r0, r1, r2 := TripleRow(t0, f0, s0), TripleRow(t1, f1, s1), TripleRow(t2, f2, s2);
    AppendTripleRow([], t0, f0, s0);
    assert [] + [r0] == [r0];
    AppendTripleRow([r0], t1, f1, s1);
    assert [r0] + [r1] == [r0, r1];
    AppendTripleRow([r0, r1], t2, f2, s2);
    assert [r0, r1] + [r2] == [r0, r1, r2];
  }

  lemma ExampleAccumulated()
    ensures Accumulated(ExampleRows) ==
            Columns([0, 1, 2], ["0.1", "nan", "0.2"], ["440", "220", "330"], ["0.5", "0.3", "0.4"])
  {
    ThreeTripleRows("0.1", "440", "0.5", "nan", "220", "0.3", "0.2", "330", "0.4");
  }

  /** Conversion succeeds with exactly the values the cells convert to. */
  lemma ParseFloatsValues(cells: seq<string>, parse: string -> Option<Float>, values: seq<Float>)
    requires |cells| == |values|
    requires forall i :: 0 <= i < |cells| ==> parse(cells[i]) == Some(values[i])
    ensures ParseFloats(cells, parse) == Ok(values)
  {
    var r := ParseFloats(cells, parse);
    assert r.Ok?;
    assert r.value == values;
  }

  lemma ExampleConverted()
    ensures Converted(ExampleRows, ExampleParse) == Ok(ExampleValues)
  {
    ExampleAccumulated();
    var raw := Columns([0, 1, 2], ["0.1", "nan", "0.2"], ["440", "220", "330"], ["0.5", "0.3", "0.4"]);
    assert Truncate(Accumulated(ExampleRows)) == raw;
    ExampleCellsParse();
  }

  /** The example's cells, converted: the middle time is NaN. */
  const ExampleValues: Columns<Float> :=
    Columns([0, 1, 2], [Finite(0.1), NaN, Finite(0.2)],
            [Finite(440.0), Finite(220.0), Finite(330.0)],
            [Finite(0.5), Finite(0.3), Finite(0.4)])

  lemma ExampleCellsParse()
    ensures ParseFloats(["0.1", "nan", "0.2"], ExampleParse) == Ok(ExampleValues.times)
    ensures ParseFloats(["440", "220", "330"], ExampleParse) == Ok(ExampleValues.freqs)
    ensures ParseFloats(["0.5", "0.3", "0.4"], ExampleParse) == Ok(ExampleValues.saliences)
  {
    ExampleTimesParse();
    ExampleFreqsParse();
    ExampleSaliencesParse();
  }

  lemma ExampleTimesParse()
    ensures ParseFloats(["0.1", "nan", "0.2"], ExampleParse) == Ok(ExampleValues.times)
  {
    assert ExampleParse("0.1") == Some(Finite(0.1)) by { assert "0.1"[0] != 'n'; }
    assert ExampleParse("0.2") == Some(Finite(0.2)) by { assert "0.2"[0] != 'n' && "0.2"[2] != '1'; }
    ParseFloatsValues(["0.1", "nan", "0.2"], ExampleParse, ExampleValues.times);
  }

  lemma ExampleFreqsParse()
    ensures ParseFloats(["440", "220", "330"], ExampleParse) == Ok(ExampleValues.freqs)
  {
    assert ExampleParse("220") == Some(Finite(220.0)) by { assert "220"[0] != 'n' && "220"[0] != '0'; }
    assert ExampleParse("330") == Some(Finite(330.0)) by { assert "330"[0] != 'n' && "330"[0] != '0' && "330"[0] != '2'; }
    assert ExampleParse("440") == Some(Finite(440.0)) by {
      assert "440"[0] != 'n' && "440"[0] != '0' && "440"[0] != '2' && "440"[0] != '3';
    }
    ParseFloatsValues(["440", "220", "330"], ExampleParse, ExampleValues.freqs);
  }

  lemma ExampleSaliencesParse()
    ensures ParseFloats(["0.5", "0.3", "0.4"], ExampleParse) == Ok(ExampleValues.saliences)
  {
    assert ExampleParse("0.3") == Some(Finite(0.3)) by { assert "0.3"[0] != 'n' && "0.3"[2] != '1' && "0.3"[2] != '2'; }
    assert ExampleParse("0.4") == Some(Finite(0.4)) by {
      assert "0.4"[0] != 'n' && "0.4"[2] != '1' && "0.4"[2] != '2' && "0.4"[2] != '3';
    }
    assert ExampleParse("0.5") == Some(Finite(0.5)) by {
      assert "0.5"[0] != 'n' && "0.5"[2] != '1' && "0.5"[2] != '2' && "0.5"[2] != '3' && "0.5"[2] != '4';
    }
    ParseFloatsValues(["0.5", "0.3", "0.4"], ExampleParse, ExampleValues.saliences);
  }

  lemma ExampleKept(c: Columns<Float>)
    requires SameLength(c) && |c.index| == 3
    requires !c.times[0].NaN? && !c.freqs[0].NaN? && !c.saliences[0].NaN?
    requires c.times[1].NaN?
    requires !c.times[2].NaN? && !c.freqs[2].NaN? && !c.saliences[2].NaN?
    ensures TruePositions(KeepMask(c)) == [0, 2]
  {
    var mask := KeepMask(c);
    assert mask == [true, false, true];
    assert mask[..2] == [true, false] && [true, false][..1] == [true] && [true][..0] == [];
    assert TruePositions([true]) == [0];
    assert TruePositions([true, false]) == [0];
  }

  /** On the example, the NaN-timed middle position is dropped from all four
      arrays; the other two keep their contour numbers 0 and 2 and their own rows' values. */
  lemma NaNTimeDropped()
    ensures Load(ExampleRows, ExampleParse) ==
            Ok(Columns([0, 2], [Finite(0.1), Finite(0.2)], [Finite(440.0), Finite(330.0)],
                       [Finite(0.5), Finite(0.4)]))
  {
    ExampleConverted();
    ExampleFiltered();
  }

  lemma ExampleFiltered()
    ensures DropNaN(ExampleValues) ==
            Columns([0, 2], [Finite(0.1), Finite(0.2)], [Finite(440.0), Finite(330.0)],
                    [Finite(0.5), Finite(0.4)])
  {
    var c := ExampleValues;
    ExampleKept(c);
    var r := DropNaN(c);
    assert r.index == [0, 2] && r.times == [Finite(0.1), Finite(0.2)];
    assert r.freqs == [Finite(440.0), Finite(330.0)] && r.saliences == [Finite(0.5), Finite(0.4)];
  }

  // ---------------------------------------------------------------------------
  // Properties of truncation, conversion and filtering
  // ---------------------------------------------------------------------------

  /** The converted arrays: all of one length n, the shortest list's; n falls
      short of the time list only when frequencies or saliences ran out; the
      contour numbers are the first n of the loop's; every value is the
      conversion of the cell at the same position. */
  lemma ConvertedShape(rows: seq<Row>, parse: string -> Option<Float>)
    requires Converted(rows, parse).Ok?
    ensures var c := Converted(rows, parse).value;
            var n := |c.index|;
            var raw := Accumulated(rows);
            && SameLength(c)
            && n <= |raw.times| && n <= |raw.freqs| && n <= |raw.saliences|
            && (n == |raw.times| || n == |raw.freqs| || n == |raw.saliences|)
            && (n < |raw.times| ==> n == |raw.freqs| || n == |raw.saliences|)
            && c.index == raw.index[..n]
            && forall p :: 0 <= p < n ==>
                 && parse(raw.times[p]) == Some(c.times[p])
                 && parse(raw.freqs[p]) == Some(c.freqs[p])
                 && parse(raw.saliences[p]) == Some(c.saliences[p])
  {
    IndexMatchesTimes(rows);
  }

  /** Conversion fails exactly when some kept cell (within the truncated length) is not a float;
      cells past the shortest list are never converted. */
  lemma ConvertedFailsIff(rows: seq<Row>, parse: string -> Option<Float>)
    ensures var cut := Truncate(Accumulated(rows));
            Converted(rows, parse).Err? <==>
              exists p :: 0 <= p < |cut.index| &&
                (parse(cut.times[p]).None? || parse(cut.freqs[p]).None? || parse(cut.saliences[p]).None?)
  {
  }

  /** What `load_contours` returns always has four arrays of one length, no NaN,
      and contour numbers that never decrease and name rows that were read. */
  lemma LoadWellFormed(rows: seq<Row>, parse: string -> Option<Float>)
    requires Load(rows, parse).Ok?
    ensures WellFormed(Load(rows, parse).value, |rows|)
  {
    var c := Converted(rows, parse).value;
    ConvertedShape(rows, parse);
    IndexColumnSorted(rows);
    var idx := IndexColumn(rows);
    assert c.index == idx[..|c.index|];
    assert forall j :: 0 <= j < |c.index| ==> c.index[j] == idx[j];
    DropNaNWellFormed(c, |rows|);
  }

  /** Filtering NaN keeps sorted contour numbers sorted and within the row count. */
  lemma DropNaNWellFormed(c: Columns<Float>, rowCount: nat)
    requires SameLength(c) && NonDecreasing(c.index)
    requires forall j :: 0 <= j < |c.index| ==> 0 <= c.index[j] < rowCount
    ensures WellFormed(DropNaN(c), rowCount)
  {
    SelectKeepsOrder(c.index, KeepMask(c));
  }
}
