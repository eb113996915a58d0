/**
 * The spreadsheet side of the report generation: the twelve Excel templates
 * of the bachelor's programme, the copy of the exported grade sheet into a
 * template (each configured source column compacted into its target
 * column), and the choice of the Word model from the header row of the
 * filled sheet.  A worksheet is the map from (column, row) to the text of
 * its non-empty cells.
 */
module Sheets {
  import opened Wrappers
  import opened Text
  import Ects
  import Layouts

  // ---------------------------------------------------------------------
  // The Excel templates
  // ---------------------------------------------------------------------

  /** Full-time ("TP") or work-study ("ALT") track. */
  datatype Track = TP | ALT

  type Semester = s: nat | 1 <= s <= 6 witness 1

  /** One of the templates "BG-TP-S1.xlsx" .. "BG-ALT-S6.xlsx". */
  datatype Template = Template(track: Track, semester: Semester)

  function TrackName(t: Track): string {
    match t
    case TP => "TP"
    case ALT => "ALT"
  }

  /** The template's file name, such as "BG-ALT-S3.xlsx". */
  function FileName(t: Template): string {
    "BG-" + TrackName(t.track) + "-S" + [DigitChar(t.semester)] + ".xlsx"
  }

  /** The first full-time template is "BG-TP-S1.xlsx". */
  lemma {:induction false} TpS1FileName()
    ensures FileName(Template(TP, 1)) == "BG-TP-S1.xlsx"
  {
    assert DigitChar(1) == '1';
  }

  /** The templates the configurations list, in their order. */
  const TEMPLATES: seq<Template> := [
    Template(TP, 1), Template(TP, 2), Template(TP, 3), Template(TP, 4), Template(TP, 5), Template(TP, 6),
    Template(ALT, 1), Template(ALT, 2), Template(ALT, 3), Template(ALT, 4), Template(ALT, 5), Template(ALT, 6)
  ]

  /** Every template is listed. */
  lemma {:induction false} AllListed(t: Template)
    ensures t in TEMPLATES
  {
    var i := (if t.track == TP then 0 else 6) + t.semester - 1;
    assert TEMPLATES[i] == t;
  }

  /** Two templates with the same file name are the same template. */
  lemma {:induction false} FileNameInjective(a: Template, b: Template)
    requires FileName(a) == FileName(b)
    ensures a == b
  {
    var n := |TrackName(a.track)|;
    assert |FileName(a)| == n + 11;
    assert a.track == b.track;
    assert FileName(a)[n + 5] == FileName(b)[n + 5];
  }

  /** The first listed template of that file name. */
  function Search(ts: seq<Template>, name: string): (r: Option<Template>)
    ensures r.Some? ==> r.value in ts && FileName(r.value) == name
    ensures r.None? ==> forall t :: t in ts ==> FileName(t) != name
  {
    if ts == [] then None
    else if FileName(ts[0]) == name then Some(ts[0])
    else Search(ts[1..], name)
  }

  /** `template_configs.get(name)`: the template a basename designates, if any. */
  function Named(name: string): Option<Template> {
    Search(TEMPLATES, name)
  }

  /** A template's own file name designates it, and no other name designates a template. */
  lemma {:induction false} NamedFileName(t: Template, name: string)
    ensures Named(FileName(t)) == Some(t)
    ensures Named(name).Some? <==> exists u :: FileName(u) == name
  {
    AllListed(t);
    FileNameInjective(Named(FileName(t)).value, t);
    if exists u :: FileName(u) == name {
      var u :| FileName(u) == name;
      AllListed(u);
    }
  }

  // ---------------------------------------------------------------------
  // Copy of the grade sheet into a template
  // ---------------------------------------------------------------------

  /** The `source_columns` of a template: the columns of the exported grade sheet that are read. */
  function SourceColumns(t: Template): seq<string> {
    match t.track
    case TP =>
      if t.semester == 1 then ["B", "F", "I", "L", "O", "R", "U", "X", "AD", "AG", "AJ", "AM", "AP", "AV", "AY", "BE", "BH", "BK", "BN", "BQ", "BT", "BW", "BZ"]
      else if t.semester == 2 then ["B", "F", "I"]
      else if t.semester == 3 then ["B", "F", "I", "L", "O", "R", "U", "X", "AA", "AD", "AG", "AJ", "AM", "AP", "AS", "AV", "AY", "BB", "BE"]
      else if t.semester == 4 then ["B", "F", "I"]
      else if t.semester == 5 then ["B", "F", "I", "L", "O", "R", "U", "X", "AA", "AD", "AG", "AJ", "AM", "AP", "AS", "AV", "AY", "BB", "BE", "BH", "BK", "BN", "BQ"]
      else ["B", "F", "I", "L"]
    case ALT =>
      if t.semester == 1 then ["B", "F", "I", "L", "R", "U", "AA", "AG", "AJ", "AM", "AP", "AS", "AV", "AY", "BB"]
      else if t.semester == 2 then ["B", "F", "I", "L", "O", "U", "X", "AA", "AG", "AM", "AP", "AS", "AV", "AY", "BB", "BE"]
      else if t.semester == 3 then ["B", "F", "I", "L", "O", "R", "X", "AA", "AG", "AM", "AP", "AS", "AV", "AY"]
      else if t.semester == 4 then ["B", "F", "I", "L", "R", "U", "X", "AA", "AG", "AM", "AP", "AS", "AV", "AY"]
      else if t.semester == 5 then ["B", "F", "I", "L", "R", "U", "X", "AD", "AJ", "AM", "AP", "AS", "AV", "AY", "BB"]
      else ["B", "F", "I", "O", "R", "X", "AA", "AG", "AJ", "AM", "AP", "AS", "AV"]
  }

  /** The `target_columns` of a template: the columns of the template the values go to. */
  function TargetColumns(t: Template): seq<string> {
    match t.track
    case TP =>
      if t.semester == 1 then ["B", "D", "E", "F", "G", "H", "I", "J", "L", "M", "N", "O", "P", "R", "S", "U", "V", "W", "X", "Y", "Z", "AA", "AB"]
      else if t.semester == 2 then ["B", "D", "E"]
      else if t.semester == 3 then ["B", "D", "E", "F", "G", "I", "J", "L", "M", "O", "P", "R", "S", "T", "U"]
      else if t.semester == 4 then ["B", "D", "E"]
      else if t.semester == 5 then ["B", "D", "E", "F", "G", "H", "J", "K", "L", "M", "N", "P", "Q", "R", "T", "U", "V", "W", "X", "Y"]
      else ["B", "D", "E", "F"]
    case ALT =>
      if t.semester == 1 then ["B", "D", "E", "F", "H", "I", "K", "M", "N", "O", "P", "Q", "R", "S", "T"]
      else if t.semester == 2 then ["B", "D", "E", "F", "G", "I", "J", "K", "M", "O", "P", "Q", "R", "S", "T", "U"]
      else if t.semester == 3 then ["B", "D", "E", "F", "G", "H", "J", "K", "M", "O", "P", "Q", "R", "S"]
      else if t.semester == 4 then ["B", "D", "E", "F", "H", "J", "K", "M", "O", "P", "Q", "R", "S"]
      else if t.semester == 5 then ["B", "D", "E", "F", "H", "I", "J", "M", "N", "O", "P", "Q", "R", "S", "T"]
      else ["B", "D", "E", "G", "H", "J", "K", "M", "N", "O", "P", "Q", "R"]
  }

  /** `zip(source_columns, target_columns)`: the column pairs up to the shorter list. */
  function Pairs(t: Template): (ps: seq<(string, string)>)
    ensures |ps| == if |SourceColumns(t)| <= |TargetColumns(t)| then |SourceColumns(t)| else |TargetColumns(t)|
    ensures forall p :: 0 <= p < |ps| ==> ps[p] == (SourceColumns(t)[p], TargetColumns(t)[p])
  {
    var n := if |SourceColumns(t)| <= |TargetColumns(t)| then |SourceColumns(t)| else |TargetColumns(t)|;
    seq(n, p requires 0 <= p < n => (SourceColumns(t)[p], TargetColumns(t)[p]))
  }

  /** The non-empty cells of a worksheet, by (column, row). */
  type Cells = map<(string, int), string>

  const SOURCE_START_ROW := 6
  const TARGET_START_ROW := 3

  /** The footer cells of the exported sheet that are not copied. */
  predicate Ignored(v: string) {
    Contains(v, "* Attention, le total des absences") || Contains(v, "Moyenne du groupe")
  }

  /** The values of column `col`, rows `lo` to `hi - 1`, that are copied: non-empty and not a footer, in row order. */
  function Kept(src: Cells, col: string, lo: int, hi: int): seq<string>
    decreases hi - lo
  {
    if hi <= lo then []
    else Kept(src, col, lo, hi - 1) + if (col, hi - 1) in src && !Ignored(src[(col, hi - 1)]) then [src[(col, hi - 1)]] else []
  }

  /** The values `vs` written one below the other in column `col`, from row `row` down. */
  function WriteColumn(cells: Cells, col: string, row: int, vs: seq<string>): Cells
    decreases |vs|
  {
    if vs == [] then cells
    else WriteColumn(cells, col, row, vs[..|vs| - 1])[(col, row + |vs| - 1) := vs[|vs| - 1]]
  }

  /** The column values copied from source row 6 down, for a source sheet whose last row is `maxRow`. */
  function Column(src: Cells, col: string, maxRow: int): seq<string> {
    Kept(src, col, SOURCE_START_ROW, maxRow + 1)
  }

  /** The template after the copy of the column pairs `pairs`, one pair after the other. */
  function Copied(cells: Cells, src: Cells, maxRow: int, pairs: seq<(string, string)>): Cells
    decreases |pairs|
  {
    if pairs == [] then cells
    else
      var p := pairs[|pairs| - 1];
      WriteColumn(Copied(cells, src, maxRow, pairs[..|pairs| - 1]), p.1, TARGET_START_ROW, Column(src, p.0, maxRow))
  }

  /** Copying rows `lo` to `hi - 1` is copying rows `lo` to `mid - 1`, then rows `mid` to `hi - 1`. */
  lemma {:induction false} KeptSplit(src: Cells, col: string, lo: int, mid: int, hi: int)
    requires lo <= mid <= hi
    ensures Kept(src, col, lo, hi) == Kept(src, col, lo, mid) + Kept(src, col, mid, hi)
    decreases hi - mid
  {
    if mid < hi {
      KeptSplit(src, col, lo, mid, hi - 1);
    }
  }

  /** One row gives its value when the cell is non-empty and not a footer, and nothing otherwise. */
  lemma {:induction false} KeptRow(src: Cells, col: string, r: int)
    ensures Kept(src, col, r, r + 1) == if (col, r) in src && !Ignored(src[(col, r)]) then [src[(col, r)]] else []
  {
    assert Kept(src, col, r, r) == [];
  }

  /** Every copied value is a non-footer value of the column, from a row of the range. */
  lemma {:induction false} KeptFromColumn(src: Cells, col: string, lo: int, hi: int, i: nat)
    requires i < |Kept(src, col, lo, hi)|
    ensures !Ignored(Kept(src, col, lo, hi)[i])
    ensures exists r :: lo <= r < hi && (col, r) in src && src[(col, r)] == Kept(src, col, lo, hi)[i]
    decreases hi - lo
  {
    var k := Kept(src, col, lo, hi - 1);
    if i < |k| {
      KeptFromColumn(src, col, lo, hi - 1, i);
      var r :| lo <= r < hi - 1 && (col, r) in src && src[(col, r)] == k[i];
      assert lo <= r < hi && (col, r) in src && src[(col, r)] == Kept(src, col, lo, hi)[i];
    } else {
      assert (col, hi - 1) in src && src[(col, hi - 1)] == Kept(src, col, lo, hi)[i];
    }
  }

  /** When every cell of the range is non-empty and not a footer, the column is copied whole, row for row. */
  lemma {:induction false} KeptWhole(src: Cells, col: string, lo: int, hi: int)
    requires lo <= hi
    requires forall r :: lo <= r < hi ==> (col, r) in src && !Ignored(src[(col, r)])
    ensures Kept(src, col, lo, hi) == seq(hi - lo, i requires 0 <= i < hi - lo => src[(col, lo + i)])
    decreases hi - lo
  {
    if lo < hi {
      KeptWhole(src, col, lo, hi - 1);
      var k := Kept(src, col, lo, hi);
      assert |k| == hi - lo;
      forall i | 0 <= i < hi - lo
        ensures k[i] == src[(col, lo + i)]
      {
      }
    }
  }

  /** The `i`-th value written lands `i` rows below the first one. */
  lemma {:induction false} WriteColumnAt(cells: Cells, col: string, row: int, vs: seq<string>, i: nat)
    requires i < |vs|
    ensures (col, row + i) in WriteColumn(cells, col, row, vs) && WriteColumn(cells, col, row, vs)[(col, row + i)] == vs[i]
    decreases |vs|
  {
    if i < |vs| - 1 {
      WriteColumnAt(cells, col, row, vs[..|vs| - 1], i);
    }
  }

  /** Writing a column leaves every other cell as it was. */
  lemma {:induction false} WriteColumnElsewhere(cells: Cells, col: string, row: int, vs: seq<string>, k: (string, int))
    requires k.0 != col || k.1 < row || k.1 >= row + |vs|
    ensures k in WriteColumn(cells, col, row, vs) <==> k in cells
    ensures k in cells ==> WriteColumn(cells, col, row, vs)[k] == cells[k]
    decreases |vs|
  {
    if vs != [] {
      WriteColumnElsewhere(cells, col, row, vs[..|vs| - 1], k);
    }
  }

  /** No two column pairs write the same target column. */
  predicate DistinctTargets(pairs: seq<(string, string)>) {
    forall p, q :: 0 <= p < q < |pairs| ==> pairs[p].1 != pairs[q].1
  }

  /**
   * With distinct target columns, the `i`-th kept value of a pair's source
   * column ends in its target column, `i` rows below row 3: each column is
   * compacted on its own.
   */
  lemma {:induction false} CopiedAt(cells: Cells, src: Cells, maxRow: int, pairs: seq<(string, string)>, p: nat, i: nat)
    requires DistinctTargets(pairs) && p < |pairs| && i < |Column(src, pairs[p].0, maxRow)|
    ensures var after := Copied(cells, src, maxRow, pairs);
            (pairs[p].1, TARGET_START_ROW + i) in after && after[(pairs[p].1, TARGET_START_ROW + i)] == Column(src, pairs[p].0, maxRow)[i]
    decreases |pairs|
  {
    var last := pairs[|pairs| - 1];
    var prefix := pairs[..|pairs| - 1];
    var before := Copied(cells, src, maxRow, prefix);
    if p == |pairs| - 1 {
      WriteColumnAt(before, last.1, TARGET_START_ROW, Column(src, last.0, maxRow), i);
    } else {
      assert prefix[p] == pairs[p];
      CopiedAt(cells, src, maxRow, prefix, p, i);
      WriteColumnElsewhere(before, last.1, TARGET_START_ROW, Column(src, last.0, maxRow), (pairs[p].1, TARGET_START_ROW + i));
    }
  }

  /** The copy writes only target columns, and only from row 3 down; every other cell is left as it was. */
  lemma {:induction false} CopiedElsewhere(cells: Cells, src: Cells, maxRow: int, pairs: seq<(string, string)>, k: (string, int))
    requires k.1 < TARGET_START_ROW || forall p :: 0 <= p < |pairs| ==> pairs[p].1 != k.0
    ensures k in Copied(cells, src, maxRow, pairs) <==> k in cells
    ensures k in cells ==> Copied(cells, src, maxRow, pairs)[k] == cells[k]
    decreases |pairs|
  {
    if pairs != [] {
      var last := pairs[|pairs| - 1];
      var prefix := pairs[..|pairs| - 1];
      assert forall p :: 0 <= p < |prefix| ==> prefix[p] == pairs[p];
      CopiedElsewhere(cells, src, maxRow, prefix, k);
      WriteColumnElsewhere(Copied(cells, src, maxRow, prefix), last.1, TARGET_START_ROW, Column(src, last.0, maxRow), k);
    }
  }

  /** The number of a column letter: "A" is 1, "Z" is 26. */
  function Letter(ch: char): int {
    ch as int - 'A' as int + 1
  }

  /**
   * The number of a column of one or two letters, the names every
   * configuration uses: "A" is 1, "Z" is 26, "AA" is 27.
   */
  function ColumnNumber(c: string): int {
    if |c| == 1 then Letter(c[0])
    else if |c| == 2 then 26 * Letter(c[0]) + Letter(c[1])
    else 0
  }

  /** The columns are listed from left to right: each one lies right of the one before. */
  predicate LeftToRight(cs: seq<string>) {
    forall i | 0 <= i < |cs| - 1 :: ColumnNumber(cs[i]) < ColumnNumber(cs[i + 1])
  }

  /** Columns listed from left to right are all different. */
  lemma {:induction false} LeftToRightDistinct(cs: seq<string>, i: nat, j: nat)
    requires LeftToRight(cs) && i < j < |cs|
    ensures ColumnNumber(cs[i]) < ColumnNumber(cs[j])
    decreases j
  {
    if i + 1 < j {
      LeftToRightDistinct(cs, i, j - 1);
    }
  }

  /** The target columns of each configuration, one template at a time, are listed from left to right. */
  lemma {:induction false} TpS1LeftToRight()
    ensures LeftToRight(TargetColumns(Template(TP, 1)))
  {
  }

  lemma {:induction false} TpS2LeftToRight()
    ensures LeftToRight(TargetColumns(Template(TP, 2)))
  {
  }

  lemma {:induction false} TpS3LeftToRight()
    ensures LeftToRight(TargetColumns(Template(TP, 3)))
  {
  }

  lemma {:induction false} TpS4LeftToRight()
    ensures LeftToRight(TargetColumns(Template(TP, 4)))
  {
  }

  lemma {:induction false} TpS5LeftToRight()
    ensures LeftToRight(TargetColumns(Template(TP, 5)))
  {
  }

  lemma {:induction false} TpS6LeftToRight()
    ensures LeftToRight(TargetColumns(Template(TP, 6)))
  {
  }

  lemma {:induction false} AltS1LeftToRight()
    ensures LeftToRight(TargetColumns(Template(ALT, 1)))
  {
  }

  lemma {:induction false} AltS2LeftToRight()
    ensures LeftToRight(TargetColumns(Template(ALT, 2)))
  {
  }

  lemma {:induction false} AltS3LeftToRight()
    ensures LeftToRight(TargetColumns(Template(ALT, 3)))
  {
  }

  lemma {:induction false} AltS4LeftToRight()
    ensures LeftToRight(TargetColumns(Template(ALT, 4)))
  {
  }

  lemma {:induction false} AltS5LeftToRight()
    ensures LeftToRight(TargetColumns(Template(ALT, 5)))
  {
  }

  lemma {:induction false} AltS6LeftToRight()
    ensures LeftToRight(TargetColumns(Template(ALT, 6)))
  {
  }

  /** Every configuration lists its target columns from left to right. */
  lemma {:induction false} TargetsLeftToRight(t: Template)
    ensures LeftToRight(TargetColumns(t))
  {
    match t.track
    case TP =>
      if t.semester == 1 {
        TpS1LeftToRight();
      } else if t.semester == 2 {
        TpS2LeftToRight();
      } else if t.semester == 3 {
        TpS3LeftToRight();
      } else if t.semester == 4 {
        TpS4LeftToRight();
      } else if t.semester == 5 {
        TpS5LeftToRight();
      } else {
        TpS6LeftToRight();
      }
    case ALT =>
      if t.semester == 1 {
        AltS1LeftToRight();
      } else if t.semester == 2 {
        AltS2LeftToRight();
      } else if t.semester == 3 {
        AltS3LeftToRight();
      } else if t.semester == 4 {
        AltS4LeftToRight();
      } else if t.semester == 5 {
        AltS5LeftToRight();
      } else {
        AltS6LeftToRight();
      }
  }

  /** Every configuration lists each target column once. */
  lemma {:induction false} TargetsDistinct(t: Template)
    ensures DistinctTargets(Pairs(t))
  {
    TargetsLeftToRight(t);
    forall p, q | 0 <= p < q < |Pairs(t)|
      ensures Pairs(t)[p].1 != Pairs(t)[q].1
    {
      LeftToRightDistinct(TargetColumns(t), p, q);
    }
  }

  /** The third full-time template lists 19 source columns but 15 target columns: only 15 are copied. */
  lemma {:induction false} TpS3Pairs()
    ensures |SourceColumns(Template(TP, 3))| == 19 && |TargetColumns(Template(TP, 3))| == 15
    ensures |Pairs(Template(TP, 3))| == 15
  {
  }

  /** The message of the `ValueError` for a template without configuration. */
  function NoConfiguration(name: string): string {
    "Erreur lors de la copie des cellules spécifiques : Configuration non trouvée pour le template : " + name
  }

  /** The active worksheet of the template workbook, written cell by cell. */
  class Worksheet {
    var cells: Cells

    constructor (cells: Cells)
      ensures this.cells == cells
    {
      this.cells := cells;
    }

    /** `ws[cell] = value`. */
    method Write(col: string, row: int, v: string)
      modifies this
      ensures cells == old(cells)[(col, row) := v]
    {
      cells := cells[(col, row) := v];
    }
  }

  /** The copy of one column pair: the kept source values, from row 6 down, go to the target column from row 3 down. */
  method CopyColumn(src: Cells, maxRow: int, sourceCol: string, targetCol: string, ws: Worksheet)
    modifies ws
    ensures ws.cells == WriteColumn(old(ws.cells), targetCol, TARGET_START_ROW, Column(src, sourceCol, maxRow))
  {
    var rowOffset := 0;
    var row := SOURCE_START_ROW;
    while row < maxRow + 1
      invariant SOURCE_START_ROW <= row && (row <= maxRow + 1 || row == SOURCE_START_ROW)
      invariant rowOffset == |Kept(src, sourceCol, SOURCE_START_ROW, row)|
      invariant ws.cells == WriteColumn(old(ws.cells), targetCol, TARGET_START_ROW, Kept(src, sourceCol, SOURCE_START_ROW, row))
    {
      ghost var before := Kept(src, sourceCol, SOURCE_START_ROW, row);
      if (sourceCol, row) in src {
        var v := src[(sourceCol, row)];
        if !Ignored(v) {
          ws.Write(targetCol, TARGET_START_ROW + rowOffset, v);
          rowOffset := rowOffset + 1;
          assert Kept(src, sourceCol, SOURCE_START_ROW, row + 1) == before + [v];
          assert (before + [v])[..|before|] == before;
          assert WriteColumn(old(ws.cells), targetCol, TARGET_START_ROW, before + [v]) ==
                 WriteColumn(old(ws.cells), targetCol, TARGET_START_ROW, before)[(targetCol, TARGET_START_ROW + |before|) := v];
        } else {
          assert Kept(src, sourceCol, SOURCE_START_ROW, row + 1) == before;
        }
      } else {
        assert Kept(src, sourceCol, SOURCE_START_ROW, row + 1) == before;
      }
      row := row + 1;
    }
  }

  /**
   * `copy_multiple_cells` once both workbooks are open: an error when the
   * template's basename has no configuration, and otherwise each column
   * pair of its configuration copied in turn.
   */
  method CopyMultipleCells(src: Cells, maxRow: int, name: string, ws: Worksheet) returns (r: Result<()>)
    modifies ws
    ensures Named(name).None? ==> r == Err(NoConfiguration(name)) && ws.cells == old(ws.cells)
    ensures Named(name).Some? ==> r == Ok(()) && ws.cells == Copied(old(ws.cells), src, maxRow, Pairs(Named(name).value))
  {
    var config := Named(name);
    if config.None? {
      return Err(NoConfiguration(name));
    }
    CopyPairs(src, maxRow, Pairs(config.value), ws);
    r := Ok(());
  }

  /** The copy of the column pairs, one after the other. */
  method CopyPairs(src: Cells, maxRow: int, pairs: seq<(string, string)>, ws: Worksheet)
    modifies ws
    ensures ws.cells == Copied(old(ws.cells), src, maxRow, pairs)
  {
    var p := 0;
    while p < |pairs|
      invariant 0 <= p <= |pairs|
      invariant ws.cells == Copied(old(ws.cells), src, maxRow, pairs[..p])
    {
      CopyColumn(src, maxRow, pairs[p].0, pairs[p].1, ws);
      assert pairs[..p + 1][..p] == pairs[..p];
      p := p + 1;
    }
    assert pairs[..p] == pairs;
  }

  // ---------------------------------------------------------------------
  // Choice of the Word model from the header row
  // ---------------------------------------------------------------------

  /** The header cells compared with the third work-study template: C1 to S1. */
  const S3_HEADER_COLUMNS: seq<string> := ["C", "D", "E", "F", "G", "H", "I", "J", "K", "L", "M", "N", "O", "P", "Q", "R", "S"]

  /** The header cells compared with the second work-study template: C1 to U1. */
  const S2_HEADER_COLUMNS: seq<string> := ["C", "D", "E", "F", "G", "H", "I", "J", "K", "L", "M", "N", "O", "P", "Q", "R", "S", "T", "U"]

  /** `str(ws[cell].value or '')`: the text of a cell, "" for an empty one. */
  function ValueOr(ws: Cells, k: (string, int)): string {
    if k in ws then ws[k] else ""
  }

  /** The stripped texts of the cells of row 1 in columns `cols`. */
  function Headers(ws: Cells, cols: seq<string>): seq<string> {
    seq(|cols|, i requires 0 <= i < |cols| => Strip(ValueOr(ws, (cols[i], 1))))
  }

  /** Two sheets show the same stripped text in every cell of row 1 in `cols`. */
  predicate SameHeaders(a: Cells, b: Cells, cols: seq<string>) {
    forall i | 0 <= i < |cols| :: Strip(ValueOr(a, (cols[i], 1))) == Strip(ValueOr(b, (cols[i], 1)))
  }

  /** The Word model chosen and the curriculum whose credits it uses. */
  datatype WordTemplate = WordTemplate(templateName: string, ectsTemplate: string)

  const ALT3_WORD := WordTemplate("modeleBGALT3.docx", "BG_ALT_3")
  const ALT2_WORD := WordTemplate("modeleBGALT2.docx", "BG_ALT_2")
  const NO_MATCH := "Impossible de déterminer le template à utiliser"

  /**
   * `match_template_and_get_word` once the three workbooks are open: the
   * third work-study model when the header cells C1..S1 equal those of
   * "BG-ALT-S3.xlsx", else the second one when C1..U1 equal those of
   * "BG-ALT-S2.xlsx", else an error.
   */
  function MatchTemplate(updated: Cells, templateS3: Cells, templateS2: Cells): Result<WordTemplate> {
    if Headers(updated, S3_HEADER_COLUMNS) == Headers(templateS3, S3_HEADER_COLUMNS) then Ok(ALT3_WORD)
    else if Headers(updated, S2_HEADER_COLUMNS) == Headers(templateS2, S2_HEADER_COLUMNS) then Ok(ALT2_WORD)
    else Err(NO_MATCH)
  }

  /** Comparing the header lists is comparing the sheets cell by cell. */
  lemma {:induction false} HeadersEqual(a: Cells, b: Cells, cols: seq<string>)
    ensures Headers(a, cols) == Headers(b, cols) <==> SameHeaders(a, b, cols)
  {
    if SameHeaders(a, b, cols) {
      assert forall i | 0 <= i < |cols| :: Headers(a, cols)[i] == Headers(b, cols)[i];
    }
    if Headers(a, cols) == Headers(b, cols) {
      forall i | 0 <= i < |cols|
        ensures Strip(ValueOr(a, (cols[i], 1))) == Strip(ValueOr(b, (cols[i], 1)))
      {
        assert Headers(a, cols)[i] == Headers(b, cols)[i];
      }
    }
  }

  /**
   * The choice, cell by cell: the third model exactly when C1..S1 agree with
   * its template, the second exactly when they do not but C1..U1 agree with
   * its template, the error exactly when neither holds.
   */
  lemma {:induction false} MatchTemplateCells(updated: Cells, templateS3: Cells, templateS2: Cells)
    ensures MatchTemplate(updated, templateS3, templateS2) == Ok(ALT3_WORD) <==> SameHeaders(updated, templateS3, S3_HEADER_COLUMNS)
    ensures MatchTemplate(updated, templateS3, templateS2) == Ok(ALT2_WORD)
            <==> !SameHeaders(updated, templateS3, S3_HEADER_COLUMNS) && SameHeaders(updated, templateS2, S2_HEADER_COLUMNS)
    ensures MatchTemplate(updated, templateS3, templateS2) == Err(NO_MATCH)
            <==> !SameHeaders(updated, templateS3, S3_HEADER_COLUMNS) && !SameHeaders(updated, templateS2, S2_HEADER_COLUMNS)
  {
    HeadersEqual(updated, templateS3, S3_HEADER_COLUMNS);
    HeadersEqual(updated, templateS2, S2_HEADER_COLUMNS);
  }

  /** The cells compared for the third model are the first 17 of those compared for the second. */
  lemma {:induction false} HeaderColumnsShared()
    ensures S3_HEADER_COLUMNS == S2_HEADER_COLUMNS[..17]
  {
  }

  /**
   * The second model is chosen only when the two templates themselves differ
   * somewhere in C1..S1: a sheet that agrees with "BG-ALT-S2.xlsx" on C1..U1
   * agrees with "BG-ALT-S3.xlsx" on C1..S1 whenever the two templates agree
   * there, and the third model is tested first.
   */
  lemma {:induction false} SecondOnlyWhenTemplatesDiffer(updated: Cells, templateS3: Cells, templateS2: Cells)
    requires MatchTemplate(updated, templateS3, templateS2) == Ok(ALT2_WORD)
    ensures !SameHeaders(templateS3, templateS2, S3_HEADER_COLUMNS)
  {
    MatchTemplateCells(updated, templateS3, templateS2);
    HeaderColumnsShared();
  }

  /** The curriculum of either chosen model has a credit record: its lookup never fails. */
  lemma {:induction false} ChosenEctsFound(updated: Cells, templateS3: Cells, templateS2: Cells)
    requires MatchTemplate(updated, templateS3, templateS2).Ok?
    ensures Ects.GetEctsForTemplate(MatchTemplate(updated, templateS3, templateS2).value.ectsTemplate).Ok?
  {
    Ects.KeysNormalized();
    var e := MatchTemplate(updated, templateS3, templateS2).value.ectsTemplate;
    assert e in Ects.ECTS_DATA;
    Ects.EctsFound(e);
  }

  /**
   * Neither name the choice returns is one of the 2024-2025 Word models
   * whose grade layouts the report generation knows.
   */
  lemma {:induction false} ChosenNotLaidOut(updated: Cells, templateS3: Cells, templateS2: Cells)
    requires MatchTemplate(updated, templateS3, templateS2).Ok?
    ensures Layouts.ModelOf(MatchTemplate(updated, templateS3, templateS2).value.templateName).None?
  {
    var name := MatchTemplate(updated, templateS3, templateS2).value.templateName;
    assert |name| == 17;
    forall m: Layouts.Model
      ensures name != Layouts.FileName(m)
    {
      assert |Layouts.FileName(m)| != 17;
    }
  }
}
