/**
 * The data of one report card in the first-semester work-study layout
 * (`modeleBG-ALT-S1-2024-2025.docx`): thirteen course grades in four
 * teaching units (UE) of 3, 3, 1 and 6 courses, the UE averages weighted by
 * course credits, the overall average weighted by UE credits, the states of
 * courses, UEs and year, and the credits earned.
 */
module Report {
  import opened Wrappers
  import opened Text
  import opened Decimal
  import opened Cells
  import Grades
  import States

  /** One row of the sheet: column letter to cell text; an absent column is an empty cell. */
  type Row = map<string, string>

  /** `ws[cell].value`, with an empty cell read as "". */
  function Cell(row: Row, col: string): string {
    if col in row then row[col] else ""
  }

  /** `str(ws[cell].value or default)`: the text of the cell, or the default for an empty one. */
  function CellOr(row: Row, col: string, default: string): (r: string)
    ensures Cell(row, col) != "" ==> r == Cell(row, col)
    ensures Cell(row, col) == "" ==> r == default
  {
    if Cell(row, col) != "" then Cell(row, col) else default
  }

  /** The course columns, in course order. */
  const COURSE_COLUMNS: seq<string> := ["D", "E", "F", "H", "I", "J", "L", "N", "O", "P", "Q", "R", "S"]

  /** The heading columns of the four UEs (row 1). */
  const TITLE_COLUMNS: seq<string> := ["C", "G", "K", "M"]

  /** The number of courses of the layout. */
  const COURSES: nat := 13

  /** A UE number. */
  predicate IsUe(k: int) {
    1 <= k <= 4
  }

  /** The first course index of UE `k`: UE 1 holds courses 1-3, UE 2 courses 4-6, UE 3 course 7, UE 4 courses 8-13. */
  function Lo(k: int): nat
    requires IsUe(k)
  {
    if k == 1 then 0 else if k == 2 then 3 else if k == 3 then 6 else 7
  }

  /** One past the last course index of UE `k`. */
  function Hi(k: int): (h: nat)
    requires IsUe(k)
    ensures Lo(k) < h <= COURSES
  {
    if k == 1 then 3 else if k == 2 then 6 else if k == 3 then 7 else 13
  }

  /** The UE of the course of index `j` (0-based). */
  function UeOf(j: nat): (k: int)
    requires j < COURSES
    ensures IsUe(k) && Lo(k) <= j < Hi(k)
  {
    if j < 3 then 1 else if j < 6 then 2 else if j < 7 then 3 else 4
  }

  /** The key of a value in `student_data`, which names a placeholder of the document. */
  datatype Field =
    | CodeApprenant      // "CodeApprenant"
    | NomApprenant       // "nomApprenant"
    | Note(i: nat)       // "note1" .. "note13"
    | MoyUE(k: nat)      // "moyUE1" .. "moyUE4"
    | Moyenne            // "moyenne"
    | DateNaissance      // "dateNaissance"
    | Campus             // "campus"
    | Groupe             // "groupe"
    | EtenduGroupe       // "etendugroupe"
    | Justifiee          // "justifiee"
    | Injustifiee        // "injustifiee"
    | Retard             // "retard"
    | Appreciations      // "APPRECIATIONS"
    | DateDuJour         // "datedujour"
    | EctsUE(k: nat)     // "ECTSUE1" .. "ECTSUE4"
    | MoyenneEcts        // "moyenneECTS"
    | UeTitle(k: nat)    // "UE1_Title" .. "UE4_Title"
    | Matiere(i: nat)    // "matiere1" .. "matiere13"
    | Ects(i: nat)       // "ECTS1", "ECTS2", ...
    | EtatCourse(i: nat) // "etat1" .. "etat13"
    | EtatUE(k: nat)     // "etatUE1" .. "etatUE4"
    | TotalEtat          // "totaletat"

  // ---------------------------------------------------------------------
  // The credits of the layout
  // ---------------------------------------------------------------------

  /** `int(ects_data[f"ECTS{i}"])` succeeds for the thirteen courses. */
  predicate Readable(credits: seq<string>) {
    |credits| >= COURSES && forall j :: 0 <= j < COURSES ==> ParseInt(credits[j]).Some?
  }

  /** ... and no course credit is negative. */
  predicate NonNegative(credits: seq<string>) {
    Readable(credits) && forall j :: 0 <= j < COURSES ==> ParseInt(credits[j]).value >= 0
  }

  /** `sum(int(x) for x in xs)`, for texts that convert. */
  function IntSum(xs: seq<string>): int
    decreases |xs|
  {
    if xs == [] then 0 else IntSum(xs[..|xs| - 1]) + ParseInt(xs[|xs| - 1]).GetOr(0)
  }

  /** The nominal credits of UE `k`: the sum of its courses' credits. */
  function NominalUe(credits: seq<string>, k: int): int
    requires IsUe(k) && |credits| >= COURSES
  {
    IntSum(credits[Lo(k)..Hi(k)])
  }

  /** `moyenne_ects`: the nominal credits of the four UEs. */
  function NominalTotal(credits: seq<string>): int
    requires |credits| >= COURSES
  {
    NominalUe(credits, 1) + NominalUe(credits, 2) + NominalUe(credits, 3) + NominalUe(credits, 4)
  }

  // ---------------------------------------------------------------------
  // Grades and averages
  // ---------------------------------------------------------------------

  /** The thirteen course grades, each cell read by `calculate_single_note_average`. */
  function Notes(row: Row): (notes: seq<string>)
    ensures |notes| == COURSES
    ensures forall j :: 0 <= j < COURSES ==> notes[j] == Grades.SingleNoteAverage(Cell(row, COURSE_COLUMNS[j]))
  {
    seq(COURSES, j requires 0 <= j < COURSES => Grades.SingleNoteAverage(Cell(row, COURSE_COLUMNS[j])))
  }

  /** The average of UE `k`: its grades weighted by its courses' credits. */
  function UeAverage(notes: seq<string>, credits: seq<string>, k: int): string
    requires IsUe(k) && |notes| == COURSES && |credits| >= COURSES
  {
    Grades.EctsWeightedAverage(notes[Lo(k)..Hi(k)], credits[Lo(k)..Hi(k)])
  }

  /** The mean of four values weighted by four credits. */
  function Mean(a1: real, a2: real, a3: real, a4: real, n1: int, n2: int, n3: int, n4: int): real
    requires n1 + n2 + n3 + n4 > 0
  {
    (a1 * n1 as real + a2 * n2 as real + a3 * n3 as real + a4 * n4 as real) / (n1 + n2 + n3 + n4) as real
  }

  /**
   * The overall average: the UE averages (`float(moy or 0)`, an empty one
   * counting as 0) weighted by the UE nominal credits, to two decimals; ""
   * when the credits add up to nothing or an average does not convert.
   */
  function OverallAverage(m1: string, m2: string, m3: string, m4: string, n1: int, n2: int, n3: int, n4: int): string {
    if n1 + n2 + n3 + n4 > 0 then
      match (FloatOrZero(m1), FloatOrZero(m2), FloatOrZero(m3), FloatOrZero(m4))
      case (Some(a1), Some(a2), Some(a3), Some(a4)) => Format2(Mean(a1, a2, a3, a4, n1, n2, n3, n4))
      case _ => ""
    else ""
  }

  /** The overall average of the row. */
  function RowAverage(notes: seq<string>, credits: seq<string>): string
    requires |notes| == COURSES && |credits| >= COURSES
  {
    OverallAverage(UeAverage(notes, credits, 1), UeAverage(notes, credits, 2),
                   UeAverage(notes, credits, 3), UeAverage(notes, credits, 4),
                   NominalUe(credits, 1), NominalUe(credits, 2), NominalUe(credits, 3), NominalUe(credits, 4))
  }

  // ---------------------------------------------------------------------
  // States
  // ---------------------------------------------------------------------

  /** A present grade, as `float` reads it, below 8. */
  predicate Below8(note: string) {
    note != "" && ParseFloat(note).Some? && ParseFloat(note).value < 8.0
  }

  /** `any(float(n) < 8 for n in ns if n)`. */
  predicate AnyBelow8(ns: seq<string>)
    decreases |ns|
  {
    |ns| > 0 && (Below8(ns[0]) || AnyBelow8(ns[1..]))
  }

  /** The scan finds a grade below 8 exactly when there is one. */
  lemma {:induction false} AnyBelow8Exists(ns: seq<string>)
    ensures AnyBelow8(ns) <==> exists j :: 0 <= j < |ns| && Below8(ns[j])
    decreases |ns|
  {
    if |ns| > 0 {
      AnyBelow8Exists(ns[1..]);
      if Below8(ns[0]) {
        assert Below8(ns[0]);
      } else if exists j :: 0 <= j < |ns| && Below8(ns[j]) {
        var j :| 0 <= j < |ns| && Below8(ns[j]);
        assert ns[1..][j - 1] == ns[j];
      }
      if exists j :: 0 <= j < |ns[1..]| && Below8(ns[1..][j]) {
        var j :| 0 <= j < |ns[1..]| && Below8(ns[1..][j]);
        assert ns[j + 1] == ns[1..][j];
      }
    }
  }

  /** `has_r_ue1` .. `has_r_ue4`: whether each UE holds a present grade below 8. */
  function HasRs(notes: seq<string>): seq<bool>
    requires |notes| == COURSES
  {
    seq(4, j requires 0 <= j < 4 => AnyBelow8(notes[Lo(j + 1)..Hi(j + 1)]))
  }

  /** The flag of UE `k` is set exactly when one of its present grades is below 8. */
  lemma {:induction false} HasRsMeaning(notes: seq<string>, k: int)
    requires IsUe(k) && |notes| == COURSES
    ensures var ns := notes[Lo(k)..Hi(k)];
            HasRs(notes)[k - 1] <==> exists j :: 0 <= j < |ns| && Below8(ns[j])
  {
    var ns := notes[Lo(k)..Hi(k)];
    assert HasRs(notes)[k - 1] == AnyBelow8(ns);
    AnyBelow8Exists(ns);
  }

  /**
   * The states of the courses of UE `k`, in order: `get_etat(note<i>,
   * has_r_ue<k>)`, the list `get_etat_ue` receives.
   */
  function UeStates(notes: seq<string>, k: int): (es: seq<string>)
    requires IsUe(k) && |notes| == COURSES
    ensures |es| == Hi(k) - Lo(k)
    ensures forall j :: 0 <= j < |es| ==> es[j] == States.Etat(notes[Lo(k) + j], HasRs(notes)[k - 1])
  {
    States.EtatAll(notes[Lo(k)..Hi(k)], HasRs(notes)[k - 1])
  }

  /** The four UE averages `moyUE1` .. `moyUE4`. */
  function UeAverages(notes: seq<string>, credits: seq<string>): (moys: seq<string>)
    requires |notes| == COURSES && |credits| >= COURSES
    ensures |moys| == 4
  {
    [UeAverage(notes, credits, 1), UeAverage(notes, credits, 2), UeAverage(notes, credits, 3), UeAverage(notes, credits, 4)]
  }

  /** The state of UE `k`, from its courses' states and its average `moy`. */
  function UeEtat(notes: seq<string>, moy: string, k: int): string
    requires IsUe(k) && |notes| == COURSES
  {
    States.EtatUe(UeStates(notes, k), moy)
  }

  /** The state of the year, from the four UE states. */
  function YearEtat(notes: seq<string>, moys: seq<string>): string
    requires |notes| == COURSES && |moys| == 4
  {
    States.TotalEtat(UeEtat(notes, moys[0], 1), UeEtat(notes, moys[1], 2),
                     UeEtat(notes, moys[2], 3), UeEtat(notes, moys[3], 4))
  }

  // ---------------------------------------------------------------------
  // Credits earned
  // ---------------------------------------------------------------------

  /** The credits each course keeps, `adjust_ects(note, ects_data[f"ECTS{i}"])`. */
  function AdjustedCredits(notes: seq<string>, credits: seq<string>): (adj: seq<string>)
    requires |notes| == COURSES && |credits| >= COURSES
    ensures |adj| == COURSES
    ensures forall j :: 0 <= j < COURSES ==> adj[j] == States.AdjustEcts(notes[j], credits[j], false, "")
  {
    seq(COURSES, j requires 0 <= j < COURSES => States.AdjustEcts(notes[j], credits[j], false, ""))
  }

  /** `ECTSUE<k>`: the sum of the kept credits of UE `k`; for the one-course UE 3 the course's own text. */
  function UeEarned(adj: seq<string>, k: int): string
    requires IsUe(k) && |adj| == COURSES
  {
    if k == 3 then adj[6] else IntToString(IntSum(adj[Lo(k)..Hi(k)]))
  }

  /** `moyenneECTS`: the sum of the four `ECTSUE` values. */
  function YearEarned(adj: seq<string>): int
    requires |adj| == COURSES
  {
    IntSum([UeEarned(adj, 1), UeEarned(adj, 2), UeEarned(adj, 3), UeEarned(adj, 4)])
  }

  // ---------------------------------------------------------------------
  // Sums of credits
  // ---------------------------------------------------------------------

  /** The sum over a concatenation is the sum of the sums. */
  lemma {:induction false} IntSumConcat(a: seq<string>, b: seq<string>)
    ensures IntSum(a + b) == IntSum(a) + IntSum(b)
    decreases |b|
  {
    if b == [] {
      assert a + b == a;
    } else {
      var b' := b[..|b| - 1];
      var ab := a + b;
      assert ab[..|ab| - 1] == a + b';
      assert ab[|ab| - 1] == b[|b| - 1];
      assert IntSum(ab) == IntSum(a + b') + ParseInt(b[|b| - 1]).GetOr(0);
      IntSumConcat(a, b');
    }
  }

  /** The sum of one text is its value. */
  lemma {:induction false} IntSumSingle(x: string)
    ensures IntSum([x]) == ParseInt(x).GetOr(0)
  {
    assert [x][..0] == [];
  }

  /** Sums of texts that convert to values bounded pointwise are bounded the same way. */
  lemma {:induction false} IntSumBounded(xs: seq<string>, ys: seq<string>)
    requires |xs| == |ys|
    requires forall j :: 0 <= j < |xs| ==> 0 <= ParseInt(xs[j]).GetOr(0) <= ParseInt(ys[j]).GetOr(0)
    ensures 0 <= IntSum(xs) <= IntSum(ys)
    decreases |xs|
  {
    if xs != [] {
      var n := |xs| - 1;
      assert forall j :: 0 <= j < n ==> xs[..n][j] == xs[j] && ys[..n][j] == ys[j];
      IntSumBounded(xs[..n], ys[..n]);
    }
  }

  /** Kept credits that are integers between 0 and the nominal credits, course by course. */
  predicate WithinNominal(adj: seq<string>, credits: seq<string>) {
    |adj| == COURSES && |credits| >= COURSES &&
    forall j :: 0 <= j < COURSES ==>
      ParseInt(adj[j]).Some? && ParseInt(credits[j]).Some? && 0 <= ParseInt(adj[j]).value <= ParseInt(credits[j]).value
  }

  /** With non-negative credits, every course keeps between none and all of its credits. */
  lemma {:induction false} KeptCreditsWithinNominal(notes: seq<string>, credits: seq<string>)
    requires |notes| == COURSES && NonNegative(credits)
    ensures WithinNominal(AdjustedCredits(notes, credits), credits)
  {
    var adj := AdjustedCredits(notes, credits);
    forall j | 0 <= j < COURSES
      ensures ParseInt(adj[j]).Some? && 0 <= ParseInt(adj[j]).value <= ParseInt(credits[j]).value
    {
      States.AdjustEctsBounded(notes[j], credits[j], ParseInt(credits[j]).value, false, "");
    }
  }

  /** With non-negative credits, every UE is worth a non-negative number of credits. */
  lemma {:induction false} NominalUeNonNegative(credits: seq<string>, k: int)
    requires NonNegative(credits) && IsUe(k)
    ensures NominalUe(credits, k) >= 0
  {
    var c := credits[Lo(k)..Hi(k)];
    IntSumBounded(seq(|c|, j => "0"), c) by {
      States.ParseIntZero();
    }
  }

  /** `ECTSUE<k>` is an integer between 0 and the UE's nominal credits. */
  lemma {:induction false} UeEarnedBounded(adj: seq<string>, credits: seq<string>, k: int)
    requires WithinNominal(adj, credits) && IsUe(k)
    ensures ParseInt(UeEarned(adj, k)).Some?
    ensures 0 <= ParseInt(UeEarned(adj, k)).value <= NominalUe(credits, k)
  {
    var a, c := adj[Lo(k)..Hi(k)], credits[Lo(k)..Hi(k)];
    forall j | 0 <= j < |a|
      ensures 0 <= ParseInt(a[j]).GetOr(0) <= ParseInt(c[j]).GetOr(0)
    {
      assert a[j] == adj[Lo(k) + j] && c[j] == credits[Lo(k) + j];
    }
    IntSumBounded(a, c);
    ParseIntRoundTrip(IntSum(a));
    if k == 3 {
      assert a == [adj[6]] && c == [credits[6]];
      IntSumSingle(adj[6]);
      IntSumSingle(credits[6]);
    }
  }

  /** The sum of four texts. */
  lemma {:induction false} IntSumFour(u1: string, u2: string, u3: string, u4: string)
    ensures IntSum([u1, u2, u3, u4])
         == ParseInt(u1).GetOr(0) + ParseInt(u2).GetOr(0) + ParseInt(u3).GetOr(0) + ParseInt(u4).GetOr(0)
  {
    var us := [u1, u2, u3, u4];
    assert us[..3] == [u1, u2, u3];
    assert [u1, u2, u3][..2] == [u1, u2];
    assert [u1, u2][..1] == [u1];
    IntSumSingle(u1);
    assert IntSum([u1, u2]) == IntSum([u1]) + ParseInt(u2).GetOr(0);
    assert IntSum([u1, u2, u3]) == IntSum([u1, u2]) + ParseInt(u3).GetOr(0);
  }

  /** The thirteen kept credits, summed UE by UE. */
  lemma {:induction false} IntSumByUe(adj: seq<string>)
    requires |adj| == COURSES
    ensures IntSum(adj) == IntSum(adj[0..3]) + IntSum(adj[3..6]) + ParseInt(adj[6]).GetOr(0) + IntSum(adj[7..13])
  {
    var s1, s2, s3, s4 := adj[0..3], adj[3..6], adj[6..7], adj[7..13];
    assert s3 == [adj[6]];
    IntSumSingle(adj[6]);
    assert adj[0..6] == s1 + s2;
    assert adj[0..7] == adj[0..6] + s3;
    assert adj == adj[0..7] + s4;
    IntSumConcat(s1, s2);
    IntSumConcat(adj[0..6], s3);
    IntSumConcat(adj[0..7], s4);
  }

  /** The sum of a written sum is that sum. */
  lemma {:induction false} IntToStringValue(n: int)
    ensures ParseInt(IntToString(n)).GetOr(0) == n
  {
    ParseIntRoundTrip(n);
  }

  /** `moyenneECTS` is the sum of the credits kept by all thirteen courses. */
  lemma {:induction false} YearEarnedIsTotal(adj: seq<string>)
    requires |adj| == COURSES
    ensures YearEarned(adj) == IntSum(adj)
  {
    IntSumFour(UeEarned(adj, 1), UeEarned(adj, 2), UeEarned(adj, 3), UeEarned(adj, 4));
    IntToStringValue(IntSum(adj[0..3]));
    IntToStringValue(IntSum(adj[3..6]));
    IntToStringValue(IntSum(adj[7..13]));
    IntSumByUe(adj);
  }

  /** `moyenne_ects` is the sum of the thirteen course credits. */
  lemma {:induction false} NominalTotalIsSum(credits: seq<string>)
    requires |credits| >= COURSES
    ensures NominalTotal(credits) == IntSum(credits[..COURSES])
  {
    var c := credits[..COURSES];
    assert c[0..3] == credits[0..3] && c[3..6] == credits[3..6] && c[6] == credits[6] && c[7..13] == credits[7..13];
    IntSumByUe(c);
    assert credits[6..7] == [credits[6]];
    IntSumSingle(credits[6]);
  }

  /** `moyenneECTS` lies between 0 and `moyenne_ects`, the nominal credits of the four UEs. */
  lemma {:induction false} YearEarnedBounded(adj: seq<string>, credits: seq<string>)
    requires WithinNominal(adj, credits)
    ensures 0 <= YearEarned(adj) <= NominalTotal(credits)
  {
    YearEarnedIsTotal(adj);
    NominalTotalIsSum(credits);
    var c := credits[..COURSES];
    assert forall j :: 0 <= j < COURSES ==> c[j] == credits[j];
    IntSumBounded(adj, c);
  }

  /** With non-negative credits, the row's `moyenneECTS` lies between 0 and `moyenne_ects`. */
  lemma {:induction false} RowEarnedBounded(notes: seq<string>, credits: seq<string>)
    requires |notes| == COURSES && NonNegative(credits)
    ensures 0 <= YearEarned(AdjustedCredits(notes, credits)) <= NominalTotal(credits)
  {
    KeptCreditsWithinNominal(notes, credits);
    YearEarnedBounded(AdjustedCredits(notes, credits), credits);
  }

  // ---------------------------------------------------------------------
  // The credit rule on the grades of the row
  // ---------------------------------------------------------------------

  /** A course whose cell is blank keeps no credit. */
  lemma {:induction false} BlankCourseEarnsNothing(row: Row, credits: seq<string>, j: nat)
    requires |credits| >= COURSES && j < COURSES && Blank(Cell(row, COURSE_COLUMNS[j]))
    ensures AdjustedCredits(Notes(row), credits)[j] == "0"
  {
    Grades.SingleNoteBlank(Cell(row, COURSE_COLUMNS[j]));
    States.AdjustEctsBlank(credits[j]);
  }

  /** A course whose cell averages `x` keeps its credits exactly when `x` rounds to 8 or more. */
  lemma {:induction false} GradedCourseCredits(row: Row, credits: seq<string>, j: nat, x: real)
    requires |credits| >= COURSES && j < COURSES
    requires Grades.SingleNoteValue(Cell(row, COURSE_COLUMNS[j])) == Some(x)
    ensures AdjustedCredits(Notes(row), credits)[j] == if RoundTo2(x) < 8.0 then "0" else credits[j]
  {
    States.AdjustEctsOfFormatted(x, credits[j]);
  }

  // ---------------------------------------------------------------------
  // States on the grades of the row
  // ---------------------------------------------------------------------

  /** A present grade below 8: the course is to be retaken. */
  predicate Failed(note: string) {
    GradeOf(note).Some? && GradeOf(note).value < 8.0
  }

  /** No present grade among `ns` is below 8. */
  predicate NoneFailed(ns: seq<string>) {
    forall j :: 0 <= j < |ns| ==> !Failed(ns[j])
  }

  /** `get_etat` gives "R" exactly for a present grade below 8. */
  lemma {:induction false} EtatRetake(note: string, hasR: bool)
    ensures States.Etat(note, hasR) == "R" <==> Failed(note)
  {
  }

  /** The states hold no "R" exactly when no grade is below 8. */
  lemma {:induction false} NoRetake(ns: seq<string>, es: seq<string>)
    requires |es| == |ns|
    requires forall j :: 0 <= j < |ns| ==> (es[j] == "R" <==> Failed(ns[j]))
    ensures "R" !in es <==> NoneFailed(ns)
  {
    if "R" in es {
      var i :| 0 <= i < |es| && es[i] == "R";
      assert Failed(ns[i]);
    }
  }

  /** UE `k` is validated exactly when none of its grades is below 8 and its average is at least 10. */
  lemma {:induction false} UeEtatValidated(notes: seq<string>, moy: string, k: int)
    requires IsUe(k) && |notes| == COURSES
    ensures UeEtat(notes, moy, k) == "VA" <==> NoneFailed(notes[Lo(k)..Hi(k)]) && AverageOrZero(moy) >= 10.0
  {
    UeStatesRetake(notes, k);
    NoRetake(notes[Lo(k)..Hi(k)], UeStates(notes, k));
  }

  /** A course of UE `k` is in state "R" exactly when its grade is present and below 8. */
  lemma {:induction false} UeStatesRetake(notes: seq<string>, k: int)
    requires IsUe(k) && |notes| == COURSES
    ensures forall j :: 0 <= j < Hi(k) - Lo(k) ==> (UeStates(notes, k)[j] == "R" <==> Failed(notes[Lo(k)..Hi(k)][j]))
  {
    var es, ns := UeStates(notes, k), notes[Lo(k)..Hi(k)];
    forall j | 0 <= j < Hi(k) - Lo(k)
      ensures es[j] == "R" <==> Failed(ns[j])
    {
      assert ns[j] == notes[Lo(k) + j];
      EtatRetake(ns[j], HasRs(notes)[k - 1]);
    }
  }

  /** States `es` of the grades `notes[lo..hi]` make a validated UE exactly when no grade is below 8 and the average is at least 10. */
  lemma {:induction false} StatesValidated(notes: seq<string>, lo: nat, hi: nat, es: seq<string>, moy: string, hasR: bool)
    requires lo <= hi <= |notes| && |es| == hi - lo
    requires forall j :: 0 <= j < |es| ==> es[j] == States.Etat(notes[lo + j], hasR)
    ensures States.EtatUe(es, moy) == "VA" <==> NoneFailed(notes[lo..hi]) && AverageOrZero(moy) >= 10.0
  {
    var ns := notes[lo..hi];
    forall j | 0 <= j < |ns|
      ensures es[j] == "R" <==> Failed(ns[j])
    {
      assert ns[j] == notes[lo + j];
      EtatRetake(ns[j], hasR);
    }
    NoRetake(ns, es);
  }

  /** A validated UE has no present course grade below 8, and its average is at least 10. */
  lemma {:induction false} UeValidatedCourse(notes: seq<string>, moy: string, k: int, j: nat)
    requires IsUe(k) && |notes| == COURSES && Lo(k) <= j < Hi(k)
    requires UeEtat(notes, moy, k) == "VA"
    ensures !Failed(notes[j]) && AverageOrZero(moy) >= 10.0
  {
    UeEtatValidated(notes, moy, k);
    NoneFailedAt(notes[Lo(k)..Hi(k)], notes, Lo(k), j);
  }

  /** A course of a slice with no failed grade is not failed. */
  lemma {:induction false} NoneFailedAt(ns: seq<string>, notes: seq<string>, lo: nat, j: nat)
    requires lo <= j < lo + |ns| <= |notes| && ns == notes[lo..lo + |ns|]
    requires NoneFailed(ns)
    ensures !Failed(notes[j])
  {
    assert ns[j - lo] == notes[j];
  }

  /** A validated year has no present course grade below 8, and every UE average is at least 10. */
  lemma {:induction false} YearValidatedCourses(notes: seq<string>, moys: seq<string>, j: nat)
    requires |notes| == COURSES && |moys| == 4 && j < COURSES
    requires YearEtat(notes, moys) == "VA"
    ensures !Failed(notes[j])
    ensures AverageOrZero(moys[UeOf(j) - 1]) >= 10.0
  {
    if j < 3 {
      UeValidatedCourse(notes, moys[0], 1, j);
    } else if j < 6 {
      UeValidatedCourse(notes, moys[1], 2, j);
    } else if j < 7 {
      UeValidatedCourse(notes, moys[2], 3, j);
    } else {
      UeValidatedCourse(notes, moys[3], 4, j);
    }
  }

  // ---------------------------------------------------------------------
  // The overall average
  // ---------------------------------------------------------------------

  /** The value `float(moyUE or 0)` reads from the average of UE `k`: 0 when empty, else the rounded average. */
  function UeValue(notes: seq<string>, credits: seq<string>, k: int): real
    requires IsUe(k) && |notes| == COURSES && |credits| >= COURSES
  {
    match Grades.EctsAverageValue(notes[Lo(k)..Hi(k)], credits[Lo(k)..Hi(k)])
    case None => 0.0
    case Some(v) => RoundTo2(v)
  }

  /** A UE average always reads back, an empty one as 0. */
  lemma {:induction false} UeAverageReadsBack(notes: seq<string>, credits: seq<string>, k: int)
    requires IsUe(k) && |notes| == COURSES && |credits| >= COURSES
    ensures FloatOrZero(UeAverage(notes, credits, k)) == Some(UeValue(notes, credits, k))
  {
    var ns, cs := notes[Lo(k)..Hi(k)], credits[Lo(k)..Hi(k)];
    AverageTextReadsBack(Grades.EctsWeightedAverage(ns, cs), Grades.EctsAverageValue(ns, cs));
  }

  /** The text of an optional average reads back as its rounded value, or 0 when there is none. */
  lemma {:induction false} AverageTextReadsBack(s: string, o: Option<real>)
    requires s == match o case Some(x) => Format2(x) case None => ""
    ensures FloatOrZero(s) == Some(match o case None => 0.0 case Some(v) => RoundTo2(v))
  {
    match o
    case None =>
    case Some(v) => FloatOrZeroFormatted(v);
  }

  /**
   * With credits, the overall average is the UE values weighted by the UE
   * nominal credits, a UE without an average counting as 0.
   */
  lemma {:induction false} RowAverageWeighted(notes: seq<string>, credits: seq<string>)
    requires |notes| == COURSES && |credits| >= COURSES && NominalTotal(credits) > 0
    ensures RowAverage(notes, credits) == Format2(Mean(
              UeValue(notes, credits, 1), UeValue(notes, credits, 2), UeValue(notes, credits, 3), UeValue(notes, credits, 4),
              NominalUe(credits, 1), NominalUe(credits, 2), NominalUe(credits, 3), NominalUe(credits, 4)))
  {
    UeAverageReadsBack(notes, credits, 1);
    UeAverageReadsBack(notes, credits, 2);
    UeAverageReadsBack(notes, credits, 3);
    UeAverageReadsBack(notes, credits, 4);
  }

  /** With non-negative credits, the overall average is "" exactly when the UEs carry no credit. */
  lemma {:induction false} RowAverageBlank(notes: seq<string>, credits: seq<string>)
    requires |notes| == COURSES && NonNegative(credits)
    ensures RowAverage(notes, credits) == "" <==> NominalTotal(credits) == 0
  {
    NominalUeNonNegative(credits, 1);
    NominalUeNonNegative(credits, 2);
    NominalUeNonNegative(credits, 3);
    NominalUeNonNegative(credits, 4);
    if NominalTotal(credits) > 0 {
      RowAverageWeighted(notes, credits);
    }
  }

  // ---------------------------------------------------------------------
  // student_data
  // ---------------------------------------------------------------------

  /** The state `get_etat` gives course `i` (1-based), with the flag of its UE. */
  function CourseState(notes: seq<string>, i: int): string
    requires |notes| == COURSES && 1 <= i <= COURSES
  {
    States.Etat(notes[i - 1], HasRs(notes)[UeOf(i - 1) - 1])
  }

  /** `adjust_ects(note, original)` as the credits loop calls it. */
  function AdjustCourse(note: string, original: string): string {
    States.AdjustEcts(note, original, false, "")
  }

  /** `str(sum(int(x) for x in xs))`. */
  function SumText(xs: seq<string>): string {
    IntToString(IntSum(xs))
  }

  /** The title of UE `k` (1-based) in row 1. */
  function TitleCell(header: Row, k: int): string
    requires 1 <= k <= 4
  {
    Cell(header, TITLE_COLUMNS[k - 1])
  }

  /** The name of course `i` (1-based) in row 1. */
  function CourseCell(header: Row, i: int): string
    requires 1 <= i <= COURSES
  {
    Cell(header, COURSE_COLUMNS[i - 1])
  }

  /** The identity and absence placeholders, filled from the row's cells. */
  predicate RowKey(f: Field) {
    || f.CodeApprenant? || f.NomApprenant? || f.DateNaissance? || f.Campus? || f.Groupe?
    || f.EtenduGroupe? || f.Justifiee? || f.Injustifiee? || f.Retard? || f.Appreciations?
  }

  /** `note1` .. `note13`. */
  predicate GradeKey(f: Field) {
    f.Note? && 1 <= f.i <= COURSES
  }

  /** `moyUE1` .. `moyUE4`, `moyenne` and `datedujour`. */
  predicate AverageKey(f: Field) {
    (f.MoyUE? && 1 <= f.k <= 4) || f.Moyenne? || f.DateDuJour?
  }

  /** `ECTSUE1` .. `ECTSUE4` and `moyenneECTS`. */
  predicate EarnedKey(f: Field) {
    (f.EctsUE? && 1 <= f.k <= 4) || f.MoyenneEcts?
  }

  /** `ue_matieres`: `UE1_Title` .. `UE4_Title` and `matiere1` .. `matiere13`. */
  predicate HeadingKey(f: Field) {
    (f.UeTitle? && 1 <= f.k <= 4) || (f.Matiere? && 1 <= f.i <= COURSES)
  }

  /** `ects_data` of a record of `n` slots: `ECTS1` .. `ECTS<n>`. */
  predicate CreditKey(f: Field, n: nat) {
    f.Ects? && 1 <= f.i <= n
  }

  /** `etats`: `etat1` .. `etat13`. */
  predicate CourseEtatKey(f: Field) {
    f.EtatCourse? && 1 <= f.i <= COURSES
  }

  /** `etats_ue`, `etatUE1` .. `etatUE4`, and `totaletat`. */
  predicate UeEtatKey(f: Field) {
    (f.EtatUE? && 1 <= f.k <= 4) || f.TotalEtat?
  }

  /** The keys written one by one in the literal of `student_data`. */
  predicate LiteralKey(f: Field) {
    RowKey(f) || GradeKey(f) || AverageKey(f) || EarnedKey(f)
  }

  /** The keys of `student_data` as first built, for a credit record of `n` slots. */
  predicate InitialKey(f: Field, n: nat) {
    LiteralKey(f) || HeadingKey(f) || CreditKey(f, n)
  }

  /** The keys of `student_data` once the states are merged in. */
  predicate StagedKey(f: Field, n: nat) {
    InitialKey(f, n) || CourseEtatKey(f) || UeEtatKey(f)
  }

  /** The keys the credits stage writes again. */
  predicate RecomputedKey(f: Field) {
    CreditKey(f, COURSES) || EarnedKey(f)
  }

  /**
   * The numbered placeholders within range: a course from 1 to 13, a UE from
   * 1 to 4, a credit slot from 1 to the `n` slots of the record.
   */
  predicate InRange(f: Field, n: nat) {
    match f
    case Note(i) => 1 <= i <= COURSES
    case Matiere(i) => 1 <= i <= COURSES
    case EtatCourse(i) => 1 <= i <= COURSES
    case Ects(i) => 1 <= i <= n
    case MoyUE(k) => 1 <= k <= 4
    case EctsUE(k) => 1 <= k <= 4
    case UeTitle(k) => 1 <= k <= 4
    case EtatUE(k) => 1 <= k <= 4
    case _ => true
  }

  /** With at least thirteen credit slots, `student_data` holds every placeholder in range, and only those. */
  lemma {:induction false} ReportKeysInRange(n: nat)
    requires COURSES <= n
    ensures forall f :: StagedKey(f, n) || RecomputedKey(f) <==> InRange(f, n)
  {
  }

  /** The parts of the literal of `student_data` share no key. */
  lemma {:induction false} LiteralDisjoint()
    ensures forall f :: RowKey(f) ==> !GradeKey(f) && !AverageKey(f) && !EarnedKey(f)
    ensures forall f :: GradeKey(f) ==> !AverageKey(f) && !EarnedKey(f)
    ensures forall f :: AverageKey(f) ==> !EarnedKey(f)
  {
  }

  /** The literal, `ue_matieres` and `ects_data` share no key. */
  lemma {:induction false} InitialDisjoint(n: nat)
    ensures forall f :: LiteralKey(f) ==> !HeadingKey(f) && !CreditKey(f, n)
    ensures forall f :: HeadingKey(f) ==> !CreditKey(f, n)
  {
  }

  /** `student_data` as first built, `etats` and `etats_ue` share no key. */
  lemma {:induction false} StagedDisjoint(n: nat)
    ensures forall f :: InitialKey(f, n) ==> !CourseEtatKey(f) && !UeEtatKey(f)
    ensures forall f :: CourseEtatKey(f) ==> !UeEtatKey(f)
  {
  }

  /** Merging a map whose keys are disjoint from those of `a` keeps every entry of `a`. */
  lemma {:induction false} MergeKeeps(a: map<Field, string>, b: map<Field, string>)
    requires a.Keys !! b.Keys
    ensures forall f :: f in a ==> f in a + b && (a + b)[f] == a[f]
  {
  }

  /** Merging the credits stage keeps every entry of `a` but the credit slots up to the thirteenth and the UE and year credits. */
  lemma {:induction false} MergeRecomputed(a: map<Field, string>, b: map<Field, string>)
    requires forall f :: f in b <==> RecomputedKey(f)
    ensures forall f :: f in a && !(f.Ects? && f.i <= COURSES) && !f.EctsUE? && !f.MoyenneEcts? ==> f in a + b && (a + b)[f] == a[f]
  {
  }

  /** The identity and absence cells of a student row. */
  datatype Learner = Learner(code: string, nom: string, naissance: string, campus: string, groupe: string,
                             etendu: string, justifiee: string, injustifiee: string, retard: string, appreciations: string)

  /**
   * The cells of the row `student_data` copies: columns A, B, T, U, W, X as
   * they are, the absence durations Y, Z, AA with "0h0m" for an empty cell,
   * and the remarks AB with " " for an empty cell.
   */
  function LearnerOf(row: Row): Learner {
    Learner(Cell(row, "A"), Cell(row, "B"), Cell(row, "T"), Cell(row, "U"), Cell(row, "W"), Cell(row, "X"),
            CellOr(row, "Y", "0h0m"), CellOr(row, "Z", "0h0m"), CellOr(row, "AA", "0h0m"), CellOr(row, "AB", " "))
  }

  /** The identity and absence placeholders of `m` hold the learner's cells. */
  predicate HoldsLearner(m: map<Field, string>, l: Learner) {
    && CodeApprenant in m && m[CodeApprenant] == l.code
    && NomApprenant in m && m[NomApprenant] == l.nom
    && DateNaissance in m && m[DateNaissance] == l.naissance
    && Campus in m && m[Campus] == l.campus
    && Groupe in m && m[Groupe] == l.groupe
    && EtenduGroupe in m && m[EtenduGroupe] == l.etendu
    && Justifiee in m && m[Justifiee] == l.justifiee
    && Injustifiee in m && m[Injustifiee] == l.injustifiee
    && Retard in m && m[Retard] == l.retard
    && Appreciations in m && m[Appreciations] == l.appreciations
  }

  /** The etats of courses `lo + 1` .. `hi`, as `[etats[f"etat{i}"] for i in range(lo + 1, hi + 1)]`. */
  function EtatList(etats: map<Field, string>, lo: nat, hi: nat): (es: seq<string>)
    requires lo <= hi && forall i :: lo < i <= hi ==> EtatCourse(i) in etats
    ensures |es| == hi - lo && forall j :: 0 <= j < hi - lo ==> es[j] == etats[EtatCourse(lo + j + 1)]
  {
    seq(hi - lo, j requires 0 <= j < hi - lo => etats[EtatCourse(lo + j + 1)])
  }

  /** The credits of courses `lo + 1` .. `hi` held in `data`. */
  function CreditList(data: map<Field, string>, lo: nat, hi: nat): (cs: seq<string>)
    requires lo <= hi && forall i :: lo < i <= hi ==> Ects(i) in data
    ensures |cs| == hi - lo && forall j :: 0 <= j < hi - lo ==> cs[j] == data[Ects(lo + j + 1)]
  {
    seq(hi - lo, j requires 0 <= j < hi - lo => data[Ects(lo + j + 1)])
  }

  // ---------------------------------------------------------------------
  // The stages building student_data
  // ---------------------------------------------------------------------

  /** The identity and absence cells of the literal of `student_data`. */
  method RowCells(l: Learner) returns (m: map<Field, string>)
    ensures forall f :: f in m <==> RowKey(f)
    ensures HoldsLearner(m, l)
  {
    m := map[CodeApprenant := l.code, NomApprenant := l.nom, DateNaissance := l.naissance, Campus := l.campus,
             Groupe := l.groupe, EtenduGroupe := l.etendu, Justifiee := l.justifiee, Injustifiee := l.injustifiee,
             Retard := l.retard, Appreciations := l.appreciations];
  }

  /** The UE averages, the overall average and the date of the literal of `student_data`. */
  method Results(moys: seq<string>, moyenne: string, today: string) returns (m: map<Field, string>)
    requires |moys| == 4
    ensures forall f :: f in m <==> AverageKey(f)
    ensures forall k :: 1 <= k <= 4 ==> MoyUE(k) in m && m[MoyUE(k)] == moys[k - 1]
    ensures Moyenne in m && m[Moyenne] == moyenne && DateDuJour in m && m[DateDuJour] == today
  {
    m := (map k | 1 <= k <= 4 :: MoyUE(k) := moys[k - 1])[Moyenne := moyenne][DateDuJour := today];
  }

  /**
   * The nominal credits of the literal of `student_data`, as text:
   * `ECTSUE<k>` per UE and `moyenneECTS` for their total.
   */
  method NominalCredits(nominal: seq<string>) returns (m: map<Field, string>)
    requires |nominal| == 5
    ensures forall f :: f in m <==> EarnedKey(f)
    ensures EctsUE(1) in m && m[EctsUE(1)] == nominal[0] && EctsUE(2) in m && m[EctsUE(2)] == nominal[1]
    ensures EctsUE(3) in m && m[EctsUE(3)] == nominal[2] && EctsUE(4) in m && m[EctsUE(4)] == nominal[3]
    ensures MoyenneEcts in m && m[MoyenneEcts] == nominal[4]
  {
    m := map[EctsUE(1) := nominal[0], EctsUE(2) := nominal[1], EctsUE(3) := nominal[2], EctsUE(4) := nominal[3],
             MoyenneEcts := nominal[4]];
  }

  /** The thirteen `note<i>` entries. */
  method NoteFields(notes: seq<string>) returns (m: map<Field, string>)
    requires |notes| == COURSES
    ensures forall f :: f in m <==> GradeKey(f)
    ensures forall i :: 1 <= i <= COURSES ==> Note(i) in m && m[Note(i)] == notes[i - 1]
  {
    m := map i | 1 <= i <= COURSES :: Note(i) := notes[i - 1];
  }

  /** `ue_matieres`: the headings of row 1, the four UE titles and the thirteen course names. */
  method UeMatieres(header: Row) returns (m: map<Field, string>)
    ensures forall f :: f in m <==> HeadingKey(f)
    ensures forall k :: 1 <= k <= 4 ==> UeTitle(k) in m && m[UeTitle(k)] == TitleCell(header, k)
    ensures forall i :: 1 <= i <= COURSES ==> Matiere(i) in m && m[Matiere(i)] == CourseCell(header, i)
  {
    m := (map k | 1 <= k <= 4 :: UeTitle(k) := TitleCell(header, k))
         + (map i | 1 <= i <= COURSES :: Matiere(i) := CourseCell(header, i));
  }

  /** `ects_data`: the credits of every slot, `ECTS<i>` for the `i`-th. */
  method EctsFields(credits: seq<string>) returns (m: map<Field, string>)
    ensures forall f :: f in m <==> CreditKey(f, |credits|)
    ensures forall i :: 1 <= i <= |credits| ==> Ects(i) in m && m[Ects(i)] == credits[i - 1]
  {
    m := map i | 1 <= i <= |credits| :: Ects(i) := credits[i - 1];
  }

  /**
   * The keys written one by one in the literal of `student_data`: the row's
   * cells, the grades, the averages, the date and the nominal credits.
   */
  method Literal(l: Learner, today: string, notes: seq<string>, moys: seq<string>, moyenne: string, nominal: seq<string>)
    returns (m: map<Field, string>)
    requires |notes| == COURSES && |moys| == 4 && |nominal| == 5
    ensures forall f :: f in m <==> LiteralKey(f)
    ensures HoldsLearner(m, l)
    ensures forall i :: 1 <= i <= COURSES ==> Note(i) in m && m[Note(i)] == notes[i - 1]
    ensures forall k :: 1 <= k <= 4 ==> MoyUE(k) in m && m[MoyUE(k)] == moys[k - 1]
    ensures Moyenne in m && m[Moyenne] == moyenne && DateDuJour in m && m[DateDuJour] == today
  {
    var front := LearnerGrades(l, notes);
    var results := Results(moys, moyenne, today);
    var nominals := NominalCredits(nominal);
    m := front + results + nominals;
    LiteralDisjoint();
    MergeKeeps(front, results);
    MergeKeeps(front + results, nominals);
  }

  /** The identity and absence cells followed by the grades. */
  method LearnerGrades(l: Learner, notes: seq<string>) returns (m: map<Field, string>)
    requires |notes| == COURSES
    ensures forall f :: f in m <==> RowKey(f) || GradeKey(f)
    ensures HoldsLearner(m, l)
    ensures forall i :: 1 <= i <= COURSES ==> Note(i) in m && m[Note(i)] == notes[i - 1]
  {
    var cells := RowCells(l);
    var grades := NoteFields(notes);
    m := cells + grades;
    LiteralDisjoint();
    MergeKeeps(cells, grades);
  }

  /**
   * The whole literal of `student_data`, ending with `**ue_matieres` and
   * `**ects_data`.
   */
  method InitialData(l: Learner, header: Row, credits: seq<string>, today: string, notes: seq<string>,
                     moys: seq<string>, moyenne: string, nominal: seq<string>)
    returns (data: map<Field, string>)
    requires |notes| == COURSES && |moys| == 4 && |nominal| == 5
    ensures forall f :: f in data <==> InitialKey(f, |credits|)
    ensures HoldsLearner(data, l)
    ensures forall i :: 1 <= i <= COURSES ==> Note(i) in data && data[Note(i)] == notes[i - 1]
    ensures forall k :: 1 <= k <= 4 ==> MoyUE(k) in data && data[MoyUE(k)] == moys[k - 1]
    ensures Moyenne in data && data[Moyenne] == moyenne && DateDuJour in data && data[DateDuJour] == today
    ensures forall k :: 1 <= k <= 4 ==> UeTitle(k) in data && data[UeTitle(k)] == TitleCell(header, k)
    ensures forall i :: 1 <= i <= COURSES ==> Matiere(i) in data && data[Matiere(i)] == CourseCell(header, i)
    ensures forall i :: 1 <= i <= |credits| ==> Ects(i) in data && data[Ects(i)] == credits[i - 1]
  {
    var literal := Literal(l, today, notes, moys, moyenne, nominal);
    var titles := UeMatieres(header);
    var slots := EctsFields(credits);
    data := literal + titles + slots;
    InitialDisjoint(|credits|);
    MergeKeeps(literal, titles);
    MergeKeeps(literal + titles, slots);
  }

  /**
   * One of the loops filling `etats`: `etat<i>` is `state(note<i>)` for the
   * courses `lo + 1` .. `hi`, where `state` is `get_etat` with the flag of
   * their UE.
   */
  method FillStates(etats: map<Field, string>, notes: seq<string>, lo: nat, hi: nat, state: string -> string)
    returns (r: map<Field, string>)
    requires lo <= hi <= COURSES && |notes| == COURSES
    ensures forall f :: f in r <==> f in etats || (f.EtatCourse? && lo < f.i <= hi)
    ensures forall f :: f in etats && !(f.EtatCourse? && lo < f.i <= hi) ==> r[f] == etats[f]
    ensures forall j :: lo < j <= hi ==> EtatCourse(j) in r && r[EtatCourse(j)] == state(notes[j - 1])
  {
    r := etats;
    var i := lo + 1;
    while i <= hi
      invariant lo + 1 <= i <= hi + 1
      invariant forall f :: f in r <==> f in etats || (f.EtatCourse? && lo < f.i < i)
      invariant forall f :: f in etats && !(f.EtatCourse? && lo < f.i < i) ==> r[f] == etats[f]
      invariant forall j :: lo < j < i ==> EtatCourse(j) in r && r[EtatCourse(j)] == state(notes[j - 1])
    {
      r := r[EtatCourse(i) := state(notes[i - 1])];
      i := i + 1;
    }
  }

  /**
   * The rules `student_data` applies, passed to its stages as values:
   * `get_etat`, `get_etat_ue`, `get_total_etat`, `adjust_ects` on a course
   * and `str(sum(int(x) for x in xs))`.
   */
  datatype Rules = Rules(etat: (string, bool) -> string, etatUe: (seq<string>, string) -> string,
                         totalEtat: (string, string, string, string) -> string,
                         adjust: (string, string) -> string, sum: seq<string> -> string)

  /** The rules of the report card. */
  function ReportRules(): Rules {
    Rules(States.Etat, States.EtatUe, States.TotalEtat, AdjustCourse, SumText)
  }

  /** The states `etat` gives the courses `lo + 1` .. `hi` with the flag `hasR` of their UE. */
  function StateList(notes: seq<string>, hasR: bool, etat: (string, bool) -> string, lo: nat, hi: nat): (es: seq<string>)
    requires lo <= hi <= |notes|
    ensures |es| == hi - lo && forall j :: 0 <= j < hi - lo ==> es[j] == etat(notes[lo + j], hasR)
  {
    seq(hi - lo, j requires 0 <= j < hi - lo => etat(notes[lo + j], hasR))
  }

  /** The credits `adjust` keeps for the courses `lo + 1` .. `hi`. */
  function AdjustList(notes: seq<string>, credits: seq<string>, adjust: (string, string) -> string, lo: nat, hi: nat)
    : (cs: seq<string>)
    requires lo <= hi <= |notes| && hi <= |credits|
    ensures |cs| == hi - lo && forall j :: 0 <= j < hi - lo ==> cs[j] == adjust(notes[lo + j], credits[lo + j])
  {
    seq(hi - lo, j requires 0 <= j < hi - lo => adjust(notes[lo + j], credits[lo + j]))
  }

  /** The four loops filling `etats`: each course of UE `k` gets `etat(note<i>, has_r_ue<k>)`. */
  method CourseStates(notes: seq<string>, hasR: seq<bool>, etat: (string, bool) -> string) returns (etats: map<Field, string>)
    requires |notes| == COURSES && |hasR| == 4
    ensures forall f :: f in etats <==> CourseEtatKey(f)
    ensures forall i :: 1 <= i <= COURSES ==>
              EtatCourse(i) in etats && etats[EtatCourse(i)] == etat(notes[i - 1], hasR[UeOf(i - 1) - 1])
  {
    etats := FillStates(map[], notes, 0, 3, n => etat(n, hasR[0]));
    etats := FillStates(etats, notes, 3, 6, n => etat(n, hasR[1]));
    etats := FillStates(etats, notes, 6, 7, n => etat(n, hasR[2]));
    etats := FillStates(etats, notes, 7, 13, n => etat(n, hasR[3]));
  }

  /** The course of index `Lo(k) + j` belongs to UE `k`. */
  lemma {:induction false} UeOfRange(k: int, j: nat)
    requires IsUe(k) && j < Hi(k) - Lo(k)
    ensures UeOf(Lo(k) + j) == k
  {
  }

  /** The states `etats` holds for the courses of UE `k` are the states of their grades. */
  lemma {:induction false} EtatListIsStateList(etats: map<Field, string>, notes: seq<string>, hasR: seq<bool>,
                                               etat: (string, bool) -> string, k: int)
    requires IsUe(k) && |notes| == COURSES && |hasR| == 4
    requires forall i :: 1 <= i <= COURSES ==>
               EtatCourse(i) in etats && etats[EtatCourse(i)] == etat(notes[i - 1], hasR[UeOf(i - 1) - 1])
    ensures EtatList(etats, Lo(k), Hi(k)) == StateList(notes, hasR[k - 1], etat, Lo(k), Hi(k))
  {
    forall j | 0 <= j < Hi(k) - Lo(k)
      ensures EtatList(etats, Lo(k), Hi(k))[j] == StateList(notes, hasR[k - 1], etat, Lo(k), Hi(k))[j]
    {
      UeOfRange(k, j);
      assert etats[EtatCourse(Lo(k) + j + 1)] == etat(notes[Lo(k) + j], hasR[k - 1]);
    }
  }

  /**
   * `etats_ue` followed by `totaletat`: `etatUe` of each UE on its courses'
   * states in `etats` and its average, then `totalEtat` of the four.
   */
  method UeStatesOf(etats: map<Field, string>, notes: seq<string>, hasR: seq<bool>, moys: seq<string>, rules: Rules)
    returns (ues: map<Field, string>)
    requires |notes| == COURSES && |hasR| == 4 && |moys| == 4
    requires forall i :: 1 <= i <= COURSES ==> EtatCourse(i) in etats && etats[EtatCourse(i)] == rules.etat(notes[i - 1], hasR[UeOf(i - 1) - 1])
    ensures forall f :: f in ues <==> UeEtatKey(f)
    ensures forall k :: 1 <= k <= 4 ==> EtatUE(k) in ues && ues[EtatUE(k)] == rules.etatUe(StateList(notes, hasR[k - 1], rules.etat, Lo(k), Hi(k)), moys[k - 1])
    ensures TotalEtat in ues && ues[TotalEtat] == rules.totalEtat(ues[EtatUE(1)], ues[EtatUE(2)], ues[EtatUE(3)], ues[EtatUE(4)])
  {
    EtatListIsStateList(etats, notes, hasR, rules.etat, 1);
    EtatListIsStateList(etats, notes, hasR, rules.etat, 2);
    EtatListIsStateList(etats, notes, hasR, rules.etat, 3);
    EtatListIsStateList(etats, notes, hasR, rules.etat, 4);
    var u1 := rules.etatUe(EtatList(etats, 0, 3), moys[0]);
    var u2 := rules.etatUe(EtatList(etats, 3, 6), moys[1]);
    var u3 := rules.etatUe(EtatList(etats, 6, 7), moys[2]);
    var u4 := rules.etatUe(EtatList(etats, 7, 13), moys[3]);
    ues := map[EtatUE(1) := u1, EtatUE(2) := u2, EtatUE(3) := u3, EtatUE(4) := u4, TotalEtat := rules.totalEtat(u1, u2, u3, u4)];
  }

  /** The loop recomputing `ECTS<i>` as `adjust(note<i>, ects_data["ECTS<i>"])` for the thirteen courses. */
  method KeptCredits(data: map<Field, string>, credits: seq<string>, adjust: (string, string) -> string)
    returns (kept: map<Field, string>)
    requires |credits| >= COURSES
    requires forall i :: 1 <= i <= COURSES ==> Note(i) in data
    ensures forall f :: f in kept <==> CreditKey(f, COURSES)
    ensures forall i :: 1 <= i <= COURSES ==> Ects(i) in kept && kept[Ects(i)] == adjust(data[Note(i)], credits[i - 1])
  {
    kept := map[];
    var i := 1;
    while i <= COURSES
      invariant 1 <= i <= COURSES + 1
      invariant forall f :: f in kept <==> f.Ects? && 1 <= f.i < i
      invariant forall j :: 1 <= j < i ==> Ects(j) in kept && kept[Ects(j)] == adjust(data[Note(j)], credits[j - 1])
    {
      kept := kept[Ects(i) := adjust(data[Note(i)], credits[i - 1])];
      i := i + 1;
    }
  }

  /** The kept credits `data` holds for the courses `lo + 1` .. `hi` are the ones `adjust` keeps for their grades. */
  lemma {:induction false} CreditListIsAdjustList(data: map<Field, string>, notes: seq<string>, credits: seq<string>,
                                                  adjust: (string, string) -> string, lo: nat, hi: nat)
    requires lo <= hi <= COURSES && |notes| == COURSES && |credits| >= COURSES
    requires forall i :: 1 <= i <= COURSES ==> Ects(i) in data && data[Ects(i)] == adjust(notes[i - 1], credits[i - 1])
    ensures CreditList(data, lo, hi) == AdjustList(notes, credits, adjust, lo, hi)
  {
    forall j | 0 <= j < hi - lo
      ensures CreditList(data, lo, hi)[j] == AdjustList(notes, credits, adjust, lo, hi)[j]
    {
      assert data[Ects(lo + j + 1)] == adjust(notes[lo + j], credits[lo + j]);
    }
  }

  /**
   * `ECTSUE<k>`, the `sum` of the kept credits of UE `k` (UE 3 copies
   * `ECTS7`), and `moyenneECTS`, the `sum` of the four.
   */
  method EarnedCredits(kept: map<Field, string>, credits: seq<string>, notes: seq<string>, rules: Rules)
    returns (earned: map<Field, string>)
    requires |credits| >= COURSES && |notes| == COURSES
    requires forall i :: 1 <= i <= COURSES ==> Ects(i) in kept && kept[Ects(i)] == rules.adjust(notes[i - 1], credits[i - 1])
    ensures forall f :: f in earned <==> EarnedKey(f)
    ensures EctsUE(1) in earned && earned[EctsUE(1)] == rules.sum(AdjustList(notes, credits, rules.adjust, 0, 3))
    ensures EctsUE(2) in earned && earned[EctsUE(2)] == rules.sum(AdjustList(notes, credits, rules.adjust, 3, 6))
    ensures EctsUE(3) in earned && earned[EctsUE(3)] == rules.adjust(notes[6], credits[6])
    ensures EctsUE(4) in earned && earned[EctsUE(4)] == rules.sum(AdjustList(notes, credits, rules.adjust, 7, 13))
    ensures MoyenneEcts in earned
    ensures earned[MoyenneEcts] == rules.sum([earned[EctsUE(1)], earned[EctsUE(2)], earned[EctsUE(3)], earned[EctsUE(4)]])
  {
    CreditListIsAdjustList(kept, notes, credits, rules.adjust, 0, 3);
    CreditListIsAdjustList(kept, notes, credits, rules.adjust, 3, 6);
    CreditListIsAdjustList(kept, notes, credits, rules.adjust, 7, 13);
    var e1, e2 := rules.sum(CreditList(kept, 0, 3)), rules.sum(CreditList(kept, 3, 6));
    var e3, e4 := kept[Ects(7)], rules.sum(CreditList(kept, 7, 13));
    earned := map[EctsUE(1) := e1, EctsUE(2) := e2, EctsUE(3) := e3, EctsUE(4) := e4, MoyenneEcts := rules.sum([e1, e2, e3, e4])];
  }

  /**
   * The credits stage: `ECTS<i>` recomputed for the thirteen courses with
   * `adjust`, then `ECTSUE<k>` and `moyenneECTS` from them.
   */
  method CreditsOf(data: map<Field, string>, credits: seq<string>, notes: seq<string>, rules: Rules)
    returns (r: map<Field, string>)
    requires |credits| >= COURSES && |notes| == COURSES
    requires forall i :: 1 <= i <= COURSES ==> Note(i) in data && data[Note(i)] == notes[i - 1]
    ensures forall f :: f in r <==> RecomputedKey(f)
    ensures forall i :: 1 <= i <= COURSES ==> Ects(i) in r && r[Ects(i)] == rules.adjust(notes[i - 1], credits[i - 1])
    ensures EctsUE(1) in r && r[EctsUE(1)] == rules.sum(AdjustList(notes, credits, rules.adjust, 0, 3))
    ensures EctsUE(2) in r && r[EctsUE(2)] == rules.sum(AdjustList(notes, credits, rules.adjust, 3, 6))
    ensures EctsUE(3) in r && r[EctsUE(3)] == rules.adjust(notes[6], credits[6])
    ensures EctsUE(4) in r && r[EctsUE(4)] == rules.sum(AdjustList(notes, credits, rules.adjust, 7, 13))
    ensures MoyenneEcts in r && r[MoyenneEcts] == rules.sum([r[EctsUE(1)], r[EctsUE(2)], r[EctsUE(3)], r[EctsUE(4)]])
  {
    var kept := KeptCredits(data, credits, rules.adjust);
    var earned := EarnedCredits(kept, credits, notes, rules);
    r := kept + earned;
  }

  /**
   * The first stages of `student_data`, on the values read from the row and
   * under the given rules: the literal, `update(etats)` and
   * `update(etats_ue)` with `totaletat`.
   */
  method WithStates(l: Learner, header: Row, credits: seq<string>, today: string, notes: seq<string>,
                  moys: seq<string>, moyenne: string, nominal: seq<string>, hasR: seq<bool>, rules: Rules)
    returns (data: map<Field, string>)
    requires |credits| >= COURSES && |notes| == COURSES && |moys| == 4 && |nominal| == 5 && |hasR| == 4
    ensures forall f :: f in data <==> StagedKey(f, |credits|)
    ensures HoldsLearner(data, l)
    ensures forall i :: 1 <= i <= COURSES ==> Note(i) in data && data[Note(i)] == notes[i - 1]
    ensures forall k :: 1 <= k <= 4 ==> MoyUE(k) in data && data[MoyUE(k)] == moys[k - 1]
    ensures Moyenne in data && data[Moyenne] == moyenne && DateDuJour in data && data[DateDuJour] == today
    ensures forall k :: 1 <= k <= 4 ==> UeTitle(k) in data && data[UeTitle(k)] == TitleCell(header, k)
    ensures forall i :: 1 <= i <= COURSES ==> Matiere(i) in data && data[Matiere(i)] == CourseCell(header, i)
    ensures forall i :: 1 <= i <= |credits| ==> Ects(i) in data && data[Ects(i)] == credits[i - 1]
    ensures forall i :: 1 <= i <= COURSES ==> EtatCourse(i) in data && data[EtatCourse(i)] == rules.etat(notes[i - 1], hasR[UeOf(i - 1) - 1])
    ensures forall k :: 1 <= k <= 4 ==> EtatUE(k) in data && data[EtatUE(k)] == rules.etatUe(StateList(notes, hasR[k - 1], rules.etat, Lo(k), Hi(k)), moys[k - 1])
    ensures TotalEtat in data && data[TotalEtat] == rules.totalEtat(data[EtatUE(1)], data[EtatUE(2)], data[EtatUE(3)], data[EtatUE(4)])
  {
    var literal := InitialData(l, header, credits, today, notes, moys, moyenne, nominal);
    var etats := CourseStates(notes, hasR, rules.etat);
    var ues := UeStatesOf(etats, notes, hasR, moys, rules);
    data := literal + etats + ues;
    StagedDisjoint(|credits|);
    MergeKeeps(literal, etats);
    MergeKeeps(literal + etats, ues);
  }

  /**
   * The stages of `student_data` one after the other, on the values read
   * from the row and under the given rules: the literal, `update(etats)`,
   * `update(etats_ue)` with `totaletat`, and the credits.
   */
  method Assemble(l: Learner, header: Row, credits: seq<string>, today: string, notes: seq<string>,
                  moys: seq<string>, moyenne: string, nominal: seq<string>, hasR: seq<bool>, rules: Rules)
    returns (data: map<Field, string>)
    requires |credits| >= COURSES && |notes| == COURSES && |moys| == 4 && |nominal| == 5 && |hasR| == 4
    ensures forall f :: f in data <==> StagedKey(f, |credits|) || RecomputedKey(f)
    ensures HoldsLearner(data, l)
    ensures forall i :: 1 <= i <= COURSES ==> Note(i) in data && data[Note(i)] == notes[i - 1]
    ensures forall k :: 1 <= k <= 4 ==> MoyUE(k) in data && data[MoyUE(k)] == moys[k - 1]
    ensures Moyenne in data && data[Moyenne] == moyenne && DateDuJour in data && data[DateDuJour] == today
    ensures forall k :: 1 <= k <= 4 ==> UeTitle(k) in data && data[UeTitle(k)] == TitleCell(header, k)
    ensures forall i :: 1 <= i <= COURSES ==> Matiere(i) in data && data[Matiere(i)] == CourseCell(header, i)
    ensures forall i :: 1 <= i <= COURSES ==> Ects(i) in data && data[Ects(i)] == rules.adjust(notes[i - 1], credits[i - 1])
    ensures forall i :: COURSES < i <= |credits| ==> Ects(i) in data && data[Ects(i)] == credits[i - 1]
    ensures forall i :: 1 <= i <= COURSES ==> EtatCourse(i) in data && data[EtatCourse(i)] == rules.etat(notes[i - 1], hasR[UeOf(i - 1) - 1])
    ensures forall k :: 1 <= k <= 4 ==> EtatUE(k) in data && data[EtatUE(k)] == rules.etatUe(StateList(notes, hasR[k - 1], rules.etat, Lo(k), Hi(k)), moys[k - 1])
    ensures TotalEtat in data && data[TotalEtat] == rules.totalEtat(data[EtatUE(1)], data[EtatUE(2)], data[EtatUE(3)], data[EtatUE(4)])
    ensures EctsUE(1) in data && data[EctsUE(1)] == rules.sum(AdjustList(notes, credits, rules.adjust, 0, 3))
    ensures EctsUE(2) in data && data[EctsUE(2)] == rules.sum(AdjustList(notes, credits, rules.adjust, 3, 6))
    ensures EctsUE(3) in data && data[EctsUE(3)] == rules.adjust(notes[6], credits[6])
    ensures EctsUE(4) in data && data[EctsUE(4)] == rules.sum(AdjustList(notes, credits, rules.adjust, 7, 13))
    ensures MoyenneEcts in data && data[MoyenneEcts] == rules.sum([data[EctsUE(1)], data[EctsUE(2)], data[EctsUE(3)], data[EctsUE(4)]])
  {
    var staged := WithStates(l, header, credits, today, notes, moys, moyenne, nominal, hasR, rules);
    var recomputed := CreditsOf(staged, credits, notes, rules);
    data := staged + recomputed;
    MergeRecomputed(staged, recomputed);
  }

  /**
   * The values sent to the document for one student row of the work-study
   * semester-1 layout: the placeholders are the ones `InRange` admits; the
   * identity and absence cells, the grades, the averages and the headings
   * are read from the row, row 1 and the credit record; each course has its
   * `get_etat` state and keeps its credits unless `adjust_ects` withdraws
   * them; each UE has its `get_etat_ue` state and the sum of its kept
   * credits; the year has its `get_total_etat` state and the total.
   */
  method StudentData(row: Row, header: Row, credits: seq<string>, today: string) returns (data: map<Field, string>)
    requires |credits| >= COURSES
    ensures forall f :: f in data <==> InRange(f, |credits|)
    ensures HoldsLearner(data, LearnerOf(row))
    ensures forall i :: 1 <= i <= COURSES ==> Note(i) in data && data[Note(i)] == Notes(row)[i - 1]
    ensures forall k :: 1 <= k <= 4 ==> MoyUE(k) in data && data[MoyUE(k)] == UeAverages(Notes(row), credits)[k - 1]
    ensures Moyenne in data && data[Moyenne] == RowAverage(Notes(row), credits) && DateDuJour in data && data[DateDuJour] == today
    ensures forall k :: 1 <= k <= 4 ==> UeTitle(k) in data && data[UeTitle(k)] == TitleCell(header, k)
    ensures forall i :: 1 <= i <= COURSES ==> Matiere(i) in data && data[Matiere(i)] == CourseCell(header, i)
    ensures forall i :: 1 <= i <= COURSES ==> Ects(i) in data && data[Ects(i)] == AdjustedCredits(Notes(row), credits)[i - 1]
    ensures forall i :: COURSES < i <= |credits| ==> Ects(i) in data && data[Ects(i)] == credits[i - 1]
    ensures forall i :: 1 <= i <= COURSES ==> EtatCourse(i) in data && data[EtatCourse(i)] == CourseState(Notes(row), i)
    ensures forall k :: 1 <= k <= 4 ==> EtatUE(k) in data && data[EtatUE(k)] == UeEtat(Notes(row), UeAverages(Notes(row), credits)[k - 1], k)
    ensures TotalEtat in data && data[TotalEtat] == YearEtat(Notes(row), UeAverages(Notes(row), credits))
    ensures EctsUE(1) in data && data[EctsUE(1)] == UeEarned(AdjustedCredits(Notes(row), credits), 1)
    ensures EctsUE(2) in data && data[EctsUE(2)] == UeEarned(AdjustedCredits(Notes(row), credits), 2)
    ensures EctsUE(3) in data && data[EctsUE(3)] == UeEarned(AdjustedCredits(Notes(row), credits), 3)
    ensures EctsUE(4) in data && data[EctsUE(4)] == UeEarned(AdjustedCredits(Notes(row), credits), 4)
    ensures MoyenneEcts in data && data[MoyenneEcts] == IntToString(YearEarned(AdjustedCredits(Notes(row), credits)))
  {
    var notes := Notes(row);
    var moys := UeAverages(notes, credits);
    var n1, n2, n3, n4 := NominalUe(credits, 1), NominalUe(credits, 2), NominalUe(credits, 3), NominalUe(credits, 4);
    var nominal := [IntToString(n1), IntToString(n2), IntToString(n3), IntToString(n4), IntToString(n1 + n2 + n3 + n4)];
    var hasR := HasRs(notes);
    data := Assemble(LearnerOf(row), header, credits, today, notes, moys, RowAverage(notes, credits), nominal, hasR, ReportRules());
    StatesMeaning(data, notes, moys);
    CreditsMeaning(data, notes, credits);
    ReportKeysInRange(|credits|);
  }

  /** Under the rules of the report card, the states `Assemble` writes are the report card's own. */
  lemma {:induction false} StatesMeaning(data: map<Field, string>, notes: seq<string>, moys: seq<string>)
    requires |notes| == COURSES && |moys| == 4
    requires forall i :: 1 <= i <= COURSES ==> EtatCourse(i) in data && data[EtatCourse(i)] == ReportRules().etat(notes[i - 1], HasRs(notes)[UeOf(i - 1) - 1])
    requires forall k :: 1 <= k <= 4 ==> EtatUE(k) in data && data[EtatUE(k)] == ReportRules().etatUe(StateList(notes, HasRs(notes)[k - 1], ReportRules().etat, Lo(k), Hi(k)), moys[k - 1])
    requires TotalEtat in data && data[TotalEtat] == ReportRules().totalEtat(data[EtatUE(1)], data[EtatUE(2)], data[EtatUE(3)], data[EtatUE(4)])
    ensures forall i :: 1 <= i <= COURSES ==> EtatCourse(i) in data && data[EtatCourse(i)] == CourseState(notes, i)
    ensures forall k :: 1 <= k <= 4 ==> EtatUE(k) in data && data[EtatUE(k)] == UeEtat(notes, moys[k - 1], k)
    ensures TotalEtat in data && data[TotalEtat] == YearEtat(notes, moys)
  {
    StateListIsUeStates(notes, 1);
    StateListIsUeStates(notes, 2);
    StateListIsUeStates(notes, 3);
    StateListIsUeStates(notes, 4);
  }

  /** The states `Assemble` lists for UE `k` under the rules of the report card are the UE's course states. */
  lemma {:induction false} StateListIsUeStates(notes: seq<string>, k: int)
    requires IsUe(k) && |notes| == COURSES
    ensures StateList(notes, HasRs(notes)[k - 1], ReportRules().etat, Lo(k), Hi(k)) == UeStates(notes, k)
  {
    var a, b := StateList(notes, HasRs(notes)[k - 1], ReportRules().etat, Lo(k), Hi(k)), UeStates(notes, k);
    assert forall j :: 0 <= j < |a| ==> a[j] == b[j];
  }

  /** Under the rules of the report card, the credits `Assemble` writes are the report card's own. */
  lemma {:induction false} CreditsMeaning(data: map<Field, string>, notes: seq<string>, credits: seq<string>)
    requires |notes| == COURSES && |credits| >= COURSES
    requires forall i :: 1 <= i <= COURSES ==> Ects(i) in data && data[Ects(i)] == ReportRules().adjust(notes[i - 1], credits[i - 1])
    requires EctsUE(1) in data && data[EctsUE(1)] == ReportRules().sum(AdjustList(notes, credits, ReportRules().adjust, 0, 3))
    requires EctsUE(2) in data && data[EctsUE(2)] == ReportRules().sum(AdjustList(notes, credits, ReportRules().adjust, 3, 6))
    requires EctsUE(3) in data && data[EctsUE(3)] == ReportRules().adjust(notes[6], credits[6])
    requires EctsUE(4) in data && data[EctsUE(4)] == ReportRules().sum(AdjustList(notes, credits, ReportRules().adjust, 7, 13))
    requires MoyenneEcts in data && data[MoyenneEcts] == ReportRules().sum([data[EctsUE(1)], data[EctsUE(2)], data[EctsUE(3)], data[EctsUE(4)]])
    ensures forall i :: 1 <= i <= COURSES ==> Ects(i) in data && data[Ects(i)] == AdjustedCredits(notes, credits)[i - 1]
    ensures EctsUE(1) in data && data[EctsUE(1)] == UeEarned(AdjustedCredits(notes, credits), 1)
    ensures EctsUE(2) in data && data[EctsUE(2)] == UeEarned(AdjustedCredits(notes, credits), 2)
    ensures EctsUE(3) in data && data[EctsUE(3)] == UeEarned(AdjustedCredits(notes, credits), 3)
    ensures EctsUE(4) in data && data[EctsUE(4)] == UeEarned(AdjustedCredits(notes, credits), 4)
    ensures MoyenneEcts in data && data[MoyenneEcts] == IntToString(YearEarned(AdjustedCredits(notes, credits)))
  {
    var adj := AdjustedCredits(notes, credits);
    assert AdjustList(notes, credits, ReportRules().adjust, 0, 3) == adj[0..3];
    assert AdjustList(notes, credits, ReportRules().adjust, 3, 6) == adj[3..6];
    assert AdjustList(notes, credits, ReportRules().adjust, 7, 13) == adj[7..13];
  }
}
