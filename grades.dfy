/**
 * The grade arithmetic of the report-card generator: the average of a grade
 * cell, the credit-weighted UE average, the course, UE and year states, and
 * the rule that withdraws a course's credits.
 */
module Grades {
  import opened Wrappers
  import opened Text
  import opened Decimal
  import opened Sums
  import opened Cells

  /** The exact average a grade cell denotes, or `None` when the cell yields no grade. */
  function SingleNoteValue(cell: string): Option<real> {
    if Blank(cell) then None else Average(Fold(NoSums, Terms(cell)))
  }

  /** `calculate_single_note_average`: the cell's average with two decimals, or "". */
  function SingleNoteAverage(cell: string): string {
    match SingleNoteValue(cell)
    case Some(x) => Format2(x)
    case None => ""
  }

  /** `calculate_single_note_average` (a blank cell, then the loop, then the two-decimal text). */
  method ComputeSingleNoteAverage(cell: string) returns (r: string)
    ensures r == SingleNoteAverage(cell)
  {
    if Blank(cell) {
      return "";
    }
    var sums := AccumulateRead(Pieces(cell), PieceReader(HasCoefficients(cell)));
    if sums.Some? && sums.value.total > 0.0 {
      r := Format2(sums.value.weighted / sums.value.total);
    } else {
      r := "";
    }
  }

  /** A blank cell has no grade. */
  lemma {:induction false} SingleNoteBlank(cell: string)
    requires Blank(cell)
    ensures SingleNoteAverage(cell) == ""
  {
  }

  /** One unreadable note or coefficient anywhere voids the whole cell. */
  lemma {:induction false} SingleNoteMalformed(cell: string, i: nat)
    requires i < |Terms(cell)| && Terms(cell)[i].Malformed?
    ensures SingleNoteAverage(cell) == ""
  {
    FoldMalformed(NoSums, Terms(cell), i);
  }

  /** A cell without '(' averages its kept grades: the sum over the count. */
  lemma {:induction false} SingleNotePlainMean(cell: string)
    requires !Blank(cell) && !HasCoefficients(cell)
    requires forall i :: 0 <= i < |Terms(cell)| ==> !Terms(cell)[i].Malformed?
    ensures var ns := Notes(Terms(cell));
            SingleNoteValue(cell) == if |ns| > 0 then Some(Sum(ns) / |ns| as real) else None
  {
    FoldUnitWeights(Terms(cell));
  }

  /**
   * With non-negative coefficients and every sub-grade in `[lo, hi]`, the
   * cell's average lies in `[lo, hi]` too.
   */
  lemma {:induction false} SingleNoteBetween(cell: string, lo: real, hi: real)
    requires forall i :: 0 <= i < |Terms(cell)| && Terms(cell)[i].Weighted? ==>
               lo <= Terms(cell)[i].note <= hi && 0.0 <= Terms(cell)[i].coef
    ensures SingleNoteValue(cell).Some? ==> lo <= SingleNoteValue(cell).value <= hi
  {
    FoldBetween(Terms(cell), lo, hi);
    AverageBetween(Fold(NoSums, Terms(cell)), lo, hi);
  }


  /** The text produced for a cell reads back as its average rounded to the hundredth. */
  lemma {:induction false} SingleNoteReadsBack(cell: string, x: real)
    requires SingleNoteValue(cell) == Some(x)
    ensures ParseFloat(SingleNoteAverage(cell)) == Some(Round2(x) as real / 100.0)
  {
    Format2RoundTrip(x);
  }

  // ---------------------------------------------------------------------
  // calculate_weighted_average
  // ---------------------------------------------------------------------

  /**
   * `calculate_weighted_average`: Σ note·coef / Σ coef over the readable
   * items, rounded to the hundredth; 0 for an empty list or a zero total.
   */
  function WeightedAverage(notes: seq<string>): real {
    if |notes| == 0 then 0.0
    else
      match Quotient(Fold(NoSums, WeightedItems(notes)))
      case Some(q) => RoundTo2(q)
      case None => 0.0
  }

  /** The loop of `calculate_weighted_average`. */
  method ComputeWeightedAverage(notes: seq<string>) returns (r: real)
    ensures r == WeightedAverage(notes)
  {
    if |notes| == 0 {
      return 0.0;
    }
    var sums := AccumulateRead(notes, WeightedItem);
    match sums {
      case Some(s) =>
        if s.total == 0.0 {
          r := 0.0;
        } else {
          r := RoundTo2(s.weighted / s.total);
        }
      case None =>
        r := 0.0;
    }
  }

  /** An item that cannot be read (a blank one, say) leaves the weighted average unchanged. */
  lemma {:induction false} WeightedAverageSkips(a: seq<string>, x: string, b: seq<string>)
    requires |a + b| > 0 && WeightedItem(x) == Skipped
    ensures WeightedAverage(a + [x] + b) == WeightedAverage(a + b)
  {
    ReadAllSkipped(a, x, b, WeightedItem);
  }

  /**
   * With non-negative coefficients and every readable note between `lo` and
   * `hi` hundredths, the weighted average is 0 (no weight) or lies between them.
   */
  lemma {:induction false} WeightedAverageBetween(notes: seq<string>, lo: int, hi: int)
    requires forall i :: 0 <= i < |notes| && WeightedItem(notes[i]).Weighted? ==>
               lo as real / 100.0 <= WeightedItem(notes[i]).note <= hi as real / 100.0
               && 0.0 <= WeightedItem(notes[i]).coef
    ensures WeightedAverage(notes) == 0.0
         || lo as real / 100.0 <= WeightedAverage(notes) <= hi as real / 100.0
  {
    var l, h := lo as real / 100.0, hi as real / 100.0;
    var o := Fold(NoSums, WeightedItems(notes));
    ReadAllBetween(notes, WeightedItem, l, h);
    QuotientBetween(o, l, h);
    if |notes| > 0 && Quotient(o).Some? {
      RoundTo2Between(lo, Quotient(o).value, hi);
    }
  }

  // ---------------------------------------------------------------------
  // calculate_ects_weighted_average
  // ---------------------------------------------------------------------

  /** The exact credit-weighted average, or `None` when no pair is kept. */
  function EctsAverageValue(notes: seq<string>, ects: seq<string>): Option<real> {
    Average(Fold(NoSums, EctsTerms(notes, ects)))
  }

  /** `calculate_ects_weighted_average`: the two-decimal text of the average, or "". */
  function EctsWeightedAverage(notes: seq<string>, ects: seq<string>): string {
    match EctsAverageValue(notes, ects)
    case Some(x) => Format2(x)
    case None => ""
  }

  /** The loop of `calculate_ects_weighted_average` over `zip(notes, ects_values)`. */
  method ComputeEctsWeightedAverage(notes: seq<string>, ects: seq<string>) returns (r: string)
    ensures r == EctsWeightedAverage(notes, ects)
  {
    var sums := AccumulateRead(Zip(notes, ects), EctsPair);
    match sums {
      case Some(s) =>
        FoldTotalPositive(EctsTerms(notes, ects));
        if s.total == 0.0 {
          r := "";
        } else {
          r := Format2(s.weighted / s.total);
        }
      case None =>
        r := "";
    }
  }

  /** The result is "" exactly when no pair of the zip is kept. */
  lemma {:induction false} EctsAverageBlank(notes: seq<string>, ects: seq<string>)
    ensures EctsWeightedAverage(notes, ects) == ""
        <==> forall i :: 0 <= i < |notes| && i < |ects| ==> !EctsKept(notes[i], ects[i])
  {
    var ts := EctsTerms(notes, ects);
    AverageNone(ts);
    assert forall i :: 0 <= i < |ts| ==> (ts[i].Weighted? <==> EctsKept(notes[i], ects[i]));
  }

  /** The average of the kept grades lies between the smallest and the largest of them. */
  lemma {:induction false} EctsAverageBetween(notes: seq<string>, ects: seq<string>, lo: real, hi: real)
    requires forall i :: 0 <= i < |notes| && i < |ects| && EctsKept(notes[i], ects[i]) ==>
               lo <= CommaFloat(notes[i]).value <= hi
    ensures EctsAverageValue(notes, ects).Some? ==> lo <= EctsAverageValue(notes, ects).value <= hi
  {
    var ts := EctsTerms(notes, ects);
    FoldBetween(ts, lo, hi);
    AverageBetween(Fold(NoSums, ts), lo, hi);
  }

  /** Like `zip`, the average ignores the items of the longer list that have no partner. */
  lemma {:induction false} EctsAverageZip(notes: seq<string>, ects: seq<string>, n: nat)
    requires n == if |notes| <= |ects| then |notes| else |ects|
    ensures EctsWeightedAverage(notes, ects) == EctsWeightedAverage(notes[..n], ects[..n])
  {
    assert EctsTerms(notes, ects) == EctsTerms(notes[..n], ects[..n]);
  }

  /** A credit of 1 or less weighs like a credit of 1: the weight is `max(credit, 1)`. */
  lemma {:induction false} EctsAverageSmallCredit(notes: seq<string>, ects: seq<string>, i: nat, c: int)
    requires i < |ects| && c <= 1
    ensures EctsAverageValue(notes, ects[i := IntToString(c)]) == EctsAverageValue(notes, ects[i := IntToString(1)])
  {
    var small, one := ects[i := IntToString(c)], ects[i := IntToString(1)];
    ParseIntRoundTrip(c);
    ParseIntRoundTrip(1);
    forall j | 0 <= j < |notes| && j < |ects|
      ensures EctsTerm(notes[j], small[j]) == EctsTerm(notes[j], one[j])
    {
    }
    assert EctsTerms(notes, small) == EctsTerms(notes, one);
  }

  // ---------------------------------------------------------------------
  // calculate_ue_ects
  // ---------------------------------------------------------------------

  /**
   * `calculate_ue_ects` as written: its `return` sits inside the loop, so it
   * answers with the credits of the first pair that converts (`None` when
   * no pair does) and never looks at the rest.
   */
  function UeEctsAsWritten(ps: seq<(string, string)>): Option<int>
    decreases |ps|
  {
    if ps == [] then None
    else
      match UeCredit(ps[0].0, ps[0].1)
      case Some(c) => Some(c)
      case None => UeEctsAsWritten(ps[1..])
  }

  /** The loop of `calculate_ue_ects`, with its early `return`. */
  method CalculateUeEcts(notes: seq<string>, ects: seq<string>) returns (r: Option<int>)
    ensures r == UeEctsAsWritten(Zip(notes, ects))
  {
    var ps := Zip(notes, ects);
    var total := 0;
    var i := 0;
    while i < |ps|
      invariant 0 <= i <= |ps| && total == 0
      invariant UeEctsAsWritten(ps[i..]) == UeEctsAsWritten(ps)
    {
      assert ps[i..][1..] == ps[i + 1..];
      match UeCredit(ps[i].0, ps[i].1) {
        case None =>
        case Some(c) =>
          total := total + c;
          return Some(total);
      }
      i := i + 1;
    }
    return None;
  }

  /** The credits of a UE as the comment above `calculate_ue_ects` describes: every pair counted. */
  function UeEctsTotal(ps: seq<(string, string)>): int
    decreases |ps|
  {
    if ps == [] then 0
    else UeEctsTotal(ps[..|ps| - 1]) + UeCredit(ps[|ps| - 1].0, ps[|ps| - 1].1).GetOr(0)
  }

  /** The nominal credits of the pairs. */
  function NominalTotal(ps: seq<(string, string)>): int
    decreases |ps|
  {
    if ps == [] then 0
    else NominalTotal(ps[..|ps| - 1]) + ParseInt(ps[|ps| - 1].1).GetOr(0)
  }

  /** The intended loop: the sum over all pairs, skipping the ones that do not convert. */
  method CalculateUeEctsTotal(notes: seq<string>, ects: seq<string>) returns (total: int)
    ensures total == UeEctsTotal(Zip(notes, ects))
  {
    var ps := Zip(notes, ects);
    total := 0;
    var i := 0;
    while i < |ps|
      invariant 0 <= i <= |ps|
      invariant total == UeEctsTotal(ps[..i])
    {
      assert ps[..i + 1][..i] == ps[..i];
      match UeCredit(ps[i].0, ps[i].1) {
        case None =>
        case Some(c) => total := total + c;
      }
      i := i + 1;
    }
    assert ps[..i] == ps;
  }

  /** With non-negative credits, a UE earns between none and all of its nominal credits. */
  lemma {:induction false} UeEctsTotalBounded(ps: seq<(string, string)>)
    requires forall i :: 0 <= i < |ps| && ParseInt(ps[i].1).Some? ==> ParseInt(ps[i].1).value >= 0
    ensures 0 <= UeEctsTotal(ps) <= NominalTotal(ps)
    decreases |ps|
  {
    if ps != [] {
      var init := ps[..|ps| - 1];
      forall i | 0 <= i < |init| ensures init[i] == ps[i] { }
      UeEctsTotalBounded(init);
    }
  }

  /** A pair whose grade reaches 8 earns all of its credits, whatever came before. */
  lemma {:induction false} UeEctsTotalAppend(ps: seq<(string, string)>, note: string, ects: string, g: real, e: int)
    requires FloatOrZero(note) == Some(g) && g >= 8.0 && ParseInt(ects) == Some(e)
    ensures UeEctsTotal(ps + [(note, ects)]) == UeEctsTotal(ps) + e
  {
    assert (ps + [(note, ects)])[..|ps|] == ps;
  }

  /** On a single pair the code as written agrees with the sum. */
  lemma {:induction false} UeEctsSinglePair(note: string, ects: string)
    ensures UeEctsAsWritten([(note, ects)]) == match UeCredit(note, ects)
                                               case Some(_) => Some(UeEctsTotal([(note, ects)]))
                                               case None => None
  {
    assert [(note, ects)][..0] == [];
    assert [(note, ects)][1..] == [];
  }

  /** A two-decimal grade earns the credits when it rounds to 8 or more, and 0 otherwise. */
  lemma {:induction false} UeCreditFormatted(x: real, e: int)
    ensures UeCredit(Format2(x), IntToString(e)) == Some(if RoundTo2(x) >= 8.0 then e else 0)
  {
    FloatOrZeroFormatted(x);
    ParseIntRoundTrip(e);
  }

  /**
   * On two pairs it does not: grades "12.00" and "9.00" with credits "3" and
   * "2" give 3 credits as written where the sum is 5.
   */
  lemma {:induction false} UeEctsStopsAtFirstPair()
    ensures var ps := [(Format2(12.0), IntToString(3)), (Format2(9.0), IntToString(2))];
            UeEctsAsWritten(ps) == Some(3) && UeEctsTotal(ps) == 5
  {
    var ps := [(Format2(12.0), IntToString(3)), (Format2(9.0), IntToString(2))];
    assert UeCredit(ps[0].0, ps[0].1) == Some(3) by {
      UeCreditFormatted(12.0, 3);
      Round2Exact(1200);
    }
    assert UeCredit(ps[1].0, ps[1].1) == Some(2) by {
      UeCreditFormatted(9.0, 2);
      Round2Exact(900);
    }
    assert ps[..1][..0] == [];
    assert ps[..|ps| - 1] == ps[..1];
  }
}
