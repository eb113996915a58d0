/**
 * The states written next to each grade of the report card: a course is
 * "VA" (validated), "C" (compensable) or "R" (to retake); a teaching unit
 * (UE) and the year are "VA" or "NV" (not validated).  Also the rule that
 * withdraws the credits of a course graded below 8.
 */
module States {
  import opened Wrappers
  import opened Text
  import opened Decimal
  import opened Cells

  /** The state of a course grade: "VA" from 10 on, "R" below 8, "C" in between. */
  function Classify(g: real): (r: string)
    ensures r == "VA" || r == "C" || r == "R"
  {
    if g >= 10.0 then "VA" else if g < 8.0 then "R" else "C"
  }

  /**
   * `get_etat`: "" for a blank or unreadable grade, else its state.  The flag
   * telling whether the UE already holds an "R" is accepted and ignored.
   */
  function Etat(note: string, hasRInUe: bool): (r: string)
    ensures r == "" <==> GradeOf(note).None?
    ensures r == "VA" <==> GradeOf(note).Some? && GradeOf(note).value >= 10.0
    ensures r == "R" <==> GradeOf(note).Some? && GradeOf(note).value < 8.0
    ensures r == "C" <==> GradeOf(note).Some? && 8.0 <= GradeOf(note).value < 10.0
  {
    match GradeOf(note)
    case None => ""
    case Some(g) => Classify(g)
  }

  /** The states of a list of grades, one `get_etat` each, with the same flag. */
  function EtatAll(notes: seq<string>, hasRInUe: bool): (es: seq<string>)
    ensures |es| == |notes|
    ensures forall j :: 0 <= j < |notes| ==> es[j] == Etat(notes[j], hasRInUe)
  {
    seq(|notes|, j requires 0 <= j < |notes| => Etat(notes[j], hasRInUe))
  }

  /** The state never depends on the "R already in the UE" flag. */
  lemma {:induction false} EtatIgnoresHasR(note: string)
    ensures Etat(note, true) == Etat(note, false)
  {
  }

  /** The state of a grade written with two decimals is the state of its rounded value. */
  lemma {:induction false} EtatOfFormatted(x: real, hasRInUe: bool)
    ensures Etat(Format2(x), hasRInUe) == Classify(RoundTo2(x))
  {
    GradeOfFormatted(x);
  }

  /** The states in their order of merit. */
  function Rank(etat: string): int {
    if etat == "VA" then 2 else if etat == "C" then 1 else 0
  }

  /** A better two-decimal grade never gets a worse state. */
  lemma {:induction false} EtatMonotone(x: real, y: real)
    requires x <= y
    ensures Rank(Etat(Format2(x), false)) <= Rank(Etat(Format2(y), false))
  {
    EtatOfFormatted(x, false);
    EtatOfFormatted(y, false);
    Round2Monotone(x, y);
  }

  /**
   * `get_etat_ue`: "VA" when no course of the UE is "R" and the UE average,
   * read as 0 when empty or unreadable, is at least 10; "NV" otherwise.
   */
  function EtatUe(etats: seq<string>, moy: string): (r: string)
    ensures r == "VA" || r == "NV"
    ensures r == "VA" <==> "R" !in etats && AverageOrZero(moy) >= 10.0
  {
    if "R" !in etats && AverageOrZero(moy) >= 10.0 then "VA" else "NV"
  }

  /** A UE whose average is written with two decimals is judged on the rounded average. */
  lemma {:induction false} EtatUeOfFormatted(etats: seq<string>, x: real)
    ensures EtatUe(etats, Format2(x)) == "VA" <==> "R" !in etats && RoundTo2(x) >= 10.0
  {
    AverageOrZeroFormatted(x);
  }

  /** A UE without an average is never validated. */
  lemma {:induction false} EtatUeNoAverage(etats: seq<string>)
    ensures EtatUe(etats, "") == "NV"
  {
  }

  /** One course of the UE graded below 8 keeps the whole UE from being validated. */
  lemma {:induction false} EtatUeFailedCourse(notes: seq<string>, i: nat, moy: string)
    requires i < |notes| && GradeOf(notes[i]).Some? && GradeOf(notes[i]).value < 8.0
    ensures EtatUe(seq(|notes|, j requires 0 <= j < |notes| => Etat(notes[j], false)), moy) == "NV"
  {
    var etats := seq(|notes|, j requires 0 <= j < |notes| => Etat(notes[j], false));
    assert etats[i] == "R";
  }

  /** `get_total_etat`: the year is "VA" exactly when its four UEs are. */
  function TotalEtat(ue1: string, ue2: string, ue3: string, ue4: string): (r: string)
    ensures r == "VA" || r == "NV"
    ensures r == "VA" <==> ue1 == "VA" && ue2 == "VA" && ue3 == "VA" && ue4 == "VA"
  {
    var ues := [ue1, ue2, ue3, ue4];
    assert ues[0] == ue1 && ues[1] == ue2 && ues[2] == ue3 && ues[3] == ue4;
    if forall i | 0 <= i < |ues| :: ues[i] == "VA" then "VA" else "NV"
  }

  /**
   * `adjust_ects`: the credits a course keeps.  A UE average keeps its
   * credits; a course grade (read by `float(note or 0)`, without comma
   * conversion) below 8, or a state "R", withdraws them ("0"); a grade that
   * does not read as a number keeps them.
   */
  function AdjustEcts(note: string, original: string, isUeMoyenne: bool, etat: string): (r: string)
    ensures r == original || r == "0"
    ensures isUeMoyenne ==> r == original
    ensures !isUeMoyenne && FloatOrZero(note).None? ==> r == original
    ensures !isUeMoyenne && FloatOrZero(note).Some? ==>
              (r == "0" <==> FloatOrZero(note).value < 8.0 || etat == "R" || original == "0")
  {
    if isUeMoyenne then original
    else
      match FloatOrZero(note)
      case None => original
      case Some(g) => if g < 8.0 || etat == "R" then "0" else original
  }

  /** An empty course grade counts as 0 and withdraws the credits. */
  lemma {:induction false} AdjustEctsBlank(original: string)
    ensures AdjustEcts("", original, false, "") == "0"
  {
  }

  /** For a two-decimal grade the credits are withdrawn exactly when it rounds below 8. */
  lemma {:induction false} AdjustEctsOfFormatted(x: real, original: string)
    ensures AdjustEcts(Format2(x), original, false, "") == if RoundTo2(x) < 8.0 then "0" else original
  {
    FloatOrZeroFormatted(x);
  }

  /** The credits kept are an integer between 0 and the nominal credits. */
  lemma {:induction false} AdjustEctsBounded(note: string, original: string, e: int, isUeMoyenne: bool, etat: string)
    requires ParseInt(original) == Some(e) && e >= 0
    ensures var k := ParseInt(AdjustEcts(note, original, isUeMoyenne, etat));
            k.Some? && 0 <= k.value <= e
  {
    ParseIntZero();
  }

  /** `int("0") == 0`. */
  lemma {:induction false} ParseIntZero()
    ensures ParseInt("0") == Some(0)
  {
    assert DigitsValue("0") == 0 by {
      assert "0"[..0] == [];
    }
    ParseIntDigits("0", 0);
  }
}
