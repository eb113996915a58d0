/**
 * Reading the text of grade and credit cells: dash-separated sub-grades,
 * optional "(coef)" weights, decimal commas, the "Absent au devoir" marker,
 * and the `float(...)` / `int(...)` conversions each helper applies.
 */
module Cells {
  import opened Wrappers
  import opened Text
  import opened Decimal
  import opened Sums

  /** The marker written in place of a missed test. */
  const ABSENT: string := "Absent au devoir"

  /** `not s or s.strip() == ""`: an empty or all-blank cell. */
  predicate Blank(s: string) {
    Strip(s) == ""
  }

  /** Python's `float(s.replace(",", "."))`: a number written with a decimal comma. */
  function CommaFloat(s: string): Option<real> {
    ParseFloat(ReplaceChar(s, ',', '.'))
  }

  /** Python's `float(s) if s else 0` (and `float(s or 0)`): the empty text counts as 0. */
  function FloatOrZero(s: string): Option<real> {
    if s == "" then Some(0.0) else ParseFloat(s)
  }

  // ---------------------------------------------------------------------
  // calculate_single_note_average
  // ---------------------------------------------------------------------

  /** The '-'-separated pieces of the stripped cell. */
  function Pieces(cell: string): seq<string> {
    Split(Strip(cell), '-')
  }

  /** `"(" in note_str`: the cell is read in its coefficient form. */
  predicate HasCoefficients(cell: string) {
    Occurs('(', Strip(cell))
  }

  /** The stripped piece names an absence. */
  predicate NamesAbsence(piece: string) {
    Contains(Strip(piece), ABSENT)
  }

  /** The stripped piece holds both a '(' and a ')'. */
  predicate Bracketed(piece: string) {
    Occurs('(', Strip(piece)) && Occurs(')', Strip(piece))
  }

  /**
   * A piece `note(coef)` of a cell that holds coefficients.  Pieces naming an
   * absence, and pieces without both brackets, are skipped; a note or a
   * coefficient that does not read as a number is malformed.
   */
  function CoefTerm(piece: string): (t: Term)
    ensures !Bracketed(piece) || NamesAbsence(piece) ==> t == Skipped
  {
    var part := Strip(piece);
    if NamesAbsence(piece) then Skipped
    else if Bracketed(piece) then
      var np := Split(part, '(');
      var note := CommaFloat(Strip(np[0]));
      var coef := ParseFloat(Strip(RemoveChar(ReplaceChar(np[1], ',', '.'), ')')));
      if note.Some? && coef.Some? then Weighted(note.value, coef.value) else Malformed
    else Skipped
  }

  /**
   * A piece of a cell without coefficients: an empty piece or one naming an
   * absence is skipped, any other piece is a grade of weight 1 or malformed.
   */
  function PlainTerm(piece: string): (t: Term)
    ensures t.Weighted? ==> t.coef == 1.0
  {
    if Strip(piece) == "" || Contains(piece, ABSENT) then Skipped
    else
      match CommaFloat(Strip(piece))
      case Some(v) => Weighted(v, 1.0)
      case None => Malformed
  }

  /** One piece, read in the form of its cell. */
  function PieceTerm(piece: string, withCoefficients: bool): (t: Term)
    ensures !withCoefficients && t.Weighted? ==> t.coef == 1.0
  {
    if withCoefficients then CoefTerm(piece) else PlainTerm(piece)
  }

  /** The reader of the pieces of a cell in the given form. */
  function PieceReader(withCoefficients: bool): string -> Term {
    piece => PieceTerm(piece, withCoefficients)
  }

  /** The terms of the pieces, each read in the cell's form. */
  function PieceTerms(parts: seq<string>, withCoefficients: bool): (ts: seq<Term>)
    ensures |ts| == |parts|
    ensures forall i :: 0 <= i < |ts| ==> ts[i] == PieceTerm(parts[i], withCoefficients)
  {
    ReadAll(parts, PieceReader(withCoefficients))
  }

  /** The terms of a whole cell. */
  function Terms(cell: string): (ts: seq<Term>)
    ensures |ts| == |Pieces(cell)|
  {
    PieceTerms(Pieces(cell), HasCoefficients(cell))
  }

  // ---------------------------------------------------------------------
  // calculate_weighted_average
  // ---------------------------------------------------------------------

  /**
   * One item of `calculate_weighted_average`: `note(coef)` (the note without
   * comma conversion), or a bare note of weight 1.  Unreadable items are skipped.
   */
  function WeightedItem(item: string): (t: Term)
    ensures !t.Malformed?
    ensures Blank(item) ==> t == Skipped
  {
    var s := Strip(item);
    if s == "" then Skipped
    else if Occurs('(', s) then
      var parts := Split(s, '(');
      var note := ParseFloat(Strip(parts[0]));
      var coef := ParseFloat(Strip(ReplaceChar(RemoveChar(parts[1], ')'), ',', '.')));
      if note.Some? && coef.Some? then Weighted(note.value, coef.value) else Skipped
    else
      match ParseFloat(s)
      case Some(v) => Weighted(v, 1.0)
      case None => Skipped
  }

  /** The terms of all the items. */
  function WeightedItems(notes: seq<string>): (ts: seq<Term>)
    ensures |ts| == |notes|
    ensures forall i :: 0 <= i < |ts| ==> ts[i] == WeightedItem(notes[i]) && !ts[i].Malformed?
  {
    ReadAll(notes, WeightedItem)
  }

  // ---------------------------------------------------------------------
  // calculate_ects_weighted_average and calculate_ue_ects
  // ---------------------------------------------------------------------

  /** Python's `max(e, 1)`. */
  function AtLeastOne(e: int): (w: int)
    ensures w >= 1 && w >= e
  {
    if e > 1 then e else 1
  }

  /** The pair counts in the credit-weighted average: a present, readable, positive grade and an integer credit. */
  predicate EctsKept(note: string, ects: string) {
    note != "" && CommaFloat(note).Some? && CommaFloat(note).value > 0.0 && ParseInt(ects).Some?
  }

  /**
   * One (grade, credit) pair of the credit-weighted average: kept with weight
   * `max(credit, 1)` when the grade is present, readable and positive and the
   * credit is an integer; skipped otherwise.
   */
  function EctsTerm(note: string, ects: string): (t: Term)
    ensures !t.Malformed?
    ensures t.Weighted? <==> EctsKept(note, ects)
    ensures t.Weighted? ==> t.note == CommaFloat(note).value > 0.0
    ensures t.Weighted? ==> t.coef == AtLeastOne(ParseInt(ects).value) as real
  {
    if note == "" then Skipped
    else
      match CommaFloat(note)
      case None => Skipped
      case Some(g) =>
        match ParseInt(ects)
        case None => Skipped
        case Some(e) => if g > 0.0 then Weighted(g, AtLeastOne(e) as real) else Skipped
  }

  /** Python's `zip(notes, ects)`: as many pairs as the shorter list has items. */
  function Zip(notes: seq<string>, ects: seq<string>): (ps: seq<(string, string)>)
    ensures |ps| == if |notes| <= |ects| then |notes| else |ects|
    ensures forall i :: 0 <= i < |ps| ==> ps[i] == (notes[i], ects[i])
  {
    var n := if |notes| <= |ects| then |notes| else |ects|;
    seq(n, i requires 0 <= i < n => (notes[i], ects[i]))
  }

  function EctsPair(p: (string, string)): Term {
    EctsTerm(p.0, p.1)
  }

  /** The pairs `zip(notes, ects)` read as terms. */
  function EctsTerms(notes: seq<string>, ects: seq<string>): (ts: seq<Term>)
    ensures |ts| == |Zip(notes, ects)|
    ensures forall i :: 0 <= i < |ts| ==> ts[i] == EctsTerm(notes[i], ects[i])
    ensures forall i :: 0 <= i < |ts| ==> !ts[i].Malformed?
    ensures forall i :: 0 <= i < |ts| && ts[i].Weighted? ==> ts[i].coef >= 1.0
  {
    ReadAll(Zip(notes, ects), EctsPair)
  }

  /**
   * The credits one (grade, credit) pair earns in `calculate_ue_ects`: the
   * credit when the grade (empty meaning 0) is at least 8, else 0; `None`
   * when the grade or the credit does not convert.
   */
  function UeCredit(note: string, ects: string): Option<int> {
    match FloatOrZero(note)
    case None => None
    case Some(g) =>
      match ParseInt(ects)
      case None => None
      case Some(e) => Some(if g >= 8.0 then e else 0)
  }

  // ---------------------------------------------------------------------
  // The states and the credit rule
  // ---------------------------------------------------------------------

  /** The grade `get_etat` reads: none for a blank or unreadable note. */
  function GradeOf(note: string): Option<real> {
    if Blank(note) then None else CommaFloat(note)
  }

  /** The average `get_etat_ue` compares with 10: an empty or unreadable one counts as 0. */
  function AverageOrZero(moy: string): real {
    if moy == "" then 0.0 else CommaFloat(moy).GetOr(0.0)
  }

  // ---------------------------------------------------------------------
  // Reading back two-decimal text
  // ---------------------------------------------------------------------

  /** Two-decimal text starts with a digit or a '-', never with blank space. */
  lemma {:induction false} FormattedNotBlank(x: real)
    ensures !Blank(Format2(x))
  {
    var n := Round2(x);
    var s := Format2(x);
    if n < 0 {
      FormatHundredthsNegative(n);
      assert s[0] == '-';
    } else {
      FormatHundredthsEnds(n);
    }
    StripNonBlank(s);
  }

  /** `get_etat` reads a two-decimal grade as its value. */
  lemma {:induction false} GradeOfFormatted(x: real)
    ensures GradeOf(Format2(x)) == Some(Round2(x) as real / 100.0)
  {
    FormattedNotBlank(x);
    Format2NoComma(x);
    Format2RoundTrip(x);
  }

  /** `float(s or 0)` reads a two-decimal grade as its value. */
  lemma {:induction false} FloatOrZeroFormatted(x: real)
    ensures FloatOrZero(Format2(x)) == Some(Round2(x) as real / 100.0)
  {
    Format2RoundTrip(x);
  }

  /** `get_etat_ue` reads a two-decimal average as its value. */
  lemma {:induction false} AverageOrZeroFormatted(x: real)
    ensures AverageOrZero(Format2(x)) == Round2(x) as real / 100.0
  {
    Format2NoComma(x);
    Format2RoundTrip(x);
  }
}
