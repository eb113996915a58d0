/**
 * The report-card layouts as static data: for each Word model, the grade
 * columns read for each teaching unit (UE), the credit slots ("ECTS<i>")
 * each UE adds up to its nominal credits, and the check that the credit
 * record holds every slot the layout needs before any row is read.
 */
module Layouts {
  import opened Wrappers
  import opened Text
  import Ects
  import Report

  /** The Word models whose names the report generation tests, in that order. */
  datatype Model =
    | AltS1 | AltS2 | AltS3 | AltS4 | AltS5 | AltS6
    | TpS1 | TpS2 | TpS3 | TpS4 | TpS5 | TpS6
    | M1S1 | M2S3

  function FileName(m: Model): string {
    match m
    case AltS1 => "modeleBG-ALT-S1-2024-2025.docx"
    case AltS2 => "modeleBG-ALT-S2-2024-2025.docx"
    case AltS3 => "modeleBG-ALT-S3-2024-2025.docx"
    case AltS4 => "modeleBG-ALT-S4-2024-2025.docx"
    case AltS5 => "modeleBG-ALT-S5-2024-2025.docx"
    case AltS6 => "modeleBG-ALT-S6-2024-2025.docx"
    case TpS1 => "modeleBG-TP-S1-2024-2025.docx"
    case TpS2 => "modeleBG-TP-S2-2024-2025.docx"
    case TpS3 => "modeleBG-TP-S3-2024-2025.docx"
    case TpS4 => "modeleBG-TP-S4-2024-2025.docx"
    case TpS5 => "modeleBG-TP-S5-2024-2025.docx"
    case TpS6 => "modeleBG-TP-S6-2024-2025.docx"
    case M1S1 => "modeleM1-S1.docx"
    case M2S3 => "modeleM2-S3.docx"
  }

  /** The model a template name designates: the `if`/`elif` chain on `template_name`. */
  function ModelOf(name: string): Option<Model> {
    if name == FileName(AltS1) then Some(AltS1)
    else if name == FileName(AltS2) then Some(AltS2)
    else if name == FileName(AltS3) then Some(AltS3)
    else if name == FileName(AltS4) then Some(AltS4)
    else if name == FileName(AltS5) then Some(AltS5)
    else if name == FileName(AltS6) then Some(AltS6)
    else if name == FileName(TpS1) then Some(TpS1)
    else if name == FileName(TpS2) then Some(TpS2)
    else if name == FileName(TpS3) then Some(TpS3)
    else if name == FileName(TpS4) then Some(TpS4)
    else if name == FileName(TpS5) then Some(TpS5)
    else if name == FileName(TpS6) then Some(TpS6)
    else if name == FileName(M1S1) then Some(M1S1)
    else if name == FileName(M2S3) then Some(M2S3)
    else None
  }

  /** The number of slots "ECTS1" .. "ECTS<n>" checked before any row is read. */
  function Required(m: Model): nat {
    match m
    case AltS1 => 13 case AltS2 => 13 case AltS3 => 12 case AltS4 => 13 case AltS5 => 14 case AltS6 => 13
    case TpS1 => 20 case TpS2 => 2 case TpS3 => 15 case TpS4 => 1 case TpS5 => 20 case TpS6 => 3
    case M1S1 => 14 case M2S3 => 13
  }

  /**
   * The grade columns read for each UE, one letter per column: UE 1 to UE 4,
   * then the specialisation UE of the master's models.
   */
  function Columns(m: Model): seq<string> {
    match m
    case AltS1 => ["DEF", "HIJ", "L", "NOPQRS"]
    case AltS2 => ["DEFG", "IJK", "M", "OPQRS"]
    case AltS3 => ["D", "FGHI", "KL", "NOPQR"]
    case AltS4 => ["DEF", "HIJKL", "N", "PQRS"]
    case AltS5 => ["DE", "GHIJ", "LM", "OPQRST"]
    case AltS6 => ["DE", "GH", "JKL", "NOPQR"]
    case TpS1 => ["DEFGHIJ", "LMNOPQ", "ST", "VWXYZ"]
    case TpS2 => ["DE", "", "", ""]
    case TpS3 => ["D", "FGHIJKLM", "OP", "RSTU"]
    case TpS4 => ["D", "", "", ""]
    case TpS5 => ["DEFGH", "JKLMN", "PQRST", "VWXYZ"]
    case TpS6 => ["DEF", "", "", ""]
    case M1S1 => ["DE", "GH", "JK", "MOPQR", "TUV"]
    case M2S3 => ["DE", "G", "I", "KLMNO", "QRST"]
  }

  /**
   * For each UE, the `range(lo, hi)` of slots whose credits make its nominal
   * credits; an empty range is a UE whose credits the code sets to 0.
   */
  function Ranges(m: Model): seq<(nat, nat)> {
    match m
    case AltS1 => [(1, 4), (4, 7), (7, 8), (8, 14)]
    case AltS2 => [(1, 5), (5, 8), (8, 9), (9, 14)]
    case AltS3 => [(1, 2), (2, 6), (6, 8), (8, 13)]
    case AltS4 => [(1, 4), (4, 9), (9, 10), (10, 14)]
    case AltS5 => [(1, 3), (3, 7), (7, 9), (9, 15)]
    case AltS6 => [(1, 3), (3, 5), (5, 8), (8, 14)]
    case TpS1 => [(1, 8), (8, 14), (14, 16), (16, 21)]
    case TpS2 => [(1, 3), (3, 3), (3, 3), (3, 3)]
    case TpS3 => [(1, 2), (2, 10), (10, 12), (12, 16)]
    case TpS4 => [(1, 2), (2, 2), (2, 2), (2, 2)]
    case TpS5 => [(1, 6), (6, 11), (11, 16), (16, 21)]
    case TpS6 => [(1, 4), (4, 4), (4, 4), (4, 4)]
    case M1S1 => [(1, 3), (3, 5), (5, 7), (7, 12), (12, 15)]
    case M2S3 => [(1, 3), (3, 4), (4, 5), (5, 10), (10, 14)]
  }

  /** The models whose overall credits add the specialisation UE. */
  predicate IsMaster(m: Model) {
    m == M1S1 || m == M2S3
  }

  // ---------------------------------------------------------------------
  // Well-formed layouts
  // ---------------------------------------------------------------------

  /**
   * The ranges follow one another from slot `lo` to slot `n` without gap or
   * overlap: the first starts at `lo`, each starts where the previous one
   * stops, and the last stops after slot `n`.
   */
  predicate ChainFrom(rs: seq<(nat, nat)>, lo: nat, n: nat)
    decreases |rs|
  {
    && |rs| > 0
    && rs[0].0 == lo <= rs[0].1
    && if |rs| == 1 then rs[0].1 == n + 1 else ChainFrom(rs[1..], rs[0].1, n)
  }

  predicate Chained(rs: seq<(nat, nat)>, n: nat) {
    ChainFrom(rs, 1, n)
  }

  /**
   * A model's credit ranges follow one another from "ECTS1" to
   * "ECTS<required>", one per UE, and the specialisation UE exists exactly
   * in the master's models.
   */
  predicate WellFormed(m: Model) {
    && |Ranges(m)| == |Columns(m)| == (if IsMaster(m) then 5 else 4)
    && Chained(Ranges(m), Required(m))
  }

  /** Every model is well formed. */
  lemma {:induction false} ModelsWellFormed(m: Model)
    ensures WellFormed(m)
  {
    match m
    case AltS1 => case AltS2 => case AltS3 => case AltS4 => case AltS5 => case AltS6 =>
    case TpS1 => case TpS2 => case TpS3 => case TpS4 => case TpS5 => case TpS6 =>
    case M1S1 => case M2S3 =>
  }

  /** Each model's name designates that model. */
  lemma {:induction false} ModelOfFileName(m: Model)
    ensures ModelOf(FileName(m)) == Some(m)
  {
    match m
    case AltS1 => case AltS2 => case AltS3 => case AltS4 => case AltS5 => case AltS6 =>
    case TpS1 => TpFileNames(m);
    case TpS2 => TpFileNames(m);
    case TpS3 => TpFileNames(m);
    case TpS4 => TpFileNames(m);
    case TpS5 => TpFileNames(m);
    case TpS6 => TpFileNames(m);
    case M1S1 => case M2S3 =>
  }

  /** The full-time models' names are told apart from the work-study ones by their length. */
  lemma {:induction false} TpFileNames(m: Model)
    requires m.TpS1? || m.TpS2? || m.TpS3? || m.TpS4? || m.TpS5? || m.TpS6?
    ensures ModelOf(FileName(m)) == Some(m)
  {
    match m
    case TpS1 => case TpS2 => case TpS3 => case TpS4 => case TpS5 => case TpS6 =>
  }

  /** A UE reads as many grade columns as it has credit slots, except UE 4 of the sixth work-study semester. */
  lemma {:induction false} ColumnsMatchSlots(m: Model, u: nat)
    requires u < |Columns(m)| && u < |Ranges(m)|
    requires m != AltS6 || u != 3
    ensures |Columns(m)[u]| == Ranges(m)[u].1 - Ranges(m)[u].0
  {
    match m
    case AltS1 => case AltS2 => case AltS3 => case AltS4 => case AltS5 => case AltS6 =>
    case TpS1 => case TpS2 => case TpS3 => case TpS4 => case TpS5 => case TpS6 =>
    case M1S1 => case M2S3 =>
  }

  /** UE 4 of the sixth work-study semester reads five grade columns but adds up six credit slots. */
  lemma {:induction false} AltS6LastUeMismatch()
    ensures |Columns(AltS6)[3]| == 5 && Ranges(AltS6)[3].1 - Ranges(AltS6)[3].0 == 6
  {
  }

  /** The first work-study semester's layout is the one the per-student aggregation reads. */
  lemma {:induction false} AltS1IsReportLayout()
    ensures Required(AltS1) == Report.COURSES
    ensures forall j :: 0 <= j < Report.COURSES ==> [(Columns(AltS1)[0] + Columns(AltS1)[1] + Columns(AltS1)[2] + Columns(AltS1)[3])[j]] == Report.COURSE_COLUMNS[j]
    ensures forall k :: 1 <= k <= 4 ==> Ranges(AltS1)[k - 1] == (Report.Lo(k) + 1, Report.Hi(k) + 1)
  {
  }

  // ---------------------------------------------------------------------
  // The required-credit check
  // ---------------------------------------------------------------------

  /** `[f"ECTS{i}" for i in range(1, n + 1)]`. */
  function RequiredSlots(n: nat): (r: seq<string>)
    ensures |r| == n && forall i :: 0 <= i < n ==> r[i] == Ects.Slot(i + 1)
  {
    seq(n, i requires 0 <= i < n => Ects.Slot(i + 1))
  }

  /** The message of the `ValueError` raised for missing slots. */
  function MissingMessage(name: string, missing: seq<string>): string {
    "Missing ECTS values for " + name + ": " + ListRepr(missing)
  }

  /**
   * The check run before any row is read: a listed layout needs the slots
   * "ECTS1" .. "ECTS<required>" in the credit record, and the error names
   * the layout and the missing slots in order; any other name is not
   * checked.  (The second master's layout runs the same check twice, which
   * gives the same answer.)
   */
  function CheckRequiredEcts(name: string, data: map<string, string>): Result<()> {
    match ModelOf(name)
    case None => Ok(())
    case Some(m) =>
      var missing := Missing(RequiredSlots(Required(m)), data);
      if missing == [] then Ok(()) else Err(MissingMessage(name, missing))
  }

  /** The check passes exactly when every required slot is in the record, and an unlisted name is not checked. */
  lemma {:induction false} CheckPasses(name: string, data: map<string, string>)
    ensures ModelOf(name).None? ==> CheckRequiredEcts(name, data).Ok?
    ensures ModelOf(name).Some? ==>
              (CheckRequiredEcts(name, data).Ok? <==> forall i :: 1 <= i <= Required(ModelOf(name).value) ==> Ects.Slot(i) in data)
  {
    if ModelOf(name).Some? {
      var req := RequiredSlots(Required(ModelOf(name).value));
      var missing := Missing(req, data);
      if missing != [] {
        assert missing[0] in missing;
        var j :| 0 <= j < |req| && req[j] == missing[0];
        assert Ects.Slot(j + 1) !in data;
      } else {
        forall i | 1 <= i <= |req|
          ensures Ects.Slot(i) in data
        {
          assert req[i - 1] in req;
        }
      }
    }
  }

  /** A failed check names the layout and lists, in order, exactly the required slots absent from the record. */
  lemma {:induction false} CheckNamesMissing(name: string, data: map<string, string>)
    requires CheckRequiredEcts(name, data).Err?
    ensures ModelOf(name).Some?
    ensures var missing := Missing(RequiredSlots(Required(ModelOf(name).value)), data);
            && CheckRequiredEcts(name, data).msg == MissingMessage(name, missing)
            && forall x :: x in missing <==> x !in data && exists i :: 1 <= i <= Required(ModelOf(name).value) && x == Ects.Slot(i)
  {
    var req := RequiredSlots(Required(ModelOf(name).value));
    forall x
      ensures x in req <==> exists i :: 1 <= i <= |req| && x == Ects.Slot(i)
    {
      if x in req {
        var j :| 0 <= j < |req| && req[j] == x;
        assert 1 <= j + 1 <= |req| && x == Ects.Slot(j + 1);
      }
      if exists i :: 1 <= i <= |req| && x == Ects.Slot(i) {
        var i :| 1 <= i <= |req| && x == Ects.Slot(i);
        assert req[i - 1] == x;
      }
    }
  }

  /** The slots "ECTS1" .. "ECTS<n>" are among those of an `k`-slot record exactly when `n <= k`. */
  lemma {:induction false} SlotsHeld(k: nat, n: nat)
    ensures (forall i :: 1 <= i <= n ==> Ects.Slot(i) in Ects.Slots(k)) <==> n <= k
  {
    if n > k {
      if Ects.Slot(n) in Ects.Slots(k) {
        var i :| 1 <= i <= k && Ects.Slot(i) == Ects.Slot(n);
        NumberedInjective("ECTS", i, n);
      }
    }
  }

  /**
   * On the credits the table answers for a curriculum, the check of a model
   * passes exactly when the curriculum's record has at least the model's
   * number of slots.
   */
  lemma {:induction false} CheckOfRecord(m: Model, curriculum: string)
    requires curriculum in Ects.ECTS_DATA
    ensures Ects.GetEctsForTemplate(curriculum).Ok?
    ensures CheckRequiredEcts(FileName(m), Ects.GetEctsForTemplate(curriculum).value).Ok? <==>
              Required(m) <= |Ects.ECTS_DATA[curriculum][0]|
  {
    Ects.KeysNormalized();
    Ects.EctsFound(curriculum);
    var data := Ects.GetEctsForTemplate(curriculum).value;
    ModelOfFileName(m);
    CheckPasses(FileName(m), data);
    SlotsHeld(|Ects.ECTS_DATA[curriculum][0]|, Required(m));
  }

  /**
   * The record "BG_TP_5" holds nineteen slots, fewer than the fifth
   * full-time semester needs, so by `CheckOfRecord` the check of that model
   * fails on it.
   */
  lemma {:induction false} TpS5RecordShort()
    ensures "BG_TP_5" in Ects.ECTS_DATA && |Ects.ECTS_DATA["BG_TP_5"][0]| == 19 < Required(TpS5)
  {
  }

  // ---------------------------------------------------------------------
  // Nominal credits
  // ---------------------------------------------------------------------

  /** `sum(int(ects_data[f"ECTS{i}"]) for i in range(lo, hi))`, slot `i` at `credits[i - 1]`. */
  function RangeSum(credits: seq<string>, r: (nat, nat)): int
    requires 1 <= r.0 <= r.1 <= |credits| + 1
  {
    Report.IntSum(credits[r.0 - 1..r.1 - 1])
  }

  /** Every range of a chain lies within slots `lo` .. `n`. */
  lemma {:induction false} ChainWithin(rs: seq<(nat, nat)>, lo: nat, n: nat, u: nat)
    requires ChainFrom(rs, lo, n) && u < |rs|
    ensures lo <= rs[u].0 <= rs[u].1 <= n + 1
    decreases |rs|
  {
    if |rs| > 1 {
      if u > 0 {
        ChainWithin(rs[1..], rs[0].1, n, u - 1);
        assert rs[1..][u - 1] == rs[u];
      } else {
        ChainWithin(rs[1..], rs[0].1, n, 0);
      }
    }
  }

  /** The credits of the ranges of a chain, one range after the other. */
  function ChainTotal(rs: seq<(nat, nat)>, lo: nat, n: nat, credits: seq<string>): int
    requires ChainFrom(rs, lo, n) && 1 <= lo && n <= |credits|
    decreases |rs|
  {
    ChainWithin(rs, lo, n, 0);
    RangeSum(credits, rs[0]) + if |rs| == 1 then 0 else ChainTotal(rs[1..], rs[0].1, n, credits)
  }

  /** The credits of the ranges of a chain are the credits of the slots they cover together. */
  lemma {:induction false} ChainTotalSlots(rs: seq<(nat, nat)>, lo: nat, n: nat, credits: seq<string>)
    requires ChainFrom(rs, lo, n) && 1 <= lo && n <= |credits|
    ensures lo <= n + 1
    ensures ChainTotal(rs, lo, n, credits) == Report.IntSum(credits[lo - 1..n])
    decreases |rs|
  {
    ChainWithin(rs, lo, n, 0);
    if |rs| > 1 {
      ChainTotalSlots(rs[1..], rs[0].1, n, credits);
      SliceSplit(credits, lo - 1, rs[0].1 - 1, n);
    }
  }

  /** The credits of a run of slots are those of its two halves. */
  lemma {:induction false} SliceSplit(credits: seq<string>, a: nat, b: nat, c: nat)
    requires a <= b <= c <= |credits|
    ensures Report.IntSum(credits[a..c]) == Report.IntSum(credits[a..b]) + Report.IntSum(credits[b..c])
  {
    assert credits[a..c] == credits[a..b] + credits[b..c];
    Report.IntSumConcat(credits[a..b], credits[b..c]);
  }

  /** The nominal credits of each UE of a model: `ects_ue1` .. `ects_ue4`, then `ects_uespe`. */
  function NominalUes(m: Model, credits: seq<string>): (ns: seq<int>)
    requires |credits| >= Required(m)
    ensures |ns| == |Ranges(m)|
  {
    ModelsWellFormed(m);
    seq(|Ranges(m)|, u requires 0 <= u < |Ranges(m)| =>
      ChainWithin(Ranges(m), 1, Required(m), u); RangeSum(credits, Ranges(m)[u]))
  }

  /** `moyenne_ects`: the four UEs' nominal credits, plus the specialisation UE's for the master's models. */
  function MoyenneEcts(m: Model, credits: seq<string>): int
    requires |credits| >= Required(m)
  {
    ModelsWellFormed(m);
    var ns := NominalUes(m, credits);
    ns[0] + ns[1] + ns[2] + ns[3] + if IsMaster(m) then ns[4] else 0
  }

  /** The credits of a chain of four or five ranges, range by range. */
  lemma {:induction false} ChainTotalByRange(rs: seq<(nat, nat)>, n: nat, credits: seq<string>)
    requires Chained(rs, n) && n <= |credits| && 4 <= |rs| <= 5
    ensures forall u :: 0 <= u < |rs| ==> 1 <= rs[u].0 <= rs[u].1 <= n + 1
    ensures ChainTotal(rs, 1, n, credits) ==
              RangeSum(credits, rs[0]) + RangeSum(credits, rs[1]) + RangeSum(credits, rs[2]) + RangeSum(credits, rs[3])
              + if |rs| == 5 then RangeSum(credits, rs[4]) else 0
  {
    forall u | 0 <= u < |rs|
      ensures 1 <= rs[u].0 <= rs[u].1 <= n + 1
    {
      ChainWithin(rs, 1, n, u);
    }
    assert rs[0..] == rs;
    ChainTails(rs, 1, n, 1);
    ChainTails(rs, 1, n, 2);
    ChainTails(rs, 1, n, 3);
    TailStep(rs, 1, n, credits, 0);
    TailStep(rs, 1, n, credits, 1);
    TailStep(rs, 1, n, credits, 2);
    if |rs| == 5 {
      ChainTails(rs, 1, n, 4);
      TailStep(rs, 1, n, credits, 3);
    }
  }

  /** One range of a tail of a chain, then the rest of the tail. */
  lemma {:induction false} TailStep(rs: seq<(nat, nat)>, lo: nat, n: nat, credits: seq<string>, u: nat)
    requires ChainFrom(rs, lo, n) && 1 <= lo && n <= |credits| && u + 1 < |rs|
    requires ChainFrom(rs[u..], rs[u].0, n) && ChainFrom(rs[u + 1..], rs[u].1, n)
    ensures 1 <= rs[u].0 <= rs[u].1 <= n + 1 && rs[u + 1].0 == rs[u].1
    ensures ChainTotal(rs[u..], rs[u].0, n, credits) == RangeSum(credits, rs[u]) + ChainTotal(rs[u + 1..], rs[u].1, n, credits)
  {
    ChainWithin(rs, lo, n, u);
    ChainWithin(rs, lo, n, u + 1);
    assert rs[u..][0] == rs[u];
    assert rs[u..][1..] == rs[u + 1..];
  }

  /** `moyenne_ects` is the sum of every required slot, each read once. */
  lemma {:induction false} MoyenneEctsAllSlots(m: Model, credits: seq<string>)
    requires |credits| >= Required(m)
    ensures MoyenneEcts(m, credits) == Report.IntSum(credits[..Required(m)])
  {
    ModelsWellFormed(m);
    var rs, n := Ranges(m), Required(m);
    ChainTotalByRange(rs, n, credits);
    ChainTotalSlots(rs, 1, n, credits);
    assert credits[..n] == credits[0..n];
  }

  /** Every tail of a chain is a chain from where the previous range stops. */
  lemma {:induction false} ChainTails(rs: seq<(nat, nat)>, lo: nat, n: nat, u: nat)
    requires ChainFrom(rs, lo, n) && u < |rs|
    ensures ChainFrom(rs[u..], rs[u].0, n)
    decreases u
  {
    if u > 0 {
      ChainTails(rs, lo, n, u - 1);
      assert rs[u - 1..][1..] == rs[u..];
    }
  }
}
