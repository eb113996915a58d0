/**
 * The static table of course credits (ECTS) per curriculum and its lookup.
 * Each curriculum holds a list of records; a record gives the credits of the
 * slots "ECTS1", "ECTS2", ... in order, so it is written here as the list of
 * its values, slot `i` holding the `i`-th value.
 */
module Ects {
  import opened Wrappers
  import opened Text

  /** A record `{"ECTS1": v1, "ECTS2": v2, ...}`, written as `[v1, v2, ...]`. */
  type Record = seq<nat>

  /** `ECTS_DATA`: the credit records of each curriculum. */
  const ECTS_DATA: map<string, seq<Record>> := map[
    "M1-S1" := [[2, 2, 2, 3, 2, 2, 2, 0, 0, 0, 9, 0, 2, 2, 2]],
    "M1-S2" := [[2, 2, 2, 2, 1, 9, 2, 2, 0, 0, 0, 0, 2, 2, 2, 2]],
    "M2-S3-MAGI" := [[2, 2, 2, 0, 9, 2, 2, 0, 0, 2, 3, 3, 3]],
    "M2-S3-MEFIM" := [[2, 2, 2, 0, 9, 2, 2, 0, 0, 3, 2, 3, 3]],
    "M2-S3-MAPI" := [[2, 2, 2, 0, 9, 2, 2, 0, 0, 2, 3, 2, 2, 2]],
    "M2-S4" := [[2, 2, 2, 2, 5, 0, 0, 9, 4, 2, 2]],
    "BG_ALT_1" := [[3, 3, 3, 3, 3, 2, 9, 2, 0, 0, 0, 2, 0, 0]],
    "BG_ALT_2" := [[3, 2, 3, 2, 2, 2, 2, 3, 9, 2, 0, 0, 0, 0, 0]],
    "BG_ALT_3" := [[3, 3, 2, 0, 3, 3, 3, 2, 9, 2, 0, 0, 0]],
    "BG_ALT_4" := [[2, 4, 3, 2, 2, 2, 2, 2, 9, 2, 0, 0, 0]],
    "BG_ALT_5" := [[3, 3, 3, 2, 2, 3, 3, 7, 2, 0, 0, 0, 2, 0]],
    "BG_ALT_6" := [[2, 2, 3, 2, 2, 2, 7, 4, 0, 4, 2, 0]],
    "BG_TP_1" := [[3, 3, 3, 3, 2, 3, 2, 3, 3, 2, 2, 2, 2, 3, 2, 0, 0, 0, 2, 0, 0, 0]],
    "BG_TP_2" := [[18, 2]],
    "BG_TP_3" := [[3, 3, 2, 3, 3, 3, 2, 2, 2, 2, 3, 2, 0, 0, 0]],
    "BG_TP_4" := [[30]],
    "BG_TP_5" := [[3, 3, 3, 2, 2, 2, 2, 3, 3, 2, 3, 2, 2, 2, 0, 0, 2, 0, 4]],
    "BG_TP_6" := [[14, 4, 2]]
  ]

  /** The slot name `f"ECTS{i}"`. */
  function Slot(i: nat): string {
    Numbered("ECTS", i)
  }

  /** The slot names of a record: "ECTS1" up to "ECTS<n>". */
  function Slots(n: nat): set<string> {
    set i | 1 <= i <= n :: Slot(i)
  }

  /** The record as the dictionary it stands for. */
  function RecordMap(rec: Record): (m: map<string, nat>)
    ensures m.Keys == Slots(|rec|)
  {
    NumberedInjectiveAll("ECTS");
    map i | 1 <= i <= |rec| :: Slot(i) := rec[i - 1]
  }

  /** Slot `i` of the dictionary holds the `i`-th value of the record. */
  lemma {:induction false} RecordMapAt(rec: Record, i: nat)
    requires 1 <= i <= |rec|
    ensures Slot(i) in RecordMap(rec) && RecordMap(rec)[Slot(i)] == rec[i - 1]
  {
    NumberedInjectiveAll("ECTS");
  }

  /** `template_name.replace("_S", "")`. */
  function Normalize(name: string): string {
    ReplaceAll(name, "_S", "")
  }

  /** The message of the `ValueError` for an unknown curriculum. */
  function NotFound(normalized: string): string {
    "Template ECTS non trouvé : " + normalized
  }

  /**
   * `get_ects_for_template`: the first record of the normalised name, its
   * credits written as decimal strings; an error naming the normalised name
   * when the table has no such entry (and Python's index error for an empty
   * list of records, which the table never holds).
   */
  function GetEctsForTemplate(name: string): (r: Result<map<string, string>>)
    ensures Normalize(name) !in ECTS_DATA ==> r == Err(NotFound(Normalize(name)))
    ensures r.Ok? ==> Normalize(name) in ECTS_DATA && |ECTS_DATA[Normalize(name)]| > 0
    ensures r.Ok? ==> r.value.Keys == Slots(|ECTS_DATA[Normalize(name)][0]|)
  {
    var n := Normalize(name);
    if n !in ECTS_DATA then Err(NotFound(n))
    else if |ECTS_DATA[n]| == 0 then Err("list index out of range")
    else
      var rec := RecordMap(ECTS_DATA[n][0]);
      Ok(map k | k in rec :: IntToString(rec[k]))
  }

  /** Every curriculum holds exactly one record. */
  lemma {:induction false} OneRecordEach()
    ensures forall k | k in ECTS_DATA :: |ECTS_DATA[k]| == 1
  {
  }

  /** A listed curriculum is always found. */
  lemma {:induction false} EctsFound(name: string)
    requires Normalize(name) in ECTS_DATA
    ensures GetEctsForTemplate(name).Ok?
  {
    OneRecordEach();
  }

  /** Each credit of the answer reads back, with `int(...)`, as the stored credit. */
  lemma {:induction false} EctsValuesReadBack(name: string, i: nat)
    requires GetEctsForTemplate(name).Ok?
    requires 1 <= i <= |ECTS_DATA[Normalize(name)][0]|
    ensures Slot(i) in GetEctsForTemplate(name).value
    ensures ParseInt(GetEctsForTemplate(name).value[Slot(i)]) == Some(ECTS_DATA[Normalize(name)][0][i - 1] as int)
  {
    var rec := ECTS_DATA[Normalize(name)][0];
    RecordMapAt(rec, i);
    ParseIntRoundTrip(rec[i - 1]);
  }

  /** The curriculum names are the master's ones, starting with 'M', and the bachelor's ones, starting with 'B'. */
  lemma {:induction false} KeysInitials()
    ensures forall k | k in ECTS_DATA :: |k| > 0 && (k[0] == 'M' || k[0] == 'B')
  {
  }

  /** The master's curriculum names hold no '_'. */
  lemma {:induction false} MasterKeysNoUnderscore()
    ensures forall k | k in ECTS_DATA && |k| > 0 && k[0] == 'M' :: '_' !in k
  {
  }

  /** The bachelor's curriculum names hold no 'S'. */
  lemma {:induction false} BachelorKeysNoS()
    ensures forall k | k in ECTS_DATA && |k| > 0 && k[0] == 'B' :: 'S' !in k
  {
  }

  /** Every character of a contained string occurs in the string. */
  lemma {:induction false} ContainsHas(s: string, sub: string, k: nat)
    requires k < |sub| && Contains(s, sub)
    ensures sub[k] in s
    decreases |s|
  {
    if s[..|sub|] == sub {
      assert s[k] == sub[k];
    } else {
      ContainsHas(s[1..], sub, k);
      var j :| 0 <= j < |s[1..]| && s[1..][j] == sub[k];
      assert s[j + 1] == sub[k];
    }
  }

  /** No curriculum name contains "_S", so each one normalises to itself and finds its own entry. */
  lemma {:induction false} KeysNormalized()
    ensures forall k | k in ECTS_DATA :: Normalize(k) == k
  {
    KeysInitials();
    MasterKeysNoUnderscore();
    BachelorKeysNoS();
    forall k | k in ECTS_DATA ensures Normalize(k) == k {
      if Contains(k, "_S") {
        ContainsHas(k, "_S", 0);
        ContainsHas(k, "_S", 1);
      }
      ReplaceAllAbsent(k, "_S", "");
    }
  }

  /** Looking a curriculum up by its own name yields its record, each credit written as a decimal string. */
  lemma {:induction false} EctsOfKey(k: string, i: nat)
    requires k in ECTS_DATA && 1 <= i <= |ECTS_DATA[k][0]|
    ensures GetEctsForTemplate(k).Ok?
    ensures Slot(i) in GetEctsForTemplate(k).value
    ensures GetEctsForTemplate(k).value[Slot(i)] == IntToString(ECTS_DATA[k][0][i - 1])
  {
    KeysNormalized();
    OneRecordEach();
    RecordMapAt(ECTS_DATA[k][0], i);
  }
}
