/**
 * The absences of the learners, as the absence service sorts them: for each
 * learner code, the durations of the justified absences, of the
 * unjustified ones and of the delays, each list in input order.
 */
module Absences {
  import opened Wrappers

  /**
   * One absence record: the learner code (`None` when the key is missing),
   * the duration in minutes (`None` when the key is missing) and the two
   * flags, read as booleans.
   */
  datatype Absence = Absence(codeApprenant: Option<string>, duree: Option<int>, isJustifie: bool, isRetard: bool)

  /** The three lists of one learner. */
  datatype Buckets = Buckets(justified: seq<int>, unjustified: seq<int>, delays: seq<int>)

  const NoAbsences := Buckets([], [], [])

  datatype Kind = Justified | Unjustified | Delay

  /** `int(absence.get("duree", 0))`. */
  function Duration(a: Absence): int {
    a.duree.GetOr(0)
  }

  /** A record is kept when its learner code is truthy: present and not empty. */
  predicate Kept(a: Absence) {
    a.codeApprenant.Some? && a.codeApprenant.value != ""
  }

  /** The list a record goes to: a delay first, then a justified absence, else an unjustified one. */
  function KindOf(a: Absence): Kind {
    if a.isRetard then Delay else if a.isJustifie then Justified else Unjustified
  }

  /** Appends a duration to one of the three lists. */
  function Append(b: Buckets, k: Kind, d: int): (r: Buckets)
    ensures |r.justified| + |r.unjustified| + |r.delays| == |b.justified| + |b.unjustified| + |b.delays| + 1
  {
    match k
    case Justified => b.(justified := b.justified + [d])
    case Unjustified => b.(unjustified := b.unjustified + [d])
    case Delay => b.(delays := b.delays + [d])
  }

  /** The learner codes of the kept records. */
  function Codes(data: seq<Absence>): set<string> {
    set i | 0 <= i < |data| && Kept(data[i]) :: data[i].codeApprenant.value
  }

  /** Whether a record is a kept record of learner `code`. */
  predicate Of(a: Absence, code: string) {
    Kept(a) && a.codeApprenant.value == code
  }

  /** The durations, in input order, of the kept records of `code` that go to list `k`. */
  function Durations(data: seq<Absence>, code: string, k: Kind): seq<int>
    decreases |data|
  {
    if data == [] then []
    else
      var a := data[|data| - 1];
      Durations(data[..|data| - 1], code, k) + if Of(a, code) && KindOf(a) == k then [Duration(a)] else []
  }

  /** The number of kept records of `code`. */
  function Count(data: seq<Absence>, code: string): nat
    decreases |data|
  {
    if data == [] then 0
    else Count(data[..|data| - 1], code) + if Of(data[|data| - 1], code) then 1 else 0
  }

  /** What the summary holds for a learner: the three lists of its records. */
  function BucketsOf(data: seq<Absence>, code: string): Buckets {
    Buckets(Durations(data, code, Justified), Durations(data, code, Unjustified), Durations(data, code, Delay))
  }

  /**
   * `process_absences`: one entry, created with three empty lists, per
   * truthy learner code met, holding the durations of that learner's
   * records, each in the list its flags choose, in input order.
   */
  method ProcessAbsences(data: seq<Absence>) returns (summary: map<string, Buckets>)
    ensures summary.Keys == Codes(data)
    ensures forall code :: code in summary ==> summary[code] == BucketsOf(data, code)
  {
    summary := map[];
    var i := 0;
    while i < |data|
      invariant 0 <= i <= |data|
      invariant summary.Keys == Codes(data[..i])
      invariant forall code :: code in summary ==> summary[code] == BucketsOf(data[..i], code)
    {
      var a := data[i];
      assert data[..i + 1][..i] == data[..i];
      if Kept(a) {
        var code := a.codeApprenant.value;
        if code !in summary {
          NoneBefore(data[..i], code);
          summary := summary[code := NoAbsences];
        }
        summary := summary[code := Append(summary[code], KindOf(a), Duration(a))];
      }
      CodesStep(data[..i + 1]);
      i := i + 1;
    }
    assert data[..i] == data;
  }

  /** A learner without a record so far has three empty lists. */
  lemma {:induction false} NoneBefore(data: seq<Absence>, code: string)
    requires code !in Codes(data)
    ensures BucketsOf(data, code) == NoAbsences
    decreases |data|
  {
    if data != [] {
      var p := data[..|data| - 1];
      assert Codes(p) <= Codes(data) by {
        forall c | c in Codes(p) ensures c in Codes(data) {
          var j :| 0 <= j < |p| && Kept(p[j]) && c == p[j].codeApprenant.value;
          assert data[j] == p[j];
        }
      }
      NoneBefore(p, code);
      var a := data[|data| - 1];
      assert Kept(a) ==> a.codeApprenant.value in Codes(data);
    }
  }

  /** The codes of a list are those of its prefix and of its last record. */
  lemma {:induction false} CodesStep(data: seq<Absence>)
    requires data != []
    ensures var p, a := data[..|data| - 1], data[|data| - 1];
            Codes(data) == Codes(p) + if Kept(a) then {a.codeApprenant.value} else {}
  {
    var p, a := data[..|data| - 1], data[|data| - 1];
    forall c | c in Codes(p)
      ensures c in Codes(data)
    {
      var j :| 0 <= j < |p| && Kept(p[j]) && c == p[j].codeApprenant.value;
      assert data[j] == p[j];
    }
    forall c | c in Codes(data)
      ensures c in Codes(p) || (Kept(a) && c == a.codeApprenant.value)
    {
      var j :| 0 <= j < |data| && Kept(data[j]) && c == data[j].codeApprenant.value;
      if j < |p| {
        assert p[j] == data[j];
      }
    }
  }

  /** Each kept record of a learner lands in exactly one of its three lists. */
  lemma {:induction false} OneListEach(data: seq<Absence>, code: string)
    ensures var b := BucketsOf(data, code);
            |b.justified| + |b.unjustified| + |b.delays| == Count(data, code)
    decreases |data|
  {
    if data != [] {
      OneListEach(data[..|data| - 1], code);
    }
  }

  /** The number of kept records. */
  function KeptCount(data: seq<Absence>): nat
    decreases |data|
  {
    if data == [] then 0
    else KeptCount(data[..|data| - 1]) + if Kept(data[|data| - 1]) then 1 else 0
  }

  /** The records of the learners `codes`, added up learner by learner. */
  function CountAll(data: seq<Absence>, codes: seq<string>): nat
    decreases |codes|
  {
    if codes == [] then 0 else Count(data, codes[0]) + CountAll(data, codes[1..])
  }

  /** The durations in the summary, added up over every learner, are as many as the kept records. */
  lemma {:induction false} TotalCount(data: seq<Absence>, codes: seq<string>)
    requires Distinct(codes)
    requires forall c :: c in codes <==> c in Codes(data)
    ensures CountAll(data, codes) == KeptCount(data)
    decreases |data|
  {
    if data != [] {
      var p, a := data[..|data| - 1], data[|data| - 1];
      CodesStep(data);
      CountAllStep(data, codes);
      assert Kept(a) ==> a.codeApprenant.value in Codes(data);
      if Kept(a) && a.codeApprenant.value !in Codes(p) {
        var c := a.codeApprenant.value;
        assert c in codes;
        var k :| 0 <= k < |codes| && codes[k] == c;
        CountZero(p, c);
        CountAllWithout(p, codes, k);
        RemoveAt(codes, k);
        TotalCount(p, codes[..k] + codes[k + 1..]);
      } else {
        TotalCount(p, codes);
      }
    } else {
      CountAllNone(codes);
    }
  }

  lemma {:induction false} CountAllNone(codes: seq<string>)
    ensures CountAll([], codes) == 0
    decreases |codes|
  {
    if codes != [] {
      CountAllNone(codes[1..]);
    }
  }

  predicate Distinct(codes: seq<string>) {
    forall i, j :: 0 <= i < j < |codes| ==> codes[i] != codes[j]
  }

  /** A learner without kept records has a count of zero. */
  lemma {:induction false} CountZero(data: seq<Absence>, code: string)
    requires code !in Codes(data)
    ensures Count(data, code) == 0
  {
    NoneBefore(data, code);
    OneListEach(data, code);
  }

  /** Leaving out one of distinct codes leaves the others, still distinct. */
  lemma {:induction false} RemoveAt(codes: seq<string>, k: nat)
    requires Distinct(codes) && k < |codes|
    ensures Distinct(codes[..k] + codes[k + 1..])
    ensures forall c :: c in codes[..k] + codes[k + 1..] <==> c in codes && c != codes[k]
  {
    var rest := codes[..k] + codes[k + 1..];
    assert forall j :: 0 <= j < |rest| ==> rest[j] == codes[if j < k then j else j + 1];
    forall c | c in codes && c != codes[k]
      ensures c in rest
    {
      var j :| 0 <= j < |codes| && codes[j] == c;
      assert rest[if j < k then j else j - 1] == c;
    }
  }

  /** Adding a record adds one to the count of its learner when it is kept, found once among distinct codes. */
  lemma {:induction false} CountAllStep(data: seq<Absence>, codes: seq<string>)
    requires data != [] && Distinct(codes)
    ensures var p, a := data[..|data| - 1], data[|data| - 1];
            CountAll(data, codes) == CountAll(p, codes) + if Kept(a) && a.codeApprenant.value in codes then 1 else 0
    decreases |codes|
  {
    if codes != [] {
      CountAllStep(data, codes[1..]);
    }
  }

  /** Leaving out a learner without records leaves the sum unchanged. */
  lemma {:induction false} CountAllWithout(data: seq<Absence>, codes: seq<string>, k: nat)
    requires k < |codes| && Count(data, codes[k]) == 0
    ensures CountAll(data, codes[..k] + codes[k + 1..]) == CountAll(data, codes)
    decreases k
  {
    if k == 0 {
      assert codes[..k] + codes[k + 1..] == codes[1..];
    } else {
      CountAllWithout(data, codes[1..], k - 1);
      assert codes[..k] + codes[k + 1..] == [codes[0]] + (codes[1..][..k - 1] + codes[1..][k..]);
    }
  }

  /** A record flagged both as a delay and as justified is counted as a delay. */
  lemma {:induction false} DelayFirst(data: seq<Absence>, code: string, d: Option<int>)
    requires code != ""
    ensures var a := Absence(Some(code), d, true, true);
            BucketsOf(data + [a], code) == BucketsOf(data, code).(delays := BucketsOf(data, code).delays + [d.GetOr(0)])
  {
    var a := Absence(Some(code), d, true, true);
    assert (data + [a])[..|data|] == data;
  }

  /** A record without a learner code changes nothing. */
  lemma {:induction false} NoCodeSkipped(data: seq<Absence>, a: Absence)
    requires !Kept(a)
    ensures Codes(data + [a]) == Codes(data)
    ensures forall code :: BucketsOf(data + [a], code) == BucketsOf(data, code)
  {
    assert (data + [a])[..|data|] == data;
    CodesStep(data + [a]);
  }
}
