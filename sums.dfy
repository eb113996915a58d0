/**
 * The running totals behind every average of the report card: a left-to-right
 * accumulation of Σ note·coef and Σ coef over the pieces of a cell or the
 * courses of a teaching unit, aborted by a piece that cannot be read.
 */
module Sums {
  import opened Wrappers

  /** What one piece of a grade cell contributes to an average. */
  datatype Term = Skipped | Weighted(note: real, coef: real) | Malformed

  /** The running totals Σ note·coef and Σ coef. */
  datatype Sums = Sums(weighted: real, total: real)

  const NoSums: Option<Sums> := Some(Sums(0.0, 0.0))

  /** The terms of the pieces `parts`, each read by `read`. */
  function ReadAll<P>(parts: seq<P>, read: P -> Term): (ts: seq<Term>)
    ensures |ts| == |parts|
    ensures forall i :: 0 <= i < |parts| ==> ts[i] == read(parts[i])
  {
    seq(|parts|, i requires 0 <= i < |parts| => read(parts[i]))
  }

  /** One step of the accumulation loop; a malformed piece aborts it (`None`). */
  function Accumulate(acc: Option<Sums>, t: Term): Option<Sums> {
    match acc
    case None => None
    case Some(s) =>
      match t
      case Skipped => acc
      case Malformed => None
      case Weighted(n, c) => Some(Sums(s.weighted + n * c, s.total + c))
  }

  /** The totals after accumulating the pieces `ts` from left to right, starting at `acc`. */
  function Fold(acc: Option<Sums>, ts: seq<Term>): Option<Sums>
    decreases |ts|
  {
    if ts == [] then acc else Accumulate(Fold(acc, ts[..|ts| - 1]), ts[|ts| - 1])
  }

  /** A weighted piece adds `note·coef` to the weighted sum and `coef` to the total. */
  lemma {:induction false} AccumulateWeighted(s: Sums, n: real, c: real)
    ensures Accumulate(Some(s), Weighted(n, c)) == Some(Sums(s.weighted + n * c, s.total + c))
  {
    var r := Accumulate(Some(s), Weighted(n, c));
    assert r.value.weighted == s.weighted + n * c;
    assert r.value.total == s.total + c;
  }

  /** Accumulating `a + b` is accumulating `a`, then `b`. */
  lemma {:induction false} FoldAppend(acc: Option<Sums>, a: seq<Term>, b: seq<Term>)
    ensures Fold(acc, a + b) == Fold(Fold(acc, a), b)
    decreases |b|
  {
    if b == [] {
      assert a + b == a;
    } else {
      var b' := b[..|b| - 1];
      assert (a + b)[..|a + b| - 1] == a + b';
      FoldAppend(acc, a, b');
    }
  }

  /** Accumulating one more piece. */
  lemma {:induction false} FoldStep(acc: Option<Sums>, ts: seq<Term>, i: nat)
    requires i < |ts|
    ensures Fold(acc, ts[..i + 1]) == Accumulate(Fold(acc, ts[..i]), ts[i])
  {
    assert ts[..i + 1][..i] == ts[..i];
  }

  /** Once aborted, the accumulation stays aborted. */
  lemma {:induction false} FoldAborted(ts: seq<Term>)
    ensures Fold(None, ts) == None
    decreases |ts|
  {
    if ts != [] {
      FoldAborted(ts[..|ts| - 1]);
    }
  }

  /** A single malformed piece anywhere aborts the whole accumulation. */
  lemma {:induction false} FoldMalformed(acc: Option<Sums>, ts: seq<Term>, i: nat)
    requires i < |ts| && ts[i].Malformed?
    ensures Fold(acc, ts) == None
  {
    var a, b := ts[..i + 1], ts[i + 1..];
    assert ts == a + b;
    FoldAppend(acc, a, b);
    assert a[..i] == ts[..i];
    assert Fold(acc, a) == None;
    FoldAborted(b);
  }

  /** Without a malformed piece the accumulation runs to the end. */
  lemma {:induction false} FoldSome(ts: seq<Term>)
    requires forall i :: 0 <= i < |ts| ==> !ts[i].Malformed?
    ensures Fold(NoSums, ts).Some?
    decreases |ts|
  {
    if ts != [] {
      FoldSome(ts[..|ts| - 1]);
    }
  }

  /** A skipped piece contributes nothing, wherever it stands. */
  lemma {:induction false} FoldSkipped(acc: Option<Sums>, a: seq<Term>, b: seq<Term>)
    ensures Fold(acc, a + [Skipped] + b) == Fold(acc, a + b)
  {
    FoldAppend(acc, a + [Skipped], b);
    assert (a + [Skipped])[..|a|] == a;
    FoldAppend(acc, a, b);
  }

  /** A piece read as skipped contributes nothing, wherever it stands. */
  lemma {:induction false} ReadAllSkipped<P>(a: seq<P>, x: P, b: seq<P>, read: P -> Term)
    requires read(x) == Skipped
    ensures Fold(NoSums, ReadAll(a + [x] + b, read)) == Fold(NoSums, ReadAll(a + b, read))
  {
    var ta, tb := ReadAll(a, read), ReadAll(b, read);
    assert ReadAll(a + [x] + b, read) == ta + [Skipped] + tb;
    assert ReadAll(a + b, read) == ta + tb;
    FoldSkipped(NoSums, ta, tb);
  }

  /**
   * With non-negative weights and every weighted note in `[lo, hi]`, the
   * weighted sum lies between `lo` and `hi` times the total weight.
   */
  lemma {:induction false} FoldBetween(ts: seq<Term>, lo: real, hi: real)
    requires forall i :: 0 <= i < |ts| && ts[i].Weighted? ==> lo <= ts[i].note <= hi && 0.0 <= ts[i].coef
    ensures Bounded(Fold(NoSums, ts), lo, hi)
    decreases |ts|
  {
    if ts != [] {
      var init := ts[..|ts| - 1];
      FoldBetween(init, lo, hi);
      if Fold(NoSums, init).Some? {
        AccumulateBetween(Fold(NoSums, init).value, ts[|ts| - 1], lo, hi);
      }
    }
  }

  /** `FoldBetween` for pieces read by `read`. */
  lemma {:induction false} ReadAllBetween<P>(parts: seq<P>, read: P -> Term, lo: real, hi: real)
    requires forall i :: 0 <= i < |parts| && read(parts[i]).Weighted? ==>
               lo <= read(parts[i]).note <= hi && 0.0 <= read(parts[i]).coef
    ensures Bounded(Fold(NoSums, ReadAll(parts, read)), lo, hi)
  {
    FoldBetween(ReadAll(parts, read), lo, hi);
  }

  /** Totals with a non-negative weight and a weighted sum between `lo` and `hi` times it. */
  predicate Bounded(o: Option<Sums>, lo: real, hi: real) {
    o.Some? ==> 0.0 <= o.value.total && lo * o.value.total <= o.value.weighted <= hi * o.value.total
  }

  lemma {:induction false} AccumulateBetween(s: Sums, t: Term, lo: real, hi: real)
    requires Bounded(Some(s), lo, hi)
    requires t.Weighted? ==> lo <= t.note <= hi && 0.0 <= t.coef
    ensures Bounded(Accumulate(Some(s), t), lo, hi)
  {
    if t.Weighted? {
      var n, c := t.note, t.coef;
      MulBetween(lo, n, hi, c);
      assert lo * (s.total + c) == lo * s.total + lo * c;
      assert hi * (s.total + c) == hi * s.total + hi * c;
    }
  }

  lemma {:induction false} MulBetween(lo: real, n: real, hi: real, c: real)
    requires lo <= n <= hi && 0.0 <= c
    ensures lo * c <= n * c <= hi * c
  {
  }

  /** A positive total weight means at least one piece was weighted with a positive weight. */
  lemma {:induction false} FoldTotalPositive(ts: seq<Term>)
    requires forall i :: 0 <= i < |ts| && ts[i].Weighted? ==> 1.0 <= ts[i].coef
    ensures Fold(NoSums, ts).Some? ==>
              (Fold(NoSums, ts).value.total > 0.0 <==> exists i :: 0 <= i < |ts| && ts[i].Weighted?)
    ensures Fold(NoSums, ts).Some? ==> Fold(NoSums, ts).value.total >= 0.0
    decreases |ts|
  {
    if ts != [] {
      var init := ts[..|ts| - 1];
      FoldTotalPositive(init);
      forall i | 0 <= i < |init| ensures init[i] == ts[i] { }
    }
  }

  /** With weights of at least 1 and nothing malformed, there is no average exactly when no piece is weighted. */
  lemma {:induction false} AverageNone(ts: seq<Term>)
    requires forall i :: 0 <= i < |ts| ==> !ts[i].Malformed? && (ts[i].Weighted? ==> 1.0 <= ts[i].coef)
    ensures Average(Fold(NoSums, ts)).None? <==> forall i :: 0 <= i < |ts| ==> !ts[i].Weighted?
  {
    FoldSome(ts);
    FoldTotalPositive(ts);
  }

  /** The notes of the weighted pieces, in order. */
  function Notes(ts: seq<Term>): seq<real>
    decreases |ts|
  {
    if ts == [] then []
    else Notes(ts[..|ts| - 1]) + (if ts[|ts| - 1].Weighted? then [ts[|ts| - 1].note] else [])
  }

  function Sum(xs: seq<real>): real
    decreases |xs|
  {
    if xs == [] then 0.0 else Sum(xs[..|xs| - 1]) + xs[|xs| - 1]
  }

  /** With every weight 1, the totals are the sum and the count of the notes. */
  lemma {:induction false} FoldUnitWeights(ts: seq<Term>)
    requires forall i :: 0 <= i < |ts| ==> !ts[i].Malformed? && (ts[i].Weighted? ==> ts[i].coef == 1.0)
    ensures Fold(NoSums, ts) == Some(Sums(Sum(Notes(ts)), |Notes(ts)| as real))
    decreases |ts|
  {
    if ts != [] {
      var init := ts[..|ts| - 1];
      FoldUnitWeights(init);
      var ns := Notes(init);
      if ts[|ts| - 1].Weighted? {
        assert (ns + [ts[|ts| - 1].note])[..|ns|] == ns;
      } else {
        assert ns + [] == ns;
      }
    }
  }

  /** Σ note·coef / Σ coef, when the accumulation succeeded with a positive total. */
  function Average(o: Option<Sums>): Option<real> {
    match o
    case Some(s) => if s.total > 0.0 then Some(s.weighted / s.total) else None
    case None => None
  }

  /** Totals kept between `lo` and `hi` times the weight give an average in `[lo, hi]`. */
  lemma {:induction false} AverageBetween(o: Option<Sums>, lo: real, hi: real)
    requires Bounded(o, lo, hi)
    ensures Average(o).Some? ==> lo <= Average(o).value <= hi
  {
    if Average(o).Some? {
      DivBetween(o.value.weighted, o.value.total, lo, hi);
    }
  }

  /** Σ note·coef / Σ coef whenever the total is not zero (it may be negative). */
  function Quotient(o: Option<Sums>): Option<real> {
    match o
    case Some(s) => if s.total != 0.0 then Some(s.weighted / s.total) else None
    case None => None
  }

  /** Bounded totals give a quotient in `[lo, hi]`. */
  lemma {:induction false} QuotientBetween(o: Option<Sums>, lo: real, hi: real)
    requires Bounded(o, lo, hi)
    ensures Quotient(o).Some? ==> lo <= Quotient(o).value <= hi
  {
    if Quotient(o).Some? {
      DivBetween(o.value.weighted, o.value.total, lo, hi);
    }
  }

  /** `lo·t <= w <= hi·t` with `t > 0` puts `w / t` in `[lo, hi]`. */
  lemma {:induction false} DivBetween(w: real, t: real, lo: real, hi: real)
    requires t > 0.0 && lo * t <= w <= hi * t
    ensures lo <= w / t <= hi
  {
    assert (w / t) * t == w;
  }

  /**
   * The accumulation loop shared by the three averages: each piece is read,
   * a malformed one aborts, a weighted one adds to both totals.
   */
  method AccumulateRead<P>(parts: seq<P>, read: P -> Term) returns (sums: Option<Sums>)
    ensures sums == Fold(NoSums, ReadAll(parts, read))
  {
    ghost var ts := ReadAll(parts, read);
    var weighted, total := 0.0, 0.0;
    var i := 0;
    while i < |parts|
      invariant 0 <= i <= |parts|
      invariant Fold(NoSums, ts[..i]) == Some(Sums(weighted, total))
    {
      var t := read(parts[i]);
      FoldStep(NoSums, ts, i);
      match t {
        case Malformed =>
          FoldMalformed(NoSums, ts, i);
          return None;
        case Skipped =>
        case Weighted(n, c) =>
          AccumulateWeighted(Sums(weighted, total), n, c);
          weighted, total := weighted + n * c, total + c;
      }
      i := i + 1;
    }
    assert ts[..i] == ts;
    sums := Some(Sums(weighted, total));
  }
}
