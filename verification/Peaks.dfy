/** The one-pass peak counter and the MCA binning that consumes it, over exact reals. */
module Peaks {
  import opened Sequences

  /** A reported peak: its height and the 1-based index of the sample that reached it. */
  datatype Peak = Peak(maximum: real, maximizer: nat)

  /** The half-open index range of a run of samples. */
  datatype Span = Span(lo: nat, hi: nat)

  // ---------------------------------------------------------------- maximal runs, declaratively

  ghost predicate IsMaximalRun(a: seq<real>, vlo: real, r: Span) {
    && r.lo < r.hi <= |a|
    && (forall k :: r.lo <= k < r.hi ==> a[k] > vlo)
    && (r.lo == 0 || a[r.lo - 1] <= vlo)
    && (r.hi == |a| || a[r.hi] <= vlo)
  }

  /** No sample of the run exceeds vhi. */
  predicate IsClean(a: seq<real>, vhi: real, r: Span)
    requires r.hi <= |a|
  {
    forall k :: r.lo <= k < r.hi ==> a[k] <= vhi
  }

  /** The height of a run and where it is first reached. */
  ghost predicate IsPeakOf(a: seq<real>, r: Span, p: Peak) {
    && r.hi <= |a| && r.lo < p.maximizer <= r.hi
    && a[p.maximizer - 1] == p.maximum
    && (forall k :: r.lo <= k < r.hi ==> a[k] <= p.maximum)
    && (forall k :: r.lo <= k < p.maximizer - 1 ==> a[k] < p.maximum)
  }

  // ---------------------------------------------------------------- maximal runs, in order

  function RunEnd(a: seq<real>, vlo: real, i: nat): (j: nat)
    requires i <= |a|
    ensures i <= j <= |a|
    ensures forall k :: i <= k < j ==> a[k] > vlo
    ensures j == |a| || a[j] <= vlo
    decreases |a| - i
  {
    if i == |a| || a[i] <= vlo then i else RunEnd(a, vlo, i + 1)
  }

  /** The maximal runs that start at or after `i`, when no run is under way at `i`. */
  function RunsFrom(a: seq<real>, vlo: real, i: nat): (rs: seq<Span>)
    requires i <= |a|
    ensures forall k :: 0 <= k < |rs| ==> i <= rs[k].lo < rs[k].hi <= |a|
    decreases |a| - i
  {
    if i == |a| then []
    else if a[i] <= vlo then RunsFrom(a, vlo, i + 1)
    else
      var j := RunEnd(a, vlo, i);
      [Span(i, j)] + RunsFrom(a, vlo, j)
  }

  function Runs(a: seq<real>, vlo: real): seq<Span> {
    RunsFrom(a, vlo, 0)
  }

  ghost predicate Ordered(rs: seq<Span>) {
    forall i, j :: 0 <= i < j < |rs| ==> rs[i].hi < rs[j].lo
  }

  lemma {:induction false} RunsFromExact(a: seq<real>, vlo: real, i: nat)
    requires i <= |a| && (i == 0 || i == |a| || a[i - 1] <= vlo || a[i] <= vlo)
    ensures forall r :: r in RunsFrom(a, vlo, i) <==> IsMaximalRun(a, vlo, r) && r.lo >= i
    ensures Ordered(RunsFrom(a, vlo, i))
    decreases |a| - i
  {
    if i < |a| {
      if a[i] <= vlo {
        RunsFromExact(a, vlo, i + 1);
      } else {
        var j := RunEnd(a, vlo, i);
        RunsFromExact(a, vlo, j);
        RunsFromCons(a, vlo, i, j, RunsFrom(a, vlo, j));
      }
    }
  }

  lemma RunsFromCons(a: seq<real>, vlo: real, i: nat, j: nat, rest: seq<Span>)
    requires i < j <= |a| && (i == 0 || a[i - 1] <= vlo)
    requires (forall k :: i <= k < j ==> a[k] > vlo) && (j == |a| || a[j] <= vlo)
    requires forall r :: r in rest <==> IsMaximalRun(a, vlo, r) && r.lo >= j
    requires Ordered(rest)
    ensures forall r :: r in [Span(i, j)] + rest <==> IsMaximalRun(a, vlo, r) && r.lo >= i
    ensures Ordered([Span(i, j)] + rest)
  {
    assert IsMaximalRun(a, vlo, Span(i, j));
    forall r ensures r in [Span(i, j)] + rest <==> IsMaximalRun(a, vlo, r) && r.lo >= i {
      if IsMaximalRun(a, vlo, r) && i <= r.lo < j {
        RunStartsAt(a, vlo, i, j, r);
      }
    }
    forall k | 0 <= k < |rest| ensures j < rest[k].lo {
      assert rest[k] in rest;
    }
  }

  lemma RunStartsAt(a: seq<real>, vlo: real, i: nat, j: nat, r: Span)
    requires i < j <= |a| && (forall k :: i <= k < j ==> a[k] > vlo) && (j == |a| || a[j] <= vlo)
    requires IsMaximalRun(a, vlo, r) && i <= r.lo < j
    ensures r == Span(i, j)
  {
    if r.lo > i || r.hi < j || r.hi > j { assert false; }
  }

  /** Runs lists exactly the maximal runs, from left to right, with a gap between neighbours. */
  lemma RunsExact(a: seq<real>, vlo: real)
    ensures forall r :: r in Runs(a, vlo) <==> IsMaximalRun(a, vlo, r)
    ensures Ordered(Runs(a, vlo))
  {
    RunsFromExact(a, vlo, 0);
  }

  // ---------------------------------------------------------------- what the counter should report

  function Argmax(a: seq<real>, lo: nat, hi: nat): (k: nat)
    requires lo < hi <= |a|
    ensures lo <= k < hi
    ensures forall i :: lo <= i < hi ==> a[i] <= a[k]
    ensures forall i :: lo <= i < k ==> a[i] < a[k]
  {
    if lo + 1 == hi then lo
    else
      var k := Argmax(a, lo, hi - 1);
      if a[hi - 1] > a[k] then hi - 1 else k
  }

  function PeakOf(a: seq<real>, r: Span): (p: Peak)
    requires r.lo < r.hi <= |a|
    ensures IsPeakOf(a, r, p)
  {
    var k := Argmax(a, r.lo, r.hi);
    Peak(a[k], k + 1)
  }

  predicate InRange(a: seq<real>, rs: seq<Span>) {
    forall k :: 0 <= k < |rs| ==> rs[k].lo < rs[k].hi <= |a|
  }

  function PeaksOf(a: seq<real>, vhi: real, rs: seq<Span>): seq<Peak>
    requires InRange(a, rs)
  {
    if rs == [] then []
    else PeakIfClean(a, vhi, rs[0]) + PeaksOf(a, vhi, rs[1..])
  }

  function PeakIfClean(a: seq<real>, vhi: real, r: Span): seq<Peak>
    requires r.lo < r.hi <= |a|
  {
    if IsClean(a, vhi, r) then [PeakOf(a, r)] else []
  }

  /** One peak for each maximal run above vlo with no sample above vhi, in order. */
  function Peaks(a: seq<real>, vlo: real, vhi: real): seq<Peak> {
    PeaksOf(a, vhi, Runs(a, vlo))
  }

  lemma PeakUnique(a: seq<real>, r: Span, p: Peak, q: Peak)
    requires IsPeakOf(a, r, p) && IsPeakOf(a, r, q)
    ensures p == q
  {
  }

  lemma {:induction false} PeaksOfMember(a: seq<real>, vhi: real, rs: seq<Span>, p: Peak)
    requires InRange(a, rs)
    ensures p in PeaksOf(a, vhi, rs) <==> exists k :: 0 <= k < |rs| && p in PeakIfClean(a, vhi, rs[k])
    decreases |rs|
  {
    if rs != [] {
      var rest := rs[1..];
      PeaksOfMember(a, vhi, rest, p);
      assert forall k :: 0 <= k < |rest| ==> rest[k] == rs[k + 1];
      assert forall k :: 0 < k < |rs| ==> rs[k] == rest[k - 1];
    }
  }

  ghost predicate IsCleanRunWithPeak(a: seq<real>, vlo: real, vhi: real, r: Span, p: Peak) {
    IsMaximalRun(a, vlo, r) && IsClean(a, vhi, r) && IsPeakOf(a, r, p)
  }

  lemma PeakHasCleanRun(a: seq<real>, vlo: real, vhi: real, p: Peak) returns (r: Span)
    requires p in Peaks(a, vlo, vhi)
    ensures IsCleanRunWithPeak(a, vlo, vhi, r, p)
  {
    var rs := Runs(a, vlo);
    PeaksOfMember(a, vhi, rs, p);
    var k :| 0 <= k < |rs| && p in PeakIfClean(a, vhi, rs[k]);
    r := rs[k];
    assert r in rs;
    RunsExact(a, vlo);
  }

  lemma CleanRunHasPeak(a: seq<real>, vlo: real, vhi: real, r: Span, p: Peak)
    requires IsCleanRunWithPeak(a, vlo, vhi, r, p)
    ensures p in Peaks(a, vlo, vhi)
  {
    var rs := Runs(a, vlo);
    assert r in rs by { RunsExact(a, vlo); }
    var k :| 0 <= k < |rs| && rs[k] == r;
    PeakUnique(a, r, p, PeakOf(a, r));
    assert p in PeakIfClean(a, vhi, rs[k]);
    PeaksOfMember(a, vhi, rs, p);
  }

  /** The peaks are those of the maximal runs above vlo that stay at or below vhi: all of them and no
      other. */
  lemma PeaksAreCleanRuns(a: seq<real>, vlo: real, vhi: real, p: Peak)
    ensures p in Peaks(a, vlo, vhi) <==> exists r :: IsCleanRunWithPeak(a, vlo, vhi, r, p)
  {
    if p in Peaks(a, vlo, vhi) {
      var r := PeakHasCleanRun(a, vlo, vhi, p);
    }
    forall r | IsCleanRunWithPeak(a, vlo, vhi, r, p) ensures p in Peaks(a, vlo, vhi) {
      CleanRunHasPeak(a, vlo, vhi, r, p);
    }
  }

  // ---------------------------------------------------------------- what it does report

  /** localMaximum and localMaximizer. */
  datatype Local = Local(maximum: real, maximizer: nat)

  /** The inner loop over a[lo..hi]. */
  function Climb(a: seq<real>, lo: nat, hi: nat, l: Local): Local
    requires lo <= hi <= |a|
  {
    if lo == hi then l
    else
      var m := Climb(a, lo, hi - 1, l);
      if a[hi - 1] > m.maximum then Local(a[hi - 1], hi) else m
  }

  /** What the counter appends for the runs `rs`: the maximum restarts from 0.0 at each run, the maximizer
      keeps its last value. */
  function Report(a: seq<real>, vhi: real, rs: seq<Span>, last: nat): seq<Peak>
    requires InRange(a, rs)
  {
    if rs == [] then []
    else if a[rs[0].lo] > vhi then Report(a, vhi, rs[1..], last)
    else
      var m := Climb(a, rs[0].lo, rs[0].hi, Local(0.0, last));
      (if IsClean(a, vhi, rs[0]) then [Peak(m.maximum, m.maximizer)] else [])
      + Report(a, vhi, rs[1..], m.maximizer)
  }

  /** The runs still to come at position `i`; while waiting for a descent the current run is skipped. */
  function Pending(a: seq<real>, vlo: real, i: nat, waiting: bool): (rs: seq<Span>)
    ensures InRange(a, rs)
  {
    if i >= |a| then [] else RunsFrom(a, vlo, if waiting then RunEnd(a, vlo, i) else i)
  }

  lemma PendingStep(a: seq<real>, vlo: real, i: nat)
    requires i < |a|
    ensures a[i] > vlo ==> Pending(a, vlo, i, true) == Pending(a, vlo, i + 1, true)
    ensures a[i] <= vlo ==> Pending(a, vlo, i, true) == Pending(a, vlo, i, false) == Pending(a, vlo, i + 1, false)
  {
  }

  /** A sample above vhi where a run could start silences that run. */
  lemma PendingSkip(a: seq<real>, vlo: real, vhi: real, i: nat, last: nat)
    requires i < |a| && a[i] > vhi
    ensures Report(a, vhi, Pending(a, vlo, i, false), last) == Report(a, vhi, Pending(a, vlo, i + 1, true), last)
  {
    var j := RunEnd(a, vlo, i + 1);
    if a[i] > vlo {
      assert RunEnd(a, vlo, i) == j;
      assert RunsFrom(a, vlo, i) == [Span(i, j)] + RunsFrom(a, vlo, j);
    } else if i + 1 < |a| && a[i + 1] > vlo {
      assert RunsFrom(a, vlo, i + 1) == [Span(i + 1, j)] + RunsFrom(a, vlo, j);
    }
  }

  /** What is still to be reported at position `i`. */
  function Rest(a: seq<real>, vlo: real, vhi: real, i: nat, waiting: bool, last: nat): seq<Peak> {
    Report(a, vhi, Pending(a, vlo, i, waiting), last)
  }

  lemma RestWaits(a: seq<real>, vlo: real, vhi: real, i: nat, last: nat)
    requires i < |a|
    ensures a[i] > vlo ==> Rest(a, vlo, vhi, i, true, last) == Rest(a, vlo, vhi, i + 1, true, last)
    ensures a[i] <= vlo ==> Rest(a, vlo, vhi, i, true, last) == Rest(a, vlo, vhi, i, false, last)
  {
    PendingStep(a, vlo, i);
  }

  lemma RestPasses(a: seq<real>, vlo: real, vhi: real, i: nat, last: nat)
    requires i < |a| && a[i] <= vlo
    ensures Rest(a, vlo, vhi, i, false, last) == Rest(a, vlo, vhi, i + 1, false, last)
  {
    PendingStep(a, vlo, i);
  }

  /** The inner loop of countPacketCore: climbs one run from `start`. */
  method ClimbRun(arr: array<real>, vlo: real, vhi: real, start: nat, last: nat)
    returns (i: nat, local: Local, discard: bool)
    requires start < arr.Length && arr[start] > vlo
    ensures i == RunEnd(arr[..], vlo, start) && start < i <= arr.Length
    ensures local == Climb(arr[..], start, i, Local(0.0, last))
    ensures discard <==> !IsClean(arr[..], vhi, Span(start, i))
  {
    i, local, discard := start, Local(0.0, last), false;
    while i < arr.Length && arr[i] > vlo
      invariant start <= i <= arr.Length
      invariant RunEnd(arr[..], vlo, i) == RunEnd(arr[..], vlo, start)
      invariant local == Climb(arr[..], start, i, Local(0.0, last))
      invariant discard <==> !IsClean(arr[..], vhi, Span(start, i))
      decreases arr.Length - i
    {
      if arr[i] > vhi {
        discard := true;
      }
      if arr[i] > local.maximum {
        local := Local(arr[i], i + 1);
      }
      i := i + 1;
    }
  }

  /** One round of the outer loop of countPacketCore: where it goes on and what it reports. */
  method Advance(arr: array<real>, vlo: real, vhi: real, start: nat, waiting: bool, last: nat)
    returns (i: nat, waitDescent: bool, localMaximizer: nat, found: seq<Peak>)
    requires start < arr.Length
    ensures i > start
    ensures Rest(arr[..], vlo, vhi, start, waiting, last) == found + Rest(arr[..], vlo, vhi, i, waitDescent, localMaximizer)
  {
    ghost var a := arr[..];
    i, waitDescent, localMaximizer, found := start, waiting, last, [];
    if waitDescent {
      RestWaits(a, vlo, vhi, i, last);
      if arr[i] > vlo {
        i := i + 1;
        return;
      }
      waitDescent := false;
    }
    if arr[i] > vhi {
      PendingSkip(a, vlo, vhi, i, last);
      waitDescent := true;
      i := i + 1;
    } else if arr[i] <= vlo {
      RestPasses(a, vlo, vhi, i, last);
      i := i + 1;
    } else {
      i, localMaximizer, found := StartRun(arr, vlo, vhi, start, last);
    }
  }

  /** The round that starts a run. */
  method StartRun(arr: array<real>, vlo: real, vhi: real, start: nat, last: nat)
    returns (i: nat, localMaximizer: nat, found: seq<Peak>)
    requires start < arr.Length && vlo < arr[start] <= vhi
    ensures i > start
    ensures Rest(arr[..], vlo, vhi, start, false, last) == found + Rest(arr[..], vlo, vhi, i, false, localMaximizer)
  {
    var j, local, discard := ClimbRun(arr, vlo, vhi, start, last);
    localMaximizer := local.maximizer;
    i := j + 1;
    found := if discard then [] else [Peak(local.maximum, local.maximizer)];
    PendingRun(arr[..], vlo, vhi, start, last, j, local, found);
  }

  /** countPacketCore. */
  method CountPacketCore(arr: array<real>, vlo: real, vhi: real) returns (result: seq<Peak>)
    ensures result == Report(arr[..], vhi, Runs(arr[..], vlo), 0)
  {
    ghost var a := arr[..];
    ghost var total := Rest(a, vlo, vhi, 0, false, 0);
    assert total == Report(a, vhi, Runs(a, vlo), 0);
    result := [];
    var waitDescent := false;
    var localMaximizer := 0;
    var i := 0;
    while i < arr.Length
      invariant result + Rest(a, vlo, vhi, i, waitDescent, localMaximizer) == total
    {
      var next, waiting, last, found := Advance(arr, vlo, vhi, i, waitDescent, localMaximizer);
      Associative(result, found, Rest(a, vlo, vhi, next, waiting, last));
      result := result + found;
      i, waitDescent, localMaximizer := next, waiting, last;
    }
  }

  lemma PendingRun(a: seq<real>, vlo: real, vhi: real, i: nat, last: nat, j: nat, m: Local, found: seq<Peak>)
    requires i < |a| && vlo < a[i] <= vhi && j == RunEnd(a, vlo, i) && m == Climb(a, i, j, Local(0.0, last))
    requires found == if IsClean(a, vhi, Span(i, j)) then [Peak(m.maximum, m.maximizer)] else []
    ensures Rest(a, vlo, vhi, i, false, last) == found + Rest(a, vlo, vhi, j + 1, false, m.maximizer)
  {
    var rest := RunsFrom(a, vlo, j);
    var rs := [Span(i, j)] + rest;
    assert RunsFrom(a, vlo, i) == rs;
    assert rs[1..] == rest;
    assert Pending(a, vlo, j + 1, false) == rest;
    assert Report(a, vhi, rs, last) == found + Report(a, vhi, rest, m.maximizer);
  }

  // ---------------------------------------------------------------- when the two agree

  /** Every clean run rises above zero: what lets the running maximum start at 0.0. */
  predicate CleanRunsPositive(a: seq<real>, vhi: real, rs: seq<Span>)
    requires InRange(a, rs)
  {
    forall k :: 0 <= k < |rs| && IsClean(a, vhi, rs[k]) ==> PeakOf(a, rs[k]).maximum > 0.0
  }

  lemma {:induction false} ClimbFinds(a: seq<real>, lo: nat, hi: nat, last: nat)
    requires lo < hi <= |a|
    ensures var m := Climb(a, lo, hi, Local(0.0, last)); var k := Argmax(a, lo, hi);
            m == if a[k] > 0.0 then Local(a[k], k + 1) else Local(0.0, last)
    decreases hi
  {
    if lo + 1 < hi {
      ClimbFinds(a, lo, hi - 1, last);
    } else {
      assert Climb(a, lo, lo, Local(0.0, last)) == Local(0.0, last);
    }
  }

  ghost predicate After(rs: seq<Span>, last: nat) {
    forall k :: 0 <= k < |rs| ==> rs[k].lo >= last
  }

  ghost predicate AgreesIff(a: seq<real>, vhi: real, rs: seq<Span>, last: nat)
    requires InRange(a, rs)
  {
    && (Report(a, vhi, rs, last) == PeaksOf(a, vhi, rs) <==> CleanRunsPositive(a, vhi, rs))
    && |Report(a, vhi, rs, last)| == |PeaksOf(a, vhi, rs)|
  }

  lemma {:induction false} ReportIsPeaksIff(a: seq<real>, vhi: real, rs: seq<Span>, last: nat)
    requires InRange(a, rs) && Ordered(rs) && After(rs, last)
    ensures AgreesIff(a, vhi, rs, last)
    decreases |rs|
  {
    if rs != [] {
      var r := rs[0];
      OrderedTail(rs);
      if a[r.lo] > vhi {
        ReportIsPeaksIff(a, vhi, rs[1..], last);
        AgreesSkip(a, vhi, rs, last);
      } else {
        HeadIff(a, r, last);
        ReportIsPeaksIff(a, vhi, rs[1..], Climb(a, r.lo, r.hi, Local(0.0, last)).maximizer);
        AgreesClimb(a, vhi, rs, last);
      }
    }
  }

  lemma AgreesSkip(a: seq<real>, vhi: real, rs: seq<Span>, last: nat)
    requires InRange(a, rs) && rs != [] && a[rs[0].lo] > vhi && AgreesIff(a, vhi, rs[1..], last)
    ensures AgreesIff(a, vhi, rs, last)
  {
    PositiveSplit(a, vhi, rs);
    assert !IsClean(a, vhi, rs[0]);
  }

  lemma AgreesClimb(a: seq<real>, vhi: real, rs: seq<Span>, last: nat)
    requires InRange(a, rs) && rs != [] && a[rs[0].lo] <= vhi && last <= rs[0].lo
    requires AgreesIff(a, vhi, rs[1..], Climb(a, rs[0].lo, rs[0].hi, Local(0.0, last)).maximizer)
    ensures AgreesIff(a, vhi, rs, last)
  {
    var r, rest := rs[0], rs[1..];
    var m := Climb(a, r.lo, r.hi, Local(0.0, last));
    PositiveSplit(a, vhi, rs);
    HeadIff(a, r, last);
    CombineIff(IsClean(a, vhi, r), Peak(m.maximum, m.maximizer), PeakOf(a, r),
               Report(a, vhi, rest, m.maximizer), PeaksOf(a, vhi, rest));
  }

  lemma OrderedTail(rs: seq<Span>)
    requires rs != [] && Ordered(rs)
    ensures Ordered(rs[1..]) && After(rs[1..], rs[0].hi)
  {
    assert forall k :: 0 <= k < |rs| - 1 ==> rs[1..][k] == rs[k + 1];
  }

  /** A run below zero is reported with height 0.0 and somebody else's position. */
  lemma HeadIff(a: seq<real>, r: Span, last: nat)
    requires r.lo < r.hi <= |a| && last <= r.lo
    ensures var m := Climb(a, r.lo, r.hi, Local(0.0, last));
            && (Peak(m.maximum, m.maximizer) == PeakOf(a, r) <==> PeakOf(a, r).maximum > 0.0)
            && m.maximizer <= r.hi
  {
    ClimbFinds(a, r.lo, r.hi, last);
  }

  lemma CombineIff(clean: bool, p: Peak, q: Peak, ps: seq<Peak>, qs: seq<Peak>)
    requires |ps| == |qs|
    ensures (if clean then [p] else []) + ps == (if clean then [q] else []) + qs <==> (clean ==> p == q) && ps == qs
  {
    if clean {
      assert ([p] + ps)[1..] == ps && ([q] + qs)[1..] == qs;
      assert ([p] + ps)[0] == p && ([q] + qs)[0] == q;
    } else {
      assert [] + ps == ps && [] + qs == qs;
    }
  }

  lemma PositiveSplit(a: seq<real>, vhi: real, rs: seq<Span>)
    requires InRange(a, rs) && rs != []
    ensures CleanRunsPositive(a, vhi, rs) <==>
              (IsClean(a, vhi, rs[0]) ==> PeakOf(a, rs[0]).maximum > 0.0) && CleanRunsPositive(a, vhi, rs[1..])
  {
    var rest := rs[1..];
    assert forall k :: 0 < k < |rs| ==> rs[k] == rest[k - 1];
    assert forall k :: 0 <= k < |rest| ==> rest[k] == rs[k + 1];
  }

  /** The counter reports exactly one peak per clean maximal run, with its height and the 1-based index
      of its first occurrence, if and only if every clean run rises above zero. */
  lemma CounterExactIff(a: seq<real>, vlo: real, vhi: real)
    ensures Report(a, vhi, Runs(a, vlo), 0) == Peaks(a, vlo, vhi) <==> CleanRunsPositive(a, vhi, Runs(a, vlo))
  {
    RunsExact(a, vlo);
    ReportIsPeaksIff(a, vhi, Runs(a, vlo), 0);
  }

  /** For which thresholds that holds on every input: a non-negative vlo, or no admissible run at all. */
  lemma ThresholdsExactIff(vlo: real, vhi: real)
    ensures (forall a :: Report(a, vhi, Runs(a, vlo), 0) == Peaks(a, vlo, vhi)) <==> vlo >= 0.0 || vhi <= vlo
  {
    if vlo >= 0.0 || vhi <= vlo {
      forall a ensures Report(a, vhi, Runs(a, vlo), 0) == Peaks(a, vlo, vhi) {
        CounterExactIff(a, vlo, vhi);
        RunsExact(a, vlo);
        forall k | 0 <= k < |Runs(a, vlo)| && IsClean(a, vhi, Runs(a, vlo)[k])
          ensures PeakOf(a, Runs(a, vlo)[k]).maximum > 0.0
        {
          var r := Runs(a, vlo)[k];
          assert r in Runs(a, vlo);
          assert a[r.lo] > vlo && a[r.lo] <= vhi;
        }
      }
    } else {
      var x := if vhi < 0.0 then vhi else vlo / 2.0;
      var a := [x];
      CounterExactIff(a, vlo, vhi);
      assert RunEnd(a, vlo, 0) == RunEnd(a, vlo, 1) == 1;
      assert Runs(a, vlo)[0] == Span(0, 1);
      assert PeakOf(a, Span(0, 1)).maximum == x;
      assert !CleanRunsPositive(a, vhi, Runs(a, vlo));
    }
  }

  // ---------------------------------------------------------------- consequences

  lemma {:induction false} RunsBound(a: seq<real>, vlo: real, i: nat)
    requires i <= |a|
    ensures 2 * |RunsFrom(a, vlo, i)| <= |a| - i + 1
    decreases |a| - i
  {
    if i < |a| {
      if a[i] <= vlo {
        RunsBound(a, vlo, i + 1);
      } else {
        var j := RunEnd(a, vlo, i);
        if j < |a| { RunsBound(a, vlo, j + 1); }
      }
    }
  }

  lemma {:induction false} PeaksOfShape(a: seq<real>, vhi: real, rs: seq<Span>)
    requires InRange(a, rs) && Ordered(rs)
    ensures |PeaksOf(a, vhi, rs)| <= |rs|
    ensures forall k :: 0 <= k < |PeaksOf(a, vhi, rs)| ==>
              PeaksOf(a, vhi, rs)[k].maximizer > rs[0].lo && PeaksOf(a, vhi, rs)[k].maximum <= vhi
    ensures Rising(PeaksOf(a, vhi, rs))
    decreases |rs|
  {
    if rs != [] {
      PeaksOfShape(a, vhi, rs[1..]);
      assert rs[1..] != [] ==> rs[1..][0] == rs[1] && rs[0].hi < rs[1].lo;
      ShapeCons(PeakIfClean(a, vhi, rs[0]), PeaksOf(a, vhi, rs[1..]), vhi, rs[0]);
    }
  }

  predicate Rising(ps: seq<Peak>) {
    forall i, j :: 0 <= i < j < |ps| ==> ps[i].maximizer < ps[j].maximizer
  }

  lemma ShapeCons(head: seq<Peak>, rest: seq<Peak>, vhi: real, r: Span)
    requires r.lo < r.hi && |head| <= 1 && Rising(rest)
    requires forall k :: 0 <= k < |head| ==> r.lo < head[k].maximizer <= r.hi && head[k].maximum <= vhi
    requires forall k :: 0 <= k < |rest| ==> rest[k].maximizer > r.hi && rest[k].maximum <= vhi
    ensures Rising(head + rest)
    ensures forall k :: 0 <= k < |head + rest| ==> (head + rest)[k].maximizer > r.lo && (head + rest)[k].maximum <= vhi
  {
  }

  /** At most one peak per two samples, in strictly increasing positions, none above vhi. */
  lemma CountBound(a: seq<real>, vlo: real, vhi: real)
    ensures |Peaks(a, vlo, vhi)| <= (|a| + 1) / 2
    ensures Rising(Peaks(a, vlo, vhi))
    ensures forall k :: 0 <= k < |Peaks(a, vlo, vhi)| ==> Peaks(a, vlo, vhi)[k].maximum <= vhi
  {
    RunsExact(a, vlo);
    RunsBound(a, vlo, 0);
    PeaksOfShape(a, vhi, Runs(a, vlo));
  }

  // ---------------------------------------------------------------- packets end to end

  function Shift(rs: seq<Span>, n: nat): (s: seq<Span>)
    ensures |s| == |rs| && forall k :: 0 <= k < |rs| ==> s[k] == Span(rs[k].lo + n, rs[k].hi + n)
  {
    seq(|rs|, k requires 0 <= k < |rs| => Span(rs[k].lo + n, rs[k].hi + n))
  }

  function ShiftPeaks(ps: seq<Peak>, n: nat): (s: seq<Peak>)
    ensures |s| == |ps| && forall k :: 0 <= k < |ps| ==> s[k] == Peak(ps[k].maximum, ps[k].maximizer + n)
  {
    seq(|ps|, k requires 0 <= k < |ps| => Peak(ps[k].maximum, ps[k].maximizer + n))
  }

  ghost predicate IsShift(ss: seq<Span>, rs: seq<Span>, n: nat) {
    |ss| == |rs| && forall k :: 0 <= k < |rs| ==> ss[k] == Span(rs[k].lo + n, rs[k].hi + n)
  }

  lemma ShiftCons(r: Span, ss: seq<Span>, rs: seq<Span>, n: nat)
    requires IsShift(ss, rs, n)
    ensures IsShift([Span(r.lo + n, r.hi + n)] + ss, [r] + rs, n)
  {
  }

  /** `c` continues as `b` from index `n` on. */
  ghost predicate Tail(c: seq<real>, n: nat, b: seq<real>) {
    |c| == n + |b| && forall k :: 0 <= k < |b| ==> c[n + k] == b[k]
  }

  lemma {:induction false} RunEndShift(c: seq<real>, n: nat, b: seq<real>, vlo: real, i: nat)
    requires Tail(c, n, b) && i <= |b|
    ensures RunEnd(c, vlo, n + i) == n + RunEnd(b, vlo, i)
    decreases |b| - i
  {
    if i < |b| {
      assert c[n + i] == b[i];
      if b[i] > vlo { RunEndShift(c, n, b, vlo, i + 1); }
    }
  }

  lemma {:induction false} RunsShift(c: seq<real>, n: nat, b: seq<real>, vlo: real, i: nat)
    requires Tail(c, n, b) && i <= |b|
    ensures IsShift(RunsFrom(c, vlo, n + i), RunsFrom(b, vlo, i), n)
    decreases |b| - i
  {
    if i < |b| {
      assert c[n + i] == b[i];
      if b[i] <= vlo {
        RunsShift(c, n, b, vlo, i + 1);
      } else {
        var j := RunEnd(b, vlo, i);
        RunEndShift(c, n, b, vlo, i);
        RunsShift(c, n, b, vlo, j);
        ShiftCons(Span(i, j), RunsFrom(c, vlo, n + j), RunsFrom(b, vlo, j), n);
      }
    }
  }

  /** The cut between the packets falls outside every run. */
  predicate CleanCut(a: seq<real>, b: seq<real>, vlo: real) {
    a == [] || b == [] || a[|a| - 1] <= vlo || b[0] <= vlo
  }

  ghost predicate Head(c: seq<real>, a: seq<real>) {
    |a| <= |c| && forall k :: 0 <= k < |a| ==> c[k] == a[k]
  }

  lemma {:induction false} RunEndPrefix(c: seq<real>, a: seq<real>, vlo: real, i: nat)
    requires Head(c, a) && i <= |a|
    requires a == [] || |a| == |c| || a[|a| - 1] <= vlo || c[|a|] <= vlo
    requires i < |a| || |a| == |c| || c[|a|] <= vlo
    ensures RunEnd(c, vlo, i) == RunEnd(a, vlo, i)
    decreases |a| - i
  {
    if i < |a| {
      assert c[i] == a[i];
      if a[i] > vlo { RunEndPrefix(c, a, vlo, i + 1); }
    }
  }

  lemma {:induction false} RunsPrefix(c: seq<real>, a: seq<real>, vlo: real, i: nat)
    requires Head(c, a) && i <= |a|
    requires a == [] || |a| == |c| || a[|a| - 1] <= vlo || c[|a|] <= vlo
    ensures RunsFrom(c, vlo, i) == RunsFrom(a, vlo, i) + RunsFrom(c, vlo, |a|)
    decreases |a| - i
  {
    if i == |a| {
      assert RunsFrom(a, vlo, i) + RunsFrom(c, vlo, |a|) == RunsFrom(c, vlo, |a|);
    } else {
      assert c[i] == a[i];
      if a[i] <= vlo {
        RunsPrefix(c, a, vlo, i + 1);
      } else {
        var j := RunEnd(a, vlo, i);
        RunEndPrefix(c, a, vlo, i);
        RunsPrefix(c, a, vlo, j);
        SpanCons(Span(i, j), RunsFrom(a, vlo, j), RunsFrom(c, vlo, |a|));
      }
    }
  }

  lemma SpanCons(r: Span, rs: seq<Span>, ss: seq<Span>)
    ensures [r] + (rs + ss) == [r] + rs + ss
  {
  }

  lemma LastRun(a: seq<real>, vlo: real) returns (r: Span)
    requires a != [] && a[|a| - 1] > vlo
    ensures IsMaximalRun(a, vlo, r) && r.hi == |a|
  {
    var lo: nat := |a| - 1;
    while lo > 0 && a[lo - 1] > vlo
      invariant lo < |a| && forall k :: lo <= k < |a| ==> a[k] > vlo
    {
      lo := lo - 1;
    }
    r := Span(lo, |a|);
  }

  lemma RunsCompose(a: seq<real>, b: seq<real>, vlo: real)
    requires CleanCut(a, b, vlo)
    ensures Runs(a + b, vlo) == Runs(a, vlo) + Shift(Runs(b, vlo), |a|)
  {
    var c := a + b;
    assert Tail(c, |a|, b) && Head(c, a);
    assert b != [] ==> c[|a|] == b[0];
    RunsPrefix(c, a, vlo, 0);
    RunsShift(c, |a|, b, vlo, 0);
    assert RunsFrom(c, vlo, |a|) == Shift(Runs(b, vlo), |a|);
  }

  lemma RunsMerge(a: seq<real>, b: seq<real>, vlo: real) returns (r: Span)
    requires !CleanCut(a, b, vlo)
    ensures r in Runs(a, vlo) && r !in Runs(a + b, vlo)
  {
    r := LastRun(a, vlo);
    RunsExact(a, vlo);
    RunsExact(a + b, vlo);
    assert (a + b)[|a|] == b[0];
  }

  /** The runs of two packets are those of each, the second shifted, if and only if the cut between
      them falls outside every run. */
  lemma RunsComposeIff(a: seq<real>, b: seq<real>, vlo: real)
    ensures Runs(a + b, vlo) == Runs(a, vlo) + Shift(Runs(b, vlo), |a|) <==> CleanCut(a, b, vlo)
  {
    if CleanCut(a, b, vlo) {
      RunsCompose(a, b, vlo);
    } else {
      var r := RunsMerge(a, b, vlo);
      assert r in Runs(a, vlo) + Shift(Runs(b, vlo), |a|);
    }
  }

  lemma PeakOfTail(c: seq<real>, n: nat, b: seq<real>, r: Span)
    requires Tail(c, n, b) && r.lo < r.hi <= |b|
    ensures var p := PeakOf(b, r); PeakOf(c, Span(r.lo + n, r.hi + n)) == Peak(p.maximum, p.maximizer + n)
  {
    var p := PeakOf(b, r);
    var s := Span(r.lo + n, r.hi + n);
    forall k | s.lo <= k < s.hi ensures c[k] == b[k - n] { assert c[n + (k - n)] == b[k - n]; }
    PeakUnique(c, s, PeakOf(c, s), Peak(p.maximum, p.maximizer + n));
  }

  lemma IsCleanTail(c: seq<real>, n: nat, b: seq<real>, vhi: real, r: Span)
    requires Tail(c, n, b) && r.lo < r.hi <= |b|
    ensures IsClean(c, vhi, Span(r.lo + n, r.hi + n)) <==> IsClean(b, vhi, r)
  {
    var s := Span(r.lo + n, r.hi + n);
    forall k | s.lo <= k < s.hi ensures c[k] == b[k - n] { assert c[n + (k - n)] == b[k - n]; }
    forall k | r.lo <= k < r.hi ensures b[k] == c[n + k] && s.lo <= n + k < s.hi { }
  }

  /** Piece by piece, the spans `ss` of `c` report what `rs` of `b` report, shifted. */
  ghost predicate PiecesShift(c: seq<real>, b: seq<real>, vhi: real, ss: seq<Span>, rs: seq<Span>, n: nat) {
    && InRange(c, ss) && InRange(b, rs) && |ss| == |rs|
    && forall k :: 0 <= k < |rs| ==> PeakIfClean(c, vhi, ss[k]) == ShiftPeaks(PeakIfClean(b, vhi, rs[k]), n)
  }

  lemma {:induction false} PiecesJoin(c: seq<real>, b: seq<real>, vhi: real, ss: seq<Span>, rs: seq<Span>, n: nat)
    requires PiecesShift(c, b, vhi, ss, rs, n)
    ensures PeaksOf(c, vhi, ss) == ShiftPeaks(PeaksOf(b, vhi, rs), n)
    decreases |rs|
  {
    if rs != [] {
      assert PiecesShift(c, b, vhi, ss[1..], rs[1..], n);
      PiecesJoin(c, b, vhi, ss[1..], rs[1..], n);
      ShiftPeaksAppend(PeakIfClean(b, vhi, rs[0]), PeaksOf(b, vhi, rs[1..]), n);
    }
  }

  lemma PeaksOfTail(c: seq<real>, n: nat, b: seq<real>, vhi: real, ss: seq<Span>, rs: seq<Span>)
    requires Tail(c, n, b) && InRange(b, rs) && InRange(c, ss) && IsShift(ss, rs, n)
    ensures PeaksOf(c, vhi, ss) == ShiftPeaks(PeaksOf(b, vhi, rs), n)
  {
    forall k | 0 <= k < |rs| ensures PeakIfClean(c, vhi, ss[k]) == ShiftPeaks(PeakIfClean(b, vhi, rs[k]), n) {
      PeakIfCleanTail(c, n, b, vhi, rs[k]);
    }
    PiecesJoin(c, b, vhi, ss, rs, n);
  }

  lemma PeakIfCleanTail(c: seq<real>, n: nat, b: seq<real>, vhi: real, r: Span)
    requires Tail(c, n, b) && r.lo < r.hi <= |b|
    ensures PeakIfClean(c, vhi, Span(r.lo + n, r.hi + n)) == ShiftPeaks(PeakIfClean(b, vhi, r), n)
  {
    PeakOfTail(c, n, b, r);
    IsCleanTail(c, n, b, vhi, r);
  }

  lemma ShiftPeaksAppend(ps: seq<Peak>, qs: seq<Peak>, n: nat)
    ensures ShiftPeaks(ps + qs, n) == ShiftPeaks(ps, n) + ShiftPeaks(qs, n)
  {
  }

  lemma {:induction false} PeaksOfPrefix(a: seq<real>, b: seq<real>, vhi: real, rs: seq<Span>)
    requires InRange(a, rs)
    ensures InRange(a + b, rs) && PeaksOf(a + b, vhi, rs) == PeaksOf(a, vhi, rs)
    decreases |rs|
  {
    if rs != [] {
      var r := rs[0];
      assert forall k :: r.lo <= k < r.hi ==> (a + b)[k] == a[k];
      PeakUnique(a + b, r, PeakOf(a + b, r), PeakOf(a, r));
      PeaksOfPrefix(a, b, vhi, rs[1..]);
    }
  }

  lemma {:induction false} PeaksOfAppend(c: seq<real>, vhi: real, rs: seq<Span>, ss: seq<Span>)
    requires InRange(c, rs) && InRange(c, ss)
    ensures InRange(c, rs + ss) && PeaksOf(c, vhi, rs + ss) == PeaksOf(c, vhi, rs) + PeaksOf(c, vhi, ss)
    decreases |rs|
  {
    if rs == [] {
      assert rs + ss == ss;
    } else {
      var r, rest := rs[0], rs[1..];
      PeaksOfAppend(c, vhi, rest, ss);
      assert rs == [r] + rest && rs + ss == [r] + (rest + ss);
      PeaksOfCons(c, vhi, r, rest);
      PeaksOfCons(c, vhi, r, rest + ss);
      Associative(PeakIfClean(c, vhi, r), PeaksOf(c, vhi, rest), PeaksOf(c, vhi, ss));
    }
  }

  lemma PeaksOfCons(c: seq<real>, vhi: real, r: Span, rest: seq<Span>)
    requires r.lo < r.hi <= |c| && InRange(c, rest)
    ensures InRange(c, [r] + rest) && PeaksOf(c, vhi, [r] + rest) == PeakIfClean(c, vhi, r) + PeaksOf(c, vhi, rest)
  {
    assert ([r] + rest)[1..] == rest;
  }

  /** Peak counting is compositional across a cut that falls outside every run. */
  lemma PeaksCompose(a: seq<real>, b: seq<real>, vlo: real, vhi: real)
    requires CleanCut(a, b, vlo)
    ensures Peaks(a + b, vlo, vhi) == Peaks(a, vlo, vhi) + ShiftPeaks(Peaks(b, vlo, vhi), |a|)
  {
    var ra, rb := Runs(a, vlo), Runs(b, vlo);
    var ss := Shift(rb, |a|);
    RunsCompose(a, b, vlo);
    PeaksOfPrefix(a, b, vhi, ra);
    PeaksOfTail(a + b, |a|, b, vhi, ss, rb);
    PeaksOfAppend(a + b, vhi, ra, ss);
  }

  // ---------------------------------------------------------------- cuts through a run

  /** Where the run that reaches the end of `a` starts. */
  function TailStart(a: seq<real>, vlo: real): (i: nat)
    ensures i <= |a| && (forall k :: i <= k < |a| ==> a[k] > vlo) && (i == 0 || a[i - 1] <= vlo)
  {
    if a == [] || a[|a| - 1] <= vlo then |a| else TailStart(a[..|a| - 1], vlo)
  }

  predicate Dirty(w: seq<real>, vhi: real) {
    exists k :: 0 <= k < |w| && w[k] > vhi
  }

  /** The run that reaches the end of `a` holds a sample above vhi; the same for the start of `b`. */
  predicate DirtyTail(a: seq<real>, vlo: real, vhi: real) {
    Dirty(a[TailStart(a, vlo)..], vhi)
  }

  predicate DirtyHead(b: seq<real>, vlo: real, vhi: real) {
    Dirty(b[..RunEnd(b, vlo, 0)], vhi)
  }

  /** Samples that form a single run. */
  predicate OneRun(w: seq<real>, vlo: real) {
    w != [] && forall k :: 0 <= k < |w| ==> w[k] > vlo
  }

  lemma PeaksOfOneRun(w: seq<real>, vlo: real, vhi: real)
    requires OneRun(w, vlo)
    ensures |Peaks(w, vlo, vhi)| == if Dirty(w, vhi) then 0 else 1
  {
    var r := Span(0, |w|);
    assert RunEnd(w, vlo, 0) == |w|;
    assert Runs(w, vlo) == [r] + RunsFrom(w, vlo, |w|) == [r];
    assert [r][1..] == [];
    assert PeaksOf(w, vhi, [r]) == PeakIfClean(w, vhi, r) + PeaksOf(w, vhi, []);
    assert IsClean(w, vhi, r) <==> !Dirty(w, vhi);
  }

  lemma DirtyJoin(u: seq<real>, v: seq<real>, vhi: real)
    ensures Dirty(u + v, vhi) <==> Dirty(u, vhi) || Dirty(v, vhi)
  {
    if k :| 0 <= k < |u| && u[k] > vhi { assert (u + v)[k] > vhi; }
    if k :| 0 <= k < |v| && v[k] > vhi { assert (u + v)[|u| + k] > vhi; }
  }

  lemma ShiftTwice(ps: seq<Peak>, m: nat, n: nat)
    ensures ShiftPeaks(ShiftPeaks(ps, m), n) == ShiftPeaks(ps, m + n)
  {
  }

  function Joined(pf: seq<Peak>, pw: seq<Peak>, pb: seq<Peak>, nf: nat, n: nat): (ps: seq<Peak>)
    ensures |ps| == |pf| + |pw| + |pb|
  {
    pf + ShiftPeaks(pw, nf) + ShiftPeaks(pb, n)
  }

  function Apart(pf: seq<Peak>, pu: seq<Peak>, pv: seq<Peak>, pb: seq<Peak>, nf: nat, nv: nat, n: nat): (ps: seq<Peak>)
    ensures |ps| == |pf| + |pu| + |pv| + |pb|
  {
    pf + ShiftPeaks(pu, nf) + ShiftPeaks(pv + ShiftPeaks(pb, nv), n)
  }

  lemma NothingBetween(pf: seq<Peak>, pb: seq<Peak>, nf: nat, nv: nat, n: nat)
    ensures Joined(pf, [], pb, nf, n + nv) == Apart(pf, [], [], pb, nf, nv, n)
  {
    ShiftTwice(pb, nv, n);
    assert [] + ShiftPeaks(pb, nv) == ShiftPeaks(pb, nv);
    assert ShiftPeaks([], nf) == [];
  }

  /** Lengths decide: a run counted once where its halves count twice, or not where a half does. */
  lemma JoinIff(pf: seq<Peak>, pu: seq<Peak>, pv: seq<Peak>, pw: seq<Peak>, pb: seq<Peak>, nf: nat, nv: nat, n: nat)
    requires |pu| <= 1 && |pv| <= 1 && |pw| == |pu| * |pv|
    ensures Joined(pf, pw, pb, nf, n + nv) == Apart(pf, pu, pv, pb, nf, nv, n) <==> pu == [] && pv == []
  {
    if pu == [] && pv == [] {
      assert pw == [];
      NothingBetween(pf, pb, nf, nv, n);
    } else {
      assert |pw| < |pu| + |pv|;
    }
  }

  // What follows uses two facts about the peaks of a packet, and nothing else about them: `p` stands for
  // the function that finds them.

  ghost predicate IsPeaks(p: seq<real> -> seq<Peak>, vlo: real, vhi: real) {
    forall a {:trigger Peaks(a, vlo, vhi)} :: p(a) == Peaks(a, vlo, vhi)
  }

  lemma ComposeAt(p: seq<real> -> seq<Peak>, a: seq<real>, b: seq<real>, vlo: real, vhi: real)
    requires IsPeaks(p, vlo, vhi) && CleanCut(a, b, vlo)
    ensures p(a + b) == p(a) + ShiftPeaks(p(b), |a|)
  {
    PeaksCompose(a, b, vlo, vhi);
  }

  lemma CountAt(p: seq<real> -> seq<Peak>, w: seq<real>, vlo: real, vhi: real)
    requires IsPeaks(p, vlo, vhi) && OneRun(w, vlo)
    ensures |p(w)| == if Dirty(w, vhi) then 0 else 1
  {
    PeaksOfOneRun(w, vlo, vhi);
  }

  lemma CleanCuts(front: seq<real>, u: seq<real>, v: seq<real>, back: seq<real>, vlo: real)
    requires OneRun(u, vlo) && OneRun(v, vlo) && CleanCut(front, u, vlo) && CleanCut(v, back, vlo)
    ensures CleanCut(front, u + v, vlo) && CleanCut(front + (u + v), back, vlo) && OneRun(u + v, vlo)
  {
    var all := front + (u + v);
    assert all[|all| - 1] == v[|v| - 1] && (u + v)[0] == u[0];
  }

  /** A cut through a run: `u` and `v` are the halves of that run. */
  lemma CutRunIff(p: seq<real> -> seq<Peak>, front: seq<real>, u: seq<real>, v: seq<real>, back: seq<real>, vlo: real, vhi: real)
    requires IsPeaks(p, vlo, vhi)
    requires OneRun(u, vlo) && OneRun(v, vlo) && CleanCut(front, u, vlo) && CleanCut(v, back, vlo)
    ensures p(front + (u + v) + back) == p(front + u) + ShiftPeaks(p(v + back), |front| + |u|)
            <==> Dirty(u, vhi) && Dirty(v, vhi)
  {
    CleanCuts(front, u, v, back, vlo);
    JoinedAt(p, front, u + v, back, vlo, vhi);
    ApartAt(p, front, u, v, back, vlo, vhi);
    CutLengths(p, u, v, vlo, vhi);
    JoinDecides(p(front + (u + v) + back), p(front + u) + ShiftPeaks(p(v + back), |front| + |u|),
                p(front), p(u), p(v), p(u + v), p(back), |front|, |v|, |front| + |u|, |u + v|);
  }

  lemma JoinDecides(joined: seq<Peak>, apart: seq<Peak>, pf: seq<Peak>, pu: seq<Peak>, pv: seq<Peak>, pw: seq<Peak>,
                    pb: seq<Peak>, nf: nat, nv: nat, n: nat, nw: nat)
    requires nf + nw == n + nv && |pu| <= 1 && |pv| <= 1 && |pw| == |pu| * |pv|
    requires joined == Joined(pf, pw, pb, nf, nf + nw) && apart == Apart(pf, pu, pv, pb, nf, nv, n)
    ensures joined == apart <==> pu == [] && pv == []
  {
    JoinIff(pf, pu, pv, pw, pb, nf, nv, n);
  }

  lemma JoinedAt(p: seq<real> -> seq<Peak>, front: seq<real>, w: seq<real>, back: seq<real>, vlo: real, vhi: real)
    requires IsPeaks(p, vlo, vhi) && CleanCut(front, w, vlo) && CleanCut(front + w, back, vlo)
    ensures p(front + w + back) == Joined(p(front), p(w), p(back), |front|, |front| + |w|)
  {
    ComposeAt(p, front, w, vlo, vhi);
    ComposeAt(p, front + w, back, vlo, vhi);
  }

  lemma ApartAt(p: seq<real> -> seq<Peak>, front: seq<real>, u: seq<real>, v: seq<real>, back: seq<real>, vlo: real, vhi: real)
    requires IsPeaks(p, vlo, vhi) && CleanCut(front, u, vlo) && CleanCut(v, back, vlo)
    ensures p(front + u) + ShiftPeaks(p(v + back), |front| + |u|)
            == Apart(p(front), p(u), p(v), p(back), |front|, |v|, |front| + |u|)
  {
    ComposeAt(p, front, u, vlo, vhi);
    ComposeAt(p, v, back, vlo, vhi);
  }

  lemma CutLengths(p: seq<real> -> seq<Peak>, u: seq<real>, v: seq<real>, vlo: real, vhi: real)
    requires IsPeaks(p, vlo, vhi) && OneRun(u, vlo) && OneRun(v, vlo) && OneRun(u + v, vlo)
    ensures p(u) == [] <==> Dirty(u, vhi)
    ensures p(v) == [] <==> Dirty(v, vhi)
    ensures |p(u)| <= 1 && |p(v)| <= 1 && |p(u + v)| == |p(u)| * |p(v)|
  {
    CountAt(p, u, vlo, vhi);
    CountAt(p, v, vlo, vhi);
    CountAt(p, u + v, vlo, vhi);
    DirtyJoin(u, v, vhi);
  }

  lemma CutTail(a: seq<real>, vlo: real) returns (front: seq<real>, u: seq<real>)
    requires a != [] && a[|a| - 1] > vlo
    ensures a == front + u && u == a[TailStart(a, vlo)..] && OneRun(u, vlo) && CleanCut(front, u, vlo)
  {
    var i := TailStart(a, vlo);
    front, u := a[..i], a[i..];
  }

  lemma CutHead(b: seq<real>, vlo: real) returns (v: seq<real>, back: seq<real>)
    requires b != [] && b[0] > vlo
    ensures b == v + back && v == b[..RunEnd(b, vlo, 0)] && OneRun(v, vlo) && CleanCut(v, back, vlo)
  {
    var j := RunEnd(b, vlo, 0);
    v, back := b[..j], b[j..];
  }

  lemma ComposesIff(p: seq<real> -> seq<Peak>, a: seq<real>, b: seq<real>, vlo: real, vhi: real)
    requires IsPeaks(p, vlo, vhi)
    ensures p(a + b) == p(a) + ShiftPeaks(p(b), |a|)
            <==> CleanCut(a, b, vlo) || (DirtyTail(a, vlo, vhi) && DirtyHead(b, vlo, vhi))
  {
    if CleanCut(a, b, vlo) {
      ComposeAt(p, a, b, vlo, vhi);
    } else {
      var front, u := CutTail(a, vlo);
      var v, back := CutHead(b, vlo);
      ThroughRunIff(p, a, b, front, u, v, back, vlo, vhi);
    }
  }

  lemma ThroughRunIff(p: seq<real> -> seq<Peak>, a: seq<real>, b: seq<real>,
                      front: seq<real>, u: seq<real>, v: seq<real>, back: seq<real>, vlo: real, vhi: real)
    requires IsPeaks(p, vlo, vhi) && a == front + u && b == v + back
    requires OneRun(u, vlo) && OneRun(v, vlo) && CleanCut(front, u, vlo) && CleanCut(v, back, vlo)
    ensures p(a + b) == p(a) + ShiftPeaks(p(b), |a|) <==> Dirty(u, vhi) && Dirty(v, vhi)
  {
    Regroup(front, u, v, back);
    CutRunIff(p, front, u, v, back, vlo, vhi);
  }

  /** The peaks of two packets are those of each, the second shifted, if and only if the cut falls outside
      every run or both halves of the run it goes through hold a sample above vhi. */
  lemma PeaksComposeIff(a: seq<real>, b: seq<real>, vlo: real, vhi: real)
    ensures Peaks(a + b, vlo, vhi) == Peaks(a, vlo, vhi) + ShiftPeaks(Peaks(b, vlo, vhi), |a|)
            <==> CleanCut(a, b, vlo) || (DirtyTail(a, vlo, vhi) && DirtyHead(b, vlo, vhi))
  {
    var p := (c: seq<real>) => Peaks(c, vlo, vhi);
    ComposesIff(p, a, b, vlo, vhi);
  }

  /** The same for what the counter itself returns, at a non-negative threshold. */
  lemma CounterComposesIff(a: seq<real>, b: seq<real>, vlo: real, vhi: real)
    requires vlo >= 0.0
    ensures Report(a + b, vhi, Runs(a + b, vlo), 0)
            == Report(a, vhi, Runs(a, vlo), 0) + ShiftPeaks(Report(b, vhi, Runs(b, vlo), 0), |a|)
            <==> CleanCut(a, b, vlo) || (DirtyTail(a, vlo, vhi) && DirtyHead(b, vlo, vhi))
  {
    ThresholdsExactIff(vlo, vhi);
    PeaksComposeIff(a, b, vlo, vhi);
    assert Report(a + b, vhi, Runs(a + b, vlo), 0) == Peaks(a + b, vlo, vhi);
    assert Report(a, vhi, Runs(a, vlo), 0) == Peaks(a, vlo, vhi);
    assert Report(b, vhi, Runs(b, vlo), 0) == Peaks(b, vlo, vhi);
  }

  // ---------------------------------------------------------------- how many

  /** The maximal runs above vlo without a sample above vhi, as a set. */
  ghost function CleanRuns(a: seq<real>, vlo: real, vhi: real): (rs: set<Span>)
    ensures forall r :: r in rs <==> IsMaximalRun(a, vlo, r) && IsClean(a, vhi, r)
  {
    set lo: nat, hi: nat | lo < |a| && hi <= |a| && IsMaximalRun(a, vlo, Span(lo, hi)) && IsClean(a, vhi, Span(lo, hi))
      :: Span(lo, hi)
  }

  ghost function CleanAmong(a: seq<real>, vhi: real, rs: seq<Span>): set<Span>
    requires InRange(a, rs)
  {
    set k | 0 <= k < |rs| && IsClean(a, vhi, rs[k]) :: rs[k]
  }

  lemma CleanAmongCons(a: seq<real>, vhi: real, rs: seq<Span>)
    requires InRange(a, rs) && Ordered(rs) && rs != []
    ensures CleanAmong(a, vhi, rs)
            == CleanAmong(a, vhi, rs[1..]) + if IsClean(a, vhi, rs[0]) then {rs[0]} else {}
    ensures rs[0] !in CleanAmong(a, vhi, rs[1..])
  {
    var rest := rs[1..];
    forall k | 0 < k < |rs| ensures rs[k] == rest[k - 1] && rs[0].hi < rs[k].lo { }
    forall k | 0 <= k < |rest| ensures rest[k] == rs[k + 1] && rest[k] != rs[0] { }
  }

  lemma {:induction false} PeaksCountClean(a: seq<real>, vhi: real, rs: seq<Span>)
    requires InRange(a, rs) && Ordered(rs)
    ensures |PeaksOf(a, vhi, rs)| == |CleanAmong(a, vhi, rs)|
    decreases |rs|
  {
    if rs != [] {
      OrderedTail(rs);
      PeaksCountClean(a, vhi, rs[1..]);
      CleanAmongCons(a, vhi, rs);
    }
  }

  /** As many peaks as clean maximal runs. */
  lemma PeaksCountRuns(a: seq<real>, vlo: real, vhi: real)
    ensures |Peaks(a, vlo, vhi)| == |CleanRuns(a, vlo, vhi)|
  {
    var rs := Runs(a, vlo);
    RunsExact(a, vlo);
    PeaksCountClean(a, vhi, rs);
    forall r ensures r in CleanAmong(a, vhi, rs) <==> r in CleanRuns(a, vlo, vhi) {
      if r in CleanRuns(a, vlo, vhi) { assert r in rs; }
    }
    assert CleanAmong(a, vhi, rs) == CleanRuns(a, vlo, vhi);
  }

  /** `packet` lists the peaks of the clean maximal runs of `a`, each once and from left to right. */
  ghost predicate ArePeaks(packet: seq<Peak>, a: seq<real>, vlo: real, vhi: real) {
    && |packet| == |CleanRuns(a, vlo, vhi)| && Rising(packet)
    && forall p :: p in packet <==> exists r :: IsCleanRunWithPeak(a, vlo, vhi, r, p)
  }

  lemma PeaksArePeaks(a: seq<real>, vlo: real, vhi: real)
    ensures ArePeaks(Peaks(a, vlo, vhi), a, vlo, vhi)
  {
    PeaksCountRuns(a, vlo, vhi);
    CountBound(a, vlo, vhi);
    forall p ensures p in Peaks(a, vlo, vhi) <==> exists r :: IsCleanRunWithPeak(a, vlo, vhi, r, p) {
      PeaksAreCleanRuns(a, vlo, vhi, p);
    }
  }

  // ---------------------------------------------------------------- binning

  /** Slots in MCACountEventData and samples in one packet. */
  const MCA_SLOTS := 128
  const PACKET_SIZE := 1000

  /** `bins[k]` is the bin of the k-th peak in a ten volt range. */
  ghost predicate BinOf(bin: nat, peak: Peak, channels: nat) {
    bin <= channels && bin as real <= peak.maximum / 10.0 * channels as real < bin as real + 1.0
  }

  /** MCACountEvent's loop. The peak after the last slot is written out of bounds: `fits` is then false,
      and what the event holds is the bins of the first peaks. */
  method FillBins(bins: array<nat>, peaks: seq<Peak>, channels: nat) returns (fits: bool)
    requires bins.Length == MCA_SLOTS
    requires forall k :: 0 <= k < |peaks| ==> 0.0 <= peaks[k].maximum <= 10.0
    modifies bins
    ensures fits <==> |peaks| <= MCA_SLOTS
    ensures forall k :: 0 <= k < MCA_SLOTS && k < |peaks| ==> BinOf(bins[k], peaks[k], channels)
    ensures forall k :: |peaks| <= k < MCA_SLOTS ==> bins[k] == old(bins[k])
  {
    for i := 0 to |peaks|
      invariant i <= MCA_SLOTS
      invariant forall k :: 0 <= k < i ==> BinOf(bins[k], peaks[k], channels)
      invariant forall k :: i <= k < MCA_SLOTS ==> bins[k] == old(bins[k])
    {
      if i == MCA_SLOTS {
        return false;
      }
      bins[i] := Bin(peaks[i].maximum, channels);
    }
    fits := true;
  }

  function Bin(v: real, channels: nat): (bin: nat)
    requires 0.0 <= v <= 10.0
    ensures bin <= channels && bin as real <= v / 10.0 * channels as real < bin as real + 1.0
  {
    Scaled(v / 10.0, channels);
    var x := v / 10.0 * channels as real;
    assert x.Floor as real <= x <= channels as real;
    x.Floor
  }

  lemma Scaled(f: real, channels: nat)
    requires 0.0 <= f <= 1.0
    ensures 0.0 <= f * channels as real <= channels as real
  {
  }

  /** With the thresholds of VoltageEvent every peak lies in the range the bins assume. */
  lemma PeaksInRange(a: seq<real>)
    ensures forall k :: 0 <= k < |Report(a, 10.0, Runs(a, 0.2), 0)| ==>
              0.0 <= Report(a, 10.0, Runs(a, 0.2), 0)[k].maximum <= 10.0
  {
    ThresholdsExactIff(0.2, 10.0);
    CountBound(a, 0.2, 10.0);
    RunsExact(a, 0.2);
    PeaksAbove(a, 0.2, 10.0, Runs(a, 0.2));
  }

  lemma {:induction false} PeaksAbove(a: seq<real>, vlo: real, vhi: real, rs: seq<Span>)
    requires InRange(a, rs) && forall r :: r in rs ==> IsMaximalRun(a, vlo, r)
    ensures forall k :: 0 <= k < |PeaksOf(a, vhi, rs)| ==> PeaksOf(a, vhi, rs)[k].maximum > vlo
    decreases |rs|
  {
    if rs != [] {
      assert rs[0] in rs;
      PeaksAbove(a, vlo, vhi, rs[1..]);
    }
  }

  function Comb(n: nat): (a: seq<real>)
    ensures |a| == n && forall i :: 0 <= i < n ==> a[i] == if i % 2 == 0 then 1.0 else 0.0
  {
    seq(n, i => if i % 2 == 0 then 1.0 else 0.0)
  }

  lemma CombRun(n: nat, k: nat)
    requires 2 * k < n && n % 2 == 0
    ensures RunsFrom(Comb(n), 0.2, 2 * k) == [Span(2 * k, 2 * k + 1)] + RunsFrom(Comb(n), 0.2, 2 * (k + 1))
  {
    var a := Comb(n);
    assert a[2 * k] == 1.0 && a[2 * k + 1] == 0.0;
    assert RunEnd(a, 0.2, 2 * k) == RunEnd(a, 0.2, 2 * k + 1) == 2 * k + 1;
    assert RunsFrom(a, 0.2, 2 * k + 1) == RunsFrom(a, 0.2, 2 * (k + 1));
  }

  lemma {:induction false} CombRuns(n: nat, k: nat)
    requires 2 * k <= n && n % 2 == 0
    ensures |PeaksOf(Comb(n), 10.0, RunsFrom(Comb(n), 0.2, 2 * k))| == n / 2 - k
    decreases n - 2 * k
  {
    if 2 * k < n {
      CombRun(n, k);
      var rest := RunsFrom(Comb(n), 0.2, 2 * (k + 1));
      var r := Span(2 * k, 2 * k + 1);
      assert ([r] + rest)[1..] == rest;
      assert IsClean(Comb(n), 10.0, r);
      CombRuns(n, k + 1);
    }
  }

  /** The bound on the count is reached for every packet size. */
  lemma CountBoundReached(n: nat) returns (a: seq<real>)
    ensures |a| == n && |Peaks(a, 0.2, 10.0)| == (n + 1) / 2
  {
    if n % 2 == 0 {
      a := Comb(n);
      CombRuns(n, 0);
    } else {
      a := Comb(n - 1) + [1.0];
      CombRuns(n - 1, 0);
      OneMore(Comb(n - 1));
    }
  }

  lemma OneMore(front: seq<real>)
    requires front == [] || front[|front| - 1] <= 0.2
    ensures |Peaks(front + [1.0], 0.2, 10.0)| == |Peaks(front, 0.2, 10.0)| + 1
  {
    PeaksOfOneRun([1.0], 0.2, 10.0);
    PeaksCompose(front, [1.0], 0.2, 10.0);
  }

  /** Every packet of `n` samples fits `slots` peaks if and only if half of n, rounded up, does. */
  lemma SlotsSufficeIff(n: nat, slots: nat)
    ensures (forall a: seq<real> | |a| == n :: |Report(a, 10.0, Runs(a, 0.2), 0)| <= slots) <==> (n + 1) / 2 <= slots
  {
    ThresholdsExactIff(0.2, 10.0);
    if (n + 1) / 2 <= slots {
      forall a: seq<real> | |a| == n ensures |Report(a, 10.0, Runs(a, 0.2), 0)| <= slots {
        CountBound(a, 0.2, 10.0);
        assert Report(a, 10.0, Runs(a, 0.2), 0) == Peaks(a, 0.2, 10.0);
      }
    } else {
      var a := CountBoundReached(n);
      assert Report(a, 10.0, Runs(a, 0.2), 0) == Peaks(a, 0.2, 10.0);
    }
  }

  /** The peaks of every packet of `n` samples fit an MCA event if and only if n is at most 256. */
  lemma SlotsFitIff(n: nat)
    ensures (forall a: seq<real> | |a| == n :: |Report(a, 10.0, Runs(a, 0.2), 0)| <= MCA_SLOTS) <==> n <= 256
  {
    SlotsSufficeIff(n, MCA_SLOTS);
  }

  /** The packets of the program are larger: one can hold more peaks than there are slots. */
  lemma SlotsCanOverflow()
    ensures exists a: seq<real> :: |a| == PACKET_SIZE && |Report(a, 10.0, Runs(a, 0.2), 0)| > MCA_SLOTS
  {
    SlotsFitIff(PACKET_SIZE);
  }
}
