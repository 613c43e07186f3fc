/**
 * Sync progress: the percent of a phase from bytes or time, and the reporters that keep it
 * monotonic and throttle it on the way from the worker to the room.
 */
module Progress {
  import opened Wrappers

  // Percent within a slice

  datatype Slice = Slice(start: int, weight: int)

  /** One download event: the total size when the server announced it. */
  datatype Sample = Sample(bytesRead: nat, bytesTotal: Option<nat>, elapsedMs: int)

  function MaxInt(a: int, b: int): int {
    if a < b then b else a
  }

  function MinInt(a: int, b: int): int {
    if a < b then a else b
  }

  function Unit(x: real): real {
    if x < 0.0 then 0.0 else if x > 1.0 then 1.0 else x
  }

  function InFlightCap(s: Slice): int {
    MaxInt(s.start, s.start + s.weight - 1)
  }

  function PortionPercent(s: Slice, ratio: real): int {
    (s.start as real + s.weight as real * ratio).Floor
  }

  function BytePercent(s: Slice, bytesRead: nat, bytesTotal: nat): int
    requires bytesTotal > 0
  {
    MinInt(InFlightCap(s), PortionPercent(s, Unit(bytesRead as real / bytesTotal as real)))
  }

  function TimePercent(s: Slice, elapsedMs: int, estimatedMs: int): int {
    var ratio := Unit(elapsedMs as real / MaxInt(1000, estimatedMs) as real);
    MinInt(InFlightCap(s), MaxInt(s.start, PortionPercent(s, ratio)))
  }

  function HybridPercent(s: Slice, x: Sample, estimatedMs: int): int {
    if x.bytesTotal.Some? && x.bytesTotal.value > 0 then BytePercent(s, x.bytesRead, x.bytesTotal.value)
    else TimePercent(s, x.elapsedMs, estimatedMs)
  }

  lemma FloorMonotone(x: real, y: real)
    requires x <= y
    ensures x.Floor <= y.Floor
  {
  }

  lemma PortionInSlice(s: Slice, ratio: real)
    requires s.weight >= 1 && 0.0 <= ratio <= 1.0
    ensures s.start <= PortionPercent(s, ratio) <= s.start + s.weight
  {
    var w := s.weight as real;
    assert 0.0 <= w * ratio <= w by {
      assert w * ratio <= w * 1.0;
    }
    FloorMonotone(s.start as real, s.start as real + w * ratio);
    FloorMonotone(s.start as real + w * ratio, (s.start + s.weight) as real);
  }

  lemma PortionMonotone(s: Slice, a: real, b: real)
    requires s.weight >= 1 && a <= b
    ensures PortionPercent(s, a) <= PortionPercent(s, b)
  {
    var w := s.weight as real;
    assert w * a <= w * b;
    FloorMonotone(s.start as real + w * a, s.start as real + w * b);
  }

  /** In flight a slice stays at or above its start and below its end. */
  lemma HybridInSlice(s: Slice, x: Sample, estimatedMs: int)
    requires s.weight >= 1
    ensures s.start <= HybridPercent(s, x, estimatedMs) <= s.start + s.weight - 1
  {
    if x.bytesTotal.Some? && x.bytesTotal.value > 0 {
      PortionInSlice(s, Unit(x.bytesRead as real / x.bytesTotal.value as real));
    }
  }

  /** The percent of a slice that is `done / all` through: the share rounded down, short of the slice's end. */
  predicate IsShare(s: Slice, done: int, all: int, percent: int) {
    && (percent - s.start) * all <= s.weight * done
    && (percent == s.start + s.weight - 1 || s.weight * done < (percent - s.start + 1) * all)
  }

  lemma ProductAsReal(a: int, b: int)
    ensures (a * b) as real == a as real * b as real
  {
  }

  lemma ShareAsProduct(weight: int, done: int, all: int)
    requires all > 0
    ensures weight as real * (done as real / all as real) * all as real == (weight * done) as real
  {
    var w, r, d := weight as real, done as real / all as real, all as real;
    assert r * d == done as real;
    assert w * r * d == w * (r * d);
    ProductAsReal(weight, done);
  }

  lemma ScaledBetween(x: real, d: real, k: int, m: int)
    requires d > 0.0 && k as real <= x < m as real
    ensures k as real * d <= x * d && !(m as real * d <= x * d)
  {
  }

  lemma Integers(k: int, all: int, product: int)
    ensures k as real * all as real <= product as real <==> k * all <= product
  {
    ProductAsReal(k, all);
  }

  /** The rounded share in integers. */
  lemma FlooredShare(share: real, product: int, all: int, k: int, m: int)
    requires all > 0 && share * all as real == product as real && k == share.Floor && m == k + 1
    ensures k * all <= product < m * all
  {
    ScaledBetween(share, all as real, k, m);
    Integers(k, all, product);
    Integers(m, all, product);
  }

  lemma FloorShift(start: int, x: real)
    ensures (start as real + x).Floor == start + x.Floor
  {
  }

  lemma CappedShare(s: Slice, done: int, all: int, k: int)
    requires s.weight >= 1 && all > 0 && k * all <= s.weight * done < (k + 1) * all
    ensures IsShare(s, done, all, MinInt(InFlightCap(s), s.start + k))
  {
    if k >= s.weight {
      LowerMultiple(s.weight - 1, k, all);
    }
  }

  lemma ShareFromProduct(s: Slice, done: int, all: int, share: real)
    requires s.weight >= 1 && all > 0 && share * all as real == (s.weight * done) as real
    ensures IsShare(s, done, all, MinInt(InFlightCap(s), (s.start as real + share).Floor))
  {
    hide IsShare;
    FlooredShare(share, s.weight * done, all, share.Floor, share.Floor + 1);
    FloorShift(s.start, share);
    CappedShare(s, done, all, share.Floor);
  }

  lemma ShareOfRatio(s: Slice, done: int, all: int)
    requires s.weight >= 1 && all > 0
    ensures IsShare(s, done, all, MinInt(InFlightCap(s), PortionPercent(s, done as real / all as real)))
  {
    hide IsShare, MinInt, InFlightCap;
    var ratio := done as real / all as real;
    var share := s.weight as real * ratio;
    ShareAsProduct(s.weight, done, all);
    ShareFromProduct(s, done, all, share);
    assert PortionPercent(s, ratio) == (s.start as real + share).Floor;
  }

  lemma LowerMultiple(a: int, b: int, d: int)
    requires a <= b && d > 0
    ensures a * d <= b * d
  {
  }

  lemma UnitOfRatio(n: int, d: int)
    requires d > 0
    ensures Unit(n as real / d as real) == MinInt(d, MaxInt(0, n)) as real / d as real
  {
    var r := n as real / d as real;
    assert r * d as real == n as real;
    assert d as real / d as real == 1.0;
    if n > d {
      assert r > 1.0;
    }
  }

  /**
   * With a known size the percent is the share of the bytes; without it, that of the estimated
   * time, which counts as no less than a second.
   */
  lemma HybridIs(s: Slice, x: Sample, estimatedMs: int)
    requires s.weight >= 1
    ensures x.bytesTotal.Some? && x.bytesTotal.value > 0 ==>
              IsShare(s, if x.bytesRead < x.bytesTotal.value then x.bytesRead else x.bytesTotal.value, x.bytesTotal.value,
                      HybridPercent(s, x, estimatedMs))
    ensures x.bytesTotal.None? || x.bytesTotal.value == 0 ==>
              var all := if estimatedMs < 1000 then 1000 else estimatedMs;
              IsShare(s, if x.elapsedMs < 0 then 0 else if x.elapsedMs < all then x.elapsedMs else all, all,
                      HybridPercent(s, x, estimatedMs))
  {
    hide IsShare, PortionPercent, Unit;
    if x.bytesTotal.Some? && x.bytesTotal.value > 0 {
      var all := x.bytesTotal.value;
      UnitOfRatio(x.bytesRead, all);
      ShareOfRatio(s, MinInt(all, x.bytesRead), all);
    } else {
      var all := MaxInt(1000, estimatedMs);
      var done := MinInt(all, MaxInt(0, x.elapsedMs));
      UnitOfRatio(x.elapsedMs, all);
      ShareOfRatio(s, done, all);
      RatioInUnit(done, all);
      PortionInSlice(s, done as real / all as real);
    }
  }

  lemma RatioInUnit(n: int, d: int)
    requires 0 <= n <= d && d > 0
    ensures 0.0 <= n as real / d as real <= 1.0
  {
  }

  lemma DivideMonotone(a: real, b: real, d: real)
    requires a <= b && d > 0.0
    ensures a / d <= b / d
  {
  }

  /** Later samples of one request: the same mode, and no fewer bytes or milliseconds. */
  predicate Follows(x: Sample, y: Sample) {
    x.bytesTotal == y.bytesTotal && x.bytesRead <= y.bytesRead && x.elapsedMs <= y.elapsedMs
  }

  lemma HybridMonotone(s: Slice, x: Sample, y: Sample, estimatedMs: int)
    requires s.weight >= 1 && Follows(x, y)
    ensures HybridPercent(s, x, estimatedMs) <= HybridPercent(s, y, estimatedMs)
  {
    if x.bytesTotal.Some? && x.bytesTotal.value > 0 {
      var d := x.bytesTotal.value as real;
      DivideMonotone(x.bytesRead as real, y.bytesRead as real, d);
      PortionMonotone(s, Unit(x.bytesRead as real / d), Unit(y.bytesRead as real / d));
    } else {
      var d := MaxInt(1000, estimatedMs) as real;
      DivideMonotone(x.elapsedMs as real, y.elapsedMs as real, d);
      PortionMonotone(s, Unit(x.elapsedMs as real / d), Unit(y.elapsedMs as real / d));
    }
  }

  /** Later in bytes and time, in whatever mode. */
  predicate LaterInAnyMode(x: Sample, y: Sample) {
    x.bytesRead <= y.bytesRead && x.elapsedMs <= y.elapsedMs
  }

  ghost predicate CanFallBack(s: Slice, estimatedMs: int) {
    exists x, y :: LaterInAnyMode(x, y) && HybridPercent(s, y, estimatedMs) < HybridPercent(s, x, estimatedMs)
  }

  /**
   * Why the order needs one mode: were the total to appear between two samples, the later percent
   * could be lower exactly in slices of more than one step. Within one response it does not appear.
   */
  lemma OrderNeedsOneModeIff(s: Slice, estimatedMs: int)
    requires s.weight >= 1
    ensures CanFallBack(s, estimatedMs) <==> s.weight >= 2
  {
    if s.weight >= 2 {
      var x, y := Sample(0, None, MaxInt(1000, estimatedMs)), Sample(0, Some(1), MaxInt(1000, estimatedMs));
      assert Unit(MaxInt(1000, estimatedMs) as real / MaxInt(1000, estimatedMs) as real) == 1.0;
      assert PortionPercent(s, 1.0) == s.start + s.weight;
      assert Unit(0 as real / 1 as real) == 0.0;
      assert PortionPercent(s, 0.0) == s.start;
      assert LaterInAnyMode(x, y) && HybridPercent(s, y, estimatedMs) < HybridPercent(s, x, estimatedMs);
    } else {
      forall x, y
        ensures HybridPercent(s, y, estimatedMs) == HybridPercent(s, x, estimatedMs)
      {
        HybridInSlice(s, x, estimatedMs);
        HybridInSlice(s, y, estimatedMs);
      }
    }
  }

  // The requests of an Xtream sync

  const XTREAM_SLICES: seq<Slice> := [Slice(5, 7), Slice(12, 13), Slice(25, 7), Slice(32, 18), Slice(50, 7), Slice(57, 18)]

  datatype Request = Request(slice: Slice, samples: seq<Sample>, estimatedMs: int)

  /** What one request reports: its samples, then the end of its slice. */
  function Reports(r: Request): seq<int> {
    seq(|r.samples|, i requires 0 <= i < |r.samples| => HybridPercent(r.slice, r.samples[i], r.estimatedMs))
      + [r.slice.start + r.slice.weight]
  }

  function AllReports(rs: seq<Request>): seq<int> {
    if rs == [] then [] else AllReports(rs[..|rs| - 1]) + Reports(rs[|rs| - 1])
  }

  ghost predicate Tiled(rs: seq<Request>) {
    && (forall i :: 0 <= i < |rs| ==> rs[i].slice.weight >= 1)
    && (forall i :: 0 <= i < |rs| - 1 ==> rs[i].slice.start + rs[i].slice.weight == rs[i + 1].slice.start)
  }

  ghost predicate OneMode(r: Request) {
    forall i, j :: 0 <= i < j < |r.samples| ==> Follows(r.samples[i], r.samples[j])
  }

  ghost predicate Nondecreasing(xs: seq<int>) {
    forall i, j :: 0 <= i < j < |xs| ==> xs[i] <= xs[j]
  }

  ghost predicate Within(xs: seq<int>, low: int, high: int) {
    forall i :: 0 <= i < |xs| ==> low <= xs[i] <= high
  }

  lemma ReportsOfOneRequest(r: Request)
    requires r.slice.weight >= 1 && OneMode(r)
    ensures Nondecreasing(Reports(r)) && Within(Reports(r), r.slice.start, r.slice.start + r.slice.weight)
  {
    hide HybridPercent;
    forall i | 0 <= i < |r.samples|
      ensures r.slice.start <= HybridPercent(r.slice, r.samples[i], r.estimatedMs) <= r.slice.start + r.slice.weight - 1
    {
      HybridInSlice(r.slice, r.samples[i], r.estimatedMs);
    }
    forall i, j | 0 <= i < j < |r.samples|
      ensures HybridPercent(r.slice, r.samples[i], r.estimatedMs) <= HybridPercent(r.slice, r.samples[j], r.estimatedMs)
    {
      HybridMonotone(r.slice, r.samples[i], r.samples[j], r.estimatedMs);
    }
  }

  lemma RisingParts(xs: seq<int>, ys: seq<int>, low: int, middle: int, high: int)
    requires Nondecreasing(xs) && Within(xs, low, middle) && Nondecreasing(ys) && Within(ys, middle, high)
    requires low <= middle <= high
    ensures Nondecreasing(xs + ys) && Within(xs + ys, low, high)
  {
  }

  /** Requests whose slices tile a range report a nondecreasing sequence within that range. */
  lemma {:induction false} TiledRunNeverGoesBack(rs: seq<Request>)
    requires rs != [] && Tiled(rs) && forall i :: 0 <= i < |rs| ==> OneMode(rs[i])
    ensures rs[0].slice.start <= rs[|rs| - 1].slice.start
    ensures Nondecreasing(AllReports(rs))
    ensures Within(AllReports(rs), rs[0].slice.start, rs[|rs| - 1].slice.start + rs[|rs| - 1].slice.weight)
  {
    hide Reports, OneMode, Nondecreasing, Within;
    var n := |rs| - 1;
    var last := rs[n].slice;
    ReportsOfOneRequest(rs[n]);
    if n > 0 {
      TiledRunNeverGoesBack(rs[..n]);
      RisingParts(AllReports(rs[..n]), Reports(rs[n]), rs[0].slice.start, last.start, last.start + last.weight);
    } else {
      assert AllReports(rs[..n]) + Reports(rs[n]) == Reports(rs[n]);
    }
  }

  /** The six requests of an Xtream sync, whatever they report, go from 5 to 75 without a step back. */
  lemma {:induction false} XtreamRunNeverGoesBack(rs: seq<Request>)
    requires |rs| == |XTREAM_SLICES|
    requires forall i :: 0 <= i < |rs| ==> rs[i].slice == XTREAM_SLICES[i]
    requires forall i :: 0 <= i < |rs| ==> OneMode(rs[i])
    ensures Nondecreasing(AllReports(rs)) && Within(AllReports(rs), 5, 75)
  {
    TiledRunNeverGoesBack(rs);
  }

  /** What one request reports: the share of each sample in its order, then the end of the slice. */
  lemma ReportsAre(r: Request, i: nat)
    requires r.slice.weight >= 1 && i <= |r.samples|
    ensures |Reports(r)| == |r.samples| + 1
    ensures i == |r.samples| ==> Reports(r)[i] == r.slice.start + r.slice.weight
    ensures i < |r.samples| ==> Reports(r)[i] == HybridPercent(r.slice, r.samples[i], r.estimatedMs)
  {
    hide HybridPercent;
  }

  /** Request `k` of a run reports behind all those before it. */
  lemma {:induction false} ReportsInOrder(rs: seq<Request>, k: nat)
    requires k < |rs|
    ensures AllReports(rs[..k]) + Reports(rs[k]) <= AllReports(rs)
    ensures k == |rs| - 1 ==> AllReports(rs) == AllReports(rs[..k]) + Reports(rs[k])
  {
    hide Reports;
    if k < |rs| - 1 {
      ReportsInOrder(rs[..|rs| - 1], k);
      assert rs[..|rs| - 1][..k] == rs[..k];
    }
  }

  /** The six requests of an Xtream sync end at these percents. */
  lemma XtreamStops(rs: seq<Request>, k: nat)
    requires |rs| == |XTREAM_SLICES| && forall i :: 0 <= i < |rs| ==> rs[i].slice == XTREAM_SLICES[i]
    requires k < |rs|
    ensures |rs| == 6 && Reports(rs[k])[|rs[k].samples|] == [12, 25, 32, 50, 57, 75][k]
  {
    hide HybridPercent;
  }

  // Reporters

  /** `detail` stands for the fields a reporter passes on unchanged. */
  datatype Report = Report(percent: real, detail: string)

  function Clamped(percent: real): int {
    MinInt(100, MaxInt(0, percent.Floor))
  }

  /** The percent rounded down, held between 0 and 100. */
  lemma ClampedIs(percent: real)
    ensures 0 <= Clamped(percent) <= 100
    ensures percent < 0.0 ==> Clamped(percent) == 0
    ensures percent >= 100.0 ==> Clamped(percent) == 100
    ensures 0.0 <= percent < 100.0 ==> Clamped(percent) as real <= percent < Clamped(percent) as real + 1.0
  {
  }

  ghost function RunningMax(reports: seq<Report>): int
    requires reports != []
  {
    if |reports| == 1 then Clamped(reports[0].percent)
    else MaxInt(RunningMax(reports[..|reports| - 1]), Clamped(reports[|reports| - 1].percent))
  }

  ghost predicate Rising(emitted: seq<Report>) {
    && (forall i :: 0 <= i < |emitted| ==> emitted[i].percent == Clamped(emitted[i].percent) as real)
    && (forall i, j :: 0 <= i < j < |emitted| ==> emitted[i].percent <= emitted[j].percent)
  }

  /** What a reporter owes its listener: rising percents, the last one the maximum reported. */
  ghost predicate Delivers(reported: seq<Report>, emitted: seq<Report>) {
    && Rising(emitted)
    && (reported == [] ==> emitted == [])
    && (reported != [] ==> emitted != [] && emitted[|emitted| - 1].percent == RunningMax(reported) as real)
  }

  class MonotonicReporter {
    var maxPercent: int
    /** What the listener has been sent. */
    var emitted: seq<Report>

    constructor ()
      ensures maxPercent == 0 && emitted == []
    {
      maxPercent, emitted := 0, [];
    }

    ghost predicate Valid()
      reads this
    {
      && 0 <= maxPercent <= 100 && Rising(emitted)
      && (if emitted == [] then maxPercent == 0 else emitted[|emitted| - 1].percent == maxPercent as real)
    }

    method Put(r: Report)
      requires Valid()
      modifies this
      ensures Valid()
      ensures var next := Clamped(r.percent);
              if next < old(maxPercent) then maxPercent == old(maxPercent) && emitted == old(emitted)
              else maxPercent == next && emitted == old(emitted) + [r.(percent := next as real)]
    {
      var next := Clamped(r.percent);
      if next < maxPercent {
        return;
      }
      maxPercent := next;
      emitted := emitted + [r.(percent := next as real)];
    }
  }

  class ThrottledReporter {
    const minIntervalMs: nat
    const monotonic: MonotonicReporter
    var lastEmitMs: int
    var lastPercent: int
    ghost var reported: seq<Report>

    constructor (interval: nat)
      ensures Valid() && reported == [] && fresh(monotonic)
    {
      minIntervalMs := interval;
      monotonic := new MonotonicReporter();
      lastEmitMs, lastPercent, reported := 0, 0 - 1, [];
    }

    /** The percent last let through never exceeds the maximum sent, so a new maximum is let through. */
    ghost predicate Valid()
      reads this, monotonic
    {
      && monotonic.Valid() && Delivers(reported, monotonic.emitted)
      && lastPercent <= monotonic.maxPercent && (lastPercent < 0 <==> reported == [])
    }

    method Put(r: Report, now: int)
      requires Valid()
      modifies this, monotonic
      ensures Valid() && reported == old(reported) + [r]
      ensures old(monotonic.emitted) <= monotonic.emitted
      ensures var percent := Clamped(r.percent);
              if percent < 100 && percent <= old(lastPercent) && now < old(lastEmitMs) + minIntervalMs then
                monotonic.emitted == old(monotonic.emitted) && lastPercent == old(lastPercent) && lastEmitMs == old(lastEmitMs)
              else
                && lastPercent == percent && lastEmitMs == now
                && monotonic.emitted == old(monotonic.emitted) +
                     if percent < old(monotonic.maxPercent) then [] else [r.(percent := percent as real)]
    {
      var percent := Clamped(r.percent);
      assert (reported + [r])[..|reported|] == reported;
      reported := reported + [r];
      if percent < 100 && percent - lastPercent < 1 && now - lastEmitMs < minIntervalMs && lastPercent >= 0 {
        return;
      }
      lastPercent := percent;
      lastEmitMs := now;
      monotonic.Put(r);
    }
  }

  lemma {:induction false} RunningMaxBounds(reports: seq<Report>, i: nat)
    requires i < |reports|
    ensures Clamped(reports[i].percent) <= RunningMax(reports) <= 100
  {
    if |reports| > 1 && i < |reports| - 1 {
      RunningMaxBounds(reports[..|reports| - 1], i);
    } else if |reports| > 1 {
      RunningMaxBounds(reports[..|reports| - 1], 0);
    }
  }

  /** The maximum is one of the percents reported, and none is above it. */
  lemma {:induction false} RunningMaxIsReported(reports: seq<Report>) returns (i: nat)
    requires reports != []
    ensures i < |reports| && RunningMax(reports) == Clamped(reports[i].percent)
    ensures forall k :: 0 <= k < |reports| ==> Clamped(reports[k].percent) <= RunningMax(reports)
  {
    hide Clamped;
    if |reports| == 1 {
      i := 0;
    } else {
      i := RunningMaxIsReported(reports[..|reports| - 1]);
      if RunningMax(reports) != RunningMax(reports[..|reports| - 1]) {
        i := |reports| - 1;
      }
    }
  }

  /** Once 100 was reported it has arrived. */
  lemma HundredArrives(reported: seq<Report>, emitted: seq<Report>, i: nat)
    requires Delivers(reported, emitted) && i < |reported| && reported[i].percent >= 100.0
    ensures emitted[|emitted| - 1].percent == 100.0
  {
    RunningMaxBounds(reported, i);
  }

  lemma {:induction false} RunningMaxOfRising(emitted: seq<Report>)
    requires Rising(emitted) && emitted != []
    ensures RunningMax(emitted) as real == emitted[|emitted| - 1].percent
  {
    if |emitted| > 1 {
      RunningMaxOfRising(emitted[..|emitted| - 1]);
    }
  }

  /**
   * Reporters in a row: the worker's output feeds the parent's reporter, and what comes out still
   * rises to the maximum the worker was told, however either one throttled.
   */
  lemma DeliveryComposes(reported: seq<Report>, between: seq<Report>, emitted: seq<Report>)
    requires Delivers(reported, between) && Delivers(between, emitted)
    ensures Delivers(reported, emitted)
  {
    if reported != [] {
      RunningMaxOfRising(between);
    }
  }

  /** The parent reads the worker's lines one by one. */
  method Feed(parent: ThrottledReporter, lines: seq<Report>, clock: nat -> int)
    requires parent.Valid()
    modifies parent, parent.monotonic
    ensures parent.Valid() && parent.reported == old(parent.reported) + lines
  {
    for j := 0 to |lines|
      invariant parent.Valid() && parent.reported == old(parent.reported) + lines[..j]
    {
      parent.Put(lines[j], clock(j));
    }
    assert lines[..|lines|] == lines;
  }

  /** The two reporters of the pipeline, fed report by report, with any clocks. */
  method WorkerToParent(worker: ThrottledReporter, parent: ThrottledReporter, reports: seq<Report>,
                        workerClock: nat -> int, parentClock: nat -> nat -> int)
    requires worker.Valid() && parent.Valid() && worker != parent && worker.monotonic != parent.monotonic
    requires worker.reported == [] && parent.reported == []
    modifies worker, worker.monotonic, parent, parent.monotonic
    ensures Delivers(reports, parent.monotonic.emitted)
  {
    for i := 0 to |reports|
      invariant worker.Valid() && parent.Valid()
      invariant worker.reported == reports[..i] && parent.reported == worker.monotonic.emitted
    {
      hide Delivers, Rising;
      var before := worker.monotonic.emitted;
      worker.Put(reports[i], workerClock(i));
      Feed(parent, worker.monotonic.emitted[|before|..], parentClock(i));
    }
    assert reports[..|reports|] == reports;
    DeliveryComposes(reports, worker.monotonic.emitted, parent.monotonic.emitted);
  }
}
