/** The order statistics of a benchmark recording: median, stutters, hitches and the low FPS figures. */
module FrameStats {

  datatype Sample = Sample(avg: real, p99: real)

  datatype Report = Report(stutters: nat, hitches: nat, fpsLow1: real, fpsLow01: real, medianFps: real, samples: nat)

  const HITCH_MS := 50.0

  // ---- Ranks -------------------------------------------------------------

  function CountAbove(s: seq<real>, t: real): (n: nat)
    ensures n <= |s|
  {
    if s == [] then 0 else CountAbove(s[..|s| - 1], t) + (if s[|s| - 1] > t then 1 else 0)
  }

  function CountFrom(s: seq<real>, t: real): (n: nat)
    ensures n <= |s|
  {
    if s == [] then 0 else CountFrom(s[..|s| - 1], t) + (if s[|s| - 1] >= t then 1 else 0)
  }

  /** v has rank k, from 0: at most |s| - 1 - k values are greater, and |s| - k or more are not less. */
  predicate HasRank(s: seq<real>, k: nat, v: real) {
    k < |s| && CountAbove(s, v) <= |s| - 1 - k && CountFrom(s, v) >= |s| - k
  }

  lemma {:induction false} CountsOrdered(s: seq<real>, v: real, w: real)
    requires v < w
    ensures CountFrom(s, w) <= CountAbove(s, v)
  {
    if s != [] {
      CountsOrdered(s[..|s| - 1], v, w);
    }
  }

  /** There is one value of each rank, however it is found. */
  lemma RankIsUnique(s: seq<real>, k: nat, v: real, w: real)
    requires HasRank(s, k, v) && HasRank(s, k, w)
    ensures v == w
  {
    if v < w {
      CountsOrdered(s, v, w);
    } else if w < v {
      CountsOrdered(s, w, v);
    }
  }

  predicate Ascending(s: seq<real>) {
    forall i, j :: 0 <= i < j < |s| ==> s[i] <= s[j]
  }

  lemma {:induction false} AscendingCounts(s: seq<real>, k: nat)
    requires Ascending(s) && k < |s|
    ensures CountAbove(s, s[k]) <= |s| - 1 - k && CountFrom(s, s[k]) >= |s| - k
  {
    var front := s[..|s| - 1];
    if k < |s| - 1 {
      AscendingCounts(front, k);
    } else {
      NoneAbove(s, s[k]);
    }
  }

  lemma {:induction false} NoneAbove(s: seq<real>, t: real)
    requires forall i :: 0 <= i < |s| ==> s[i] <= t
    ensures CountAbove(s, t) == 0
  {
    if s != [] {
      NoneAbove(s[..|s| - 1], t);
    }
  }

  // ---- Counting does not depend on the order -----------------------------

  lemma {:induction false} TakeOut(s: seq<real>, i: nat, t: real)
    requires i < |s|
    ensures CountAbove(s, t) == CountAbove(s[..i] + s[i + 1..], t) + (if s[i] > t then 1 else 0)
    ensures CountFrom(s, t) == CountFrom(s[..i] + s[i + 1..], t) + (if s[i] >= t then 1 else 0)
    decreases |s|
  {
    var last := |s| - 1;
    if i == last {
      assert s[..i] + s[i + 1..] == s[..last];
    } else {
      var front := s[..last];
      TakeOut(front, i, t);
      assert (s[..i] + s[i + 1..])[..last - 1] == front[..i] + front[i + 1..];
      assert (s[..i] + s[i + 1..])[last - 1] == s[last];
    }
  }

  lemma {:induction false} CountPermuted(a: seq<real>, b: seq<real>, t: real)
    requires multiset(a) == multiset(b)
    ensures |a| == |b| && CountAbove(a, t) == CountAbove(b, t) && CountFrom(a, t) == CountFrom(b, t)
    decreases |a|
  {
    assert |multiset(a)| == |a| && |multiset(b)| == |b|;
    if a != [] {
      var last := |a| - 1;
      assert a[last] in multiset(b);
      var i :| 0 <= i < |b| && b[i] == a[last];
      var front, rest := a[..last], b[..i] + b[i + 1..];
      assert a == front + [a[last]];
      assert b == b[..i] + [b[i]] + b[i + 1..];
      assert multiset(rest) == multiset(b) - multiset{b[i]};
      CountPermuted(front, rest, t);
      TakeOut(b, i, t);
    }
  }

  /** Position k of any ascending arrangement holds the value of rank k. */
  lemma SortedHasRank(s: seq<real>, sorted: seq<real>, k: nat)
    requires multiset(s) == multiset(sorted) && Ascending(sorted) && k < |sorted|
    ensures HasRank(s, k, sorted[k])
  {
    AscendingCounts(sorted, k);
    CountPermuted(s, sorted, sorted[k]);
  }

  // ---- The report --------------------------------------------------------

  function Averages(samples: seq<Sample>): (s: seq<real>)
    ensures |s| == |samples|
  {
    seq(|samples|, i requires 0 <= i < |samples| => samples[i].avg)
  }

  function Worst(samples: seq<Sample>): (s: seq<real>)
    ensures |s| == |samples|
  {
    seq(|samples|, i requires 0 <= i < |samples| => samples[i].p99)
  }

  function Fps(frameMs: real): real {
    if frameMs > 0.0 then 1000.0 / frameMs else 0.0
  }

  /** The rank that stands for the 99th percentile. */
  function Rank99(n: nat): nat {
    if n >= 100 then n * 99 / 100 else n - (if n > 0 then 1 else 0)
  }

  /** The figures of a nonempty recording with median m, 99th percentile p and maximum q. */
  predicate Reports(samples: seq<Sample>, r: Report, m: real, p: real, q: real) {
    var n := |samples|;
    && n > 0 && r.samples == n
    && HasRank(Averages(samples), n / 2, m)
    && HasRank(Worst(samples), Rank99(n), p)
    && HasRank(Worst(samples), n - 1, q)
    && r.stutters == (if m > 0.0 then CountAbove(Averages(samples), 2.0 * m) else 0)
    && r.hitches == CountAbove(Worst(samples), HITCH_MS)
    && r.fpsLow1 == Fps(p) && r.fpsLow01 == Fps(q) && r.medianFps == Fps(m)
  }

  // ---- The report, counted tick by tick ----------------------------------

  /** The positions whose value is above t, and those whose value is not below t. */
  ghost function Above(s: seq<real>, t: real): set<nat> {
    set i: nat | i < |s| && s[i] > t
  }

  ghost function NotBelow(s: seq<real>, t: real): set<nat> {
    set i: nat | i < |s| && s[i] >= t
  }

  lemma {:induction false} CountsPositions(s: seq<real>, t: real)
    ensures CountAbove(s, t) == |Above(s, t)| && CountFrom(s, t) == |NotBelow(s, t)|
  {
    if s != [] {
      var n := |s| - 1;
      CountsPositions(s[..n], t);
      LastAbove(s, t);
      LastNotBelow(s, t);
      hide Above, NotBelow;
    }
  }

  lemma LastAbove(s: seq<real>, t: real)
    requires s != []
    ensures var n := |s| - 1; |Above(s, t)| == |Above(s[..n], t)| + (if s[n] > t then 1 else 0)
  {
    var n := |s| - 1;
    assert Above(s, t) == Above(s[..n], t) + (if s[n] > t then {n} else {});
  }

  lemma LastNotBelow(s: seq<real>, t: real)
    requires s != []
    ensures var n := |s| - 1; |NotBelow(s, t)| == |NotBelow(s[..n], t)| + (if s[n] >= t then 1 else 0)
  {
    var n := |s| - 1;
    assert NotBelow(s, t) == NotBelow(s[..n], t) + (if s[n] >= t then {n} else {});
  }

  /** Of the values of s, at most n - 1 - k are above v and at least n - k are v or more. */
  ghost predicate Divides(s: seq<real>, k: nat, v: real) {
    |Above(s, v)| <= |s| - 1 - k && |NotBelow(s, v)| >= |s| - k
  }

  /** The figures of a recording whose ticks have these averages and these worst frames: the median m, the 99th
      percentile p - below a hundred ticks the maximum - and the maximum q. */
  ghost predicate Figures(averages: seq<real>, worst: seq<real>, r: Report, m: real, p: real, q: real) {
    var n := |averages|;
    && n == |worst| == r.samples
    && Divides(averages, n / 2, m)
    && Divides(worst, if n >= 100 then n * 99 / 100 else n - 1, p)
    && q in worst && (forall w <- worst :: w <= q)
    && r.stutters == (if m > 0.0 then |Above(averages, 2.0 * m)| else 0)
    && r.hitches == |Above(worst, 50.0)|
    && r.fpsLow1 == (if p > 0.0 then 1000.0 / p else 0.0)
    && r.fpsLow01 == (if q > 0.0 then 1000.0 / q else 0.0)
    && r.medianFps == (if m > 0.0 then 1000.0 / m else 0.0)
  }

  lemma ReportMeaning(samples: seq<Sample>, r: Report, m: real, p: real, q: real)
    requires Reports(samples, r, m, p, q)
    ensures Figures(seq(|samples|, i requires 0 <= i < |samples| => samples[i].avg),
                    seq(|samples|, i requires 0 <= i < |samples| => samples[i].p99), r, m, p, q)
  {
    var averages, worst := Averages(samples), Worst(samples);
    CountsPositions(averages, m);
    CountsPositions(averages, 2.0 * m);
    CountsPositions(worst, p);
    CountsPositions(worst, q);
    CountsPositions(worst, HITCH_MS);
    TopRank(worst, q);
  }

  /** The value of the last rank is the maximum. */
  lemma TopRank(s: seq<real>, q: real)
    requires s != [] && HasRank(s, |s| - 1, q)
    ensures q in s && forall w <- s :: w <= q
  {
    CountsPositions(s, q);
    forall w | w in s ensures w <= q {
      var i: nat :| i < |s| && s[i] == w;
      assert i !in Above(s, q);
    }
    var i: nat :| i in NotBelow(s, q);
    assert s[i] in s;
  }

  lemma {:induction false} FewerAboveMore(s: seq<real>, t: real, u: real)
    requires t <= u
    ensures CountAbove(s, u) <= CountAbove(s, t)
  {
    if s != [] {
      FewerAboveMore(s[..|s| - 1], t, u);
    }
  }

  /** The figures are determined by the samples, and fewer than half of the ticks are stutters. */
  lemma ReportLaws(samples: seq<Sample>, r: Report, m: real, p: real, q: real)
    requires Reports(samples, r, m, p, q)
    ensures r.stutters <= |samples| - 1 - |samples| / 2
    ensures r.hitches <= |samples|
    ensures forall r', m', p', q' :: Reports(samples, r', m', p', q') ==> r' == r
  {
    if m > 0.0 {
      FewerAboveMore(Averages(samples), m, 2.0 * m);
    }
    forall r', m', p', q' | Reports(samples, r', m', p', q') ensures r' == r {
      RankIsUnique(Averages(samples), |samples| / 2, m, m');
      RankIsUnique(Worst(samples), Rank99(|samples|), p, p');
      RankIsUnique(Worst(samples), |samples| - 1, q, q');
    }
  }

  lemma RanksAscend(s: seq<real>, j: nat, k: nat, v: real, w: real)
    requires j <= k && HasRank(s, j, v) && HasRank(s, k, w)
    ensures v <= w
  {
    if w < v {
      CountsOrdered(s, w, v);
    }
  }

  lemma Rank99Below(n: nat)
    requires n > 0
    ensures Rank99(n) <= n - 1
  {
  }

  /** The 0.1% low is not above the 1% low - except when the 99th percentile is no positive time and
      the maximum is one. */
  lemma LowsOrderedIff(samples: seq<Sample>, r: Report, m: real, p: real, q: real)
    requires Reports(samples, r, m, p, q)
    ensures r.fpsLow01 <= r.fpsLow1 <==> p > 0.0 || q <= 0.0
  {
    Rank99Below(|samples|);
    RanksAscend(Worst(samples), Rank99(|samples|), |samples| - 1, p, q);
    if p > 0.0 {
      Reciprocals(p, q);
    }
  }

  lemma Reciprocals(p: real, q: real)
    requires 0.0 < p <= q
    ensures 1000.0 / q <= 1000.0 / p
  {
  }

  // ---- The code ----------------------------------------------------------

  function Insert(x: real, s: seq<real>): seq<real> {
    if s == [] || x <= s[0] then [x] + s else [s[0]] + Insert(x, s[1..])
  }

  lemma {:induction false} InsertSorts(x: real, s: seq<real>)
    requires Ascending(s)
    ensures multiset(Insert(x, s)) == multiset(s) + multiset{x} && |Insert(x, s)| == |s| + 1
    ensures Ascending(Insert(x, s)) && (Insert(x, s)[0] == x || (s != [] && Insert(x, s)[0] == s[0]))
  {
    if s != [] && x > s[0] {
      InsertSorts(x, s[1..]);
      assert s == [s[0]] + s[1..];
      AscendingCons(s[0], Insert(x, s[1..]));
    } else if s != [] {
      AscendingCons(x, s);
    }
  }

  lemma AscendingCons(x: real, s: seq<real>)
    requires Ascending(s) && (s == [] || x <= s[0])
    ensures Ascending([x] + s)
  {
    assert forall i :: 0 <= i < |s| ==> x <= s[i];
  }

  /** std::sort, of which only the result is used. */
  method Sort(a: array<real>)
    modifies a
    ensures Ascending(a[..]) && multiset(a[..]) == old(multiset(a[..]))
  {
    ghost var was := a[..];
    var sorted: seq<real> := [];
    for i := 0 to a.Length
      invariant a[..] == was
      invariant Ascending(sorted) && multiset(sorted) == multiset(was[..i]) && |sorted| == i
    {
      assert was[..i + 1] == was[..i] + [was[i]];
      InsertSorts(a[i], sorted);
      sorted := Insert(a[i], sorted);
    }
    assert was[..a.Length] == was;
    forall k | 0 <= k < a.Length {
      a[k] := sorted[k];
    }
    assert a[..] == sorted;
  }

  /** The two sort buffers, and the ticks whose worst frame took more than 50 ms. */
  method FillBuffers(samples: seq<Sample>, avgs: array<real>, p99s: array<real>) returns (hitches: nat)
    requires avgs.Length == p99s.Length == |samples| && avgs != p99s
    modifies avgs, p99s
    ensures avgs[..] == Averages(samples) && p99s[..] == Worst(samples)
    ensures hitches == CountAbove(Worst(samples), HITCH_MS)
  {
    hitches := 0;
    for i := 0 to |samples|
      invariant forall k :: 0 <= k < i ==> avgs[k] == samples[k].avg && p99s[k] == samples[k].p99
      invariant hitches == CountAbove(Worst(samples)[..i], HITCH_MS)
    {
      assert Worst(samples)[..i + 1][..i] == Worst(samples)[..i];
      avgs[i], p99s[i] := samples[i].avg, samples[i].p99;
      if samples[i].p99 > HITCH_MS {
        hitches := hitches + 1;
      }
    }
    assert Worst(samples)[..|samples|] == Worst(samples);
  }

  /** compute_perceptual, without the smoothness score. An empty recording reports zeros. */
  method ComputePerceptual(samples: seq<Sample>) returns (r: Report)
    ensures samples == [] ==> r == Report(0, 0, 0.0, 0.0, 0.0, 0)
    ensures samples != [] ==> exists m, p, q :: Reports(samples, r, m, p, q) && Figures(Averages(samples), Worst(samples), r, m, p, q)
  {
    var n := |samples|;
    if n == 0 {
      return Report(0, 0, 0.0, 0.0, 0.0, 0);
    }
    var avgs, p99s := new real[n](_ => 0.0), new real[n](_ => 0.0);
    var hitches := FillBuffers(samples, avgs, p99s);
    Sort(avgs);
    Sort(p99s);
    Rank99Below(n);
    SortedHasRank(Averages(samples), avgs[..], n / 2);
    SortedHasRank(Worst(samples), p99s[..], Rank99(n));
    SortedHasRank(Worst(samples), p99s[..], n - 1);
    var median, p, q := avgs[n / 2], p99s[Rank99(n)], p99s[n - 1];
    var stutters := CountStutters(samples, median);
    r := Report(stutters, hitches, Fps(p), Fps(q), Fps(median), n);
    ReportMeaning(samples, r, median, p, q);
    assert Reports(samples, r, median, p, q);
  }

  method CountStutters(samples: seq<Sample>, median: real) returns (count: nat)
    ensures count == if median > 0.0 then CountAbove(Averages(samples), 2.0 * median) else 0
  {
    count := 0;
    if median > 0.0 {
      for i := 0 to |samples|
        invariant count == CountAbove(Averages(samples)[..i], 2.0 * median)
      {
        assert Averages(samples)[..i + 1][..i] == Averages(samples)[..i];
        if samples[i].avg > 2.0 * median {
          count := count + 1;
        }
      }
      assert Averages(samples)[..|samples|] == Averages(samples);
    }
  }
}
