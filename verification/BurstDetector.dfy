/** The burst rule of the audit anomaly detector: it sorts the times of the failure events and
    slides a window of `threshold` of them. The rule it implements speaks of any events. */
module BurstDetector {
  import opened Tasks

  datatype Event = Event(eventType: string, createdAt: real)

  datatype Finding = Finding(windowSeconds: real, failureCount: nat)

  predicate IsFailure(e: Event) {
    e.eventType in {"step.execution_failed", "step.blocked", "step.dry_run_failed"}
  }

  // ---------- the rule ----------

  /** The events at the positions `chosen` are failures, not all at one time, and fit the window. */
  ghost predicate IsBurst(events: seq<Event>, chosen: set<nat>, window: real) {
    && (forall i :: i in chosen ==>
          i < |events| && (events[i].eventType == "step.execution_failed" || events[i].eventType == "step.blocked"
                           || events[i].eventType == "step.dry_run_failed"))
    && (exists i, j :: i in chosen && j in chosen && events[i].createdAt < events[j].createdAt)
    && (forall i, j :: i in chosen && j in chosen ==> events[j].createdAt - events[i].createdAt <= window)
  }

  ghost predicate HasBurst(events: seq<Event>, threshold: nat, window: real) {
    exists chosen: set<nat> :: |chosen| == threshold && IsBurst(events, chosen, window)
  }

  // ---------- sorting ----------

  predicate Sorted(s: seq<real>) {
    forall i, j :: 0 <= i < j < |s| ==> s[i] <= s[j]
  }

  function Insert(x: real, s: seq<real>): (r: seq<real>)
    ensures |r| == |s| + 1
    ensures forall y :: y in r <==> y == x || y in s
  {
    if s == [] || x <= s[0] then [x] + s else [s[0]] + Insert(x, s[1..])
  }

  /** `list.sort()`, modelled as insertion. */
  function Sort(s: seq<real>): (r: seq<real>)
    ensures |r| == |s|
  {
    if s == [] then [] else Insert(s[0], Sort(s[1..]))
  }

  lemma {:induction false} InsertSorts(x: real, s: seq<real>)
    requires Sorted(s)
    ensures Sorted(Insert(x, s))
  {
    if s != [] && s[0] < x {
      InsertSorts(x, s[1..]);
      var rest := Insert(x, s[1..]);
      forall i | 0 <= i < |rest|
        ensures s[0] <= rest[i]
      {
        assert rest[i] in rest;
      }
    }
  }

  lemma {:induction false} SortSorts(s: seq<real>)
    ensures Sorted(Sort(s))
  {
    if s != [] {
      SortSorts(s[1..]);
      InsertSorts(s[0], Sort(s[1..]));
    }
  }

  // ---------- counting between two bounds ----------

  predicate Between(x: real, lo: real, hi: real) { lo <= x <= hi }

  function CountIn(s: seq<real>, lo: real, hi: real): nat {
    if s == [] then 0 else CountIn(s[1..], lo, hi) + if Between(s[0], lo, hi) then 1 else 0
  }

  function Places(s: seq<real>, lo: real, hi: real): set<nat> {
    set i: nat | i < |s| && Between(s[i], lo, hi)
  }

  lemma {:induction false} InsertCounts(x: real, s: seq<real>, lo: real, hi: real)
    ensures CountIn(Insert(x, s), lo, hi) == CountIn(s, lo, hi) + if Between(x, lo, hi) then 1 else 0
  {
    if s == [] || x <= s[0] {
      assert ([x] + s)[1..] == s;
    } else {
      assert ([s[0]] + Insert(x, s[1..]))[1..] == Insert(x, s[1..]);
      InsertCounts(x, s[1..], lo, hi);
    }
  }

  lemma {:induction false} SortCounts(s: seq<real>, lo: real, hi: real)
    ensures CountIn(Sort(s), lo, hi) == CountIn(s, lo, hi)
  {
    if s != [] {
      SortCounts(s[1..], lo, hi);
      InsertCounts(s[0], Sort(s[1..]), lo, hi);
    }
  }

  lemma {:induction false} CountAppend(s: seq<real>, x: real, lo: real, hi: real)
    ensures CountIn(s + [x], lo, hi) == CountIn(s, lo, hi) + if Between(x, lo, hi) then 1 else 0
  {
    if s != [] {
      assert (s + [x])[1..] == s[1..] + [x];
      CountAppend(s[1..], x, lo, hi);
    }
  }

  lemma {:induction false} PlacesAreCounted(s: seq<real>, lo: real, hi: real)
    ensures |Places(s, lo, hi)| == CountIn(s, lo, hi)
  {
    if s == [] {
      assert Places(s, lo, hi) == {};
    } else {
      var before, n := s[..|s| - 1], |s| - 1;
      PlacesAreCounted(before, lo, hi);
      CountAppend(before, s[n], lo, hi);
      assert s == before + [s[n]];
      if Between(s[n], lo, hi) {
        assert Places(s, lo, hi) == Places(before, lo, hi) + {n};
      } else {
        assert Places(s, lo, hi) == Places(before, lo, hi);
      }
    }
  }

  // ---------- windows of a sorted list ----------

  lemma {:induction false} SubsetIsSmaller(a: set<nat>, b: set<nat>)
    requires a <= b
    ensures |a| <= |b|
  {
    if a != {} {
      var x :| x in a;
      SubsetIsSmaller(a - {x}, b - {x});
    }
  }

  lemma {:induction false} RangeSize(i: nat, j: nat) returns (range: set<nat>)
    requires i <= j
    ensures |range| == j - i && forall x :: x in range <==> i <= x < j
    decreases j - i
  {
    if i == j {
      range := {};
    } else {
      range := RangeSize(i, j - 1);
      range := range + {j - 1};
    }
  }

  lemma {:induction false} LeastOf(s: set<nat>) returns (least: nat)
    requires s != {}
    ensures least in s && forall x :: x in s ==> least <= x
    decreases |s|
  {
    var x :| x in s;
    if s == {x} {
      least := x;
    } else {
      assert s == (s - {x}) + {x};
      var y := LeastOf(s - {x});
      least := if x < y then x else y;
    }
  }

  lemma {:induction false} GreatestOf(s: set<nat>) returns (greatest: nat)
    requires s != {}
    ensures greatest in s && forall x :: x in s ==> x <= greatest
    decreases |s|
  {
    var x :| x in s;
    if s == {x} {
      greatest := x;
    } else {
      assert s == (s - {x}) + {x};
      var y := GreatestOf(s - {x});
      greatest := if x > y then x else y;
    }
  }

  /** What the detector looks for: `k` neighbours of the sorted list. */
  predicate WindowAt(s: seq<real>, k: nat, window: real, i: nat) {
    k >= 1 && i + k <= |s| && 0.0 < s[i + k - 1] - s[i] <= window
  }

  /** Between two bounds that both occur, a sorted list has a stretch from one to the other. */
  lemma CrowdIsStretch(s: seq<real>, lo: real, hi: real) returns (p: nat, q: nat)
    requires Sorted(s) && lo <= hi && lo in s && hi in s
    ensures p <= q < |s| && s[p] == lo && s[q] == hi && CountIn(s, lo, hi) <= q - p + 1
  {
    PlacesAreCounted(s, lo, hi);
    var places := Places(s, lo, hi);
    var a :| 0 <= a < |s| && s[a] == lo;
    var b :| 0 <= b < |s| && s[b] == hi;
    assert a in places && b in places;
    p := LeastOf(places);
    q := GreatestOf(places);
    var range := RangeSize(p, q + 1);
    SubsetIsSmaller(places, range);
  }

  /** A stretch that is not flat has `k` neighbours that are not. */
  lemma {:induction false} StretchHasWindow(s: seq<real>, k: nat, p: nat, q: nat) returns (i: nat)
    requires Sorted(s) && k >= 2 && q < |s| && p + k - 1 <= q && s[p] < s[q]
    ensures p <= i && i + k - 1 <= q && s[i] < s[i + k - 1]
    decreases q - p
  {
    if s[p] < s[p + k - 1] {
      i := p;
    } else if p + 2 * (k - 1) <= q {
      i := StretchHasWindow(s, k, p + k - 1, q);
    } else {
      i := q - k + 1;
      assert s[i] <= s[p + k - 1];
    }
  }

  /** Enough elements between two bounds that both occur make a window. */
  lemma CrowdMakesWindow(s: seq<real>, k: nat, window: real, lo: real, hi: real) returns (i: nat)
    requires Sorted(s) && k >= 2 && lo < hi <= lo + window
    requires lo in s && hi in s && CountIn(s, lo, hi) >= k
    ensures WindowAt(s, k, window, i)
  {
    var p, q := CrowdIsStretch(s, lo, hi);
    i := StretchHasWindow(s, k, p, q);
    assert s[p] <= s[i] && s[i + k - 1] <= s[q];
  }

  lemma WindowMakesCrowd(s: seq<real>, k: nat, window: real, i: nat)
    requires Sorted(s) && WindowAt(s, k, window, i)
    ensures CountIn(s, s[i], s[i + k - 1]) >= k
  {
    PlacesAreCounted(s, s[i], s[i + k - 1]);
    var range := RangeSize(i, i + k);
    assert range <= Places(s, s[i], s[i + k - 1]);
    SubsetIsSmaller(range, Places(s, s[i], s[i + k - 1]));
  }

  // ---------- from the list of times back to the events ----------

  function FailureTimes(events: seq<Event>): seq<real> {
    if events == [] then []
    else FailureTimes(events[..|events| - 1])
         + if IsFailure(events[|events| - 1]) then [events[|events| - 1].createdAt] else []
  }

  function FailuresIn(events: seq<Event>, lo: real, hi: real): set<nat> {
    set i: nat | i < |events| && IsFailure(events[i]) && Between(events[i].createdAt, lo, hi)
  }

  lemma {:induction false} FailuresAreCounted(events: seq<Event>, lo: real, hi: real)
    ensures |FailuresIn(events, lo, hi)| == CountIn(FailureTimes(events), lo, hi)
  {
    if events == [] {
      assert FailuresIn(events, lo, hi) == {};
    } else {
      var before, n := events[..|events| - 1], |events| - 1;
      FailuresAreCounted(before, lo, hi);
      if IsFailure(events[n]) {
        CountAppend(FailureTimes(before), events[n].createdAt, lo, hi);
      } else {
        assert FailureTimes(before) + [] == FailureTimes(before);
      }
      if IsFailure(events[n]) && Between(events[n].createdAt, lo, hi) {
        assert FailuresIn(events, lo, hi) == FailuresIn(before, lo, hi) + {n};
      } else {
        assert FailuresIn(events, lo, hi) == FailuresIn(before, lo, hi);
      }
    }
  }

  lemma SameNumber(events: seq<Event>, x: real)
    ensures |Places(Sort(FailureTimes(events)), x, x)| == |FailuresIn(events, x, x)|
  {
    SortCounts(FailureTimes(events), x, x);
    FailuresAreCounted(events, x, x);
    PlacesAreCounted(Sort(FailureTimes(events)), x, x);
  }

  /** The sorted list holds the times of the failures. */
  lemma SortedListHas(events: seq<Event>, a: nat)
    requires a < |events| && IsFailure(events[a])
    ensures events[a].createdAt in Sort(FailureTimes(events))
  {
    var s, x := Sort(FailureTimes(events)), events[a].createdAt;
    SameNumber(events, x);
    hide Sort, FailureTimes;
    assert a in FailuresIn(events, x, x);
    var k :| k in Places(s, x, x);
    assert s[k] == x;
  }

  /** It holds nothing else. */
  lemma SortedListOnlyHas(events: seq<Event>, k: nat) returns (a: nat)
    requires k < |Sort(FailureTimes(events))|
    ensures a < |events| && IsFailure(events[a]) && events[a].createdAt == Sort(FailureTimes(events))[k]
  {
    var s := Sort(FailureTimes(events));
    var x := s[k];
    SameNumber(events, x);
    hide Sort, FailureTimes;
    assert k in Places(s, x, x);
    a :| a in FailuresIn(events, x, x);
  }

  lemma {:induction false} Extend(base: set<nat>, all: set<nat>, k: nat) returns (chosen: set<nat>)
    requires base <= all && |base| <= k <= |all|
    ensures base <= chosen <= all && |chosen| == k
    decreases k - |base|
  {
    if |base| == k {
      chosen := base;
    } else {
      if all - base == {} {
        forall x | x in all
          ensures x in base
        {
          assert x !in all - base;
        }
        SubsetIsSmaller(all, base);
      }
      var x :| x in all - base;
      chosen := Extend(base + {x}, all, k);
    }
  }

  /** Failures between two times that two of them have, not more than the window apart. */
  lemma ChosenIsBurst(events: seq<Event>, chosen: set<nat>, a: nat, b: nat, window: real)
    requires a < |events| && b < |events| && a in chosen && b in chosen
    requires 0.0 < events[b].createdAt - events[a].createdAt <= window
    requires chosen <= FailuresIn(events, events[a].createdAt, events[b].createdAt)
    ensures IsBurst(events, chosen, window)
  {
  }

  lemma FailuresInWindow(events: seq<Event>, k: nat, window: real, i: nat)
    requires WindowAt(Sort(FailureTimes(events)), k, window, i)
    ensures var s := Sort(FailureTimes(events)); |FailuresIn(events, s[i], s[i + k - 1])| >= k
  {
    var s := Sort(FailureTimes(events));
    SortSorts(FailureTimes(events));
    WindowMakesCrowd(s, k, window, i);
    SortCounts(FailureTimes(events), s[i], s[i + k - 1]);
    FailuresAreCounted(events, s[i], s[i + k - 1]);
    hide Sort, FailureTimes, FailuresIn, CountIn;
  }

  /** A window of the sorted list comes from a burst of events. */
  lemma WindowIsBurst(events: seq<Event>, k: nat, window: real, i: nat)
    requires WindowAt(Sort(FailureTimes(events)), k, window, i)
    ensures HasBurst(events, k, window)
  {
    var s := Sort(FailureTimes(events));
    hide Sort, FailureTimes, IsBurst;
    var a := SortedListOnlyHas(events, i);
    var b := SortedListOnlyHas(events, i + k - 1);
    FailuresInWindow(events, k, window, i);
    assert {a, b} <= FailuresIn(events, s[i], s[i + k - 1]);
    assert k >= 2 && |{a, b}| <= 2;
    var chosen := Extend({a, b}, FailuresIn(events, s[i], s[i + k - 1]), k);
    ChosenIsBurst(events, chosen, a, b, window);
  }

  lemma {:induction false} EarliestOf(events: seq<Event>, chosen: set<nat>) returns (a: nat, b: nat)
    requires chosen != {} && forall i :: i in chosen ==> i < |events|
    ensures a in chosen && b in chosen
    ensures forall i :: i in chosen ==> events[a].createdAt <= events[i].createdAt <= events[b].createdAt
    decreases |chosen|
  {
    var x :| x in chosen;
    if chosen == {x} {
      a, b := x, x;
    } else {
      a, b := EarliestOf(events, chosen - {x});
      a := if events[x].createdAt < events[a].createdAt then x else a;
      b := if events[x].createdAt > events[b].createdAt then x else b;
    }
  }

  /** A burst of events leaves a window in the sorted list. */
  lemma BurstHasWindow(events: seq<Event>, chosen: set<nat>, window: real) returns (i: nat)
    requires IsBurst(events, chosen, window)
    ensures WindowAt(Sort(FailureTimes(events)), |chosen|, window, i)
  {
    var a, b := EarliestOf(events, chosen);
    var lo, hi := events[a].createdAt, events[b].createdAt;
    var s := Sort(FailureTimes(events));
    SubsetIsSmaller({a, b}, chosen);
    SubsetIsSmaller(chosen, FailuresIn(events, lo, hi));
    FailuresAreCounted(events, lo, hi);
    SortCounts(FailureTimes(events), lo, hi);
    SortSorts(FailureTimes(events));
    SortedListHas(events, a);
    SortedListHas(events, b);
    i := CrowdMakesWindow(s, |chosen|, window, lo, hi);
  }

  /** What the check reports: nothing, a finding, or an index error. */
  datatype Report = Quiet | Burst(finding: Finding) | OutOfRange

  datatype Slide = NoWindow | Window(at: nat) | Fault

  /** The number of neighbours that the loop compares: below one, a threshold counts from the end
      of the list, as negative indices do. */
  function Width(s: seq<real>, threshold: int): int {
    if threshold >= 1 then threshold else |s| + threshold
  }

  ghost predicate NoWindowAt(s: seq<real>, k: int, window: real) {
    forall i: nat :: k >= 1 ==> !WindowAt(s, k, window, i)
  }

  /** The sliding loop on the sorted list, for any threshold. */
  method FindWindow(s: seq<real>, threshold: int, window: real) returns (r: Slide)
    requires Sorted(s) && threshold <= |s|
    ensures r.Window? ==> Width(s, threshold) >= 1 && WindowAt(s, Width(s, threshold), window, r.at)
    ensures !r.Window? ==> NoWindowAt(s, Width(s, threshold), window)
    ensures r == Fault ==> threshold <= 0
    ensures r == NoWindow ==> threshold >= 1
  {
    ghost var k := Width(s, threshold);
    for i := 0 to |s| - threshold + 1
      invariant i <= |s| || threshold >= 1
      invariant forall j: nat :: j < i && k >= 1 ==> !WindowAt(s, k, window, j)
    {
      var last := i + threshold - 1;
      var at := if last < 0 then last + |s| else last;
      if at < 0 || at >= |s| || i >= |s| {
        return Fault;
      }
      var span := s[at] - s[i];
      if 0.0 < span <= window {
        return Window(i);
      }
    }
    return NoWindow;
  }

  /** `_burst_check`, for any threshold. From one on it reports exactly the bursts: some
      `threshold` failures, wherever they stand among the events, that span more than nothing and
      at most the window. Below one it looks for so many fewer than all failures, and raises when
      these make no burst either. */
  method BurstCheck(events: seq<Event>, threshold: int, window: real) returns (r: Report)
    ensures threshold >= 1 ==> r != OutOfRange && (r.Burst? <==> HasBurst(events, threshold, window))
    ensures threshold <= 0 ==> r != Quiet
    ensures threshold <= 0 ==> var k := |FailureTimes(events)| + threshold; (r.Burst? <==> k >= 1 && HasBurst(events, k, window))
    ensures r.Burst? ==> 0.0 < r.finding.windowSeconds <= window && r.finding.failureCount == |FailureTimes(events)|
  {
    FewerFailures(events);
    if |events| < threshold {
      NoBurstAmongFew(events, threshold, window);
      return Quiet;
    }
    var failures := CollectFailures(events);
    if |failures| < threshold {
      NoBurstAmongFew(events, threshold, window);
      return Quiet;
    }
    SortSorts(failures);
    var sorted := Sort(failures);
    var slide := FindWindow(sorted, threshold, window);
    var k := Width(sorted, threshold);
    if slide.Window? {
      WindowIsBurst(events, k, window, slide.at);
      return Burst(Finding(sorted[slide.at + k - 1] - sorted[slide.at], |failures|));
    }
    if k >= 1 {
      NoWindowNoBurst(events, k, window);
    }
    return if slide == Fault then OutOfRange else Quiet;
  }

  method CollectFailures(events: seq<Event>) returns (failures: seq<real>)
    ensures failures == FailureTimes(events)
  {
    failures := [];
    for i := 0 to |events|
      invariant failures == FailureTimes(events[..i])
    {
      assert events[..i + 1][..i] == events[..i];
      if IsFailure(events[i]) {
        failures := failures + [events[i].createdAt];
      }
    }
    assert events[..|events|] == events;
  }

  lemma NoWindowNoBurst(events: seq<Event>, k: nat, window: real)
    requires k >= 1 && NoWindowAt(Sort(FailureTimes(events)), k, window)
    ensures !HasBurst(events, k, window)
  {
    if chosen: set<nat> :| |chosen| == k && IsBurst(events, chosen, window) {
      var i := BurstHasWindow(events, chosen, window);
    }
    hide Sort, FailureTimes, IsBurst;
  }

  lemma NoBurstAmongFew(events: seq<Event>, k: nat, window: real)
    requires |FailureTimes(events)| < k
    ensures !HasBurst(events, k, window)
  {
    if chosen: set<nat> :| |chosen| == k && IsBurst(events, chosen, window) {
      var i := BurstHasWindow(events, chosen, window);
    }
  }

  lemma {:induction false} FewerFailures(events: seq<Event>)
    ensures |FailureTimes(events)| <= |events|
  {
    if events != [] {
      FewerFailures(events[..|events| - 1]);
    }
  }
}
