/**
Why a node is looked at in a parallel build. Every scan of a children list is recorded with the
state that it found; a node is looked at, and started, only because of a scan that got as far as
the node, so a node behind a `.WAIT` that held up every scan is left alone.
*/
module ScanTrace {
  import opened Wrappers
  import opened BuildGraph
  import opened BuildRules
  import opened ScheduleState
  import opened ScheduleSteps

  // A scan of the children of a node: the states of all nodes at that moment, and how many events
  // there had been.
  datatype Scan = Scan(parent: nat, made: seq<Made>, time: nat)

  // The scan was made in the run with this history.
  ghost predicate ScanOk(g: Graph, history: seq<Event>, r: Scan) {
    && r.parent < |g| && |r.made| == |g| && r.time <= |history|
    && HistoryOk(g, r.made, history[..r.time]) && !r.made[r.parent].UNMADE?
  }

  // Scan k, made by time t, got to c at place j.
  ghost predicate ScannedIn(g: Graph, scans: seq<Scan>, c: nat, t: nat, k: nat, j: nat) {
    && k < |scans| && scans[k].time <= t && scans[k].parent < |g| && |scans[k].made| == |g|
    && var list := g[scans[k].parent].children;
    j < ScanEnd(g, scans[k].made, list, 0) && list[j] == c
  }

  ghost predicate Listed(g: Graph, main: nat, scans: seq<Scan>, c: nat, t: nat) {
    c == main || exists k: nat, j: nat :: ScannedIn(g, scans, c, t, k, j)
  }

  // Some scan got to the node, or to the one whose instance it is.
  ghost predicate LookedFor(g: Graph, main: nat, scans: seq<Scan>, n: nat, t: nat)
    requires n < |g|
  {
    Listed(g, main, scans, n, t) || Listed(g, main, scans, Centurion(g, n), t)
  }

  ghost predicate TouchOk(g: Graph, main: nat, made: seq<Made>, scans: seq<Scan>, t: nat, n: nat)
    requires n < |g| == |made|
  {
    !made[n].UNMADE? ==> LookedFor(g, main, scans, n, t)
  }

  ghost predicate StartOk(g: Graph, main: nat, history: seq<Event>, scans: seq<Scan>, i: nat)
    requires i < |history|
  {
    history[i].Start? ==> history[i].node < |g| && LookedFor(g, main, scans, history[i].node, i)
  }

  ghost predicate TraceOk(g: Graph, main: nat, made: seq<Made>, history: seq<Event>, scans: seq<Scan>) {
    && |made| == |g|
    && (forall k :: 0 <= k < |scans| ==> ScanOk(g, history, scans[k]))
    && (forall n :: 0 <= n < |g| ==> TouchOk(g, main, made, scans, |history|, n))
    && (forall i :: 0 <= i < |history| ==> StartOk(g, main, history, scans, i))
  }

  // ---------------------------------------------------------------- steps

  lemma ListedLater(g: Graph, main: nat, scans: seq<Scan>, scans': seq<Scan>, c: nat, t: nat, t': nat)
    requires Listed(g, main, scans, c, t) && scans <= scans' && t <= t'
    ensures Listed(g, main, scans', c, t')
  {
    if c != main {
      var k: nat, j: nat :| ScannedIn(g, scans, c, t, k, j);
      assert ScannedIn(g, scans', c, t', k, j);
    }
  }

  lemma LookedForLater(g: Graph, main: nat, scans: seq<Scan>, scans': seq<Scan>, n: nat, t: nat, t': nat)
    requires n < |g| && LookedFor(g, main, scans, n, t) && scans <= scans' && t <= t'
    ensures LookedFor(g, main, scans', n, t')
  {
    if Listed(g, main, scans, n, t) {
      ListedLater(g, main, scans, scans', n, t, t');
    } else {
      ListedLater(g, main, scans, scans', Centurion(g, n), t, t');
    }
  }

  // Only nodes become looked at whose first instance already is.
  ghost predicate InstanceAt(g: Graph, m: seq<Made>, m': seq<Made>, n: nat)
    requires n < |g| == |m| == |m'|
  {
    m[n].UNMADE? && !m'[n].UNMADE? ==>
      g[n].centurion.Some? && g[n].centurion.value < |g| && !m[g[n].centurion.value].UNMADE?
  }

  ghost predicate InstancesOnly(g: Graph, m: seq<Made>, m': seq<Made>) {
    |m| == |m'| == |g| && forall n :: 0 <= n < |g| ==> InstanceAt(g, m, m', n)
  }

  lemma NothingNew(g: Graph, m: seq<Made>, m': seq<Made>)
    requires |m| == |m'| == |g| && Touched(m') <= Touched(m)
    ensures InstancesOnly(g, m, m')
  {
    forall n | 0 <= n < |g| ensures InstanceAt(g, m, m', n) {
      assert n in Touched(m') ==> n in Touched(m);
    }
  }

  lemma NothingNewAfter(g: Graph, m: seq<Made>, m1: seq<Made>, m2: seq<Made>)
    requires InstancesOnly(g, m, m1) && |m2| == |g| && Touched(m2) <= Touched(m1)
    ensures InstancesOnly(g, m, m2)
  {
    forall n | 0 <= n < |g| ensures InstanceAt(g, m, m2, n) {
      assert InstanceAt(g, m, m1, n);
      assert n in Touched(m2) ==> n in Touched(m1);
    }
  }

  // Scheduling a node that was looked at before.
  lemma InstancesOfOne(g: Graph, m: seq<Made>, m1: seq<Made>, m2: seq<Made>, cn: nat)
    requires WellFormed(g) && InstancesOnly(g, m, m1) && OnlyAround(g, m1, m2, cn) && !m1[cn].UNMADE?
    ensures InstancesOnly(g, m, m2)
  {
    forall n | 0 <= n < |g| ensures InstanceAt(g, m, m2, n) {
      assert InstanceAt(g, m, m1, n) && InstanceAt(g, m, m1, cn) && Around(g, m1, m2, cn, n);
      if m[n].UNMADE? && m1[n].UNMADE? && !m2[n].UNMADE? {
        assert NodeWf(g, cn) && CohortShape(g[n], cn);
        NoCohortOfCohort(g, cn);
      }
    }
  }

  lemma FirstInstance(g: Graph, n: nat, c: nat)
    requires WellFormed(g) && n < |g| && g[n].centurion == Some(c)
    ensures c < |g| && Centurion(g, n) == c && Centurion(g, c) == c
  {
    assert NodeWf(g, n);
    NoCohortOfCohort(g, c);
  }

  lemma TraceInstances(g: Graph, main: nat, m: seq<Made>, m': seq<Made>, history: seq<Event>, scans: seq<Scan>)
    requires WellFormed(g) && TraceOk(g, main, m, history, scans) && InstancesOnly(g, m, m')
    ensures TraceOk(g, main, m', history, scans)
  {
    forall n | 0 <= n < |g| ensures TouchOk(g, main, m', scans, |history|, n) {
      assert TouchOk(g, main, m, scans, |history|, n) && InstanceAt(g, m, m', n);
      if m[n].UNMADE? && !m'[n].UNMADE? {
        var c := g[n].centurion.value;
        FirstInstance(g, n, c);
        assert TouchOk(g, main, m, scans, |history|, c);
      }
    }
  }

  // A node that was looked at before changes its state.
  lemma TraceMark(g: Graph, main: nat, m: seq<Made>, n: nat, k: Made, history: seq<Event>, scans: seq<Scan>)
    requires WellFormed(g) && TraceOk(g, main, m, history, scans) && n < |g| && !m[n].UNMADE?
    ensures TraceOk(g, main, m[n := k], history, scans)
  {
    NothingNew(g, m, m[n := k]);
    TraceInstances(g, main, m, m[n := k], history, scans);
  }

  // An event is added; a node is started only if it was looked at.
  lemma TraceEvent(g: Graph, main: nat, m: seq<Made>, history: seq<Event>, e: Event, scans: seq<Scan>)
    requires TraceOk(g, main, m, history, scans) && (e.Start? ==> e.node < |g| && !m[e.node].UNMADE?)
    ensures TraceOk(g, main, m, history + [e], scans)
  {
    var later := history + [e];
    forall k | 0 <= k < |scans| ensures ScanOk(g, later, scans[k]) {
      assert ScanOk(g, history, scans[k]);
      assert later[..scans[k].time] == history[..scans[k].time];
    }
    forall n | 0 <= n < |g| ensures TouchOk(g, main, m, scans, |later|, n) {
      assert TouchOk(g, main, m, scans, |history|, n);
      if !m[n].UNMADE? {
        LookedForLater(g, main, scans, scans, n, |history|, |later|);
      }
    }
    forall i | 0 <= i < |later| ensures StartOk(g, main, later, scans, i) {
      if i < |history| {
        assert StartOk(g, main, history, scans, i);
      } else if e.Start? {
        assert TouchOk(g, main, m, scans, |history|, e.node);
      }
    }
  }

  // A scan is added that got to the place where it was held up.
  lemma TraceScan(g: Graph, main: nat, m: seq<Made>, m': seq<Made>, history: seq<Event>, scans: seq<Scan>, gn: nat)
    requires WellFormed(g) && TraceOk(g, main, m, history, scans) && gn < |g| && !m[gn].UNMADE? && HistoryOk(g, m, history)
    requires LooksNoFurther(g, m, m', g[gn].children, ScanEnd(g, m, g[gn].children, 0))
    ensures TraceOk(g, main, m', history, scans + [Scan(gn, m, |history|)])
  {
    var r, scans' := Scan(gn, m, |history|), scans + [Scan(gn, m, |history|)];
    assert history[..|history|] == history;
    forall n | 0 <= n < |g| ensures TouchOk(g, main, m', scans', |history|, n) {
      assert TouchOk(g, main, m, scans, |history|, n);
      assert LeftAlone(g, m, m', g[gn].children, ScanEnd(g, m, g[gn].children, 0), n);
      if !m[n].UNMADE? {
        LookedForLater(g, main, scans, scans', n, |history|, |history|);
      } else if !m'[n].UNMADE? {
        JustScanned(g, main, m, scans, gn, |history|, n);
      }
    }
    forall i | 0 <= i < |history| ensures StartOk(g, main, history, scans', i) {
      assert StartOk(g, main, history, scans, i);
      if history[i].Start? {
        LookedForLater(g, main, scans, scans', history[i].node, i, i);
      }
    }
  }

  lemma JustScanned(g: Graph, main: nat, m: seq<Made>, scans: seq<Scan>, gn: nat, t: nat, n: nat)
    requires WellFormed(g) && |m| == |g| && gn < |g| && n < |g|
    requires AmongFirst(g, g[gn].children, ScanEnd(g, m, g[gn].children, 0), n)
    ensures LookedFor(g, main, scans + [Scan(gn, m, t)], n, t)
  {
    var scans' := scans + [Scan(gn, m, t)];
    var list := g[gn].children;
    var j: nat :| PlacedAt(g, list, ScanEnd(g, m, list, 0), n, j);
    assert ScannedIn(g, scans', list[j], t, |scans|, j);
    if n != list[j] {
      assert NodeWf(g, list[j]) && CohortShape(g[n], list[j]);
    }
  }

  // The root is scheduled first.
  lemma TraceStart(g: Graph, main: nat, m: seq<Made>, m': seq<Made>)
    requires WellFormed(g) && main < |g| && OnlyAround(g, m, m', main) && forall n :: 0 <= n < |g| ==> m[n].UNMADE?
    ensures TraceOk(g, main, m', [], [])
  {
    forall n | 0 <= n < |g| ensures TouchOk(g, main, m', [], 0, n) {
      assert Around(g, m, m', main, n);
      if n in g[main].cohorts {
        assert NodeWf(g, main) && CohortShape(g[n], main);
      }
    }
  }

  // ---------------------------------------------------------------- what a `.WAIT` is for

  lemma {:induction false} HeldUpAt(g: Graph, made: seq<Made>, list: seq<nat>, i: nat, j: nat)
    requires |made| == |g| && i <= j < |list| && HoldsUp(g, made, list[j])
    ensures ScanEnd(g, made, list, i) <= j + 1
    decreases j - i
  {
    if i < j {
      HeldUpAt(g, made, list, i + 1, j);
    }
  }

  // Wherever the list has n, a `.WAIT` before it held up the scan.
  ghost predicate Behind(g: Graph, made: seq<Made>, list: seq<nat>, n: nat)
    requires |made| == |g|
  {
    forall i :: 0 <= i < |list| && list[i] == n ==> exists j :: 0 <= j < i && HoldsUp(g, made, list[j])
  }

  // In every state of a build, a node that every scan found behind a `.WAIT` that held it up has
  // not been looked at, and neither have its instances; it was not started either.
  lemma NotLookedAt(g: Graph, main: nat, made: seq<Made>, history: seq<Event>, scans: seq<Scan>, n: nat)
    requires WellFormed(g) && TraceOk(g, main, made, history, scans) && n < |g| && n != main && g[n].centurion == None
    requires forall k :: 0 <= k < |scans| ==> |scans[k].made| == |g| && scans[k].parent < |g|
    requires forall k :: 0 <= k < |scans| ==> Behind(g, scans[k].made, g[scans[k].parent].children, n)
    ensures made[n].UNMADE? && Start(n) !in history
    ensures main !in g[n].cohorts ==> forall q :: q in g[n].cohorts ==> q < |g| && made[q].UNMADE?
  {
    forall t: nat ensures !Listed(g, main, scans, n, t) {
      NotListed(g, main, scans, n, t);
    }
    assert TouchOk(g, main, made, scans, |history|, n);
    forall i | 0 <= i < |history| ensures history[i] != Start(n) {
      assert StartOk(g, main, history, scans, i);
    }
    assert NodeWf(g, n);
    if main !in g[n].cohorts {
      forall q | q in g[n].cohorts ensures made[q].UNMADE? {
        assert CohortShape(g[q], n) && TouchOk(g, main, made, scans, |history|, q);
        InstanceNotListed(g, main, scans, q, n, |history|);
      }
    }
  }

  lemma NotListed(g: Graph, main: nat, scans: seq<Scan>, n: nat, t: nat)
    requires n < |g| && n != main
    requires forall k :: 0 <= k < |scans| ==> |scans[k].made| == |g| && scans[k].parent < |g|
    requires forall k :: 0 <= k < |scans| ==> Behind(g, scans[k].made, g[scans[k].parent].children, n)
    ensures !Listed(g, main, scans, n, t)
  {
    forall k: nat, j: nat ensures !ScannedIn(g, scans, n, t, k, j) {
      if ScannedIn(g, scans, n, t, k, j) {
        var list := g[scans[k].parent].children;
        assert Behind(g, scans[k].made, list, n) && list[j] == n;
        var w :| 0 <= w < j && HoldsUp(g, scans[k].made, list[w]);
        HeldUpAt(g, scans[k].made, list, 0, w);
      }
    }
  }

  // An instance is in no list.
  lemma InstanceNotListed(g: Graph, main: nat, scans: seq<Scan>, q: nat, n: nat, t: nat)
    requires WellFormed(g) && q < |g| && CohortShape(g[q], n) && q != main
    ensures !Listed(g, main, scans, q, t)
  {
    forall k: nat, j: nat ensures !ScannedIn(g, scans, q, t, k, j) {
      if ScannedIn(g, scans, q, t, k, j) {
        ChildIsFirstInstance(g, scans[k].parent, q);
      }
    }
  }

  // A node other than the root that is started was found by an earlier scan, and for every `.WAIT`
  // before it in that list, all that it depends on had finished, or it was under way itself, or
  // `.ORDER` held it back.
  lemma StartedAfterScan(g: Graph, main: nat, made: seq<Made>, history: seq<Event>, scans: seq<Scan>, i: nat, n: nat)
    requires WellFormed(g) && TraceOk(g, main, made, history, scans) && i < |history| && history[i] == Start(n)
    requires n < |g| && n != main && g[n].centurion == None
    ensures exists k: nat, j: nat :: ScannedIn(g, scans, n, i, k, j) && ScanOk(g, history, scans[k]) && PassedTo(g, scans[k], history, j)
  {
    assert StartOk(g, main, history, scans, i) && Centurion(g, n) == n;
    var k: nat, j: nat :| ScannedIn(g, scans, n, i, k, j);
    assert ScanOk(g, history, scans[k]);
    forall w | 0 <= w < j ensures PassedAt(g, scans[k], history, w) {
      HoldsUpLaw(g, scans[k], history, j, w);
    }
  }

  ghost predicate PassedAt(g: Graph, r: Scan, history: seq<Event>, w: nat)
    requires ScanOk(g, history, r) && w < |g[r.parent].children|
  {
    var x := g[r.parent].children[w];
    IsWait(g, x) ==>
      || IsReady(r.made[x])
      || !OrderReady(g, DoneSet(r.made), x)
      || forall c :: c in g[x].children ==> FinishedBy(g, history[..r.time], c)
  }

  ghost predicate FinishedBy(g: Graph, before: seq<Event>, c: nat) {
    c < |g| && Finish(c) in before && forall q :: q in g[c].cohorts ==> Finish(q) in before
  }

  ghost predicate PassedTo(g: Graph, r: Scan, history: seq<Event>, j: nat)
    requires ScanOk(g, history, r) && j <= |g[r.parent].children|
  {
    forall w :: 0 <= w < j ==> PassedAt(g, r, history, w)
  }

  lemma HoldsUpLaw(g: Graph, r: Scan, history: seq<Event>, j: nat, w: nat)
    requires WellFormed(g) && ScanOk(g, history, r)
    requires w < j < ScanEnd(g, r.made, g[r.parent].children, 0)
    ensures PassedAt(g, r, history, w)
  {
    var list := g[r.parent].children;
    var x := list[w];
    assert !HoldsUp(g, r.made, x) by {
      if HoldsUp(g, r.made, x) {
        HeldUpAt(g, r.made, list, 0, w);
      }
    }
    if IsWait(g, x) && !IsReady(r.made[x]) && OrderReady(g, DoneSet(r.made), x) {
      forall c | c in g[x].children ensures FinishedBy(g, history[..r.time], c) {
        assert AllDone(g, DoneSet(r.made), c) && Recorded(r.made, history[..r.time], c);
        forall q | q in g[c].cohorts ensures Finish(q) in history[..r.time] {
          assert q in DoneSet(r.made) && Recorded(r.made, history[..r.time], q);
        }
      }
    }
  }
}
