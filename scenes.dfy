/**
 * Scene detection shared by the mic cue generator (`getSceneBoundaries`) and the script store
 * (`extractScenes`): walking the rows in order, a row opens a new scene exactly when its `Szene` is
 * non-empty and differs from the scene currently open; a row with an empty `Szene` belongs to the
 * open scene. A scene runs until the row before the next opening row, the last one to the end.
 */
module Scenes {
  import opened Common
  import opened Script
  import opened OrderedMaps

  /** The scene open before row `i` is read: the last non-empty `Szene` among rows `0..i-1`. */
  function CurrentScene(data: seq<Row>, i: nat): (r: Option<string>)
    requires i <= |data|
    ensures r.None? <==> forall j | 0 <= j < i :: data[j].szene == ""
    ensures r.Some? ==> r.value != ""
  {
    if i == 0 then None
    else if data[i - 1].szene != "" then Some(data[i - 1].szene)
    else CurrentScene(data, i - 1)
  }

  /** Row `i` opens a scene. */
  predicate Opens(data: seq<Row>, i: nat)
    requires i < |data|
  {
    data[i].szene != "" && CurrentScene(data, i) != Some(data[i].szene)
  }

  /** A maximal run of rows `start..end` (inclusive) belonging to scene `id`. */
  datatype Run = Run(id: string, start: nat, end: nat)

  /** The runs of the first `n` rows, the last one closed at row `n - 1`. */
  function RunsUpTo(data: seq<Row>, n: nat): seq<Run>
    requires n <= |data|
  {
    if n == 0 then []
    else
      var rs := RunsUpTo(data, n - 1);
      if Opens(data, n - 1) then rs + [Run(data[n - 1].szene, n - 1, n - 1)]
      else if rs == [] then []
      else rs[..|rs| - 1] + [rs[|rs| - 1].(end := n - 1)]
  }

  /** The runs of the whole script. */
  function Runs(data: seq<Row>): seq<Run> {
    RunsUpTo(data, |data|)
  }

  /** Every run lies inside the first `n` rows and begins at a row carrying its (non-empty) id. */
  predicate RunsInside(data: seq<Row>, n: nat, rs: seq<Run>)
    requires n <= |data|
  {
    forall k | 0 <= k < |rs| ::
      rs[k].start <= rs[k].end < n && rs[k].id != "" && data[rs[k].start].szene == rs[k].id
  }

  /** Each run ends at the row before the next one begins. */
  predicate Contiguous(rs: seq<Run>) {
    forall k | 0 <= k < |rs| - 1 :: rs[k].end + 1 == rs[k + 1].start
  }

  /** The rows after a run's first row carry the run's id or nothing. */
  predicate InnerRows(data: seq<Row>, rs: seq<Run>) {
    forall k, j | 0 <= k < |rs| && rs[k].start < j <= rs[k].end && j < |data| ::
      data[j].szene == "" || data[j].szene == rs[k].id
  }

  /** The last run reaches row `n - 1` and is the scene open after it; no rows before the first run carry a scene. */
  predicate Ends(data: seq<Row>, n: nat, rs: seq<Run>)
    requires n <= |data|
  {
    && (rs == [] ==> forall j | 0 <= j < n :: data[j].szene == "")
    && (rs != [] ==> rs[|rs| - 1].end == n - 1 && CurrentScene(data, n) == Some(rs[|rs| - 1].id))
    && (rs != [] ==> rs[0].start <= n && forall j | 0 <= j < rs[0].start :: data[j].szene == "")
  }

  /** The shape of the runs of the first `n` rows. */
  predicate WellFormed(data: seq<Row>, n: nat, rs: seq<Run>)
    requires n <= |data|
  {
    RunsInside(data, n, rs) && Contiguous(rs) && InnerRows(data, rs) && Ends(data, n, rs)
  }

  /**
   * The runs cover every row from the first non-empty `Szene` to the last row, contiguously; a run's
   * inner rows carry its id or nothing; rows before the first run carry nothing.
   */
  lemma {:induction false} RunsWellFormed(data: seq<Row>, n: nat)
    requires n <= |data|
    ensures WellFormed(data, n, RunsUpTo(data, n))
  {
    if n > 0 {
      RunsWellFormed(data, n - 1);
      var rs := RunsUpTo(data, n - 1);
      if Opens(data, n - 1) {
        assert RunsUpTo(data, n) == rs + [Run(data[n - 1].szene, n - 1, n - 1)];
        StepOpen(data, n, rs);
      } else if rs == [] {
        assert RunsUpTo(data, n) == [];
        StepNone(data, n);
      } else {
        assert RunsUpTo(data, n) == rs[..|rs| - 1] + [rs[|rs| - 1].(end := n - 1)];
        StepExtend(data, n, rs);
      }
    }
  }

  lemma {:induction false} StepNone(data: seq<Row>, n: nat)
    requires 0 < n <= |data| && WellFormed(data, n - 1, []) && !Opens(data, n - 1)
    ensures WellFormed(data, n, [])
  {
    assert data[n - 1].szene == "";
  }

  lemma {:induction false} StepOpen(data: seq<Row>, n: nat, rs: seq<Run>)
    requires 0 < n <= |data| && WellFormed(data, n - 1, rs) && Opens(data, n - 1)
    ensures WellFormed(data, n, rs + [Run(data[n - 1].szene, n - 1, n - 1)])
  {
    var r := Run(data[n - 1].szene, n - 1, n - 1);
    var rs' := rs + [r];
    OpenInside(data, n, rs);
    OpenContiguous(rs, r);
    OpenInner(data, rs, r);
    assert CurrentScene(data, n) == Some(r.id);
    assert rs'[0].start == if rs == [] then n - 1 else rs[0].start;
  }

  /** A one-row run at row `n - 1` lies inside the first `n` rows. */
  lemma {:induction false} OpenInside(data: seq<Row>, n: nat, rs: seq<Run>)
    requires 0 < n <= |data| && RunsInside(data, n - 1, rs) && data[n - 1].szene != ""
    ensures RunsInside(data, n, rs + [Run(data[n - 1].szene, n - 1, n - 1)])
  {
    var rs' := rs + [Run(data[n - 1].szene, n - 1, n - 1)];
    assert forall k | 0 <= k < |rs| :: rs'[k] == rs[k];
  }

  /** A run starting right after the last one keeps the runs contiguous. */
  lemma {:induction false} OpenContiguous(rs: seq<Run>, r: Run)
    requires Contiguous(rs) && (rs != [] ==> rs[|rs| - 1].end + 1 == r.start)
    ensures Contiguous(rs + [r])
  {
    var rs' := rs + [r];
    assert forall k | 0 <= k < |rs| :: rs'[k] == rs[k];
  }

  /** A one-row run has no inner rows. */
  lemma {:induction false} OpenInner(data: seq<Row>, rs: seq<Run>, r: Run)
    requires InnerRows(data, rs) && r.start == r.end
    ensures InnerRows(data, rs + [r])
  {
    var rs' := rs + [r];
    assert forall k | 0 <= k < |rs| :: rs'[k] == rs[k];
  }

  lemma {:induction false} StepExtend(data: seq<Row>, n: nat, rs: seq<Run>)
    requires 0 < n <= |data| && WellFormed(data, n - 1, rs) && !Opens(data, n - 1) && rs != []
    ensures WellFormed(data, n, rs[..|rs| - 1] + [rs[|rs| - 1].(end := n - 1)])
  {
    var last := rs[|rs| - 1];
    var rs' := rs[..|rs| - 1] + [last.(end := n - 1)];
    assert data[n - 1].szene == "" || data[n - 1].szene == last.id;
    ExtendInside(data, n, rs);
    ExtendContiguous(rs, n - 1);
    ExtendInner(data, n - 1, rs);
    assert CurrentScene(data, n) == Some(last.id);
    assert rs'[0].start == rs[0].start;
  }

  /** Moving the last run's end to row `n - 1` keeps every run inside the first `n` rows. */
  lemma {:induction false} ExtendInside(data: seq<Row>, n: nat, rs: seq<Run>)
    requires 0 < n <= |data| && RunsInside(data, n - 1, rs) && rs != []
    requires rs[|rs| - 1].end <= n - 1
    ensures RunsInside(data, n, rs[..|rs| - 1] + [rs[|rs| - 1].(end := n - 1)])
  {
    var rs' := rs[..|rs| - 1] + [rs[|rs| - 1].(end := n - 1)];
    assert forall k | 0 <= k < |rs| - 1 :: rs'[k] == rs[k];
  }

  /** Moving the last run's end keeps the runs contiguous. */
  lemma {:induction false} ExtendContiguous(rs: seq<Run>, e: nat)
    requires Contiguous(rs) && rs != []
    ensures Contiguous(rs[..|rs| - 1] + [rs[|rs| - 1].(end := e)])
  {
    var rs' := rs[..|rs| - 1] + [rs[|rs| - 1].(end := e)];
    assert forall k | 0 <= k < |rs| - 1 :: rs'[k] == rs[k];
    assert rs'[|rs| - 1].start == rs[|rs| - 1].start;
  }

  /** Row `i`, carrying the last run's id or nothing, can join the last run. */
  lemma {:induction false} ExtendInner(data: seq<Row>, i: nat, rs: seq<Run>)
    requires i < |data| && InnerRows(data, rs) && rs != [] && rs[|rs| - 1].end + 1 == i
    requires data[i].szene == "" || data[i].szene == rs[|rs| - 1].id
    ensures InnerRows(data, rs[..|rs| - 1] + [rs[|rs| - 1].(end := i)])
  {
    var rs' := rs[..|rs| - 1] + [rs[|rs| - 1].(end := i)];
    forall k, j | 0 <= k < |rs'| && rs'[k].start < j <= rs'[k].end && j < |data|
      ensures data[j].szene == "" || data[j].szene == rs'[k].id
    {
      if k < |rs| - 1 {
        assert rs'[k] == rs[k];
      } else if j < i {
        assert rs[k].start < j <= rs[k].end;
      }
    }
  }

  /** Every run begins at a row before `n` that opens a scene. */
  predicate StartsOpen(data: seq<Row>, n: nat, rs: seq<Run>)
    requires n <= |data|
  {
    forall k | 0 <= k < |rs| :: rs[k].start < n && Opens(data, rs[k].start)
  }

  /** Every run begins at a row that opens a scene. */
  lemma {:induction false} RunsOpen(data: seq<Row>, n: nat)
    requires n <= |data|
    ensures StartsOpen(data, n, RunsUpTo(data, n))
  {
    if n > 0 {
      RunsOpen(data, n - 1);
      var rs := RunsUpTo(data, n - 1);
      if Opens(data, n - 1) {
        assert RunsUpTo(data, n) == rs + [Run(data[n - 1].szene, n - 1, n - 1)];
        OpenStarts(data, n, rs);
      } else if rs != [] {
        assert RunsUpTo(data, n) == rs[..|rs| - 1] + [rs[|rs| - 1].(end := n - 1)];
        ExtendStarts(data, n, rs);
      } else {
        assert RunsUpTo(data, n) == [];
      }
    }
  }

  lemma {:induction false} OpenStarts(data: seq<Row>, n: nat, rs: seq<Run>)
    requires 0 < n <= |data| && StartsOpen(data, n - 1, rs) && Opens(data, n - 1)
    ensures StartsOpen(data, n, rs + [Run(data[n - 1].szene, n - 1, n - 1)])
  {
    var rs' := rs + [Run(data[n - 1].szene, n - 1, n - 1)];
    assert forall k | 0 <= k < |rs| :: rs'[k] == rs[k];
  }

  lemma {:induction false} ExtendStarts(data: seq<Row>, n: nat, rs: seq<Run>)
    requires 0 < n <= |data| && StartsOpen(data, n - 1, rs) && rs != []
    ensures StartsOpen(data, n, rs[..|rs| - 1] + [rs[|rs| - 1].(end := n - 1)])
  {
    var rs' := rs[..|rs| - 1] + [rs[|rs| - 1].(end := n - 1)];
    assert forall k | 0 <= k < |rs| - 1 :: rs'[k] == rs[k];
    assert rs'[|rs| - 1].start == rs[|rs| - 1].start;
  }

  /** Consecutive runs belong to different scenes. */
  lemma {:induction false} NeighbouringRunsDiffer(data: seq<Row>, k: nat)
    requires k + 1 < |Runs(data)|
    ensures Runs(data)[k].id != Runs(data)[k + 1].id
  {
    var rs := Runs(data);
    RunsWellFormed(data, |data|);
    RunsOpen(data, |data|);
    var r := rs[k];
    CurrentSceneSpan(data, r.start, r.end + 1, r.id);
  }

  /** After a row carrying `id`, followed only by rows carrying `id` or nothing, the open scene is `id`. */
  lemma {:induction false} CurrentSceneSpan(data: seq<Row>, a: nat, b: nat, id: string)
    requires a < b <= |data| && data[a].szene == id != ""
    requires forall j | a < j < b :: data[j].szene == "" || data[j].szene == id
    ensures CurrentScene(data, b) == Some(id)
  {
    if b - 1 > a && data[b - 1].szene == "" {
      CurrentSceneSpan(data, a, b - 1, id);
    }
  }

  // ---------------------------------------------------------------- scene boundaries

  /** The `{start, end}` object stored per scene (inclusive row indices). */
  datatype Bounds = Bounds(start: nat, end: nat)

  /** One `boundaries.set(scene, {start, end})` per run, in order. */
  function RunsMap(rs: seq<Run>): (m: OMap<string, Bounds>)
    ensures Valid(m)
  {
    if rs == [] then Empty()
    else
      var r := rs[|rs| - 1];
      Put(RunsMap(rs[..|rs| - 1]), r.id, Bounds(r.start, r.end))
  }

  /** The map `getSceneBoundaries` builds. */
  function Boundaries(data: seq<Row>): (bs: OMap<string, Bounds>)
    ensures Valid(bs)
  {
    RunsMap(Runs(data))
  }

  /** Index of the last run of scene `id`, if any. */
  function LastRunOf(rs: seq<Run>, id: string): (k: Option<nat>)
    ensures k.None? ==> forall j | 0 <= j < |rs| :: rs[j].id != id
    ensures k.Some? ==> k.value < |rs| && rs[k.value].id == id && forall j | k.value < j < |rs| :: rs[j].id != id
  {
    if rs == [] then None
    else if rs[|rs| - 1].id == id then Some(|rs| - 1)
    else
      var k := LastRunOf(rs[..|rs| - 1], id);
      assert forall j | 0 <= j < |rs| - 1 :: rs[..|rs| - 1][j] == rs[j];
      k
  }

  /** A scene's entry holds its last run; a scene without a run has none. */
  lemma {:induction false} RunsMapGet(rs: seq<Run>, id: string)
    ensures Get(RunsMap(rs), id) == match LastRunOf(rs, id)
      case None => None
      case Some(k) => Some(Bounds(rs[k].start, rs[k].end))
  {
    if rs != [] && rs[|rs| - 1].id != id {
      var init := rs[..|rs| - 1];
      RunsMapGet(init, id);
      PutOther(RunsMap(init), rs[|rs| - 1].id, Bounds(rs[|rs| - 1].start, rs[|rs| - 1].end), id);
      match LastRunOf(init, id)
      case None =>
      case Some(k) => assert init[k] == rs[k];
    }
  }

  /** A scene's boundaries are those of its last run; a scene without a run has none. */
  lemma {:induction false} BoundariesOfLastRun(data: seq<Row>, id: string)
    ensures Get(Boundaries(data), id) == match LastRunOf(Runs(data), id)
      case None => None
      case Some(k) => Some(Bounds(Runs(data)[k].start, Runs(data)[k].end))
  {
    RunsMapGet(Runs(data), id);
  }

  /** The scene ids of the runs, in order. */
  function RunIds(rs: seq<Run>): (ids: seq<string>)
    ensures |ids| == |rs| && forall k | 0 <= k < |rs| :: ids[k] == rs[k].id
  {
    seq(|rs|, k requires 0 <= k < |rs| => rs[k].id)
  }

  /** Each scene is listed once, where its first run stands. */
  lemma {:induction false} RunsMapKeys(rs: seq<Run>)
    ensures RunsMap(rs).keys == Dedup(RunIds(rs))
  {
    if rs != [] {
      var init := rs[..|rs| - 1];
      RunsMapKeys(init);
      assert RunIds(rs)[..|rs| - 1] == RunIds(init);
    }
  }

  /** The scenes are listed once each, in order of their first run. */
  lemma {:induction false} BoundariesOrder(data: seq<Row>)
    ensures Boundaries(data).keys == Dedup(RunIds(Runs(data)))
  {
    RunsMapKeys(Runs(data));
  }

  /** Every stored range is that of a run. */
  lemma {:induction false} RunsMapValues(rs: seq<Run>, n: nat)
    requires forall k | 0 <= k < |rs| :: rs[k].start <= rs[k].end < n
    ensures forall id | id in RunsMap(rs).values :: RunsMap(rs).values[id].start <= RunsMap(rs).values[id].end < n
  {
    if rs != [] {
      var init := rs[..|rs| - 1];
      assert forall k | 0 <= k < |init| :: init[k] == rs[k];
      RunsMapValues(init, n);
    }
  }

  /** Every stored range is a non-empty range of rows: `start <= end < |data|`. */
  lemma {:induction false} BoundariesInside(data: seq<Row>)
    ensures forall id | id in Boundaries(data).values ::
      Boundaries(data).values[id].start <= Boundaries(data).values[id].end < |data|
  {
    RunsWellFormed(data, |data|);
    RunsMapValues(Runs(data), |data|);
  }

  /** The last run ends at row `n - 1` and is the open scene; without runs no scene is open. */
  lemma {:induction false} RunsLast(data: seq<Row>, n: nat)
    requires n <= |data|
    ensures var rs := RunsUpTo(data, n);
      && (rs == [] ==> CurrentScene(data, n).None?)
      && (rs != [] ==> rs[|rs| - 1].end + 1 == n && CurrentScene(data, n) == Some(rs[|rs| - 1].id))
  {
    RunsWellFormed(data, n);
  }

  /** A row that opens a scene appends a run of its own. */
  lemma {:induction false} RunsOpenStep(data: seq<Row>, n: nat)
    requires n < |data| && Opens(data, n)
    ensures var rs := RunsUpTo(data, n);
      && RunsUpTo(data, n + 1) == rs + [Run(data[n].szene, n, n)]
      && (rs + [Run(data[n].szene, n, n)])[..|rs|] == rs
  {
  }

  /** A row that opens nothing only moves the end of the last run (if any). */
  lemma {:induction false} RunsExtendLast(data: seq<Row>, n: nat)
    requires n < |data| && !Opens(data, n)
    ensures var rs, rs' := RunsUpTo(data, n), RunsUpTo(data, n + 1);
      && |rs'| == |rs|
      && (rs != [] ==> rs'[..|rs| - 1] == rs[..|rs| - 1] && rs'[|rs| - 1] == rs[|rs| - 1].(end := n))
  {
    var rs := RunsUpTo(data, n);
    if rs != [] {
      var rs' := rs[..|rs| - 1] + [rs[|rs| - 1].(end := n)];
      assert rs'[..|rs| - 1] == rs[..|rs| - 1];
    }
  }
}
