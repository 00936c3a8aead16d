/**
 * The viewer pages' common state (js/viewer-shared.js, class `BaseViewer`): the loaded script, the
 * scene index built from it, the director's marker, and the queries the pages ask of them — the
 * progress through the current scene, the marker's scene, the next scene, a scene's cast with
 * microphones and a scene's summary line.
 */
module ViewerShared {
  import opened Common
  import opened Script
  import opened OrderedMaps
  import opened Api

  // ---------------------------------------------------------------- the marker walk

  /** The scene index in iteration order: each scene with its line indices. */
  type SceneEntries = seq<(string, seq<nat>)>

  /** Number of indexed lines in the first `k` scenes. */
  function LinesBefore(es: SceneEntries, k: nat): nat
    requires k <= |es|
  {
    if k == 0 then 0 else |es[0].1| + LinesBefore(es[1..], k - 1)
  }

  /**
   * The walk of both marker queries: subtract scene sizes from `remaining` until a scene holds more
   * lines than are left. The result is the scene's position and the offset left inside it.
   */
  function Walk(es: SceneEntries, remaining: int): (r: Option<(nat, int)>)
    ensures r.Some? ==> r.value.0 < |es| && r.value.1 < |es[r.value.0].1|
  {
    if es == [] then None
    else if |es[0].1| > remaining then Some((0, remaining))
    else Later(Walk(es[1..], remaining - |es[0].1|), 1)
  }

  /** A walk result `d` scenes further on. */
  function Later(o: Option<(nat, int)>, d: nat): Option<(nat, int)> {
    match o
    case None => None
    case Some((k, r)) => Some((k + d, r))
  }

  /**
   * The walk stops at the first scene that ends beyond the marker, with the marker's offset from the
   * scene's first line; it runs off the end exactly when the marker is at or past the last line
   * (or there are no scenes at all).
   */
  lemma {:induction false} WalkSpec(es: SceneEntries, m: int)
    ensures Walk(es, m).None? <==> es == [] || m >= LinesBefore(es, |es|)
    ensures Walk(es, m).Some? ==>
      var (k, r) := Walk(es, m).value;
      r == m - LinesBefore(es, k) && m < LinesBefore(es, k + 1) && (k > 0 ==> LinesBefore(es, k) <= m)
  {
    if es != [] {
      assert LinesBefore(es, |es|) == |es[0].1| + LinesBefore(es[1..], |es| - 1);
      assert LinesBefore(es, 1) == |es[0].1| + LinesBefore(es[1..], 0);
      if |es[0].1| <= m {
        WalkSpec(es[1..], m - |es[0].1|);
        if Walk(es, m).Some? {
          var (k, r) := Walk(es[1..], m - |es[0].1|).value;
          assert LinesBefore(es, k + 1) == |es[0].1| + LinesBefore(es[1..], k);
          assert LinesBefore(es, k + 2) == |es[0].1| + LinesBefore(es[1..], k + 1);
        }
      }
    }
  }

  /** `Math.floor((current / count) * 100)`, computed exactly. */
  function Percent(current: int, count: int): (p: int)
    requires 0 <= current < count
    ensures 0 <= p < 100
  {
    assert current * 100 < count * 100;
    (current * 100) / count
  }

  /** `{ percent, current, total }`. */
  datatype Progress = Progress(percent: int, current: int, total: int)

  // ---------------------------------------------------------------- line lookups

  /** The first index of a row satisfying `p` (`Array.prototype.find` / `findIndex`). */
  function FindRow(data: seq<Row>, p: Row -> bool): (r: Option<nat>)
    ensures r.None? <==> forall i | 0 <= i < |data| :: !p(data[i])
    ensures r.Some? ==> r.value < |data| && p(data[r.value]) && forall j | 0 <= j < r.value :: !p(data[j])
  {
    if data == [] then None
    else if p(data[0]) then Some(0)
    else
      var r := FindRow(data[1..], p);
      assert forall i | 1 <= i < |data| :: data[1..][i - 1] == data[i];
      match r
      case None => None
      case Some(j) => Some(j + 1)
  }

  /** `getSceneSummary(scene)`: the text of the scene's first `Szenenbeginn` row, or `''`. */
  function SceneSummary(data: seq<Row>, scene: string): (r: string)
    ensures (forall i | 0 <= i < |data| :: !(data[i].szene == scene && data[i].kategorie == SceneStart)) ==> r == ""
    ensures forall i | 0 <= i < |data| && data[i].szene == scene && data[i].kategorie == SceneStart ::
      (forall j | 0 <= j < i :: !(data[j].szene == scene && data[j].kategorie == SceneStart)) ==> r == data[i].text
  {
    match FindRow(data, (row: Row) => row.szene == scene && row.kategorie == SceneStart)
    case None => ""
    case Some(i) => data[i].text
  }

  /** `scenesOrder.indexOf(scene)`: the first position of `scene`, or `None` for -1. */
  function IndexOf(order: seq<string>, scene: string): (r: Option<nat>)
    ensures r.None? <==> scene !in order
    ensures r.Some? ==> r.value < |order| && order[r.value] == scene && forall j | 0 <= j < r.value :: order[j] != scene
  {
    if scene in order then Some(FirstIndex(order, scene)) else None
  }

  /** `getNextScene(scene)`: the scene after the first occurrence of `scene`, unless it is absent or last. */
  function NextScene(order: seq<string>, scene: string): (r: Option<string>)
    ensures r.None? <==> scene !in order || IndexOf(order, scene).value == |order| - 1
  {
    match IndexOf(order, scene)
    case None => None
    case Some(i) => if i == |order| - 1 then None else Some(order[i + 1])
  }

  /** In a list without repeats, the scene after position `i` is the next element. */
  lemma NextSceneAt(order: seq<string>, i: nat)
    requires Distinct(order) && i < |order|
    ensures NextScene(order, order[i]) == if i == |order| - 1 then None else Some(order[i + 1])
  {
    assert IndexOf(order, order[i]).value == i;
  }

  function MicOf(r: Row): string { r.mikrofon }

  /** The `[Charakter, Mikrofon]` pairs that `getSceneActors(scene)` sets, in sheet order. */
  function SceneMicEntries(data: seq<Row>, scene: string): seq<(string, string)> {
    EntriesOf(data, (row: Row) => row.szene == scene && row.charakter != "", MicOf)
  }

  lemma SceneMicEntriesNext(data: seq<Row>, scene: string, i: nat)
    requires i < |data|
    ensures FromEntries(SceneMicEntries(data[..i + 1], scene)) ==
      if data[i].szene == scene && data[i].charakter != "" then
        Put(FromEntries(SceneMicEntries(data[..i], scene)), data[i].charakter, data[i].mikrofon)
      else FromEntries(SceneMicEntries(data[..i], scene))
  {
    assert data[..i + 1][..i] == data[..i];
    var ps, x := SceneMicEntries(data[..i], scene), (data[i].charakter, data[i].mikrofon);
    if data[i].szene == scene && data[i].charakter != "" {
      assert SceneMicEntries(data[..i + 1], scene) == ps + [x];
      FromEntriesSnoc(ps, x);
    } else {
      assert SceneMicEntries(data[..i + 1], scene) == ps;
    }
  }

  /** A role is in a scene's cast exactly when one of the scene's rows names it. */
  lemma SceneCastRoles(data: seq<Row>, scene: string, role: string)
    ensures role in Firsts(SceneMicEntries(data, scene)) <==>
      exists i | 0 <= i < |data| :: data[i].szene == scene && data[i].charakter != "" && data[i].charakter == role
  {
    EntriesOfRoles(data, (row: Row) => row.szene == scene && row.charakter != "", MicOf, role);
  }

  // ---------------------------------------------------------------- the viewer

  class BaseViewer {
    var scriptData: seq<Row>
    var actors: seq<(string, string)>
    var sceneToIndices: OMap<string, seq<nat>>
    var scenesOrder: seq<string>
    var currentMarkerIndex: Option<int>

    /** The scene index is a well-formed `Map`. */
    ghost predicate Valid()
      reads this
    {
      OrderedMaps.Valid(sceneToIndices)
    }

    /** A viewer before `init` has loaded anything (the script is empty rather than `null`). */
    constructor()
      ensures Valid() && scriptData == [] && actors == [] && sceneToIndices == Empty()
      ensures scenesOrder == [] && currentMarkerIndex == None
    {
      scriptData := [];
      actors := [];
      sceneToIndices := Empty();
      scenesOrder := [];
      currentMarkerIndex := None;
    }

    /** The part of `init` after the script has arrived: every derived field is rebuilt from it. */
    method Load(data: seq<Row>)
      modifies this
      ensures Valid() && scriptData == data && actors == GetActors(data) && scenesOrder == CollectScenes(data)
      ensures IndexInv(data, |data|, sceneToIndices) && currentMarkerIndex == old(currentMarkerIndex)
    {
      scriptData := data;
      actors := GetActors(data);
      scenesOrder := CollectScenes(data);
      sceneToIndices := BuildSceneIndexMap(data);
    }

    /** The `markerUpdate` handler's assignment. */
    method OnMarkerUpdate(index: int)
      modifies this
      ensures currentMarkerIndex == Some(index)
      ensures scriptData == old(scriptData) && actors == old(actors) && sceneToIndices == old(sceneToIndices)
      ensures scenesOrder == old(scenesOrder)
    {
      currentMarkerIndex := Some(index);
    }

    /** The `markerClear` handler's assignment. */
    method OnMarkerClear()
      modifies this
      ensures currentMarkerIndex == None
      ensures scriptData == old(scriptData) && actors == old(actors) && sceneToIndices == old(sceneToIndices)
      ensures scenesOrder == old(scenesOrder)
    {
      currentMarkerIndex := None;
    }

    /**
     * `computeSceneProgressCounts()`: no marker gives 0/0; a marker past the indexed lines gives
     * 100% of 0/0; otherwise the marker's offset inside the scene the walk stops at, out of that
     * scene's size.
     */
    method ComputeSceneProgressCounts() returns (p: Progress)
      requires Valid()
      ensures currentMarkerIndex.None? ==> p == Progress(0, 0, 0)
      ensures currentMarkerIndex.Some? && Walk(Entries(sceneToIndices), currentMarkerIndex.value).None? ==>
        p == Progress(100, 0, 0)
      ensures currentMarkerIndex.Some? && Walk(Entries(sceneToIndices), currentMarkerIndex.value).Some? ==>
        var (k, r) := Walk(Entries(sceneToIndices), currentMarkerIndex.value).value;
        p.total == |Entries(sceneToIndices)[k].1| && p.current == Max(0, r) && 0 <= p.percent < 100
        && (currentMarkerIndex.value >= 0 ==> p.current < p.total)
    {
      if currentMarkerIndex.None? {
        return Progress(0, 0, 0);
      }
      var remainingIndex := currentMarkerIndex.value;
      var es := Entries(sceneToIndices);
      var k := 0;
      while k < |es|
        invariant k <= |es|
        invariant Walk(es, currentMarkerIndex.value) == Later(Walk(es[k..], remainingIndex), k)
        invariant currentMarkerIndex.value >= 0 ==> remainingIndex >= 0
      {
        var count := |es[k].1|;
        if count > remainingIndex {
          var current := Max(0, Min(remainingIndex, count));
          var percent := if count > 0 then Percent(current, count) else 0;
          return Progress(percent, current, count);
        }
        WalkSkip(es, k, remainingIndex);
        remainingIndex := remainingIndex - count;
        k := k + 1;
      }
      return Progress(100, 0, 0);
    }

    /** `getSceneFromMarker()`: the scene the progress walk stops at, or `None`. */
    method GetSceneFromMarker() returns (scene: Option<string>)
      requires Valid()
      ensures currentMarkerIndex.None? ==> scene == None
      ensures currentMarkerIndex.Some? ==>
        scene == match Walk(Entries(sceneToIndices), currentMarkerIndex.value)
                 case None => None
                 case Some((k, _)) => Some(Entries(sceneToIndices)[k].0)
    {
      if currentMarkerIndex.None? {
        return None;
      }
      scene := SceneOfWalk(Entries(sceneToIndices), currentMarkerIndex.value);
    }

    /** `getNextScene(scene)`. */
    method GetNextScene(currentScene: string) returns (next: Option<string>)
      ensures next == NextScene(scenesOrder, currentScene)
    {
      next := NextScene(scenesOrder, currentScene);
    }

    /**
     * `getSceneActors(scene)`: each role of the scene once, in order of its first row, with the
     * microphone of its last row.
     */
    method GetSceneActors(scene: string) returns (sceneActors: OMap<string, string>)
      ensures sceneActors == FromEntries(SceneMicEntries(scriptData, scene))
    {
      sceneActors := Empty();
      var i := 0;
      while i < |scriptData|
        invariant i <= |scriptData|
        invariant sceneActors == FromEntries(SceneMicEntries(scriptData[..i], scene))
      {
        var row := scriptData[i];
        SceneMicEntriesNext(scriptData, scene, i);
        if row.szene == scene && row.charakter != "" {
          sceneActors := Put(sceneActors, row.charakter, row.mikrofon);
        }
        i := i + 1;
      }
      assert scriptData[..i] == scriptData;
    }

    /** `getSceneSummary(scene)`. */
    method GetSceneSummary(scene: string) returns (summary: string)
      ensures summary == SceneSummary(scriptData, scene)
    {
      summary := SceneSummary(scriptData, scene);
    }
  }

  /** The loop of `getSceneFromMarker`: the key of the scene the walk stops at. */
  method SceneOfWalk(es: SceneEntries, marker: int) returns (scene: Option<string>)
    ensures scene == match Walk(es, marker)
                     case None => None
                     case Some((k, _)) => Some(es[k].0)
  {
    var remainingIndex := marker;
    var k := 0;
    while k < |es|
      invariant k <= |es|
      invariant Walk(es, marker) == Later(Walk(es[k..], remainingIndex), k)
    {
      var count := |es[k].1|;
      if count > remainingIndex {
        return Some(es[k].0);
      }
      WalkSkip(es, k, remainingIndex);
      remainingIndex := remainingIndex - count;
      k := k + 1;
    }
    return None;
  }

  /** Skipping scene `k`, whose lines are all before the marker, moves the walk on by one scene. */
  lemma WalkSkip(es: SceneEntries, k: nat, remaining: int)
    requires k < |es| && |es[k].1| <= remaining
    ensures Later(Walk(es[k..], remaining), k) == Later(Walk(es[k + 1..], remaining - |es[k].1|), k + 1)
  {
    assert es[k..][1..] == es[k + 1..];
  }

  /** The scene's cast: its roles by first row, each with the microphone of its last row. */
  lemma SceneActorsSpec(data: seq<Row>, scene: string)
    ensures FromEntries(SceneMicEntries(data, scene)).keys == Dedup(Firsts(SceneMicEntries(data, scene)))
    ensures forall role :: Get(FromEntries(SceneMicEntries(data, scene)), role) == LastValue(SceneMicEntries(data, scene), role)
  {
    FromEntriesSpec(SceneMicEntries(data, scene));
  }
}
