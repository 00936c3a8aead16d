/**
 * The script store of the React client (stores/script-store.ts): the loaded rows together with the
 * sorted cast and the scene list derived from them, and the current play.
 */
module ScriptStore {
  import opened Common
  import opened Script
  import opened JsText
  import opened OrderedMaps
  import opened Sorting
  import opened Scenes

  // ---------------------------------------------------------------- extractActors

  /** A spoken line that names its character. */
  predicate IsActorLine(r: Row) {
    r.kategorie == Actor && r.charakter != ""
  }

  /** `x` is the trimmed name of one of the spoken lines among rows `0..n-1`. */
  predicate NamedIn(data: seq<Row>, n: nat, x: string)
    requires n <= |data|
  {
    exists k | 0 <= k < n :: IsActorLine(data[k]) && Trim(data[k].charakter) == x
  }

  /** The names among rows `0..n` are those among `0..n-1` and, for a spoken line, row `n`'s. */
  lemma NamedInStep(data: seq<Row>, n: nat, x: string)
    requires n < |data|
    ensures NamedIn(data, n + 1, x) <==> NamedIn(data, n, x) || (IsActorLine(data[n]) && Trim(data[n].charakter) == x)
  {
    if NamedIn(data, n + 1, x) && !(IsActorLine(data[n]) && Trim(data[n].charakter) == x) {
      var k :| 0 <= k < n + 1 && IsActorLine(data[k]) && Trim(data[k].charakter) == x;
      assert k < n;
    }
  }

  /** `extractActors(data)`: the trimmed character names of the spoken lines, sorted by code point, each once. */
  method ExtractActors(data: seq<Row>) returns (r: seq<string>)
    ensures SortedStrings(r) && Distinct(r)
    ensures forall x :: x in r <==> NamedIn(data, |data|, x)
  {
    var actors: seq<string> := [];
    var i := 0;
    while i < |data|
      invariant i <= |data|
      invariant Distinct(actors)
      invariant forall x :: x in actors <==> NamedIn(data, i, x)
    {
      var row := data[i];
      var actors' := actors;
      if row.kategorie == Actor && row.charakter != "" {
        var name := Trim(row.charakter);
        if name !in actors {
          actors' := actors + [name];
        }
      }
      forall x ensures x in actors' <==> NamedIn(data, i + 1, x) {
        NamedInStep(data, i, x);
      }
      actors := actors';
      i := i + 1;
    }
    r := SortStrings(actors);
    DistinctPermutation(actors, r);
    forall x ensures x in r <==> x in actors {
      assert x in r <==> x in multiset(r);
      assert x in actors <==> x in multiset(actors);
    }
  }

  // ---------------------------------------------------------------- extractScenes

  /** A line of a scene: the row with `_index` set to its position. */
  datatype Line = Line(row: Row, index: nat)

  /** `{ id, name, startIndex, endIndex, lines }`. */
  datatype Scene = Scene(id: string, name: string, startIndex: nat, endIndex: nat, lines: seq<Line>)

  /** The lines of rows `a..b-1`. */
  function LinesOf(data: seq<Row>, a: nat, b: nat): (ls: seq<Line>)
    requires a <= b <= |data|
    ensures |ls| == b - a && forall k | 0 <= k < |ls| :: ls[k] == Line(data[a + k], a + k)
  {
    seq(b - a, k requires 0 <= k < b - a => Line(data[a + k], a + k))
  }

  /** The scene object of a closed run. */
  function SceneOf(data: seq<Row>, r: Run): Scene
    requires r.start <= r.end < |data|
  {
    Scene(r.id, "Szene " + r.id, r.start, r.end, LinesOf(data, r.start, r.end + 1))
  }

  /** The scene objects of runs that lie inside the script. */
  function ScenesOf(data: seq<Row>, rs: seq<Run>): (ss: seq<Scene>)
    requires forall k | 0 <= k < |rs| :: rs[k].start <= rs[k].end < |data|
    ensures |ss| == |rs| && forall k | 0 <= k < |rs| :: ss[k] == SceneOf(data, rs[k])
  {
    seq(|rs|, k requires 0 <= k < |rs| => SceneOf(data, rs[k]))
  }

  /** The scene list `extractScenes` returns: one scene per run. */
  function SceneList(data: seq<Row>): seq<Scene> {
    RunsWellFormed(data, |data|);
    ScenesOf(data, Runs(data))
  }

  /** Rows `a..b` extended by row `b`. */
  lemma LinesOfSnoc(data: seq<Row>, a: nat, b: nat)
    requires a <= b < |data|
    ensures LinesOf(data, a, b + 1) == LinesOf(data, a, b) + [Line(data[b], b)]
  {
  }

  /** One more run, one more scene. */
  lemma ScenesOfSnoc(data: seq<Row>, rs: seq<Run>, r: Run)
    requires forall k | 0 <= k < |rs| :: rs[k].start <= rs[k].end < |data|
    requires r.start <= r.end < |data|
    ensures ScenesOf(data, rs + [r]) == ScenesOf(data, rs) + [SceneOf(data, r)]
  {
  }

  /**
   * What `extractScenes` holds before row `i`: the scenes already pushed and the open one, whose
   * `endIndex` still equals its `startIndex` and whose lines are the rows read since it opened.
   */
  function Partial(data: seq<Row>, i: nat): (seq<Scene>, Option<Scene>)
    requires i <= |data|
  {
    RunsWellFormed(data, i);
    var rs := RunsUpTo(data, i);
    if rs == [] then ([], None)
    else
      var last := rs[|rs| - 1];
      (ScenesOf(data, rs[..|rs| - 1]), Some(Scene(last.id, "Szene " + last.id, last.start, last.start, LinesOf(data, last.start, i))))
  }

  /** `extractScenes(data)`. */
  method ExtractScenes(data: seq<Row>) returns (scenes: seq<Scene>)
    ensures scenes == SceneList(data)
  {
    scenes := [];
    var currentScene: Option<Scene> := None;
    var index := 0;
    while index < |data|
      invariant index <= |data|
      invariant (scenes, currentScene) == Partial(data, index)
    {
      scenes, currentScene := ExtractRow(data, index, scenes, currentScene);
      index := index + 1;
    }
    if currentScene.Some? {
      scenes := scenes + [currentScene.value.(endIndex := |data| - 1)];
    }
    CloseAll(data);
  }

  /** The pushes after the loop complete the scene list. */
  lemma CloseAll(data: seq<Row>)
    ensures var (scenes, currentScene) := Partial(data, |data|);
      (if currentScene.Some? then scenes + [currentScene.value.(endIndex := |data| - 1)] else scenes) == SceneList(data)
  {
    RunsWellFormed(data, |data|);
    var rs := RunsUpTo(data, |data|);
    if rs != [] {
      var init, last := rs[..|rs| - 1], rs[|rs| - 1];
      assert Ends(data, |data|, rs) && RunsInside(data, |data|, rs);
      assert last.end == |data| - 1 && last.start <= last.end;
      var open := Scene(last.id, "Szene " + last.id, last.start, last.start, LinesOf(data, last.start, |data|));
      assert Partial(data, |data|) == (ScenesOf(data, init), Some(open));
      assert open.(endIndex := |data| - 1) == SceneOf(data, last);
      assert rs == init + [last];
      ScenesOfSnoc(data, init, last);
    }
  }

  /** The loop body for row `index`. */
  method ExtractRow(data: seq<Row>, index: nat, scenes: seq<Scene>, currentScene: Option<Scene>)
    returns (scenes': seq<Scene>, currentScene': Option<Scene>)
    requires index < |data| && (scenes, currentScene) == Partial(data, index)
    ensures (scenes', currentScene') == Partial(data, index + 1)
  {
    var row := data[index];
    scenes', currentScene' := scenes, currentScene;
    OpenIsOpens(data, index);
    if row.szene != "" && (currentScene'.None? || row.szene != currentScene'.value.id) {
      if currentScene'.Some? {
        scenes' := scenes' + [currentScene'.value.(endIndex := index - 1)];
      }
      currentScene' := Some(Scene(row.szene, "Szene " + row.szene, index, index, []));
      OpenStep(data, index);
    } else {
      ExtendStep(data, index);
    }
    if currentScene'.Some? {
      currentScene' := Some(currentScene'.value.(lines := currentScene'.value.lines + [Line(row, index)]));
    }
  }

  /** The open scene object has the id of the open scene, so the source's test is `Opens`. */
  lemma OpenIsOpens(data: seq<Row>, index: nat)
    requires index < |data|
    ensures var (_, currentScene) := Partial(data, index);
      Opens(data, index) <==> data[index].szene != "" && (currentScene.None? || data[index].szene != currentScene.value.id)
  {
    RunsLast(data, index);
  }

  /** An opening row closes the open scene at `index - 1` and starts a scene holding just itself. */
  lemma OpenStep(data: seq<Row>, index: nat)
    requires index < |data| && Opens(data, index)
    ensures var (scenes, currentScene) := Partial(data, index);
      var closed := if currentScene.Some? then scenes + [currentScene.value.(endIndex := index - 1)] else scenes;
      var id := data[index].szene;
      Partial(data, index + 1) == (closed, Some(Scene(id, "Szene " + id, index, index, [] + [Line(data[index], index)])))
  {
    RunsWellFormed(data, index);
    RunsLast(data, index);
    RunsOpenStep(data, index);
    LinesOfSnoc(data, index, index);
    var rs := RunsUpTo(data, index);
    if rs != [] {
      var last := rs[|rs| - 1];
      assert rs == rs[..|rs| - 1] + [last];
      ScenesOfSnoc(data, rs[..|rs| - 1], last);
      assert Scene(last.id, "Szene " + last.id, last.start, index - 1, LinesOf(data, last.start, index)) == SceneOf(data, last);
    }
  }

  /** Any other row joins the open scene's lines, if one is open. */
  lemma ExtendStep(data: seq<Row>, index: nat)
    requires index < |data| && !Opens(data, index)
    ensures var (scenes, currentScene) := Partial(data, index);
      Partial(data, index + 1) == (scenes, if currentScene.Some? then Some(currentScene.value.(lines := currentScene.value.lines + [Line(data[index], index)])) else None)
  {
    RunsWellFormed(data, index);
    RunsExtendLast(data, index);
    var rs := RunsUpTo(data, index);
    if rs != [] {
      LinesOfSnoc(data, rs[|rs| - 1].start, index);
    }
  }

  // ---------------------------------------------------------------- properties of the scene list

  /**
   * Each scene starts at a row carrying its (non-empty) id, is named after it, ends no earlier than
   * it starts and lists the rows `startIndex..endIndex` with their indices; consecutive scenes
   * touch and have different ids; the last one ends at the last row; rows before the first scene
   * carry no `Szene`, and without any `Szene` there is no scene.
   */
  lemma SceneListShape(data: seq<Row>)
    ensures var ss := SceneList(data);
      && (ss == [] <==> forall j | 0 <= j < |data| :: data[j].szene == "")
      && (forall k | 0 <= k < |ss| ::
        && ss[k].id != "" && ss[k].name == "Szene " + ss[k].id
        && ss[k].startIndex <= ss[k].endIndex < |data| && data[ss[k].startIndex].szene == ss[k].id
        && ss[k].lines == LinesOf(data, ss[k].startIndex, ss[k].endIndex + 1))
      && (forall k | 0 <= k < |ss| - 1 :: ss[k].endIndex + 1 == ss[k + 1].startIndex && ss[k].id != ss[k + 1].id)
      && (ss != [] ==> ss[|ss| - 1].endIndex == |data| - 1 && forall j | 0 <= j < ss[0].startIndex :: data[j].szene == "")
  {
    RunsWellFormed(data, |data|);
    var rs := Runs(data);
    forall k | 0 <= k < |rs| - 1 ensures rs[k].id != rs[k + 1].id {
      NeighbouringRunsDiffer(data, k);
    }
  }

  /** A row with an empty `Szene` inside a scene's span belongs to that scene; other rows inside carry its id. */
  lemma SceneRows(data: seq<Row>, k: nat, j: nat)
    requires k < |SceneList(data)|
    requires SceneList(data)[k].startIndex <= j <= SceneList(data)[k].endIndex
    ensures j < |data| && (data[j].szene == "" || data[j].szene == SceneList(data)[k].id)
    ensures Line(data[j], j) in SceneList(data)[k].lines
  {
    RunsWellFormed(data, |data|);
    var rs := Runs(data);
    RunRows(data, rs, k, j);
    var sc := SceneList(data)[k];
    assert sc == SceneOf(data, rs[k]);
    assert sc.lines[j - sc.startIndex] == Line(data[j], j);
  }

  /** The rows of one run carry its id or nothing. */
  lemma RunRows(data: seq<Row>, rs: seq<Run>, k: nat, j: nat)
    requires RunsInside(data, |data|, rs) && InnerRows(data, rs)
    requires k < |rs| && rs[k].start <= j <= rs[k].end
    ensures j < |data| && (data[j].szene == "" || data[j].szene == rs[k].id)
  {
  }

  /** The lines of the scenes `ss`, one scene after the other. */
  function AllLines(ss: seq<Scene>): seq<Line> {
    if ss == [] then [] else AllLines(ss[..|ss| - 1]) + ss[|ss| - 1].lines
  }

  /** Read in order, the scenes' lines are exactly the rows from the first scene's start to the end. */
  lemma AllLinesCoverTail(data: seq<Row>)
    requires SceneList(data) != []
    ensures SceneList(data)[0].startIndex < |data|
    ensures AllLines(SceneList(data)) == LinesOf(data, SceneList(data)[0].startIndex, |data|)
  {
    RunsWellFormed(data, |data|);
    var rs := Runs(data);
    AllLinesPrefix(data, rs, |rs|);
    assert rs[..|rs|] == rs;
  }

  lemma {:induction false} AllLinesPrefix(data: seq<Row>, rs: seq<Run>, n: nat)
    requires forall k | 0 <= k < |rs| :: rs[k].start <= rs[k].end < |data|
    requires Contiguous(rs) && 0 < n <= |rs|
    ensures rs[0].start <= rs[n - 1].start
    ensures AllLines(ScenesOf(data, rs[..n])) == LinesOf(data, rs[0].start, rs[n - 1].end + 1)
  {
    var ss := ScenesOf(data, rs[..n]);
    assert ss[..n - 1] == ScenesOf(data, rs[..n - 1]);
    assert AllLines(ss) == AllLines(ss[..n - 1]) + ss[n - 1].lines;
    if n == 1 {
      assert ss[..0] == [];
    } else {
      AllLinesPrefix(data, rs, n - 1);
      assert rs[n - 2].end + 1 == rs[n - 1].start;
      LinesOfAppend(data, rs[0].start, rs[n - 1].start, rs[n - 1].end + 1);
    }
  }

  lemma LinesOfAppend(data: seq<Row>, a: nat, b: nat, c: nat)
    requires a <= b <= c <= |data|
    ensures LinesOf(data, a, c) == LinesOf(data, a, b) + LinesOf(data, b, c)
  {
  }

  /** A scene id that comes back after another scene starts a second scene object. */
  lemma RecurringSceneExample()
    ensures var data := [SheetRow("1", Actor, "A", "", "x"), SheetRow("2", Actor, "B", "", "y"), SheetRow("1", Actor, "A", "", "z")];
      SceneList(data) == [
        Scene("1", "Szene 1", 0, 0, [Line(data[0], 0)]),
        Scene("2", "Szene 2", 1, 1, [Line(data[1], 1)]),
        Scene("1", "Szene 1", 2, 2, [Line(data[2], 2)])]
  {
    var data := [SheetRow("1", Actor, "A", "", "x"), SheetRow("2", Actor, "B", "", "y"), SheetRow("1", Actor, "A", "", "z")];
    assert Opens(data, 0);
    assert RunsUpTo(data, 1) == [Run("1", 0, 0)];
    assert CurrentScene(data, 1) == Some("1");
    assert Opens(data, 1);
    assert RunsUpTo(data, 2) == [Run("1", 0, 0), Run("2", 1, 1)];
    assert CurrentScene(data, 2) == Some("2");
    assert Opens(data, 2);
    var rs := [Run("1", 0, 0), Run("2", 1, 1), Run("1", 2, 2)];
    assert RunsUpTo(data, 3) == rs;
    assert LinesOf(data, 0, 1) == [Line(data[0], 0)];
    assert LinesOf(data, 1, 2) == [Line(data[1], 1)];
    assert LinesOf(data, 2, 3) == [Line(data[2], 2)];
    assert "Szene " + "1" == "Szene 1" && "Szene " + "2" == "Szene 2";
    var ss := ScenesOf(data, rs);
    assert ss[0] == Scene("1", "Szene 1", 0, 0, [Line(data[0], 0)]);
    assert ss[1] == Scene("2", "Szene 2", 1, 1, [Line(data[1], 1)]);
    assert ss[2] == Scene("1", "Szene 1", 2, 2, [Line(data[2], 2)]);
  }

  // ---------------------------------------------------------------- the store

  /** A play of `plays-config.json`. */
  datatype Play = Play(name: string, sheetUrl: string)

  /** The zustand store `useScriptStore`; each setter merges only the fields it names. */
  class Store {
    var playId: string
    var playsConfig: Option<map<string, Play>>
    var scriptData: Option<seq<Row>>
    var actors: seq<string>
    var scenes: seq<Scene>
    var isLoading: bool
    var error: Option<string>

    /** The actors and scenes are those of the loaded rows (none before any are loaded). */
    ghost predicate Valid()
      reads this
    {
      && (scriptData.None? ==> actors == [] && scenes == [])
      && (scriptData.Some? ==>
        && scenes == SceneList(scriptData.value)
        && SortedStrings(actors) && Distinct(actors)
        && forall x :: x in actors <==> NamedIn(scriptData.value, |scriptData.value|, x))
    }

    constructor()
      ensures playId == "default" && playsConfig.None? && scriptData.None?
      ensures actors == [] && scenes == [] && !isLoading && error.None?
      ensures Valid()
    {
      playId := "default";
      playsConfig := None;
      scriptData := None;
      actors := [];
      scenes := [];
      isLoading := false;
      error := None;
    }

    method SetPlayId(id: string)
      modifies this
      ensures playId == id
      ensures playsConfig == old(playsConfig) && scriptData == old(scriptData) && actors == old(actors)
      ensures scenes == old(scenes) && isLoading == old(isLoading) && error == old(error)
      ensures old(Valid()) ==> Valid()
    {
      playId := id;
    }

    method SetPlaysConfig(config: map<string, Play>)
      modifies this
      ensures playsConfig == Some(config)
      ensures playId == old(playId) && scriptData == old(scriptData) && actors == old(actors)
      ensures scenes == old(scenes) && isLoading == old(isLoading) && error == old(error)
      ensures old(Valid()) ==> Valid()
    {
      playsConfig := Some(config);
    }

    /** Stores the rows with the cast and the scenes derived from them. */
    method SetScriptData(data: seq<Row>)
      modifies this
      ensures scriptData == Some(data) && scenes == SceneList(data)
      ensures forall x :: x in actors <==> NamedIn(data, |data|, x)
      ensures playId == old(playId) && playsConfig == old(playsConfig)
      ensures isLoading == old(isLoading) && error == old(error)
      ensures Valid()
    {
      var a := ExtractActors(data);
      var ss := ExtractScenes(data);
      scriptData, actors, scenes := Some(data), a, ss;
    }

    method SetLoading(loading: bool)
      modifies this
      ensures isLoading == loading
      ensures playId == old(playId) && playsConfig == old(playsConfig) && scriptData == old(scriptData)
      ensures actors == old(actors) && scenes == old(scenes) && error == old(error)
      ensures old(Valid()) ==> Valid()
    {
      isLoading := loading;
    }

    method SetError(e: Option<string>)
      modifies this
      ensures error == e
      ensures playId == old(playId) && playsConfig == old(playsConfig) && scriptData == old(scriptData)
      ensures actors == old(actors) && scenes == old(scenes) && isLoading == old(isLoading)
      ensures old(Valid()) ==> Valid()
    {
      error := e;
    }
  }
}
