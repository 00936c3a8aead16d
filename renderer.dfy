/**
 * The script renderer's bookkeeping (js/renderer.js): which lines `calculateLineStates` shows or
 * shows as context, and which scenes the table of contents of `createToC` highlights for the
 * selected actor. The DOM that the renderer builds from these is not modelled.
 */
module Renderer {
  import opened Common
  import opened Script
  import opened JsText

  /**
   * The render settings the line states depend on: one show flag per category and the context
   * window of each category that has one. The windows are the sliders' values after `parseInt`.
   */
  datatype Settings = Settings(
    showDirections: bool, showTechnical: bool, showLighting: bool,
    showEinspieler: bool, showRequisiten: bool, showActorText: bool,
    directionsContext: int, technicalContext: int, lightingContext: int,
    einspielContext: int, requisitenContext: int)

  /** `{ visible, isContext }` of one line. */
  datatype LineState = LineState(visible: bool, isContext: bool)

  /** A line is shown when its category's flag is set; an actor line also needs a character. */
  predicate Shown(row: Row, s: Settings) {
    (s.showDirections && row.kategorie == Instruction)
    || (s.showTechnical && row.kategorie == Technical)
    || (s.showLighting && row.kategorie == Lighting)
    || (s.showEinspieler && row.kategorie == Audio)
    || (s.showRequisiten && row.kategorie == Props)
    || (s.showActorText && row.charakter != "" && row.kategorie == Actor)
  }

  /** How many lines around a shown line become context; 0 for actor lines and any other category. */
  function ContextRange(row: Row, s: Settings): (r: int)
    ensures row.kategorie !in {Instruction, Technical, Lighting, Audio, Props} ==> r == 0
  {
    if row.kategorie == Instruction then s.directionsContext
    else if row.kategorie == Technical then s.technicalContext
    else if row.kategorie == Lighting then s.lightingContext
    else if row.kategorie == Audio then s.einspielContext
    else if row.kategorie == Props then s.requisitenContext
    else 0
  }

  /**
   * Line `k` is shown and line `j` is another line inside its window
   * `[max(0, k - r), min(|data| - 1, k + r)]`.
   */
  predicate Marks(data: seq<Row>, s: Settings, k: int, j: int) {
    && 0 <= k < |data| && 0 <= j < |data| && j != k
    && Shown(data[k], s)
    && k - ContextRange(data[k], s) <= j <= k + ContextRange(data[k], s)
  }

  /** The state of the old line `j` once lines `0..n-1` have been processed. */
  function StateAfter(data: seq<Row>, s: Settings, j: int, n: int): LineState
    requires 0 <= j < n <= |data|
  {
    LineState(Shown(data[j], s), exists k | j < k < n :: Marks(data, s, k, j))
  }

  /** What `calculateLineStates` leaves for line `j`. */
  function FinalState(data: seq<Row>, s: Settings, j: int): (st: LineState)
    requires 0 <= j < |data|
    ensures st.visible <==> Shown(data[j], s)
    ensures st.isContext <==> exists k | j < k < |data| :: Marks(data, s, k, j)
  {
    StateAfter(data, s, j, |data|)
  }

  /** `lineStates.get(i) || { visible: false, isContext: false }`. */
  function StateOr(lineStates: map<int, LineState>, i: int): LineState {
    if i in lineStates then lineStates[i] else LineState(false, false)
  }

  /** The inner loop: every index of `lo..hi` except `index` gets `isContext` set, keeping `visible`. */
  method MarkContext(lineStates: map<int, LineState>, lo: int, hi: int, index: int)
    returns (marked: map<int, LineState>)
    ensures forall j :: j in marked <==> j in lineStates || (lo <= j <= hi && j != index)
    ensures forall j | j in marked ::
      marked[j] == if lo <= j <= hi && j != index then StateOr(lineStates, j).(isContext := true) else lineStates[j]
  {
    marked := lineStates;
    var i := lo;
    while i <= hi
      invariant lo <= i && (i <= hi + 1 || i == lo)
      invariant forall j :: j in marked <==> j in lineStates || (lo <= j < i && j != index)
      invariant forall j | j in marked ::
        marked[j] == if lo <= j < i && j != index then StateOr(lineStates, j).(isContext := true) else lineStates[j]
    {
      if i != index {
        var contextState := StateOr(marked, i);
        contextState := contextState.(isContext := true);
        marked := marked[i := contextState];
      }
      i := i + 1;
    }
  }

  /**
   * `calculateLineStates(data, settings)`: every line gets an entry, visible exactly when shown, and
   * context exactly when a LATER shown line's window reaches back to it. A state object lives under
   * one key only, so updating it in place is the same as storing an updated value.
   */
  method CalculateLineStates(data: seq<Row>, settings: Settings) returns (lineStates: map<int, LineState>)
    ensures forall j :: j in lineStates <==> 0 <= j < |data|
    ensures forall j | 0 <= j < |data| :: lineStates[j] == FinalState(data, settings, j)
  {
    lineStates := map[];
    var index := 0;
    while index < |data|
      invariant index <= |data|
      invariant forall j | j in lineStates :: 0 <= j < |data|
      invariant forall j | 0 <= j < index :: j in lineStates && lineStates[j] == StateAfter(data, settings, j, index)
      invariant forall j | index <= j && j in lineStates :: lineStates[j] == LineState(false, true)
    {
      lineStates := LineStep(data, settings, lineStates, index);
      index := index + 1;
    }
  }

  /** One pass of the outer loop, for line `index`: mark its window, then store its fresh state. */
  method LineStep(data: seq<Row>, settings: Settings, lineStates: map<int, LineState>, index: int)
    returns (next: map<int, LineState>)
    requires 0 <= index < |data|
    requires forall j | j in lineStates :: 0 <= j < |data|
    requires forall j | 0 <= j < index :: j in lineStates && lineStates[j] == StateAfter(data, settings, j, index)
    requires forall j | index <= j && j in lineStates :: lineStates[j] == LineState(false, true)
    ensures forall j | j in next :: 0 <= j < |data|
    ensures forall j | 0 <= j <= index :: j in next && next[j] == StateAfter(data, settings, j, index + 1)
    ensures forall j | index < j && j in next :: next[j] == LineState(false, true)
  {
    var row := data[index];
    var state := LineState(false, false);
    next := lineStates;
    if Shown(row, settings) {
      state := state.(visible := true);
      var contextRange := ContextRange(row, settings);
      next := MarkContext(next, Max(0, index - contextRange), Min(|data| - 1, index + contextRange), index);
    }
    next := next[index := state];
    forall j | 0 <= j <= index ensures j in next && next[j] == StateAfter(data, settings, j, index + 1) {
      if j < index {
        MarkedOneMore(data, settings, j, index);
      }
    }
  }

  /** Processing line `n` adds exactly its own marks. */
  lemma MarkedOneMore(data: seq<Row>, s: Settings, j: int, n: int)
    requires 0 <= j < n < |data|
    ensures StateAfter(data, s, j, n + 1).isContext <==> StateAfter(data, s, j, n).isContext || Marks(data, s, n, j)
  {
    if Marks(data, s, n, j) {
      assert j < n < n + 1;
    }
  }

  /** The forward half of every window is overwritten: a line that only earlier lines mark is not context. */
  lemma ForwardContextLost(data: seq<Row>, s: Settings, j: int)
    requires 0 <= j < |data|
    requires forall k | j < k < |data| :: !Marks(data, s, k, j)
    ensures FinalState(data, s, j) == LineState(Shown(data[j], s), false)
  {
  }

  /** A shown line that a later line's window reaches is both visible and context. */
  lemma VisibleAndContext(data: seq<Row>, s: Settings, j: int, k: int)
    requires j < k && Marks(data, s, k, j) && Shown(data[j], s)
    ensures FinalState(data, s, j) == LineState(true, true)
  {
  }

  /**
   * An instruction with a window of one followed by a hidden line: the window covers the hidden
   * line, yet it ends neither visible nor context.
   */
  lemma ForwardContextExample()
    ensures var data := [SheetRow("1", Instruction, "", "", "Licht an"), SheetRow("1", Actor, "", "", "")];
      var s := Settings(true, false, false, false, false, false, 1, 0, 0, 0, 0);
      Marks(data, s, 0, 1) && FinalState(data, s, 1) == LineState(false, false)
  {
    var data := [SheetRow("1", Instruction, "", "", "Licht an"), SheetRow("1", Actor, "", "", "")];
    var s := Settings(true, false, false, false, false, false, 1, 0, 0, 0, 0);
    assert Actor != Instruction;
    assert !Shown(data[1], s);
  }

  /**
   * With the forward half kept: line `j` is context exactly when any other shown line's window
   * reaches it, before or after.
   */
  function IntendedState(data: seq<Row>, s: Settings, j: int): (st: LineState)
    requires 0 <= j < |data|
    ensures st.visible <==> Shown(data[j], s)
    ensures st.isContext <==> exists k | 0 <= k < |data| :: Marks(data, s, k, j)
  {
    LineState(Shown(data[j], s), exists k | 0 <= k < |data| :: Marks(data, s, k, j))
  }

  /** `IntendedState` after lines `0..n-1`, for any line. */
  predicate MarkedBy(data: seq<Row>, s: Settings, j: int, n: int)
    requires n <= |data|
  {
    exists k | 0 <= k < n :: Marks(data, s, k, j)
  }

  /**
   * `calculateLineStates` with line 209 storing `lineStates.get(index) || fresh` updated with the
   * line's visibility, so that marks from earlier lines survive.
   */
  method CalculateLineStatesKeepingContext(data: seq<Row>, settings: Settings) returns (lineStates: map<int, LineState>)
    ensures forall j :: j in lineStates <==> 0 <= j < |data|
    ensures forall j | 0 <= j < |data| :: lineStates[j] == IntendedState(data, settings, j)
  {
    lineStates := map[];
    var index := 0;
    while index < |data|
      invariant index <= |data|
      invariant forall j | j in lineStates :: 0 <= j < |data| && lineStates[j].isContext == MarkedBy(data, settings, j, index)
      invariant forall j | 0 <= j < |data| :: j in lineStates <==> j < index || MarkedBy(data, settings, j, index)
      invariant forall j | j in lineStates :: lineStates[j].visible == (j < index && Shown(data[j], settings))
    {
      lineStates := KeepingStep(data, settings, lineStates, index);
      index := index + 1;
    }
    forall j | 0 <= j < |data| ensures lineStates[j] == IntendedState(data, settings, j) {
      assert lineStates[j].isContext == MarkedBy(data, settings, j, |data|);
    }
  }

  /** One pass of the corrected outer loop. */
  method KeepingStep(data: seq<Row>, settings: Settings, lineStates: map<int, LineState>, index: int)
    returns (next: map<int, LineState>)
    requires 0 <= index < |data|
    requires forall j | j in lineStates :: 0 <= j < |data| && lineStates[j].isContext == MarkedBy(data, settings, j, index)
    requires forall j | 0 <= j < |data| :: j in lineStates <==> j < index || MarkedBy(data, settings, j, index)
    requires forall j | j in lineStates :: lineStates[j].visible == (j < index && Shown(data[j], settings))
    ensures forall j | j in next :: 0 <= j < |data| && next[j].isContext == MarkedBy(data, settings, j, index + 1)
    ensures forall j | 0 <= j < |data| :: j in next <==> j < index + 1 || MarkedBy(data, settings, j, index + 1)
    ensures forall j | j in next :: next[j].visible == (j < index + 1 && Shown(data[j], settings))
  {
    var row := data[index];
    var shown := Shown(row, settings);
    next := lineStates;
    if shown {
      var contextRange := ContextRange(row, settings);
      next := MarkContext(next, Max(0, index - contextRange), Min(|data| - 1, index + contextRange), index);
    }
    var state := StateOr(next, index).(visible := shown);
    next := next[index := state];
    forall j | 0 <= j < |data| ensures MarkedBy(data, settings, j, index + 1) <==> MarkedBy(data, settings, j, index) || Marks(data, settings, index, j) {
      MarkedByOneMore(data, settings, j, index);
    }
  }

  lemma MarkedByOneMore(data: seq<Row>, s: Settings, j: int, n: int)
    requires 0 <= n < |data|
    ensures MarkedBy(data, s, j, n + 1) <==> MarkedBy(data, s, j, n) || Marks(data, s, n, j)
  {
    if MarkedBy(data, s, j, n + 1) && !Marks(data, s, n, j) {
      var k :| 0 <= k < n + 1 && Marks(data, s, k, j);
      assert k < n;
    }
  }

  /** The corrected states agree with the shipped ones except that forward marks survive. */
  lemma KeepingContextExtends(data: seq<Row>, s: Settings, j: int)
    requires 0 <= j < |data|
    ensures IntendedState(data, s, j).visible == FinalState(data, s, j).visible
    ensures IntendedState(data, s, j).isContext <==>
      FinalState(data, s, j).isContext || exists k | 0 <= k < j :: Marks(data, s, k, j)
  {
    if IntendedState(data, s, j).isContext {
      var k :| 0 <= k < |data| && Marks(data, s, k, j);
      assert k != j;
    }
  }

  /**
   * The scene flags of `createToC`: every non-empty scene is a key, flagged when one of its lines is
   * spoken by the selected actor or is an instruction whose text contains the selection.
   */
  predicate Highlights(row: Row, selectedActor: string) {
    (row.charakter != "" && row.charakter == selectedActor)
    || (row.kategorie == Instruction && Includes(row.text, selectedActor))
  }

  /** The flag value `createToC` computes for scene `scene` over `data`. */
  predicate SceneFlagged(data: seq<Row>, selectedActor: string, scene: string) {
    exists i | 0 <= i < |data| :: data[i].szene == scene && Highlights(data[i], selectedActor)
  }

  /** The `forEach` at the head of `createToC`, filling the `scenes` dictionary. */
  method SceneFlags(data: seq<Row>, selectedActor: string) returns (scenes: map<string, bool>)
    ensures forall sc :: sc in scenes <==> sc != "" && Seen(data, sc)
    ensures forall sc | sc in scenes :: scenes[sc] == SceneFlagged(data, selectedActor, sc)
  {
    scenes := map[];
    var i := 0;
    while i < |data|
      invariant i <= |data|
      invariant FlagsInv(data[..i], selectedActor, scenes)
    {
      var next := FlagRow(scenes, data[i], selectedActor);
      FlagStep(data, selectedActor, i, scenes, next);
      scenes := next;
      i := i + 1;
    }
    assert data[..i] == data;
  }

  /** What the loop has built after the rows of `prefix`. */
  ghost predicate FlagsInv(prefix: seq<Row>, selectedActor: string, scenes: map<string, bool>) {
    (forall sc :: sc in scenes <==> sc != "" && Seen(prefix, sc))
    && forall sc | sc in scenes :: scenes[sc] == SceneFlagged(prefix, selectedActor, sc)
  }

  /** One row of that loop: a scene seen first is `false`, and a highlighted row sets it `true`. */
  method FlagRow(scenes: map<string, bool>, row: Row, selectedActor: string) returns (next: map<string, bool>)
    ensures next == if row.szene == "" then scenes
      else scenes[row.szene := (row.szene in scenes && scenes[row.szene]) || Highlights(row, selectedActor)]
  {
    next := scenes;
    if row.szene != "" {
      if !(row.szene in next && next[row.szene]) {
        next := next[row.szene := false];
      }
      if row.charakter != "" && row.charakter == selectedActor {
        next := next[row.szene := true];
      } else if row.kategorie == Instruction && Includes(row.text, selectedActor) {
        next := next[row.szene := true];
      }
    }
  }

  /** Some row of `prefix` belongs to scene `sc`. */
  ghost predicate Seen(prefix: seq<Row>, sc: string) {
    exists k | 0 <= k < |prefix| :: prefix[k].szene == sc
  }

  lemma SeenOneMore(data: seq<Row>, i: nat)
    requires i < |data|
    ensures forall sc :: Seen(data[..i + 1], sc) <==> Seen(data[..i], sc) || data[i].szene == sc
  {
    var prefix, longer := data[..i], data[..i + 1];
    forall sc ensures Seen(longer, sc) <==> Seen(prefix, sc) || data[i].szene == sc {
      if Seen(longer, sc) {
        var k :| 0 <= k < |longer| && longer[k].szene == sc;
        if k < i {
          assert prefix[k] == longer[k];
        }
      }
      if Seen(prefix, sc) {
        var k :| 0 <= k < |prefix| && prefix[k].szene == sc;
        assert longer[k] == prefix[k];
      }
      if data[i].szene == sc {
        assert longer[i] == data[i];
      }
    }
  }

  lemma FlagStep(data: seq<Row>, selectedActor: string, i: nat, scenes: map<string, bool>, next: map<string, bool>)
    requires i < |data| && FlagsInv(data[..i], selectedActor, scenes)
    requires next == if data[i].szene == "" then scenes
      else scenes[data[i].szene := (data[i].szene in scenes && scenes[data[i].szene]) || Highlights(data[i], selectedActor)]
    ensures FlagsInv(data[..i + 1], selectedActor, next)
  {
    SeenOneMore(data, i);
    FlaggedOneMore(data, selectedActor, i);
  }

  lemma FlaggedOneMore(data: seq<Row>, selectedActor: string, i: int)
    requires 0 <= i < |data|
    ensures forall sc :: SceneFlagged(data[..i + 1], selectedActor, sc) <==>
      SceneFlagged(data[..i], selectedActor, sc) || (data[i].szene == sc && Highlights(data[i], selectedActor))
  {
    var prefix, next := data[..i], data[..i + 1];
    forall sc ensures SceneFlagged(next, selectedActor, sc) <==>
      SceneFlagged(prefix, selectedActor, sc) || (data[i].szene == sc && Highlights(data[i], selectedActor))
    {
      if SceneFlagged(next, selectedActor, sc) {
        var k :| 0 <= k < |next| && next[k].szene == sc && Highlights(next[k], selectedActor);
        if k < i {
          assert prefix[k] == next[k];
        }
      }
      if SceneFlagged(prefix, selectedActor, sc) {
        var k :| 0 <= k < |prefix| && prefix[k].szene == sc && Highlights(prefix[k], selectedActor);
        assert next[k] == prefix[k];
      }
      if data[i].szene == sc && Highlights(data[i], selectedActor) {
        assert next[i] == data[i];
      }
    }
  }

  /** With no actor selected, exactly the scenes that contain an instruction are flagged. */
  lemma EmptySelectionFlagsInstructions(data: seq<Row>, scene: string)
    ensures SceneFlagged(data, "", scene) <==>
      exists i | 0 <= i < |data| :: data[i].szene == scene && data[i].kategorie == Instruction
  {
    forall i | 0 <= i < |data| ensures Highlights(data[i], "") <==> data[i].kategorie == Instruction {
      IncludesEmpty(data[i].text);
    }
  }
}
