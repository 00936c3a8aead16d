/**
 * The automatic microphone cue generator (static/js/mic-cue-generator.js): for every scene and every
 * actor speaking in it, a virtual "ON" row is inserted after the last stage direction before the
 * actor's first line that mentions the actor (or after the scene's first row), and an "OFF" row after
 * the first such direction after the actor's last line (or after the scene's last row).
 */
module MicCues {
  import opened Common
  import opened JsText
  import opened OrderedMaps
  import opened Sorting
  import opened Script
  import opened Scenes

  // ---------------------------------------------------------------- mentions

  /**
   * `textMentionsActor`: the case-insensitive whole-word search for `actorName` in `text`. The pattern
   * is built from the escaped name, so it matches the name literally.
   */
  function TextMentionsActor(text: string, actorName: string): (r: bool)
    ensures text == "" || actorName == "" ==> !r
    ensures r <==> actorName != "" && exists i | 0 <= i <= |text| - |actorName| :: WordMatchAt(text, actorName, i)
  {
    text != "" && actorName != "" && WordMatch(text, actorName)
  }

  /** An occurrence of the name, spelt the same and standing as a whole word, is a mention. */
  lemma {:induction false} WholeWordIsMention(text: string, actorName: string, i: nat)
    requires actorName != "" && OccursAt(text, actorName, i)
    requires IsBoundary(text, i) && IsBoundary(text, i + |actorName|)
    ensures TextMentionsActor(text, actorName)
  {
    assert forall k | 0 <= k < |actorName| :: text[i + k] == actorName[k] by {
      forall k | 0 <= k < |actorName| ensures text[i + k] == actorName[k] {
        assert text[i..i + |actorName|][k] == actorName[k];
      }
    }
    assert WordMatchAt(text, actorName, i);
  }

  /**
   * A name followed directly by a further word character has no word boundary after it, so it is not
   * matched there ("HANS" inside "HANSI").
   */
  lemma {:induction false} NoBoundaryInsideWord(text: string, actorName: string, i: nat)
    requires actorName != "" && i + |actorName| < |text| && IsWordChar(text[i + |actorName|])
    requires IsWordChar(actorName[|actorName| - 1])
    requires Canonical(text[i + |actorName| - 1]) == Canonical(actorName[|actorName| - 1])
    ensures !IsBoundary(text, i + |actorName|)
  {
    WordCharCanonical(actorName[|actorName| - 1]);
    CanonicalWordChar(text[i + |actorName| - 1]);
  }

  /** Word characters canonicalise to word characters. */
  lemma {:induction false} WordCharCanonical(c: char)
    requires IsWordChar(c)
    ensures IsWordChar(Canonical(c))
  {
  }

  /** Only word characters canonicalise to word characters. */
  lemma {:induction false} CanonicalWordChar(c: char)
    requires IsWordChar(Canonical(c))
    ensures IsWordChar(c)
  {
  }

  /** Row `i` is a stage direction mentioning `actor`. */
  predicate Mentions(data: seq<Row>, i: nat, actor: string) {
    i < |data| && data[i].kategorie == Instruction && TextMentionsActor(data[i].text, actor)
  }

  /** The largest `i` in `lo..hi-1` whose row mentions `actor`. */
  function LastMention(data: seq<Row>, lo: nat, hi: nat, actor: string): (r: Option<nat>)
    ensures r.Some? ==> (lo <= r.value < hi && Mentions(data, r.value, actor)
                         && forall j | r.value < j < hi :: !Mentions(data, j, actor))
    ensures r.None? ==> forall j | lo <= j < hi :: !Mentions(data, j, actor)
    decreases hi
  {
    if hi <= lo then None
    else if Mentions(data, hi - 1, actor) then Some(hi - 1)
    else LastMention(data, lo, hi - 1, actor)
  }

  /** The smallest `i` in `lo..hi-1` whose row mentions `actor`. */
  function FirstMention(data: seq<Row>, lo: nat, hi: nat, actor: string): (r: Option<nat>)
    ensures r.Some? ==> (lo <= r.value < hi && Mentions(data, r.value, actor)
                         && forall j | lo <= j < r.value :: !Mentions(data, j, actor))
    ensures r.None? ==> forall j | lo <= j < hi :: !Mentions(data, j, actor)
    decreases hi - lo
  {
    if hi <= lo then None
    else if Mentions(data, lo, actor) then Some(lo)
    else FirstMention(data, lo + 1, hi, actor)
  }

  /** `findEntranceAnweisung`: scans backwards from the row before the actor's first line to the scene start. */
  method FindEntranceAnweisung(data: seq<Row>, sceneStart: nat, firstLine: nat, actorName: string)
      returns (r: Option<nat>)
    requires firstLine <= sceneStart || firstLine <= |data|
    ensures r == LastMention(data, sceneStart, firstLine, actorName)
  {
    var i: int := firstLine - 1;
    while i >= sceneStart
      invariant i < firstLine && (sceneStart - 1 <= i || i == firstLine - 1)
      invariant LastMention(data, sceneStart, firstLine, actorName) == LastMention(data, sceneStart, i + 1, actorName)
      decreases i
    {
      var row := data[i];
      if row.kategorie == Instruction && TextMentionsActor(row.text, actorName) {
        return Some(i);
      }
      i := i - 1;
    }
    return None;
  }

  /** `findExitAnweisung`: scans forwards from the row after the actor's last line to the scene end. */
  method FindExitAnweisung(data: seq<Row>, lastLine: nat, sceneEnd: nat, actorName: string)
      returns (r: Option<nat>)
    requires sceneEnd <= lastLine || sceneEnd < |data|
    ensures r == FirstMention(data, lastLine + 1, sceneEnd + 1, actorName)
  {
    var i := lastLine + 1;
    while i <= sceneEnd
      invariant lastLine + 1 <= i
      invariant FirstMention(data, lastLine + 1, sceneEnd + 1, actorName) == FirstMention(data, i, sceneEnd + 1, actorName)
      decreases sceneEnd - i
    {
      var row := data[i];
      if row.kategorie == Instruction && TextMentionsActor(row.text, actorName) {
        return Some(i);
      }
      i := i + 1;
    }
    return None;
  }

  // ---------------------------------------------------------------- scene boundaries

  /** `getSceneBoundaries`. */
  method GetSceneBoundaries(data: seq<Row>) returns (boundaries: OMap<string, Bounds>)
    ensures boundaries == Boundaries(data)
  {
    boundaries := Empty();
    var currentScene: Option<string> := None;
    var sceneStart: nat := 0;
    var index := 0;
    while index < |data|
      invariant ScanInv(data, index, currentScene, sceneStart, boundaries)
    {
      var row := data[index];
      if row.szene != "" && Some(row.szene) != currentScene {
        if currentScene.Some? {
          ScanNext(data, index, sceneStart, boundaries);
          boundaries := Put(boundaries, currentScene.value, Bounds(sceneStart, index - 1));
        } else {
          ScanFirst(data, index, sceneStart, boundaries);
        }
        currentScene := Some(row.szene);
        sceneStart := index;
      } else {
        ScanExtend(data, index, sceneStart, boundaries);
      }
      index := index + 1;
    }
    ScanFinish(data, sceneStart, boundaries);
    if currentScene.Some? {
      boundaries := Put(boundaries, currentScene.value, Bounds(sceneStart, |data| - 1));
    }
  }

  /**
   * The state of `getSceneBoundaries` before row `index`: `currentScene` is the open scene, the last
   * run is open at `sceneStart`, and every earlier run has been stored.
   */
  ghost predicate ScanInv(data: seq<Row>, index: nat, currentScene: Option<string>, sceneStart: nat,
                          boundaries: OMap<string, Bounds>)
  {
    && index <= |data|
    && currentScene == CurrentScene(data, index)
    && var rs := RunsUpTo(data, index);
       && (rs == [] ==> boundaries == Empty())
       && (rs != [] ==> sceneStart == rs[|rs| - 1].start && boundaries == RunsMap(rs[..|rs| - 1]))
  }

  /** The first row carrying a scene opens the first run. */
  lemma {:induction false} ScanFirst(data: seq<Row>, index: nat, sceneStart: nat, boundaries: OMap<string, Bounds>)
    requires index < |data| && Opens(data, index) && CurrentScene(data, index).None?
    requires ScanInv(data, index, None, sceneStart, boundaries)
    ensures ScanInv(data, index + 1, Some(data[index].szene), index, boundaries)
  {
    RunsLast(data, index);
    RunsOpenStep(data, index);
  }

  /** A row opening another scene closes the open run at the row before it and stores it. */
  lemma {:induction false} ScanNext(data: seq<Row>, index: nat, sceneStart: nat, boundaries: OMap<string, Bounds>)
    requires index < |data| && Opens(data, index) && CurrentScene(data, index).Some?
    requires ScanInv(data, index, CurrentScene(data, index), sceneStart, boundaries)
    ensures index > 0
    ensures ScanInv(data, index + 1, Some(data[index].szene), index,
                    Put(boundaries, CurrentScene(data, index).value, Bounds(sceneStart, index - 1)))
  {
    var rs := RunsUpTo(data, index);
    RunsLast(data, index);
    var last := rs[|rs| - 1];
    assert CurrentScene(data, index).value == last.id && index - 1 == last.end;
    assert sceneStart == last.start && boundaries == RunsMap(rs[..|rs| - 1]);
    RunsOpenStep(data, index);
    StoreLastRun(rs, Run(data[index].szene, index, index));
    assert CurrentScene(data, index + 1) == Some(data[index].szene);
  }

  /** Appending a run stores the previous last run. */
  lemma {:induction false} StoreLastRun(rs: seq<Run>, r: Run)
    requires rs != []
    ensures var last, rs' := rs[|rs| - 1], rs + [r];
      && rs'[..|rs'| - 1] == rs && rs'[|rs'| - 1] == r
      && RunsMap(rs'[..|rs'| - 1]) == Put(RunsMap(rs[..|rs| - 1]), last.id, Bounds(last.start, last.end))
  {
    assert (rs + [r])[..|rs|] == rs;
  }

  lemma {:induction false} ScanExtend(data: seq<Row>, index: nat, sceneStart: nat, boundaries: OMap<string, Bounds>)
    requires index < |data| && !Opens(data, index)
    requires ScanInv(data, index, CurrentScene(data, index), sceneStart, boundaries)
    ensures CurrentScene(data, index + 1) == CurrentScene(data, index)
    ensures ScanInv(data, index + 1, CurrentScene(data, index), sceneStart, boundaries)
  {
    RunsExtendLast(data, index);
  }

  lemma {:induction false} ScanFinish(data: seq<Row>, sceneStart: nat, boundaries: OMap<string, Bounds>)
    requires ScanInv(data, |data|, CurrentScene(data, |data|), sceneStart, boundaries)
    ensures CurrentScene(data, |data|).Some? ==> |data| > 0
    ensures CurrentScene(data, |data|).None? ==> boundaries == Boundaries(data)
    ensures CurrentScene(data, |data|).Some? ==>
      Put(boundaries, CurrentScene(data, |data|).value, Bounds(sceneStart, |data| - 1)) == Boundaries(data)
  {
    RunsLast(data, |data|);
  }

  // ---------------------------------------------------------------- speaking actors

  /** Row `i` is a spoken line whose upper-cased `Charakter` is `actor`. */
  predicate IsLineOf(data: seq<Row>, i: nat, actor: string) {
    i < |data| && data[i].kategorie == Actor && data[i].charakter != "" && ToUpper(data[i].charakter) == actor
  }

  /** What `getSpeakingActorsInScene` records per actor. */
  datatype Info = Info(firstLine: nat, lastLine: nat, mic: string)

  /** The actor map after reading row `i` into `m`. */
  function ReadLine(m: OMap<string, Info>, i: nat, row: Row): (r: OMap<string, Info>)
    ensures Valid(m) ==> Valid(r)
  {
    if row.kategorie == Actor && row.charakter != "" then
      var a := ToUpper(row.charakter);
      match Get(m, a)
      case None => Put(m, a, Info(i, i, row.mikrofon))
      case Some(info) =>
        Put(m, a, Info(info.firstLine, i, if row.mikrofon != "" && info.mic == "" then row.mikrofon else info.mic))
    else m
  }

  /** The actor map after reading rows `start..stop-1`. */
  function Speakers(data: seq<Row>, start: nat, stop: nat): (m: OMap<string, Info>)
    ensures Valid(m)
    decreases stop
  {
    if stop <= start || stop > |data| then Empty()
    else ReadLine(Speakers(data, start, stop - 1), stop - 1, data[stop - 1])
  }

  /**
   * `mic` is the first non-empty `Mikrofon` among `actor`'s lines in `start..stop-1`, or empty when
   * all of them are empty.
   */
  predicate FirstMic(data: seq<Row>, start: nat, stop: nat, actor: string, mic: string) {
    if mic == "" then
      forall j | start <= j < stop && IsLineOf(data, j, actor) :: data[j].mikrofon == ""
    else
      exists j | start <= j < stop :: IsLineOf(data, j, actor) && data[j].mikrofon == mic
        && forall j' | start <= j' < j && IsLineOf(data, j', actor) :: data[j'].mikrofon == ""
  }

  /** What the actor map holds for `actor` after reading rows `start..stop-1`. */
  predicate SpeakerEntry(data: seq<Row>, start: nat, stop: nat, actor: string, o: Option<Info>) {
    match o
    case None => forall j | start <= j < stop :: !IsLineOf(data, j, actor)
    case Some(info) =>
      && start <= info.firstLine <= info.lastLine < stop
      && IsLineOf(data, info.firstLine, actor) && IsLineOf(data, info.lastLine, actor)
      && (forall j | start <= j < info.firstLine :: !IsLineOf(data, j, actor))
      && (forall j | info.lastLine < j < stop :: !IsLineOf(data, j, actor))
      && FirstMic(data, start, stop, actor, info.mic)
  }

  /**
   * An actor is in the map exactly when one of the rows has a line of theirs; the entry holds the
   * first and last such row and the first non-empty microphone.
   */
  lemma {:induction false} SpeakersSpec(data: seq<Row>, start: nat, stop: nat, actor: string)
    requires start <= stop <= |data|
    ensures SpeakerEntry(data, start, stop, actor, Get(Speakers(data, start, stop), actor))
  {
    if stop > start {
      var i := stop - 1;
      SpeakersSpec(data, start, i, actor);
      SpeakersNext(data, start, i, actor);
    }
  }

  lemma {:induction false} SpeakersNext(data: seq<Row>, start: nat, i: nat, actor: string)
    requires start <= i < |data|
    requires SpeakerEntry(data, start, i, actor, Get(Speakers(data, start, i), actor))
    ensures SpeakerEntry(data, start, i + 1, actor, Get(Speakers(data, start, i + 1), actor))
  {
    assert Speakers(data, start, i + 1) == ReadLine(Speakers(data, start, i), i, data[i]);
    ReadLineSpec(data, start, i, actor, Speakers(data, start, i));
  }

  lemma {:induction false} ReadLineSpec(data: seq<Row>, start: nat, i: nat, actor: string, m: OMap<string, Info>)
    requires start <= i < |data|
    requires SpeakerEntry(data, start, i, actor, Get(m, actor))
    ensures SpeakerEntry(data, start, i + 1, actor, Get(ReadLine(m, i, data[i]), actor))
  {
    if IsLineOf(data, i, actor) {
      SpeakerStep(data, start, i, actor, Get(m, actor));
    } else {
      ReadLineOther(m, i, data[i], actor);
      SpeakerEntryExtend(data, start, i, actor, Get(m, actor));
    }
  }

  /** Reading a row that is not a line of `actor` does not change `actor`'s entry. */
  lemma {:induction false} ReadLineOther(m: OMap<string, Info>, i: nat, row: Row, actor: string)
    requires !(row.kategorie == Actor && row.charakter != "" && ToUpper(row.charakter) == actor)
    ensures Get(ReadLine(m, i, row), actor) == Get(m, actor)
  {
    if row.kategorie == Actor && row.charakter != "" {
      var a := ToUpper(row.charakter);
      match Get(m, a)
      case None => PutOther(m, a, Info(i, i, row.mikrofon), actor);
      case Some(info) =>
        PutOther(m, a, Info(info.firstLine, i, if row.mikrofon != "" && info.mic == "" then row.mikrofon else info.mic), actor);
    }
  }

  /** A row that is not a line of `actor` leaves what is known about `actor` as it was. */
  lemma {:induction false} SpeakerEntryExtend(data: seq<Row>, start: nat, i: nat, actor: string, o: Option<Info>)
    requires start <= i < |data| && !IsLineOf(data, i, actor)
    requires SpeakerEntry(data, start, i, actor, o)
    ensures SpeakerEntry(data, start, i + 1, actor, o)
  {
    match o
    case None =>
      forall j | start <= j < i + 1 ensures !IsLineOf(data, j, actor) {
        if j < i { assert start <= j < i; }
      }
    case Some(info) =>
      forall j | info.lastLine < j < i + 1 ensures !IsLineOf(data, j, actor) {
        if j < i { assert info.lastLine < j < i; }
      }
      FirstMicExtend(data, start, i, actor, info.mic);
  }

  lemma {:induction false} FirstMicExtend(data: seq<Row>, start: nat, i: nat, actor: string, mic: string)
    requires start <= i < |data| && !IsLineOf(data, i, actor)
    requires FirstMic(data, start, i, actor, mic)
    ensures FirstMic(data, start, i + 1, actor, mic)
  {
    if mic != "" {
      var j :| start <= j < i && IsLineOf(data, j, actor) && data[j].mikrofon == mic
        && forall j' | start <= j' < j && IsLineOf(data, j', actor) :: data[j'].mikrofon == "";
      assert start <= j < i + 1;
    } else {
      forall j | start <= j < i + 1 && IsLineOf(data, j, actor) ensures data[j].mikrofon == "" {
        assert j < i;
      }
    }
  }

  lemma {:induction false} SpeakerStep(data: seq<Row>, start: nat, i: nat, actor: string, o: Option<Info>)
    requires start <= i < |data| && IsLineOf(data, i, actor)
    requires SpeakerEntry(data, start, i, actor, o)
    ensures SpeakerEntry(data, start, i + 1, actor, Some(
      match o
      case None => Info(i, i, data[i].mikrofon)
      case Some(info) => Info(info.firstLine, i, if data[i].mikrofon != "" && info.mic == "" then data[i].mikrofon else info.mic)))
  {
    var mic := data[i].mikrofon;
    match o
    case None =>
      if mic != "" {
        assert IsLineOf(data, i, actor) && data[i].mikrofon == mic;
      }
    case Some(info) =>
      if info.mic == "" && mic != "" {
        assert IsLineOf(data, i, actor) && data[i].mikrofon == mic;
      } else if info.mic != "" {
        var j :| start <= j < i && IsLineOf(data, j, actor) && data[j].mikrofon == info.mic
          && forall j' | start <= j' < j && IsLineOf(data, j', actor) :: data[j'].mikrofon == "";
        assert start <= j < i + 1;
      }
  }

  /** `getSpeakingActorsInScene`: reads rows `sceneStart..sceneEnd` (inclusive). */
  method GetSpeakingActorsInScene(data: seq<Row>, sceneStart: nat, sceneEnd: nat)
      returns (actors: OMap<string, Info>)
    requires sceneEnd < sceneStart || sceneEnd < |data|
    ensures actors == Speakers(data, sceneStart, if sceneEnd < sceneStart then sceneStart else sceneEnd + 1)
  {
    actors := Empty();
    var i := sceneStart;
    while i <= sceneEnd
      invariant sceneStart <= i && (i <= sceneEnd + 1 || i == sceneStart)
      invariant actors == Speakers(data, sceneStart, i)
      decreases sceneEnd - i
    {
      actors := ReadRow(actors, i, data[i]);
      i := i + 1;
    }
  }

  /** The body of the loop over the scene's rows: records a spoken line in the actor map. */
  method ReadRow(actors: OMap<string, Info>, i: nat, row: Row) returns (actors': OMap<string, Info>)
    ensures actors' == ReadLine(actors, i, row)
  {
    actors' := actors;
    if row.kategorie == Actor && row.charakter != "" {
      var actor := ToUpper(row.charakter);
      var known := Get(actors, actor);
      if known.None? {
        actors' := Put(actors, actor, Info(i, i, row.mikrofon));
      } else {
        var info := known.value.(lastLine := i);
        if row.mikrofon != "" && info.mic == "" {
          info := info.(mic := row.mikrofon);
        }
        actors' := Put(actors, actor, info);
      }
    }
  }

  // ---------------------------------------------------------------- virtual rows

  /** An actor listed in a cue: upper-cased name and microphone (possibly empty). */
  datatype MicActor = MicActor(name: string, mic: string)

  /** `NAME (mic)`, or `NAME` when the microphone is empty. */
  function Label(a: MicActor): (s: string)
    ensures a.mic == "" ==> s == a.name
    ensures a.mic != "" ==> s == a.name + " (" + a.mic + ")"
  {
    if a.mic != "" then a.name + " (" + a.mic + ")" else a.name
  }

  /** `Array.prototype.join`. */
  function Join(parts: seq<string>, sep: string): (s: string)
    ensures |parts| == 1 ==> s == parts[0]
  {
    if parts == [] then ""
    else if |parts| == 1 then parts[0]
    else Join(parts[..|parts| - 1], sep) + sep + parts[|parts| - 1]
  }

  function Labels(actors: seq<MicActor>): (ls: seq<string>)
    ensures |ls| == |actors| && forall k | 0 <= k < |actors| :: ls[k] == Label(actors[k])
  {
    seq(|actors|, k requires 0 <= k < |actors| => Label(actors[k]))
  }

  /** `createMicCueRow`: a generated row of the microphone category listing the actors, then `kind`. */
  function CreateMicCueRow(scene: string, actors: seq<MicActor>, kind: string): (r: Row)
    ensures r.szene == scene && r.kategorie == Microphone && r.charakter == "" && r.mikrofon == "" && r.isAutoMic
    ensures r.text == Join(Labels(actors), ", ") + " " + kind
  {
    Row(scene, Microphone, "", "", Join(Labels(actors), ", ") + " " + kind, true)
  }

  /** A cue row's text ends with a space and its kind, and starts with the first actor's label. */
  lemma {:induction false} CueTextShape(actors: seq<MicActor>, kind: string)
    requires actors != []
    ensures var t := CreateMicCueRow("", actors, kind).text;
      && |kind| + 1 <= |t| && t[|t| - |kind| - 1..] == " " + kind
      && |Label(actors[0])| <= |t| && t[..|Label(actors[0])|] == Label(actors[0])
  {
    JoinStartsWithFirst(Labels(actors), ", ");
  }

  lemma {:induction false} JoinStartsWithFirst(parts: seq<string>, sep: string)
    requires parts != []
    ensures |parts[0]| <= |Join(parts, sep)| && Join(parts, sep)[..|parts[0]|] == parts[0]
  {
    if |parts| > 1 {
      var init := parts[..|parts| - 1];
      JoinStartsWithFirst(init, sep);
      assert init[0] == parts[0];
      var j := Join(init, sep);
      assert (j + sep + parts[|parts| - 1])[..|parts[0]|] == j[..|parts[0]|];
    }
  }

  // ---------------------------------------------------------------- insertion plan

  /** One speaking actor of one scene, with the positions of its ON and OFF rows. */
  datatype Cue = Cue(scene: string, actor: MicActor, onIdx: nat, offIdx: nat)

  /**
   * The cue of `actor` in scene `scene` spanning `b`: ON after the entrance direction (or after the
   * scene's first row), OFF after the exit direction (or after the scene's last row).
   */
  function CueOf(data: seq<Row>, scene: string, b: Bounds, actor: string, info: Info): Cue {
    var entrance := LastMention(data, b.start, info.firstLine, actor);
    var exit := FirstMention(data, info.lastLine + 1, b.end + 1, actor);
    Cue(scene, MicActor(actor, info.mic),
        if entrance.Some? then entrance.value + 1 else b.start + 1,
        if exit.Some? then exit.value + 1 else b.end + 1)
  }

  /** The cues of a scene's speaking actors, in the actor map's order. */
  function SceneCues(data: seq<Row>, scene: string, b: Bounds, sp: seq<(string, Info)>): (cs: seq<Cue>)
    ensures |cs| == |sp|
  {
    if sp == [] then []
    else SceneCues(data, scene, b, sp[..|sp| - 1]) + [CueOf(data, scene, b, sp[|sp| - 1].0, sp[|sp| - 1].1)]
  }

  /** The speaking actors of the scene spanning `b`, in the actor map's order. */
  function SceneActors(data: seq<Row>, b: Bounds): seq<(string, Info)> {
    Entries(Speakers(data, b.start, b.end + 1))
  }

  /** The scenes of the boundary map, in its order. */
  function SceneEntries(data: seq<Row>): seq<(string, Bounds)> {
    Entries(Boundaries(data))
  }

  /** The cues of all scenes `bs`, in order. */
  function AllCues(data: seq<Row>, bs: seq<(string, Bounds)>): seq<Cue> {
    if bs == [] then []
    else
      var b := bs[|bs| - 1].1;
      AllCues(data, bs[..|bs| - 1]) + SceneCues(data, bs[|bs| - 1].0, b, SceneActors(data, b))
  }

  /** The actors to switch on and off at one insertion index. */
  datatype Group = Group(scene: string, onActors: seq<MicActor>, offActors: seq<MicActor>)

  /** The `insertions` map: insertion index to group. */
  type Plan = OMap<nat, Group>

  /** `if (!insertions.has(idx)) insertions.set(idx, {scene, onActors: [], offActors: []})`. */
  function Touch(ins: Plan, idx: nat, scene: string): (r: Plan)
    ensures Valid(ins) ==> r.keys == if idx in ins.keys then ins.keys else ins.keys + [idx]
    ensures Get(r, idx).Some?
    ensures Get(ins, idx).Some? ==> Get(r, idx) == Get(ins, idx)
    ensures Get(ins, idx).None? ==> Get(r, idx) == Some(Group(scene, [], []))
    ensures Valid(ins) ==> Valid(r)
  {
    if idx in ins.values then ins else Put(ins, idx, Group(scene, [], []))
  }

  lemma {:induction false} TouchOther(ins: Plan, idx: nat, scene: string, q: nat)
    requires q != idx
    ensures Get(Touch(ins, idx, scene), q) == Get(ins, q)
  {
    if idx !in ins.values {
      PutOther(ins, idx, Group(scene, [], []), q);
    }
  }

  /** Recording one cue: its actor joins the ON list at `onIdx` and the OFF list at `offIdx`. */
  function AddCue(ins: Plan, c: Cue): (r: Plan)
    ensures Valid(ins) ==> Valid(r)
  {
    var i1 := Touch(ins, c.onIdx, c.scene);
    var g1 := Get(i1, c.onIdx).value;
    var i2 := Put(i1, c.onIdx, g1.(onActors := g1.onActors + [c.actor]));
    var i3 := Touch(i2, c.offIdx, c.scene);
    var g3 := Get(i3, c.offIdx).value;
    Put(i3, c.offIdx, g3.(offActors := g3.offActors + [c.actor]))
  }

  function AddCues(ins: Plan, cs: seq<Cue>): (r: Plan)
    ensures Valid(ins) ==> Valid(r)
  {
    if cs == [] then ins else AddCue(AddCues(ins, cs[..|cs| - 1]), cs[|cs| - 1])
  }

  /** The `insertions` map of `generateSceneMicCues`. */
  function Insertions(data: seq<Row>): (ins: Plan)
    ensures Valid(ins)
  {
    AddCues(Empty(), AllCues(data, SceneEntries(data)))
  }

  // ---------------------------------------------------------------- what the plan holds

  /** The actors of the cues whose ON row goes at `idx`, in order. */
  function OnAt(cs: seq<Cue>, idx: nat): seq<MicActor> {
    if cs == [] then []
    else OnAt(cs[..|cs| - 1], idx) + (if cs[|cs| - 1].onIdx == idx then [cs[|cs| - 1].actor] else [])
  }

  /** The actors of the cues whose OFF row goes at `idx`, in order. */
  function OffAt(cs: seq<Cue>, idx: nat): seq<MicActor> {
    if cs == [] then []
    else OffAt(cs[..|cs| - 1], idx) + (if cs[|cs| - 1].offIdx == idx then [cs[|cs| - 1].actor] else [])
  }

  /** The scene of the first cue that puts a row at `idx`. */
  function FirstSceneAt(cs: seq<Cue>, idx: nat): Option<string> {
    if cs == [] then None
    else match FirstSceneAt(cs[..|cs| - 1], idx)
      case Some(s) => Some(s)
      case None =>
        if cs[|cs| - 1].onIdx == idx || cs[|cs| - 1].offIdx == idx then Some(cs[|cs| - 1].scene) else None
  }

  /** Every index the cues use, ON before OFF, cue by cue. */
  function Indices(cs: seq<Cue>): seq<nat> {
    if cs == [] then [] else Indices(cs[..|cs| - 1]) + [cs[|cs| - 1].onIdx, cs[|cs| - 1].offIdx]
  }

  /** What the plan holds at `idx` after recording `cs`. */
  function GroupAt(cs: seq<Cue>, idx: nat): Option<Group> {
    match FirstSceneAt(cs, idx)
    case None => None
    case Some(s) => Some(Group(s, OnAt(cs, idx), OffAt(cs, idx)))
  }

  /**
   * The group at an index lists exactly the cues whose ON (OFF) row goes there, in the order they were
   * recorded, under the scene of the first of them; an index no cue uses has no group.
   */
  lemma {:induction false} AddCuesSpec(cs: seq<Cue>, idx: nat)
    ensures Get(AddCues(Empty(), cs), idx) == GroupAt(cs, idx)
  {
    if cs != [] {
      var init, c := cs[..|cs| - 1], cs[|cs| - 1];
      assert cs == init + [c];
      AddCuesSpec(init, idx);
      AddCueAt(AddCues(Empty(), init), c, idx);
      GroupAtSnoc(init, c, idx);
    }
  }

  /** The effect of one more cue on what the plan holds at `idx`. */
  function Record(o: Option<Group>, c: Cue, idx: nat): Option<Group> {
    if idx != c.onIdx && idx != c.offIdx then o
    else
      var g := o.GetOr(Group(c.scene, [], []));
      Some(g.(onActors := g.onActors + (if idx == c.onIdx then [c.actor] else []),
              offActors := g.offActors + (if idx == c.offIdx then [c.actor] else [])))
  }

  lemma {:induction false} GroupAtSnoc(init: seq<Cue>, c: Cue, idx: nat)
    ensures GroupAt(init + [c], idx) == Record(GroupAt(init, idx), c, idx)
  {
    var cs := init + [c];
    assert cs[..|cs| - 1] == init && cs[|cs| - 1] == c;
    var on := if c.onIdx == idx then [c.actor] else [];
    var off := if c.offIdx == idx then [c.actor] else [];
    assert OnAt(cs, idx) == OnAt(init, idx) + on;
    assert OffAt(cs, idx) == OffAt(init, idx) + off;
    if idx != c.onIdx && idx != c.offIdx {
      assert on == [] && off == [];
      assert OnAt(cs, idx) == OnAt(init, idx) && OffAt(cs, idx) == OffAt(init, idx);
      assert FirstSceneAt(cs, idx) == FirstSceneAt(init, idx);
    } else if FirstSceneAt(init, idx).None? {
      UnusedIndex(init, idx);
      assert FirstSceneAt(cs, idx) == Some(c.scene);
      assert OnAt(cs, idx) == on && OffAt(cs, idx) == off;
      assert Record(GroupAt(init, idx), c, idx) == Some(Group(c.scene, [] + on, [] + off));
    } else {
      var sc := FirstSceneAt(init, idx).value;
      assert FirstSceneAt(cs, idx) == Some(sc);
      assert GroupAt(cs, idx) == Some(Group(sc, OnAt(init, idx) + on, OffAt(init, idx) + off));
      assert GroupAt(init, idx) == Some(Group(sc, OnAt(init, idx), OffAt(init, idx)));
    }
  }

  /** An index no cue uses has empty lists. */
  lemma {:induction false} UnusedIndex(cs: seq<Cue>, idx: nat)
    requires FirstSceneAt(cs, idx).None?
    ensures OnAt(cs, idx) == [] && OffAt(cs, idx) == []
  {
    if cs != [] {
      UnusedIndex(cs[..|cs| - 1], idx);
    }
  }

  lemma {:induction false} AddCueAt(ins: Plan, c: Cue, idx: nat)
    ensures Get(AddCue(ins, c), idx) == Record(Get(ins, idx), c, idx)
  {
    var i1 := Touch(ins, c.onIdx, c.scene);
    var g1 := Get(i1, c.onIdx).value;
    var i2 := Put(i1, c.onIdx, g1.(onActors := g1.onActors + [c.actor]));
    var i3 := Touch(i2, c.offIdx, c.scene);
    var g3 := Get(i3, c.offIdx).value;
    var base := Get(ins, idx).GetOr(Group(c.scene, [], []));
    if idx == c.onIdx {
      assert g1 == base;
      if idx == c.offIdx {
        assert g3 == g1.(onActors := g1.onActors + [c.actor]);
      } else {
        TouchOther(i2, c.offIdx, c.scene, idx);
        PutOther(i3, c.offIdx, g3.(offActors := g3.offActors + [c.actor]), idx);
        assert base.offActors + [] == base.offActors;
      }
    } else {
      TouchOther(ins, c.onIdx, c.scene, idx);
      PutOther(i1, c.onIdx, g1.(onActors := g1.onActors + [c.actor]), idx);
      if idx == c.offIdx {
        assert g3 == base;
        assert base.onActors + [] == base.onActors;
      } else {
        TouchOther(i2, c.offIdx, c.scene, idx);
        PutOther(i3, c.offIdx, g3.(offActors := g3.offActors + [c.actor]), idx);
      }
    }
  }

  /** The plan's indices are the cues' indices, each once, in order of first use. */
  lemma {:induction false} AddCuesKeys(cs: seq<Cue>)
    ensures AddCues(Empty(), cs).keys == Dedup(Indices(cs))
  {
    if cs != [] {
      var init, c := cs[..|cs| - 1], cs[|cs| - 1];
      AddCuesKeys(init);
      var ix := Indices(init);
      assert Indices(cs) == ix + [c.onIdx] + [c.offIdx];
      DedupSnoc(ix, c.onIdx);
      DedupSnoc(ix + [c.onIdx], c.offIdx);
    }
  }

  /** A cue's actors, in order. */
  function Actors(cs: seq<Cue>): (as_: seq<MicActor>)
    ensures |as_| == |cs|
  {
    if cs == [] then [] else Actors(cs[..|cs| - 1]) + [cs[|cs| - 1].actor]
  }

  lemma {:induction false} ActorsSnoc(cs: seq<Cue>, c: Cue)
    ensures Actors(cs + [c]) == Actors(cs) + [c.actor]
  {
    assert (cs + [c])[..|cs|] == cs;
  }

  /** The ON list at `idx` holds exactly the actors of the cues whose ON row goes there, in order. */
  lemma {:induction false} OnAtFilter(cs: seq<Cue>, idx: nat)
    ensures OnAt(cs, idx) == Actors(Filter(cs, (c: Cue) => c.onIdx == idx))
  {
    if cs != [] {
      var init, c := cs[..|cs| - 1], cs[|cs| - 1];
      var p := (c: Cue) => c.onIdx == idx;
      OnAtFilter(init, idx);
      var f := Filter(init, p);
      assert Filter(cs, p) == f + (if p(c) then [c] else []);
      if p(c) {
        ActorsSnoc(f, c);
      } else {
        assert OnAt(cs, idx) == OnAt(init, idx) + [];
        assert f + [] == f;
      }
    }
  }

  /** The OFF list at `idx` holds exactly the actors of the cues whose OFF row goes there, in order. */
  lemma {:induction false} OffAtFilter(cs: seq<Cue>, idx: nat)
    ensures OffAt(cs, idx) == Actors(Filter(cs, (c: Cue) => c.offIdx == idx))
  {
    if cs != [] {
      var init, c := cs[..|cs| - 1], cs[|cs| - 1];
      var p := (c: Cue) => c.offIdx == idx;
      OffAtFilter(init, idx);
      var f := Filter(init, p);
      assert Filter(cs, p) == f + (if p(c) then [c] else []);
      if p(c) {
        ActorsSnoc(f, c);
      } else {
        assert OffAt(cs, idx) == OffAt(init, idx) + [];
        assert f + [] == f;
      }
    }
  }

  /** Every group in the plan has an actor to switch on or off. */
  lemma {:induction false} UsedIndex(cs: seq<Cue>, idx: nat)
    requires FirstSceneAt(cs, idx).Some?
    ensures OnAt(cs, idx) != [] || OffAt(cs, idx) != []
  {
    var init, c := cs[..|cs| - 1], cs[|cs| - 1];
    if FirstSceneAt(init, idx).Some? {
      UsedIndex(init, idx);
    }
  }

  // ---------------------------------------------------------------- where the cues go

  /**
   * The ON row of `actor` goes right after the last stage direction before the actor's first line
   * that mentions the actor, or after the scene's first row when there is none; the OFF row right
   * after the first such direction after the actor's last line, or after the scene's last row.
   */
  predicate Placed(data: seq<Row>, c: Cue, b: Bounds, actor: string, info: Info) {
    && b.start + 1 <= c.onIdx <= b.end + 1
    && info.lastLine + 1 <= c.offIdx <= b.end + 1
    && (|| (c.onIdx <= info.firstLine && Mentions(data, c.onIdx - 1, actor)
            && forall j | c.onIdx <= j < info.firstLine :: !Mentions(data, j, actor))
        || (c.onIdx == b.start + 1 && forall j | b.start <= j < info.firstLine :: !Mentions(data, j, actor)))
    && (|| (info.lastLine + 2 <= c.offIdx && Mentions(data, c.offIdx - 1, actor)
            && forall j | info.lastLine < j < c.offIdx - 1 :: !Mentions(data, j, actor))
        || (c.offIdx == b.end + 1 && forall j | info.lastLine < j <= b.end :: !Mentions(data, j, actor)))
  }

  lemma {:induction false} CueOfPlaced(data: seq<Row>, scene: string, b: Bounds, actor: string, info: Info)
    requires b.start <= info.firstLine <= info.lastLine <= b.end < |data|
    ensures var c := CueOf(data, scene, b, actor, info);
      c.scene == scene && c.actor == MicActor(actor, info.mic) && Placed(data, c, b, actor, info)
  {
  }

  /**
   * When the scene's first row is the actor's first line and no direction mentions the actor before
   * it, the ON row goes after that line; in a scene of one row its OFF row goes to the same index.
   */
  lemma {:induction false} LateEntrance(data: seq<Row>, scene: string, b: Bounds, actor: string, info: Info)
    requires b.start == info.firstLine <= info.lastLine <= b.end < |data|
    ensures CueOf(data, scene, b, actor, info).onIdx == info.firstLine + 1
    ensures b.start == b.end ==> CueOf(data, scene, b, actor, info).offIdx == info.firstLine + 1
  {
  }

  /** A cue is that of one speaking actor of the scene. */
  predicate CueOfScene(data: seq<Row>, e: (string, Bounds), c: Cue) {
    var sp := SceneActors(data, e.1);
    exists j | 0 <= j < |sp| :: c == CueOf(data, e.0, e.1, sp[j].0, sp[j].1)
  }

  lemma {:induction false} SceneCuesOrigin(data: seq<Row>, scene: string, b: Bounds, sp: seq<(string, Info)>, i: nat)
    requires i < |sp|
    ensures SceneCues(data, scene, b, sp)[i] == CueOf(data, scene, b, sp[i].0, sp[i].1)
  {
    if i < |sp| - 1 {
      SceneCuesOrigin(data, scene, b, sp[..|sp| - 1], i);
    }
  }

  /** Every cue comes from one scene of `bs`. */
  lemma {:induction false} AllCuesOrigin(data: seq<Row>, bs: seq<(string, Bounds)>, i: nat)
    requires i < |AllCues(data, bs)|
    ensures exists k | 0 <= k < |bs| :: CueOfScene(data, bs[k], AllCues(data, bs)[i])
  {
    var init, e := bs[..|bs| - 1], bs[|bs| - 1];
    var pre := AllCues(data, init);
    var sp := SceneActors(data, e.1);
    if i < |pre| {
      AllCuesOrigin(data, init, i);
      var k :| 0 <= k < |init| && CueOfScene(data, init[k], pre[i]);
      assert bs[k] == init[k];
    } else {
      SceneCuesOrigin(data, e.0, e.1, sp, i - |pre|);
      assert CueOfScene(data, bs[|bs| - 1], AllCues(data, bs)[i]);
    }
  }

  /** A cue of a scene's speaking actor, given with that actor's entry. */
  predicate CueFromEntry(data: seq<Row>, e: (string, Bounds), c: Cue, actor: string, info: Info) {
    && Get(Speakers(data, e.1.start, e.1.end + 1), actor) == Some(info)
    && c == CueOf(data, e.0, e.1, actor, info)
    && Placed(data, c, e.1, actor, info)
  }

  lemma {:induction false} SceneCuePlaced(data: seq<Row>, e: (string, Bounds), c: Cue)
    requires e.1.start <= e.1.end < |data| && CueOfScene(data, e, c)
    ensures exists actor, info :: CueFromEntry(data, e, c, actor, info)
  {
    var sp := SceneActors(data, e.1);
    var j :| 0 <= j < |sp| && c == CueOf(data, e.0, e.1, sp[j].0, sp[j].1);
    SpeakersSpec(data, e.1.start, e.1.end + 1, sp[j].0);
    CueOfPlaced(data, e.0, e.1, sp[j].0, sp[j].1);
    assert CueFromEntry(data, e, c, sp[j].0, sp[j].1);
  }

  /** Every cue of the script is that of a speaking actor of one scene, placed as `Placed` says. */
  lemma {:induction false} CuePlaced(data: seq<Row>, i: nat)
    requires i < |AllCues(data, SceneEntries(data))|
    ensures exists k, actor, info | 0 <= k < |SceneEntries(data)| ::
      CueFromEntry(data, SceneEntries(data)[k], AllCues(data, SceneEntries(data))[i], actor, info)
  {
    var bs := SceneEntries(data);
    var c := AllCues(data, bs)[i];
    AllCuesOrigin(data, bs, i);
    var k :| 0 <= k < |bs| && CueOfScene(data, bs[k], c);
    SceneEntriesInside(data, k);
    SceneCuePlaced(data, bs[k], c);
    var actor, info :| CueFromEntry(data, bs[k], c, actor, info);
  }

  /** The scene of the `k`-th entry spans a non-empty range of rows. */
  lemma {:induction false} SceneEntriesInside(data: seq<Row>, k: nat)
    requires k < |SceneEntries(data)|
    ensures SceneEntries(data)[k].1.start <= SceneEntries(data)[k].1.end < |data|
  {
    BoundariesInside(data);
    assert SceneEntries(data)[k].0 in Boundaries(data).values;
  }

  /** Every insertion index lies in `1..|data|`. */
  lemma {:induction false} InsertionsInside(data: seq<Row>)
    ensures forall x | x in Insertions(data).keys :: 1 <= x <= |data|
  {
    var cs := AllCues(data, SceneEntries(data));
    AddCuesKeys(cs);
    forall x | x in Insertions(data).keys ensures 1 <= x <= |data| {
      InsertionIndexInside(data, cs, x);
    }
  }

  lemma {:induction false} InsertionIndexInside(data: seq<Row>, cs: seq<Cue>, x: nat)
    requires cs == AllCues(data, SceneEntries(data)) && x in Dedup(Indices(cs))
    ensures 1 <= x <= |data|
  {
    IndicesOrigin(cs, x);
    var i :| 0 <= i < |cs| && (cs[i].onIdx == x || cs[i].offIdx == x);
    CuePlaced(data, i);
    var k, actor, info :| 0 <= k < |SceneEntries(data)| && CueFromEntry(data, SceneEntries(data)[k], cs[i], actor, info);
  }

  lemma {:induction false} IndicesOrigin(cs: seq<Cue>, x: nat)
    requires x in Indices(cs)
    ensures exists i | 0 <= i < |cs| :: cs[i].onIdx == x || cs[i].offIdx == x
  {
    var init, c := cs[..|cs| - 1], cs[|cs| - 1];
    if x in Indices(init) {
      IndicesOrigin(init, x);
      var i :| 0 <= i < |init| && (init[i].onIdx == x || init[i].offIdx == x);
      assert cs[i] == init[i];
    } else {
      assert cs[|cs| - 1].onIdx == x || cs[|cs| - 1].offIdx == x;
    }
  }

  /**
   * Each actor speaking in a scene is listed in the ON group at its `onIdx` and in the OFF group at
   * its `offIdx`.
   */
  lemma {:induction false} ActorSwitchedOnAndOff(data: seq<Row>, k: nat, actor: string, info: Info)
    requires k < |SceneEntries(data)|
    requires Get(Speakers(data, SceneEntries(data)[k].1.start, SceneEntries(data)[k].1.end + 1), actor) == Some(info)
    ensures var c := CueOf(data, SceneEntries(data)[k].0, SceneEntries(data)[k].1, actor, info);
      && Get(Insertions(data), c.onIdx).Some? && c.actor in Get(Insertions(data), c.onIdx).value.onActors
      && Get(Insertions(data), c.offIdx).Some? && c.actor in Get(Insertions(data), c.offIdx).value.offActors
  {
    var bs := SceneEntries(data);
    var e := bs[k];
    var sp := SceneActors(data, e.1);
    var c := CueOf(data, e.0, e.1, actor, info);
    var j := FirstIndex(Speakers(data, e.1.start, e.1.end + 1).keys, actor);
    assert sp[j] == (actor, info);
    SceneCuesOrigin(data, e.0, e.1, sp, j);
    var cs := AllCues(data, bs);
    AllCuesContains(data, bs, k, j);
    var i :| 0 <= i < |cs| && cs[i] == c;
    AddCuesSpec(cs, c.onIdx);
    AddCuesSpec(cs, c.offIdx);
    FirstSceneAtUsed(cs, i);
    OnAtContains(cs, i);
    OffAtContains(cs, i);
  }

  lemma {:induction false} AllCuesContains(data: seq<Row>, bs: seq<(string, Bounds)>, k: nat, j: nat)
    requires k < |bs| && j < |SceneActors(data, bs[k].1)|
    ensures SceneCues(data, bs[k].0, bs[k].1, SceneActors(data, bs[k].1))[j] in AllCues(data, bs)
    decreases |bs|
  {
    if k < |bs| - 1 {
      AllCuesContains(data, bs[..|bs| - 1], k, j);
    }
  }

  lemma {:induction false} FirstSceneAtUsed(cs: seq<Cue>, i: nat)
    requires i < |cs|
    ensures FirstSceneAt(cs, cs[i].onIdx).Some? && FirstSceneAt(cs, cs[i].offIdx).Some?
  {
    var init := cs[..|cs| - 1];
    if i < |cs| - 1 {
      FirstSceneAtUsed(init, i);
    }
  }

  lemma {:induction false} OnAtContains(cs: seq<Cue>, i: nat)
    requires i < |cs|
    ensures cs[i].actor in OnAt(cs, cs[i].onIdx)
  {
    var init := cs[..|cs| - 1];
    if i < |cs| - 1 {
      OnAtContains(init, i);
    }
  }

  lemma {:induction false} OffAtContains(cs: seq<Cue>, i: nat)
    requires i < |cs|
    ensures cs[i].actor in OffAt(cs, cs[i].offIdx)
  {
    var init := cs[..|cs| - 1];
    if i < |cs| - 1 {
      OffAtContains(init, i);
    }
  }

  // ---------------------------------------------------------------- splicing the rows in

  /** The rows spliced in at one index: the OFF row, if any actor goes off, before the ON row. */
  function RowsAt(g: Group): (rs: seq<Row>)
    ensures |rs| <= 2
    ensures forall k | 0 <= k < |rs| :: IsCueRow(rs[k]) && rs[k].szene == g.scene
  {
    (if g.offActors != [] then [CreateMicCueRow(g.scene, g.offActors, "AUS")] else [])
    + (if g.onActors != [] then [CreateMicCueRow(g.scene, g.onActors, "EIN")] else [])
  }

  /** A generated row: microphone category, no character and no microphone of its own. */
  predicate IsCueRow(r: Row) {
    r.isAutoMic && r.kategorie == Microphone && r.charakter == "" && r.mikrofon == ""
  }

  /** A cue row whose text ends in `" " + kind`. */
  predicate IsCueOfKind(r: Row, kind: string) {
    IsCueRow(r) && |kind| + 1 <= |r.text| && r.text[|r.text| - |kind| - 1..] == " " + kind
  }

  /** Each index yields at most one AUS row followed by at most one EIN row, and a group with actors yields a row. */
  lemma {:induction false} RowsAtShape(g: Group)
    ensures RowsAt(g) == [] <==> g.offActors == [] && g.onActors == []
    ensures g.offActors != [] ==> IsCueOfKind(RowsAt(g)[0], "AUS")
    ensures g.onActors != [] ==> IsCueOfKind(RowsAt(g)[|RowsAt(g)| - 1], "EIN")
    ensures |RowsAt(g)| == 2 <==> g.offActors != [] && g.onActors != []
  {
    if g.offActors != [] { CueTextShape(g.offActors, "AUS"); }
    if g.onActors != [] { CueTextShape(g.onActors, "EIN"); }
  }

  /** The rows planned at index `p`. */
  function RowsOf(ins: Plan, p: nat): seq<Row> {
    match Get(ins, p)
    case Some(g) => RowsAt(g)
    case None => []
  }

  /** The output from original row `p` on: at each index the rows planned there, then the original row. */
  function Weave(data: seq<Row>, ins: Plan, p: nat): seq<Row>
    requires p <= |data|
    decreases |data| - p
  {
    RowsOf(ins, p) + if p < |data| then [data[p]] + Weave(data, ins, p + 1) else []
  }

  /** What `generateSceneMicCues` returns. */
  function MicCueScript(data: seq<Row>): seq<Row> {
    Weave(data, Insertions(data), 0)
  }

  /** At an index with nothing planned the original row comes next. */
  lemma {:induction false} WeaveNothingAt(data: seq<Row>, ins: Plan, a: nat)
    requires a < |data| && a !in ins.values
    ensures Weave(data, ins, a) == [data[a]] + Weave(data, ins, a + 1)
  {
    assert RowsOf(ins, a) == [];
  }

  lemma {:induction false} WeaveAt(data: seq<Row>, ins: Plan, a: nat)
    requires a < |data|
    ensures Weave(data, ins, a) == RowsOf(ins, a) + ([data[a]] + Weave(data, ins, a + 1))
  {
  }

  lemma {:induction false} DropCons(s: seq<Row>, a: nat)
    requires a < |s|
    ensures s[a..] == [s[a]] + s[a + 1..]
  {
  }

  lemma {:induction false} SliceCons(s: seq<Row>, a: nat, b: nat)
    requires a < b <= |s|
    ensures s[a..b] == [s[a]] + s[a + 1..b]
  {
  }

  lemma {:induction false} ConsAssoc(x: Row, s: seq<Row>, t: seq<Row>)
    ensures [x] + s + t == [x] + (s + t)
  {
  }

  lemma {:induction false} Assoc(r: seq<Row>, s: seq<Row>, t: seq<Row>)
    ensures r + s + t == r + (s + t)
  {
  }

  lemma {:induction false} SplitAppend(x: seq<Row>, y: seq<Row>, n: nat)
    requires n <= |x|
    ensures (x + y)[..n] == x[..n] && (x + y)[n..] == x[n..] + y
  {
  }

  lemma {:induction false} SlicesOfPrefix(s: seq<Row>, n: nat, d: nat)
    requires n <= d <= |s|
    ensures s[..d][..n] == s[..n] && s[..d][n..] == s[n..d]
  {
  }

  /** Between indices with nothing planned the original rows follow one another. */
  lemma {:induction false} WeaveGap(data: seq<Row>, ins: Plan, a: nat, b: nat)
    requires a <= b <= |data|
    requires forall k | a <= k < b :: k !in ins.values
    ensures Weave(data, ins, a) == data[a..b] + Weave(data, ins, b)
    decreases b - a
  {
    if a < b {
      WeaveGap(data, ins, a + 1, b);
      WeaveNothingAt(data, ins, a);
      ConsAssoc(data[a], data[a + 1..b], Weave(data, ins, b));
      SliceCons(data, a, b);
    }
  }

  lemma {:induction false} WeaveRest(data: seq<Row>, ins: Plan, a: nat)
    requires a <= |data|
    requires forall k | a <= k <= |data| :: k !in ins.values
    ensures Weave(data, ins, a) == data[a..]
  {
    WeaveGap(data, ins, a, |data|);
    assert RowsOf(ins, |data|) == [];
  }

  /** Splicing the rows of index `idx` into the output built so far down to `d > idx`. */
  lemma {:induction false} SpliceStep(data: seq<Row>, ins: Plan, idx: nat, d: nat)
    requires idx < d <= |data|
    requires forall k | idx < k < d :: k !in ins.values
    ensures var r := data[..d] + Weave(data, ins, d);
      r[..idx] + RowsOf(ins, idx) + r[idx..] == data[..idx] + Weave(data, ins, idx)
  {
    var w := Weave(data, ins, d);
    WeaveGap(data, ins, idx + 1, d);
    SplitAppend(data[..d], w, idx);
    SlicesOfPrefix(data, idx, d);
    SliceCons(data, idx, d);
    ConsAssoc(data[idx], data[idx + 1..d], w);
    Assoc(data[..idx], RowsOf(ins, idx), data[idx..d] + w);
  }

  /** Splicing the rows of the largest index into the original rows. */
  lemma {:induction false} SpliceFirst(data: seq<Row>, ins: Plan, idx: nat)
    requires idx <= |data|
    requires forall k | idx < k <= |data| :: k !in ins.values
    ensures data[..idx] + RowsOf(ins, idx) + data[idx..] == data[..idx] + Weave(data, ins, idx)
  {
    Assoc(data[..idx], RowsOf(ins, idx), data[idx..]);
    if idx < |data| {
      WeaveRest(data, ins, idx + 1);
      WeaveAt(data, ins, idx);
      DropCons(data, idx);
    } else {
      assert RowsOf(ins, idx) + [] == RowsOf(ins, idx);
    }
  }

  /** `x => -x`: the key that sorts numbers descending. */
  function Neg(x: nat): int {
    -(x as int)
  }

  predicate StrictlyDescending(d: seq<nat>) {
    forall i, j | 0 <= i < j < |d| :: d[i] > d[j]
  }

  /** `Array.from(keys).sort((a, b) => b - a)` on distinct keys: strictly descending, the same keys. */
  lemma {:induction false} SortDescending(ks: seq<nat>)
    requires Distinct(ks)
    ensures StrictlyDescending(SortByKey(ks, Neg))
    ensures forall k :: k in SortByKey(ks, Neg) <==> k in ks
  {
    var d := SortByKey(ks, Neg);
    DistinctPermutation(ks, d);
    SameMembers(ks, d);
    DistinctDescending(d);
  }

  lemma {:induction false} SameMembers(a: seq<nat>, b: seq<nat>)
    requires multiset(a) == multiset(b)
    ensures forall k :: k in b <==> k in a
  {
    forall k ensures k in b <==> k in a {
      assert k in b <==> k in multiset(b);
      assert k in a <==> k in multiset(a);
    }
  }

  /** Distinct keys in ascending order of `Neg` are strictly descending. */
  lemma {:induction false} DistinctDescending(d: seq<nat>)
    requires SortedByKey(d, Neg) && Distinct(d)
    ensures StrictlyDescending(d)
  {
    forall i, j | 0 <= i < j < |d| ensures d[i] > d[j] {
      assert Neg(d[i]) <= Neg(d[j]) && d[i] != d[j];
    }
  }

  /** A key of a strictly descending sequence is at least its last element and lies outside the gap above `d[t]`. */
  lemma {:induction false} DescendingGap(d: seq<nat>, t: nat, k: nat)
    requires StrictlyDescending(d) && t < |d|
    ensures k in d ==> k <= d[t] || (t > 0 && k >= d[t - 1])
    ensures k in d ==> k >= d[|d| - 1]
  {
    if k in d {
      var j :| 0 <= j < |d| && d[j] == k;
    }
  }

  /** `d` lists every key of `ins` once, largest first. */
  ghost predicate DescendingKeys(ins: Plan, d: seq<nat>) {
    Valid(ins) && StrictlyDescending(d) && forall k: nat :: k in d <==> k in ins.keys
  }

  /** `Array.from(insertions.keys()).sort((a, b) => b - a)`. */
  method SortedIndices(ins: Plan) returns (d: seq<nat>)
    requires Valid(ins) && Distinct(ins.keys)
    ensures DescendingKeys(ins, d)
  {
    d := SortByKey(ins.keys, Neg);
    SortDescending(ins.keys);
  }

  /** `generateSceneMicCues`: plans every scene's cues, then splices the rows in, largest index first. */
  method GenerateSceneMicCues(data: seq<Row>) returns (result: seq<Row>)
    ensures result == MicCueScript(data)
  {
    if |data| == 0 {
      assert SceneEntries(data) == [];
      return data;
    }
    var sceneBoundaries := GetSceneBoundaries(data);
    var entries := Entries(sceneBoundaries);
    var insertions: Plan := Empty();
    var k := 0;
    while k < |entries|
      invariant k <= |entries|
      invariant insertions == AddCues(Empty(), AllCues(data, entries[..k]))
    {
      insertions := PlanBoundary(data, entries, k, insertions);
      k := k + 1;
    }
    InsertionsReady(data);
    result := SpliceAll(data, insertions);
  }

  /** One round of the loop over the scene boundaries: the speaking actors of scene `k`, then their cues. */
  method PlanBoundary(data: seq<Row>, entries: seq<(string, Bounds)>, k: nat, insertions: Plan)
      returns (ins: Plan)
    requires entries == SceneEntries(data) && k < |entries|
    requires insertions == AddCues(Empty(), AllCues(data, entries[..k]))
    ensures ins == AddCues(Empty(), AllCues(data, entries[..k + 1]))
  {
    var scene, b := entries[k].0, entries[k].1;
    PlanNext(data, k);
    var speakingActors := GetSpeakingActorsInScene(data, b.start, b.end);
    assert speakingActors == Speakers(data, b.start, b.end + 1);
    var sp := Entries(speakingActors);
    assert sp == SceneActors(data, b);
    SpeakersInside(data, b.start, b.end + 1);
    ins := PlanScene(data, scene, b, sp, insertions);
  }

  /** One more scene of the boundary map planned. */
  lemma {:induction false} PlanNext(data: seq<Row>, k: nat)
    requires k < |SceneEntries(data)|
    ensures var e := SceneEntries(data)[k];
      && e.1.start <= e.1.end < |data|
      && AddCues(Empty(), AllCues(data, SceneEntries(data)[..k + 1]))
         == AddCues(AddCues(Empty(), AllCues(data, SceneEntries(data)[..k])), SceneCues(data, e.0, e.1, SceneActors(data, e.1)))
  {
    var bs := SceneEntries(data);
    SceneEntriesInside(data, k);
    AllCuesSnoc(data, bs, k);
    var e := bs[k];
    AddCuesAppend(Empty(), AllCues(data, bs[..k]), SceneCues(data, e.0, e.1, SceneActors(data, e.1)));
  }

  lemma {:induction false} AllCuesSnoc(data: seq<Row>, bs: seq<(string, Bounds)>, k: nat)
    requires k < |bs|
    ensures AllCues(data, bs[..k + 1]) == AllCues(data, bs[..k]) + SceneCues(data, bs[k].0, bs[k].1, SceneActors(data, bs[k].1))
  {
    assert bs[..k + 1][..k] == bs[..k];
  }

  /** After the last scene the plan is `Insertions(data)`, with its indices in `1..|data|`. */
  lemma {:induction false} InsertionsReady(data: seq<Row>)
    ensures AddCues(Empty(), AllCues(data, SceneEntries(data)[..|SceneEntries(data)|])) == Insertions(data)
    ensures Distinct(Insertions(data).keys)
    ensures forall x | x in Insertions(data).keys :: x <= |data|
  {
    assert SceneEntries(data)[..|SceneEntries(data)|] == SceneEntries(data);
    AddCuesKeys(AllCues(data, SceneEntries(data)));
    InsertionsInside(data);
  }

  /** The loop over one scene's speaking actors `sp`: records the cue of each. */
  method PlanScene(data: seq<Row>, scene: string, b: Bounds, sp: seq<(string, Info)>, insertions: Plan)
      returns (ins: Plan)
    requires b.end < |data|
    requires forall k | 0 <= k < |sp| :: b.start <= sp[k].1.firstLine <= sp[k].1.lastLine <= b.end
    ensures ins == AddCues(insertions, SceneCues(data, scene, b, sp))
  {
    ins := insertions;
    var j := 0;
    while j < |sp|
      invariant j <= |sp|
      invariant ins == AddCues(insertions, SceneCues(data, scene, b, sp[..j]))
    {
      var cue := ActorCue(data, scene, b, sp[j].0, sp[j].1);
      CuesSnoc(data, scene, b, sp, j, insertions);
      ins := RecordCue(ins, cue);
      j := j + 1;
    }
    assert sp[..j] == sp;
  }

  /** The body of the loop over the speaking actors: the two searches and the two insertion indices. */
  method ActorCue(data: seq<Row>, scene: string, b: Bounds, actorName: string, info: Info) returns (cue: Cue)
    requires b.start <= info.firstLine <= info.lastLine <= b.end < |data|
    ensures cue == CueOf(data, scene, b, actorName, info)
  {
    var entranceAnweisung := FindEntranceAnweisung(data, b.start, info.firstLine, actorName);
    var onInsertIdx := if entranceAnweisung.Some? then entranceAnweisung.value + 1 else b.start + 1;
    var exitAnweisung := FindExitAnweisung(data, info.lastLine, b.end, actorName);
    var offInsertIdx := if exitAnweisung.Some? then exitAnweisung.value + 1 else b.end + 1;
    cue := Cue(scene, MicActor(actorName, info.mic), onInsertIdx, offInsertIdx);
  }

  /** Each entry of the actor map lies within the rows read. */
  lemma {:induction false} SpeakersInside(data: seq<Row>, start: nat, stop: nat)
    requires start <= stop <= |data|
    ensures var es := Entries(Speakers(data, start, stop));
      forall k | 0 <= k < |es| :: start <= es[k].1.firstLine <= es[k].1.lastLine < stop
  {
    var es := Entries(Speakers(data, start, stop));
    forall k | 0 <= k < |es| ensures start <= es[k].1.firstLine <= es[k].1.lastLine < stop {
      SpeakersSpec(data, start, stop, es[k].0);
    }
  }

  /** The grouping statements: the actor joins the ON group at `onIdx` and the OFF group at `offIdx`. */
  method RecordCue(insertions: Plan, c: Cue) returns (ins: Plan)
    ensures ins == AddCue(insertions, c)
  {
    ins := insertions;
    if c.onIdx !in ins.values {
      ins := Put(ins, c.onIdx, Group(c.scene, [], []));
    }
    var g := Get(ins, c.onIdx).value;
    ins := Put(ins, c.onIdx, g.(onActors := g.onActors + [c.actor]));
    if c.offIdx !in ins.values {
      ins := Put(ins, c.offIdx, Group(c.scene, [], []));
    }
    g := Get(ins, c.offIdx).value;
    ins := Put(ins, c.offIdx, g.(offActors := g.offActors + [c.actor]));
  }

  /** The splice loop: inserts each index's rows, largest index first, into a copy of `data`. */
  method SpliceAll(data: seq<Row>, insertions: Plan) returns (result: seq<Row>)
    requires Valid(insertions) && Distinct(insertions.keys)
    requires forall x | x in insertions.keys :: x <= |data|
    ensures result == Weave(data, insertions, 0)
  {
    var sortedIndices := SortedIndices(insertions);
    result := SpliceSorted(data, insertions, sortedIndices);
    SplicedInv(data, insertions, sortedIndices, |sortedIndices|);
    SpliceDone(data, insertions, sortedIndices, result);
  }

  /** `for (const idx of sortedIndices)`: every index of the plan spliced in, in the order given. */
  method SpliceSorted(data: seq<Row>, insertions: Plan, sortedIndices: seq<nat>) returns (result: seq<Row>)
    requires DescendingKeys(insertions, sortedIndices)
    requires forall x | x in insertions.keys :: x <= |data|
    ensures result == Spliced(data, insertions, sortedIndices, |sortedIndices|)
  {
    result := data;
    var t := 0;
    while t < |sortedIndices|
      invariant t <= |sortedIndices|
      invariant result == Spliced(data, insertions, sortedIndices, t)
    {
      result := SpliceIndex(data, insertions, sortedIndices, t, result);
      t := t + 1;
    }
  }

  /** One round of the splice loop: `result.splice(idx, 0, ...rowsToInsert)` for the `t`-th index. */
  method SpliceIndex(data: seq<Row>, insertions: Plan, sortedIndices: seq<nat>, t: nat, result: seq<Row>)
      returns (result': seq<Row>)
    requires DescendingKeys(insertions, sortedIndices)
    requires forall x | x in insertions.keys :: x <= |data|
    requires t < |sortedIndices|
    requires result == Spliced(data, insertions, sortedIndices, t)
    ensures result' == Spliced(data, insertions, sortedIndices, t + 1)
  {
    var idx := sortedIndices[t];
    SplicedInv(data, insertions, sortedIndices, t);
    SpliceNext(data, insertions, sortedIndices, t);
    var g := Get(insertions, idx).value;
    var rowsToInsert := CueRows(g);
    result' := result[..idx] + rowsToInsert + result[idx..];
  }

  /** The rows pushed for one index: the OFF row, then the ON row, each only when it lists someone. */
  method CueRows(g: Group) returns (rowsToInsert: seq<Row>)
    ensures rowsToInsert == RowsAt(g)
  {
    rowsToInsert := [];
    if |g.offActors| > 0 {
      rowsToInsert := rowsToInsert + [CreateMicCueRow(g.scene, g.offActors, "AUS")];
    }
    if |g.onActors| > 0 {
      rowsToInsert := rowsToInsert + [CreateMicCueRow(g.scene, g.onActors, "EIN")];
    }
  }

  /**
   * After splicing the `t` largest indices `d[..t]`: the original rows down to the last of them, then
   * the output from there on.
   */
  ghost predicate SpliceInv(data: seq<Row>, ins: Plan, d: seq<nat>, t: nat, result: seq<Row>) {
    && t <= |d|
    && (t == 0 ==> result == data)
    && (t > 0 ==> d[t - 1] <= |data| && result == data[..d[t - 1]] + Weave(data, ins, d[t - 1]))
  }

  /** The rows after splicing the first `t` indices of `d` one after the other, as the loop does. */
  function Spliced(data: seq<Row>, ins: Plan, d: seq<nat>, t: nat): seq<Row>
    requires t <= |d|
  {
    if t == 0 then data
    else
      var r, i := Spliced(data, ins, d, t - 1), d[t - 1];
      if i <= |r| then r[..i] + RowsOf(ins, i) + r[i..] else r
  }

  /** With the indices largest first, each splice is the woven tail behind the untouched head. */
  lemma SplicedInv(data: seq<Row>, ins: Plan, d: seq<nat>, t: nat)
    requires DescendingKeys(ins, d)
    requires forall x | x in ins.keys :: x <= |data|
    requires t <= |d|
    ensures SpliceInv(data, ins, d, t, Spliced(data, ins, d, t))
  {
    var inv := (k: nat) => k <= |d| ==> SpliceInv(data, ins, d, k, Spliced(data, ins, d, k));
    forall k: nat | 0 < k <= t && inv(k - 1) ensures inv(k) {
      SpliceNext(data, ins, d, k - 1);
    }
    StepInduction(inv, t);
  }

  /** A property of `0` that each step carries to the next holds up to `n`. */
  lemma {:induction false} StepInduction(p: nat -> bool, n: nat)
    requires p(0)
    requires forall k: nat | 0 < k <= n && p(k - 1) :: p(k)
    ensures p(n)
  {
    if n > 0 {
      StepInduction(p, n - 1);
    }
  }

  /** The loop's splice of the `t`-th index keeps the invariant. */
  lemma {:induction false} SpliceNext(data: seq<Row>, ins: Plan, d: seq<nat>, t: nat)
    requires DescendingKeys(ins, d)
    requires forall x | x in ins.keys :: x <= |data|
    requires t < |d|
    requires SpliceInv(data, ins, d, t, Spliced(data, ins, d, t))
    ensures Get(ins, d[t]).Some? && d[t] <= |Spliced(data, ins, d, t)|
    ensures RowsOf(ins, d[t]) == RowsAt(Get(ins, d[t]).value)
    ensures SpliceInv(data, ins, d, t + 1, Spliced(data, ins, d, t + 1))
  {
    var idx, result := d[t], Spliced(data, ins, d, t);
    SortedKeyInside(ins, |data|, d, t);
    assert RowsOf(ins, idx) == RowsAt(Get(ins, idx).value);
    SortedGap(ins, |data|, d, t);
    if t == 0 {
      SpliceFirst(data, ins, idx);
    } else {
      SpliceStep(data, ins, idx, d[t - 1]);
    }
    assert Spliced(data, ins, d, t + 1) == result[..idx] + RowsOf(ins, idx) + result[idx..];
  }

  /** The `t`-th sorted index is a key of the plan within `0..n`. */
  lemma {:induction false} SortedKeyInside(ins: Plan, n: nat, d: seq<nat>, t: nat)
    requires DescendingKeys(ins, d)
    requires forall x | x in ins.keys :: x <= n
    requires t < |d|
    ensures d[t] in ins.keys && d[t] <= n && Get(ins, d[t]).Some?
  {
    assert d[t] in d;
  }

  /** No key lies strictly between the `t`-th sorted index and the one before it (or `n` when `t == 0`). */
  lemma {:induction false} SortedGap(ins: Plan, n: nat, d: seq<nat>, t: nat)
    requires DescendingKeys(ins, d)
    requires t < |d|
    ensures forall x: nat | d[t] < x <= n && (t == 0 || x < d[t - 1]) :: x !in ins.values
  {
    forall x: nat | d[t] < x <= n && (t == 0 || x < d[t - 1]) ensures x !in ins.values {
      DescendingGap(d, t, x);
    }
  }

  lemma {:induction false} SpliceDone(data: seq<Row>, ins: Plan, d: seq<nat>, result: seq<Row>)
    requires DescendingKeys(ins, d)
    requires SpliceInv(data, ins, d, |d|, result)
    ensures result == Weave(data, ins, 0)
  {
    var t := |d|;
    if t == 0 {
      forall x | 0 <= x <= |data| ensures x !in ins.values {
        assert x !in d;
      }
      WeaveRest(data, ins, 0);
    } else {
      forall x: nat | x < d[t - 1] ensures x !in ins.values {
        DescendingGap(d, t - 1, x);
      }
      WeaveGap(data, ins, 0, d[t - 1]);
    }
  }

  lemma {:induction false} AddCuesAppend(ins: Plan, a: seq<Cue>, b: seq<Cue>)
    ensures AddCues(ins, a + b) == AddCues(AddCues(ins, a), b)
  {
    if b == [] {
      assert a + b == a;
    } else {
      var b', x := b[..|b| - 1], b[|b| - 1];
      AddCuesAppend(ins, a, b');
      CueSeqSnoc(a, b);
      AddCuesSnoc(ins, a + b', x);
      AddCuesSnoc(AddCues(ins, a), b', x);
    }
  }

  lemma {:induction false} CueSeqSnoc(a: seq<Cue>, b: seq<Cue>)
    requires b != []
    ensures a + b == (a + b[..|b| - 1]) + [b[|b| - 1]]
    ensures b == b[..|b| - 1] + [b[|b| - 1]]
  {
  }

  lemma {:induction false} AddCuesSnoc(ins: Plan, cs: seq<Cue>, c: Cue)
    ensures AddCues(ins, cs + [c]) == AddCue(AddCues(ins, cs), c)
  {
    assert (cs + [c])[..|cs|] == cs;
  }

  /** One more speaking actor's cue in the plan. */
  lemma {:induction false} CuesSnoc(data: seq<Row>, scene: string, b: Bounds, sp: seq<(string, Info)>, j: nat, ins: Plan)
    requires j < |sp|
    ensures AddCues(ins, SceneCues(data, scene, b, sp[..j + 1]))
         == AddCue(AddCues(ins, SceneCues(data, scene, b, sp[..j])), CueOf(data, scene, b, sp[j].0, sp[j].1))
  {
    assert sp[..j + 1][..j] == sp[..j];
  }

  // ---------------------------------------------------------------- what the output holds

  /** A row of the script itself, not one generated here. */
  predicate Original(r: Row) {
    !r.isAutoMic
  }

  lemma {:induction false} WeaveOriginals(data: seq<Row>, ins: Plan, p: nat)
    requires p <= |data|
    ensures Filter(Weave(data, ins, p), Original) == Filter(data[p..], Original)
    decreases |data| - p
  {
    var rs := RowsOf(ins, p);
    assert Filter(rs, Original) == [];
    if p == |data| {
      assert Weave(data, ins, p) == rs + [];
      assert rs + [] == rs;
    } else {
      WeaveOriginals(data, ins, p + 1);
      WeaveAt(data, ins, p);
      DropCons(data, p);
      FilterAppend(rs, [data[p]] + Weave(data, ins, p + 1), Original);
      FilterAppend([data[p]], Weave(data, ins, p + 1), Original);
      FilterAppend([data[p]], data[p + 1..], Original);
    }
  }

  /** Every original row appears in the output, in its original order, and no other non-generated row. */
  lemma {:induction false} OriginalRowsKept(data: seq<Row>)
    ensures Filter(MicCueScript(data), Original) == Filter(data, Original)
    ensures (forall i | 0 <= i < |data| :: Original(data[i])) ==> Filter(MicCueScript(data), Original) == data
  {
    WeaveOriginals(data, Insertions(data), 0);
    assert data[0..] == data;
    if forall i | 0 <= i < |data| :: Original(data[i]) {
      FilterAll(data, Original);
    }
  }

  lemma {:induction false} WeaveRows(data: seq<Row>, ins: Plan, p: nat)
    requires p <= |data|
    ensures forall i | 0 <= i < |Weave(data, ins, p)| :: Weave(data, ins, p)[i] in data[p..] || IsCueRow(Weave(data, ins, p)[i])
    decreases |data| - p
  {
    var rs := RowsOf(ins, p);
    assert forall k | 0 <= k < |rs| :: IsCueRow(rs[k]);
    if p == |data| {
      assert Weave(data, ins, p) == rs + [];
    } else {
      WeaveRows(data, ins, p + 1);
      WeaveAt(data, ins, p);
      DropCons(data, p);
      CueOrFrom(rs, data[p], Weave(data, ins, p + 1), data[p + 1..]);
    }
  }

  /** Cue rows, then `x`, then rows of `tail` or cue rows: each is `x`, in `tail` or a cue row. */
  lemma {:induction false} CueOrFrom(rs: seq<Row>, x: Row, w: seq<Row>, tail: seq<Row>)
    requires forall k | 0 <= k < |rs| :: IsCueRow(rs[k])
    requires forall i | 0 <= i < |w| :: w[i] in tail || IsCueRow(w[i])
    ensures var v := rs + ([x] + w);
      forall i | 0 <= i < |v| :: v[i] in [x] + tail || IsCueRow(v[i])
  {
    var v := rs + ([x] + w);
    forall i | 0 <= i < |v| ensures v[i] in [x] + tail || IsCueRow(v[i]) {
      if i < |rs| {
        assert v[i] == rs[i];
      } else if i == |rs| {
        assert v[i] == x;
      } else {
        assert v[i] == w[i - |rs| - 1];
      }
    }
  }

  /** Every row of the output is a row of the script or a generated microphone cue row. */
  lemma {:induction false} OutputRows(data: seq<Row>)
    ensures forall i | 0 <= i < |MicCueScript(data)| :: MicCueScript(data)[i] in data || IsCueRow(MicCueScript(data)[i])
  {
    WeaveRows(data, Insertions(data), 0);
    assert data[0..] == data;
  }
}
