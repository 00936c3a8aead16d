# A verified model of the Skript theatre prompter

Skript is the prompter and rehearsal tool of an amateur theatre group. A Flask/Socket.IO server
(`app.py`) lets one connection per play act as the *director*. The director's line marker is
relayed to every other client watching that play. Several browser clients read the play's
script, a sheet with the columns `Szene`, `Kategorie`, `Charakter`, `Mikrofon` and
`Text/Anweisung`:

- a vanilla JavaScript viewer under `js/`;
- a microphone-cue generator under `static/js/`;
- a React front end whose store and helpers are under `stores/` and `lib/`.

This project is a Dafny model of the parts of these programs that decide something: the director
election and marker relay, and the pure list and map algorithms over script rows. It proves what
those parts guarantee.

## How the model is laid out

| module | file | models |
|---|---|---|
| `Election` | `election.dfy` | the server's state and every Socket.IO handler, as functions on a `Hub` value (the director dictionaries, rooms and the log of emissions); the name/connection pairing invariant and the per-handler properties |
| `DirectorServer` | `director_server.dfy` | class `DirectorManager` with its three dictionaries, and class `Server` with one method per handler; each method updates the objects in place and is proved to reach the state the matching `Election` function gives |
| `Script`, `Scenes` | `script.dfy`, `scenes.dfy` | a script row, the category names, and scene detection (a row opens a scene when its `Szene` is non-empty and differs from the open one), shared by the cue generator and the store |
| `MicCues` | `mic_cues.dfy` | `static/js/mic-cue-generator.js`: the loops are methods proved against recursive specification functions, and the lemmas state where the cue rows go |
| `Renderer` | `renderer.dfy` | `calculateLineStates` and the scene flags of `createToC` in `js/renderer.js` |
| `Api` | `api.dfy` | `getActors`, `normalizeScriptData`, `buildSceneIndexMap` and `collectScenes` in `js/api.js` |
| `ViewerShared` | `viewer_shared.dfy` | the data half of class `BaseViewer` in `js/viewer-shared.js` |
| `ScriptStore` | `script_store.dfy` | `extractActors`, `extractScenes` and the store setters in `stores/script-store.ts` |
| `LibUtils` | `lib_utils.dfy` | the category table, `isLineVisible` and `formatLineNumber` in `lib/utils.ts` |
| `Suggestor` | `suggestor.dfy` | class `RoleSuggestor` in `js/suggestor.js`, without its DOM output |
| `DataManagement` | `data_manager.dfy` | class `DataManager` in `js/data-manager.js`, with the row objects that `normalizeData` rewrites in place |
| `EventUtils` | `event_utils.dfy` | `escapeRegExp` and class `EventEmitter` in `js/utils.js` |
| `StateManagement` | `state_manager.dfy` | class `StateManager` in `js/state.js` |
| `Common`, `JsText`, `Sorting`, `OrderedMaps` | `common.dfy`, `js_text.dfy`, `sorting.dfy`, `ordered_maps.dfy` | the JavaScript built-ins the clients rely on, with concrete definitions. `filter`; `trim`, `toUpperCase`, `includes`, `parseInt`, `padStart`, the sign of `ToNumber` and `\b...\b` matching with the `i` flag; the stable comparator `sort`; and `Map`/`Set`, which keep insertion order |

Where the source changes state in place, the model does too.

- The director dictionaries, the viewer, the store, the suggester, the data manager's row objects,
  the event emitter and the state manager are classes, and every method states the
  complete new state.
- Loops are `while` loops with invariants. Each is proved against a specification function, and
  the properties are lemmas about that function.
- Pure code (the category table, `createMicCueRow`, `getActors`, `collectScenes`, `getNextScene`)
  is written as functions.

Emissions are not delivered anywhere. The server appends each one, as the set of
connections it reaches, the event name and the payload, to a log. The state manager keeps the
same kind of log. `emit` with no target reaches the caller, `to=sid` one connection, and
`room=p, skip_sid=...` the room's members minus the skipped ones. Handlers run one at a time.

The model follows the code where the code and its documentation differ. `CATEGORIES.MICROPHONE`
is not defined in `static/js/config.js`, so generated cue rows carry a category whose value the
model leaves unspecified (`Script.Microphone`). The scene filter of `normalizeData` compares the
untrimmed `Szene` with `'0'`, so a row of scene `' 0'` survives the filter and is then trimmed to
`'0'`.

## Model

| member | source | states |
|---|---|---|
| Election.GetPlayForSid | app.py:70-72 | a connection that never joined a play belongs to `"default"` |
| Election.SetDirector | app.py:48-53 | name and connection of the play are recorded together; no other play and no registration changes |
| Election.UnsetDirector | app.py:55-60 | name and connection of the play are both cleared to `None`; no other play and no registration changes |
| Election.SetPlayForSid | app.py:66-68 | the connection is registered for the play; other connections and all director entries are unchanged |
| Election.RemoveSid | app.py:74-76 | the connection is forgotten (and reads as `"default"` again); removing an unknown one changes nothing |
| Election.JoinRoom | app.py:242 | the caller joins the play's room; no other room changes |
| Election.LeaveRoom | app.py:235-239 | the caller leaves that room; no other room changes |
| Election.LeaveAllRooms | app.py:348-367 | once a connection is gone it is a member of no room; other memberships stay |
| Election.OrElse | app.py:249 | Python's `x or "Niemand"`: `None` and `""` both give the default |
| Election.NewHubValid | app.py:35-38 | a fresh manager satisfies the pairing invariant (a play has a director name exactly when it has a director connection) |
| Election.SetDirectorPaired | app.py:48-53 | `set_director` with a non-empty name keeps the pairing invariant |
| Election.UnsetDirectorPaired | app.py:55-60 | `unset_director` keeps the pairing invariant |
| Election.RegistryPaired | app.py:66-76 | changing only the connection registry cannot break the pairing invariant |
| Election.ApplyValid | app.py:228-380 | every handler keeps the pairing invariant |
| Election.RunValid | app.py:228-380 | from a fresh server, every sequence of handler runs keeps the pairing invariant |
| Election.TakeoverTarget | app.py:283-291 | under the invariant a recorded director always has a connection that receives the takeover notice |
| Election.ApplyIsolated | app.py:228-380 | a handler changes no director entry of any play other than the caller's registered one |
| Election.JoinPlayKeepsDirectors | app.py:228-253 | `join_play` never touches the director dictionaries |
| Election.JoinPlayEffect | app.py:228-253 | the caller is registered for and joins the requested play (default `"default"`) and gets exactly one `set_director` reply naming the director (`"Niemand"` if none) and whether the caller is it |
| Election.JoinPlayRooms | app.py:233-242 | the previous room is left exactly when it is a non-empty name different from the new play; other rooms are unchanged |
| Election.SwitchingDirectorStaysRecorded | app.py:228-345 | a director who joins another play stays recorded as the old play's director but can no longer release it |
| Election.ClaimMissingCredentials | app.py:263-269 | a claim without name or password is refused to the caller alone with "Name und Passwort erforderlich" and nothing changes |
| Election.ClaimWrongPassword | app.py:272-274 | a claim with a wrong password is refused to the caller alone with "Falsches Passwort" and nothing changes |
| Election.ClaimRecords | app.py:276-279 | a valid claim always makes the caller the director of its play, whoever held it (last writer wins) |
| Election.ClaimVacant | app.py:311-323 | on a vacant play the caller is told it directs and the rest of the room who does |
| Election.ClaimTakeover | app.py:281-309 | on a directed play the old director, the caller and the rest of the room each get `director_takeover` naming both, with `isDirector` true only for the caller |
| Election.UnsetByOther | app.py:330-332 | a connection that does not direct its play cannot release it; nothing is sent |
| Election.UnsetByDirector | app.py:334-345 | the director's release clears the play and tells the whole room, director included, naming the previous director |
| Election.DisconnectEffect | app.py:348-367 | a disconnect clears and announces the play exactly when the caller directs it; the caller is always forgotten |
| Election.MarkerFromOther | app.py:374-377 | a marker from anyone but the director is dropped silently |
| Election.MarkerFromDirector | app.py:379-380 | the director's marker goes unchanged to the rest of the play's room; no state changes |
| Election.RunAppends | app.py:228-380 | handlers only append to what was sent |
| Election.ApplyAppends | app.py:228-380 | one handler run only appends to what was sent |
| DirectorServer.DirectorManager.constructor | app.py:35-38 | the three dictionaries start empty |
| DirectorServer.DirectorManager.GetDirector | app.py:40-42 | returns the recorded name of the play, `None` if there is none |
| DirectorServer.DirectorManager.GetDirectorSid | app.py:44-46 | returns the recorded connection of the play, `None` if there is none |
| DirectorServer.DirectorManager.IsDirector | app.py:62-64 | true exactly when the play's recorded connection is the caller |
| DirectorServer.DirectorManager.GetPlayForSid | app.py:70-72 | returns the registered play, `"default"` for an unknown connection |
| DirectorServer.DirectorManager.SetDirector | app.py:48-53 | returns the previous name and updates the dictionaries as `Election.SetDirector` |
| DirectorServer.DirectorManager.UnsetDirector | app.py:55-60 | returns the previous name and updates the dictionaries as `Election.UnsetDirector` |
| DirectorServer.DirectorManager.SetPlayForSid | app.py:66-68 | updates the registry as `Election.SetPlayForSid` |
| DirectorServer.DirectorManager.RemoveSid | app.py:74-76 | updates the registry as `Election.RemoveSid` |
| DirectorServer.Server.constructor | app.py:164-174 | a fresh server: empty manager, no rooms, nothing sent |
| DirectorServer.Server.Emit | app.py:245-253 | one emission is appended to what was sent; rooms are unchanged |
| DirectorServer.Server.RoomExcept | app.py:305-309 | the recipients of `room=p, skip_sid=...` are the room's members minus the skipped ones |
| DirectorServer.Server.HandleJoinPlay | app.py:228-253 | the new state is `Election.JoinPlay` of the old one |
| DirectorServer.Server.HandleSetDirector | app.py:256-323 | the new state is `Election.SetDirectorRequest` of the old one |
| DirectorServer.Server.ClaimPlay | app.py:276-323 | the accepted claim's new state is `Election.Claim` of the old one |
| DirectorServer.Server.EmitTakeover | app.py:281-309 | appends the three takeover notices in the source's order |
| DirectorServer.Server.EmitClaim | app.py:311-323 | appends the two `set_director` notices in the source's order |
| DirectorServer.Server.VacatePlay | app.py:334-365 | the new state is `Election.Vacate` of the old one |
| DirectorServer.Server.HandleUnsetDirector | app.py:326-345 | the new state is `Election.UnsetDirectorRequest` of the old one |
| DirectorServer.Server.HandleDisconnect | app.py:348-367 | the new state is `Election.Disconnect` of the old one |
| DirectorServer.Server.HandleSetMarker | app.py:370-380 | the new state is `Election.SetMarker` of the old one |
| DirectorServer.Server.Handle | app.py:228-380 | runs the handler the event names; the new state is `Election.Apply` of the old one |
| DirectorServer.Server.Serve | app.py:228-380 | handling events one at a time gives `Election.Run` of the old state and keeps the pairing invariant |
| Scenes.CurrentScene | static/js/mic-cue-generator.js:33-45 | the scene open before a row is the last non-empty `Szene` before it, and there is none exactly when all earlier rows have an empty `Szene` |
| Scenes.RunsWellFormed | static/js/mic-cue-generator.js:36-51 | the scene runs are contiguous, lie inside the script, begin at a row carrying their id, contain only rows with that id or none, and the last one reaches the last row; rows before the first run carry no scene |
| Scenes.RunsOpen | static/js/mic-cue-generator.js:37 | every run begins at a row whose `Szene` is non-empty and differs from the scene open before it |
| Scenes.NeighbouringRunsDiffer | static/js/mic-cue-generator.js:37-44 | two consecutive runs always belong to different scenes |
| Scenes.BoundariesOfLastRun | static/js/mic-cue-generator.js:40-50 | the map holds a scene exactly when it has a run, with the bounds of its last run (a later run of the same scene overwrites an earlier one) |
| Scenes.BoundariesOrder | static/js/mic-cue-generator.js:32-53 | the map's keys are the scene ids in order of their first run, each once |
| Scenes.BoundariesInside | static/js/mic-cue-generator.js:40-50 | every recorded scene spans a non-empty range of rows inside the script |
| MicCues.TextMentionsActor | static/js/mic-cue-generator.js:15-24 | an empty text or name never matches; otherwise a match is exactly a case-insensitive occurrence of the name with a word boundary on both sides |
| MicCues.WholeWordIsMention | static/js/mic-cue-generator.js:18-19 | a whole-word occurrence of the name is found |
| MicCues.NoBoundaryInsideWord | static/js/mic-cue-generator.js:18 | a name continued by a further word character ("HANS" in "HANSI") is no whole-word occurrence there |
| MicCues.LastMention | static/js/mic-cue-generator.js:97-109 | the last direction mentioning the actor in a range, and then no later one in it; none when no row of the range mentions the actor |
| MicCues.FirstMention | static/js/mic-cue-generator.js:119-131 | the first direction mentioning the actor in a range, and no earlier one in it; none when no row of the range mentions the actor |
| MicCues.FindEntranceAnweisung | static/js/mic-cue-generator.js:97-109 | the backward scan returns the last mentioning direction between the scene start and the row before the first line |
| MicCues.FindExitAnweisung | static/js/mic-cue-generator.js:119-131 | the forward scan returns the first mentioning direction between the row after the last line and the scene end |
| MicCues.GetSceneBoundaries | static/js/mic-cue-generator.js:31-54 | the loop computes the scene map `Scenes.Boundaries` |
| MicCues.SpeakersSpec | static/js/mic-cue-generator.js:63-87 | an actor (upper-cased name) is in the map exactly when a row of the range is a line of theirs; the entry holds the first and last such row and the first non-empty microphone |
| MicCues.GetSpeakingActorsInScene | static/js/mic-cue-generator.js:63-87 | the loop over rows `sceneStart..sceneEnd` computes `Speakers` of that range (of nothing when the range is empty) |
| MicCues.CreateMicCueRow | static/js/mic-cue-generator.js:140-153 | a generated row of the microphone category, with empty character and microphone, whose text is the labels joined by `", "`, a space and the kind |
| MicCues.CueTextShape | static/js/mic-cue-generator.js:141-143 | a cue's text begins with the first actor's label and ends with `" EIN"` or `" AUS"` |
| MicCues.Insertions | static/js/mic-cue-generator.js:164-209 | the plan is a well-formed ordered map from insertion index to its group |
| MicCues.AddCuesSpec | static/js/mic-cue-generator.js:193-207 | the group at an index lists exactly the actors whose ON (OFF) row goes there, in the order recorded, under the scene of the first cue that used the index |
| MicCues.AddCuesKeys | static/js/mic-cue-generator.js:193-202 | the plan's indices are the cues' indices, each once, in order of first use |
| MicCues.OnAtFilter | static/js/mic-cue-generator.js:196-199 | the ON list at an index is the actors of the cues whose ON index it is, in order |
| MicCues.OffAtFilter | static/js/mic-cue-generator.js:204-207 | the OFF list at an index is the actors of the cues whose OFF index it is, in order |
| MicCues.UsedIndex | static/js/mic-cue-generator.js:193-207 | every index in the plan has someone to switch on or off, so produces a row |
| MicCues.LateEntrance | static/js/mic-cue-generator.js:179-190 | with no entrance direction and the first line at the scene's first row, the ON row goes right after that line; in a one-row scene the OFF row goes there too |
| MicCues.CuePlaced | static/js/mic-cue-generator.js:167-208 | every cue belongs to a speaking actor of one scene; its ON row comes after the last mentioning direction before the first line, else after the scene's first row; its OFF row after the first mentioning direction after the last line, else after the scene end |
| MicCues.InsertionsInside | static/js/mic-cue-generator.js:179-190 | every insertion index lies in `1..data.length` |
| MicCues.ActorSwitchedOnAndOff | static/js/mic-cue-generator.js:170-208 | each speaking actor of each scene is in the ON group at its ON index and in the OFF group at its OFF index |
| MicCues.RowsAtShape | static/js/mic-cue-generator.js:219-229 | an index yields the AUS row (when someone goes off) before the EIN row (when someone comes on), and nothing only when both lists are empty |
| MicCues.SortDescending | static/js/mic-cue-generator.js:212 | sorting the distinct indices with `(a, b) => b - a` gives them strictly descending, the same indices |
| MicCues.SortedIndices | static/js/mic-cue-generator.js:212 | the sorted indices are strictly descending and exactly the plan's indices |
| MicCues.GenerateSceneMicCues | static/js/mic-cue-generator.js:160-236 | the imperative splicing, largest index first, computes `MicCueScript`: each index's cue rows interleaved before the original row at it (an empty script is returned as it is) |
| MicCues.OriginalRowsKept | static/js/mic-cue-generator.js:211-233 | the output's non-generated rows are exactly the script's, in order |
| MicCues.OutputRows | static/js/mic-cue-generator.js:215-235 | every output row is a row of the script or a generated microphone cue row |
| Renderer.ContextRange | js/renderer.js:179-189 | actor lines and categories without a context setting get no context window |
| Renderer.FinalState | js/renderer.js:161-212 | a line ends visible exactly when its category is shown, and context exactly when the window of a LATER shown line reaches it |
| Renderer.MarkContext | js/renderer.js:192-205 | every index of the window except the line itself gets `isContext` set, keeping its `visible`; nothing else changes |
| Renderer.CalculateLineStates | js/renderer.js:161-212 | every line gets an entry, equal to `FinalState` |
| Renderer.ForwardContextLost | js/renderer.js:164-209 | a line that only earlier lines' windows reach ends with `isContext` false, because storing its own fresh state overwrites their marks |
| Renderer.VisibleAndContext | js/renderer.js:161-212 | a shown line reached by a later shown line's window is both visible and context |
| Renderer.ForwardContextExample | js/renderer.js:161-212 | an instruction with a window of one is followed by a hidden actor line; the window covers that line, yet it ends neither visible nor context |
| Renderer.IntendedState | js/renderer.js:191-205 | a line is context exactly when any other shown line's window reaches it, before or after |
| Renderer.CalculateLineStatesKeepingContext | js/renderer.js:161-212 | the corrected loop, which keeps earlier marks when storing a line's state, computes `IntendedState` for every line |
| Renderer.KeepingContextExtends | js/renderer.js:161-212 | the corrected states agree with the shipped ones on visibility and differ only in the marks from earlier lines |
| Renderer.SceneFlags | js/renderer.js:24-39 | the dictionary holds exactly the non-empty scenes of the rows, each flagged exactly when one of its rows is a line of the selected actor or an instruction whose text includes the name |
| Renderer.FlagRow | js/renderer.js:26-38 | a row with an empty scene changes nothing; otherwise its scene is added as `false` if new and set `true` when the row highlights the actor |
| Renderer.EmptySelectionFlagsInstructions | js/renderer.js:30-37 | with no actor selected, exactly the scenes that contain an instruction are flagged, since every text includes `""` |
| Api.EntriesOfRoles | js/api.js:98-106 | a role has an entry exactly when some row kept by the filter names it |
| Api.GetActors | js/api.js:97-108 | each role is listed once |
| Api.GetActorsSpec | js/api.js:97-108 | the roles come in the order of their first cast row (scene loosely equal to 0), and each carries the text of its LAST cast row, because `new Map` keeps the last value for a repeated key |
| Api.GetActorsRoles | js/api.js:98-100 | a role is listed exactly when some row with a role and a scene loosely equal to 0 names it |
| Api.NormalFieldsTrimmed | js/api.js:116-122 | every rewritten field is trimmed, and the role is upper case |
| Api.NormalFieldsIdempotent | js/api.js:115-124 | normalising the fields of already normalised fields changes nothing |
| Api.NormalFieldsOfEmpty | js/api.js:117-121 | a missing field (`row.X || ''`) becomes the empty string |
| Api.Normalize | js/api.js:116-123 | one output row holds the rewritten fields and the input row as `raw` |
| Api.NormalizeScriptData | js/api.js:115-124 | the output has one row per input row, in order, each normalised and keeping its input as `raw` |
| Api.FiledScenesMembers | js/api.js:133-134 | a scene is among the filed scenes exactly when a row below the bound has it and it is neither empty nor `'0'` |
| Api.IndicesOfIncreasing | js/api.js:132-139 | each scene's index list is strictly increasing |
| Api.IndicesOfComplete | js/api.js:132-139 | every row of the scene is in its list |
| Api.SceneOrderIsDedup | js/api.js:131-141 | the map's key order is the distinct filed scenes in order of first appearance |
| Api.SceneOrderMembers | js/api.js:131-141 | a scene is a key exactly when a row with it, neither empty nor `'0'`, exists |
| Api.BuildSceneIndexMap | js/api.js:131-141 | one key per numbered scene, in order of first appearance, each mapped to the indices of its rows |
| Api.FileIndex | js/api.js:133-139 | one row of the loop: a numbered row's index is appended to its scene's list, created if the scene is new; other rows change nothing |
| Api.IndicesOfNone | js/api.js:135-138 | a scene with no rows so far has an empty list |
| Api.SceneIndexMapExact | js/api.js:131-141 | an index is in a scene's list exactly when that row belongs to the scene and is filed |
| Api.CollectScenes | js/api.js:149-154 | each scene is listed once, sorted by `parseInt` of the scene, with NaN counted as 0 |
| Api.CollectScenesMembers | js/api.js:150-152 | a scene is listed exactly when some row has it and it is neither empty nor `'0'` |
| Api.CollectScenesTies | js/api.js:153 | scenes with the same number keep the order of their first appearance, since the sort is stable |
| ViewerShared.Walk | js/viewer-shared.js:141-155 | when the walk stops, it is at a scene of the map and at a position inside that scene's lines |
| ViewerShared.WalkSpec | js/viewer-shared.js:141-155 | the walk stops at the first scene whose lines reach beyond the marker, with the marker's offset from that scene's first line; it runs off the end exactly when the map is empty or the marker is at or past all indexed lines |
| ViewerShared.Percent | js/viewer-shared.js:146 | `Math.floor((current / count) * 100)`, computed exactly, lies in `0..99` for `current < count` |
| ViewerShared.FindRow | js/viewer-shared.js:224-226 | `find` returns the first row satisfying the test, and nothing exactly when no row does |
| ViewerShared.SceneSummary | js/viewer-shared.js:223-228 | the text of the first `Szenenbeginn` row of the scene, or `''` when it has none |
| ViewerShared.IndexOf | js/viewer-shared.js:194 | `indexOf` returns the first position of the scene, or -1 exactly when it is absent |
| ViewerShared.NextScene | js/viewer-shared.js:193-199 | there is no next scene exactly when the scene is absent or last |
| ViewerShared.NextSceneAt | js/viewer-shared.js:193-199 | in a list without repeats, the scene after position `i` is the element at `i + 1` |
| ViewerShared.SceneCastRoles | js/viewer-shared.js:209-213 | a role is in a scene's cast exactly when one of the scene's rows names it |
| ViewerShared.SceneActorsSpec | js/viewer-shared.js:206-216 | a scene's cast lists each role once, in order of its first row, with the microphone of its LAST row (`Map.set` overwrites) |
| ViewerShared.BaseViewer.constructor | js/viewer-shared.js:15-24 | nothing loaded, no marker |
| ViewerShared.BaseViewer.Load | js/viewer-shared.js:46-49 | the script, its cast, its sorted scenes and its scene index are set from the loaded rows; the marker is untouched |
| ViewerShared.BaseViewer.OnMarkerUpdate | js/viewer-shared.js:82-86 | the marker becomes the given index; nothing else changes |
| ViewerShared.BaseViewer.OnMarkerClear | js/viewer-shared.js:88-92 | the marker becomes `null`; nothing else changes |
| ViewerShared.BaseViewer.ComputeSceneProgressCounts | js/viewer-shared.js:136-156 | no marker gives 0/0 at 0%; a marker past the indexed lines gives 0/0 at 100%; otherwise the scene the walk stops at gives the total, the offset (clamped at 0) the current, below the total for a non-negative marker, and the percentage lies in 0..99 |
| ViewerShared.BaseViewer.GetSceneFromMarker | js/viewer-shared.js:172-189 | no marker gives `null`; otherwise the scene the walk stops at, or `null` when it runs off the end |
| ViewerShared.SceneOfWalk | js/viewer-shared.js:177-188 | the loop returns the key of the scene that `Walk` stops at |
| ViewerShared.WalkSkip | js/viewer-shared.js:185 | skipping a scene whose lines all lie before the marker moves the walk on by one scene |
| ViewerShared.BaseViewer.GetNextScene | js/viewer-shared.js:193-199 | returns `NextScene` of the loaded order |
| ViewerShared.BaseViewer.GetSceneActors | js/viewer-shared.js:206-216 | the loop builds the `Map` of the scene's role-microphone pairs |
| ViewerShared.BaseViewer.GetSceneSummary | js/viewer-shared.js:223-228 | returns `SceneSummary` of the loaded script |
| ScriptStore.NamedInStep | stores/script-store.ts:21-25 | the names collected from rows `0..n` are those from rows `0..n-1` plus, for a spoken line with a character, row `n`'s trimmed name |
| ScriptStore.ExtractActors | stores/script-store.ts:19-27 | the result is sorted by code point (the same as JavaScript's UTF-16 code-unit order within the Basic Multilingual Plane), has no repeats, and holds exactly the trimmed names of the spoken lines that have a character |
| ScriptStore.LinesOf | stores/script-store.ts:47-49 | the lines of a range of rows are those rows in order, each tagged with its `_index` |
| ScriptStore.ScenesOf | stores/script-store.ts:29-58 | one scene object per run, in order |
| ScriptStore.ExtractScenes | stores/script-store.ts:29-58 | the loop and the final push compute `SceneList` |
| ScriptStore.ExtractRow | stores/script-store.ts:33-50 | one row of the loop moves the partial result from `index` to `index + 1` |
| ScriptStore.OpenStep | stores/script-store.ts:34-46 | an opening row closes the open scene at `index - 1` and starts a scene `Szene <id>` holding just itself |
| ScriptStore.ExtendStep | stores/script-store.ts:47-49 | any other row joins the open scene's lines, if a scene is open |
| ScriptStore.SceneListShape | stores/script-store.ts:29-58 | there are no scenes exactly when no row has a scene; each scene starts at a row carrying its non-empty id, is named after it, lists rows `startIndex..endIndex` with their indices, and ends where the next one (of another id) begins; the last ends at the last row; rows before the first carry no scene |
| ScriptStore.SceneRows | stores/script-store.ts:29-58 | a row inside a scene's span carries that scene's id or none, and is one of its lines |
| ScriptStore.AllLinesCoverTail | stores/script-store.ts:47-49 | read in order, the scenes' lines are exactly the rows from the first scene's start to the end |
| ScriptStore.RecurringSceneExample | stores/script-store.ts:34 | a scene id that comes back after another scene starts a second scene object with the same id |
| ScriptStore.Store.constructor | stores/script-store.ts:60-67 | the store starts with play `default`, no configuration, no script, no cast, no scenes, not loading and no error |
| ScriptStore.Store.SetPlayId | stores/script-store.ts:68 | only the play id changes |
| ScriptStore.Store.SetPlaysConfig | stores/script-store.ts:69 | only the configuration changes |
| ScriptStore.Store.SetScriptData | stores/script-store.ts:70-74 | the script is stored with its scenes and sorted cast, which holds exactly the names of the spoken lines; nothing else changes |
| ScriptStore.Store.SetLoading | stores/script-store.ts:75 | only the loading flag changes |
| ScriptStore.Store.SetError | stores/script-store.ts:76 | only the error changes |
| LibUtils.GetCategoryFilter | lib/utils.ts:9-23 | each of the nine categories maps to its filter, and every unknown name maps to `instruction` |
| LibUtils.GetCategoryClass | lib/utils.ts:25-28 | the class is `category-` followed by the filter's name |
| LibUtils.NameInjective | lib/utils.ts:9-19 | different filters have different names |
| LibUtils.SameClassSameFilter | lib/utils.ts:25-28 | two categories get the same CSS class exactly when they fall under the same filter |
| LibUtils.IsLineVisible | lib/utils.ts:30-41 | a line whose filter is off is hidden; while an actor is selected, an actor line is shown exactly when it is that actor's; every other line whose filter is on is shown |
| LibUtils.MoreFiltersShowMore | lib/utils.ts:30-41 | enabling more filters never hides a line |
| LibUtils.SelectionOnlyHidesOthers | lib/utils.ts:37-39 | selecting an actor only hides lines, and only other characters' actor lines |
| LibUtils.FormatLineNumber | lib/utils.ts:43-45 | the number `index + 1`, preceded by zeros to three characters and never cut back |
| LibUtils.FormatLineNumberReadsBack | lib/utils.ts:43-45 | for a row index, the line number has at least three characters and `parseInt` reads it back as the index plus one |
| LibUtils.FormatLineNumberPadded | lib/utils.ts:43-45 | the first row is `001` and the tenth `010` |
| LibUtils.FormatLineNumberUnpadded | lib/utils.ts:43-45 | row 100 is `100` and row 1000 is `1000` |
| Suggestor.NamesUpToMembers | js/suggestor.js:37-41 | a name is collected exactly when some row satisfying the condition trims to it |
| Suggestor.RoundPercent | js/suggestor.js:187 | `Math.round(present / total * 100)` lies in `0..100`; it is 100 exactly when `present / total >= 0.995` and 0 exactly when `present / total < 0.005` |
| Suggestor.PercentBounds | js/suggestor.js:187 | the rounded quotient's defining inequalities give its bounds and both boundary cases |
| Suggestor.Toggled | js/suggestor.js:100-112 | when the two sizes are equal the present set is cleared; otherwise it becomes the old present set joined with the cast |
| Suggestor.ToggleNeverClearsStaleSelection | js/suggestor.js:100-122 | a stored name that is no longer in the cast makes the sizes differ although every actor is present, so every toggle selects all again and the selection can never be cleared |
| Suggestor.ToggledCovering | js/suggestor.js:100-112 | the intended toggle clears when every actor is present, otherwise it adds the whole cast |
| Suggestor.ToggledCoveringFlips | js/suggestor.js:100-112 | with a non-empty cast, the intended toggle always flips whether every actor is present |
| Suggestor.RoleSuggestor.constructor | js/suggestor.js:10-17 | empty script, cast, present set and character map |
| Suggestor.RoleSuggestor.Init | js/suggestor.js:34-91 | the script is stored and its cast (trimmed characters of rows with a positive scene) is added; the present set becomes the stored list when one parses, otherwise it gains the whole cast |
| Suggestor.RoleSuggestor.CollectActors | js/suggestor.js:37-41 | the cast gains exactly the trimmed characters of rows with a character and a positive scene |
| Suggestor.RoleSuggestor.AddAllActors | js/suggestor.js:44 | every actor of the cast becomes present; nothing else changes |
| Suggestor.RoleSuggestor.LoadCharacterMap | js/suggestor.js:60-79 | a missing file leaves the map unchanged; otherwise the loop equals `MapRows` of the rows, and a role key is in the new map exactly when it was before or some row with both columns names it |
| Suggestor.MapRowsSpec | js/suggestor.js:68-75 | a role key is mapped exactly when it was before or a row with both columns upper-cases and trims to it; its actor is the trimmed actor of the last such row, or the old actor when no row names it |
| Suggestor.RoleSuggestor.GetActorName | js/suggestor.js:127-130 | ` (<actor>)` when the map names a non-empty actor for the character, else `''` |
| Suggestor.RoleSuggestor.ToggleAllActors | js/suggestor.js:100-117 | the present set becomes `Toggled` of the old one; nothing else changes |
| Suggestor.RoleSuggestor.ToggleAllActorsCovering | js/suggestor.js:100-117 | the corrected toggle sets the present set to `ToggledCovering` of the old one |
| Suggestor.RoleSuggestor.OnCheckboxChange | js/suggestor.js:148-153 | ticking adds the actor to the present set and unticking removes it; nothing else changes |
| Suggestor.RoleSuggestor.GetSceneActors | js/suggestor.js:170-178 | the set of trimmed characters of the scene's rows |
| Suggestor.RoleSuggestor.CalculateScenePercentage | js/suggestor.js:180-188 | lies in `0..100`; a scene without actors or with all of them present gives 100, and one with none present gives 0 |
| Suggestor.RoleSuggestor.CardOf | js/suggestor.js:209-226 | a card holds its scene, the scene's actors and those not present; it is playable exactly when nobody is missing, and then shows 100% |
| Suggestor.RoleSuggestor.BuildCards | js/suggestor.js:207-226 | the loop builds one card per shown scene, in order, and counts the playable ones |
| Suggestor.RoleSuggestor.UpdateSuggestions | js/suggestor.js:190-235 | the cards are a permutation of the shown scenes' cards, stable-sorted by share, highest first; the playable count counts the playable cards; the total is the number of collected scenes, including those the `scene > 0` filter hides |
| Suggestor.NoneMissing | js/suggestor.js:212-215 | nobody is missing exactly when everybody is present |
| DataManagement.SheetOf | js/data-manager.js:54-55 | `obj[key] && obj[key].sheet` gives the entry's sheet exactly when the entry exists with a non-empty sheet |
| DataManagement.ValuesOf | js/data-manager.js:134-148 | the current values of the row objects, in order |
| DataManagement.Kept | js/data-manager.js:136 | every object of the input at a position whose `Szene` is not exactly `"0"` is kept, and every kept object is one of the input's |
| DataManagement.KeptOnlyNonZero | js/data-manager.js:136 | every kept object stands at a position of the input whose `Szene` is not exactly `"0"`: a `"0"` row is dropped |
| DataManagement.KeptOne | js/data-manager.js:136 | a single object is kept exactly when its `Szene` is not exactly `"0"` |
| DataManagement.KeptAppend | js/data-manager.js:136 | the filter keeps order: the kept objects of two stretches of rows are those of the first, then those of the second |
| DataManagement.DataManager.constructor | js/data-manager.js:11-14 | no configuration is loaded |
| DataManagement.DataManager.LoadPlaysConfig | js/data-manager.js:20-41 | a parsed body replaces the configuration; a JSON `null` clears it; a failed or non-OK request keeps it; with none left, the built-in default play is stored; the stored configuration is returned |
| DataManagement.DataManager.GetPlaysConfig | js/data-manager.js:154-156 | returns the stored configuration |
| DataManagement.DataManager.GetSheetUrl | js/data-manager.js:48-58 | never empty; without configuration the built-in URL; else the play's own sheet, else the default play's sheet, else the built-in URL |
| DataManagement.DataManager.GetActors | js/data-manager.js:119-127 | one pair per role row with a character and a text, both non-empty |
| DataManagement.GetActorsMembers | js/data-manager.js:119-127 | a pair is listed exactly when some role row carries that character and that text |
| DataManagement.GetActorsAppend | js/data-manager.js:119-127 | the pairs of two sheets read one after the other are those of the first, then those of the second |
| DataManagement.GetActorsExample | js/data-manager.js:119-127 | a role listed twice gives two pairs (no de-duplication); a role row without an actor gives none |
| DataManagement.DefaultConfigSheetUrl | js/data-manager.js:31-57 | once the built-in default play is the configuration, every play reads the built-in sheet |
| DataManagement.OwnSheetOrDefault | js/data-manager.js:53-57 | a play with its own sheet reads that sheet; the default play reads the default sheet |
| DataManagement.DataManager.NormalizeData | js/data-manager.js:134-148 | returns `Kept` of the original values: an object of the input is returned exactly when its original `Szene` was not exactly `"0"`, in order; each of them is rewritten in place (trimmed, role upper-cased) exactly once, and every other object is untouched |
| DataManagement.DataManager.KeepScenes | js/data-manager.js:136 | given values whose `Szene` is each object's own, the filter computes `Kept` of them |
| DataManagement.DataManager.RewriteRows | js/data-manager.js:139-145 | every kept object is rewritten from its original value, even when it appears twice; no other object changes |
| DataManagement.DataManager.NormalizeRow | js/data-manager.js:140-144 | one object is rewritten to the normalised fields of its original value |
| DataManagement.RewriteAgain | js/data-manager.js:139-145 | rewriting an already rewritten object gives the same result, so an object listed twice ends as if rewritten once |
| DataManagement.KeptSceneZeroExample | js/data-manager.js:136 | a row of scene `" 0"` survives the filter, which compares the untrimmed value; a row of scene `"0"` does not |
| DataManagement.SpacedSceneZeroExample | js/data-manager.js:141 | the surviving `" 0"` row is then trimmed to `"0"`, so the output can hold scene `"0"` after all |
| EventUtils.EscapeRegExp | js/utils.js:21-23 | the pattern is one character longer for each special character of the input |
| EventUtils.EscapeAppend | js/utils.js:22 | escaping distributes over concatenation, since the global replace works on each character |
| EventUtils.UnescapeEscape | js/utils.js:21-23 | reading the escaped pattern back (a backslash stands for the character after it) gives exactly the input |
| EventUtils.EscapePlain | js/utils.js:21-23 | a string without special characters is its own pattern |
| EventUtils.EscapeExamples | js/utils.js:21-23 | a dot between two plain characters, and both parentheses around a plain one, each get one backslash |
| EventUtils.WithoutMembers | js/utils.js:215-218 | after `off`, the callback is gone from the list and every other listener keeps its membership |
| EventUtils.OffUndoesOn | js/utils.js:208-218 | `off` undoes an `on` of a callback that was not registered before |
| EventUtils.EventEmitter.constructor | js/utils.js:203-205 | no event has listeners |
| EventUtils.EventEmitter.Listeners | js/utils.js:221 | a missing list reads as no listeners |
| EventUtils.EventEmitter.On | js/utils.js:208-213 | the callback joins the end of the event's list, which is created if absent; no other event changes |
| EventUtils.EventEmitter.Off | js/utils.js:215-218 | an unknown event changes nothing; otherwise every occurrence of the callback leaves that event's list |
| EventUtils.EventEmitter.Emit | js/utils.js:220-229 | each listener of the event is called exactly once, in registration order, with the arguments, whether or not an earlier one threw |
| StateManagement.Lookup | js/state.js:33-35 | a key never written reads as `undefined` |
| StateManagement.InitialState | js/state.js:14-25 | the ten keys with their initial values: no director, empty director name, no marked line, not connected, an empty actor array |
| StateManagement.SetEmissions | js/state.js:43-51 | nothing is emitted exactly when the write is silent or the value is strictly equal to the old one; otherwise `change` with key, new and old value, then `change:<key>` with new and old value |
| StateManagement.RewriteIsQuiet | js/state.js:46 | writing the value a key already holds emits nothing |
| StateManagement.ChangeEventsNamed | js/state.js:47-49 | of the two events, the general one comes first and the second is named `change:` followed by the key |
| StateManagement.AppliedLookup | js/state.js:57-62 | after a batch, each key holds its last value in the batch, and keys not in it keep theirs |
| StateManagement.StateManager.constructor | js/state.js:12-26 | starts from the initial state with nothing emitted |
| StateManagement.StateManager.Get | js/state.js:33-35 | returns the stored value, `undefined` for a key never written |
| StateManagement.StateManager.Set | js/state.js:43-51 | the key holds the value afterwards, nothing else in the state changes, and the events of `SetEmissions` are emitted |
| StateManagement.StateManager.Update | js/state.js:57-62 | every entry is written, later ones winning, with no per-key events, then one `change` carrying the whole batch |
| StateManagement.StateManager.ClearMarkedLine | js/state.js:101-107 | the marked element loses its class and both marker fields become `null`, with their change events; a truthy non-element throws before anything changes; with at most the recorded element marked, nothing is marked afterwards |
| StateManagement.StateManager.SetMarkedLine | js/state.js:114-122 | after the clear, a truthy element gets the class and both fields, a falsy one leaves both `null`, and no other key changes; the events are the clear's two pairs, then for a truthy element the two pairs of the new values; it throws when the clear throws (nothing changed) or a truthy element has no `classList` (the clear's state and events stay); at most the recorded element stays marked |
| JsText.TrimShape | js/api.js:116-121 | `trim` removes exactly a run of whitespace at each end |
| JsText.TrimIdempotent | js/api.js:116-121 | trimming twice is trimming once |
| JsText.ToUpperIdempotent | js/api.js:118 | upper-casing an upper-cased string changes nothing |
| JsText.ToUpperKeepsTrimmed | js/api.js:118 | upper-casing neither adds nor removes whitespace at the ends |
| JsText.ParseIntOfPaddedDecimal | lib/utils.ts:44 | `parseInt` reads back a decimal number padded on the left with zeros |
| JsText.PadStart | lib/utils.ts:44 | `padStart` prefixes the fill character up to the width and never truncates |
| Sorting.SortByKeyStable | js/api.js:153 | the comparator sort keeps elements with equal keys in their relative order |
| Sorting.SortedDistinctStrict | stores/script-store.ts:26 | sorted distinct strings are strictly increasing, so the sorted list of a set of names is unique |
| OrderedMaps.DedupOrder | js/api.js:150-152 | `[...new Set(s)]` lists the elements by their first appearance |
| OrderedMaps.FromEntriesSpec | js/api.js:103-107 | `new Map(entries)` holds the keys by first appearance and, for each, the last value given |
| OrderedMaps.PutOther | static/js/mic-cue-generator.js:193-194 | `Map.set` leaves every other key's value alone |
| Common.FilterMembers | js/utils.js:217 | `filter` keeps exactly the elements that satisfy the condition |

## Left out

- The Git pull scheduler in `app.py` (a background thread running `git` on a wall-clock schedule), the Flask routes, `socketio.run` and the connect handler, which only prints: no decision is made there.
- Threads: Socket.IO runs handlers with `async_mode='threading'`. The model runs one handler at a time, to completion.
- The transport itself. Emissions are logged, not delivered. On disconnect the connection's room memberships are dropped, as the Socket.IO server does after the handler returns.
- Loading from the network and from storage, all of which depend on `fetch`, `localStorage`, `Date.now()` and the CSV parser: `loadScript` and `loadPlaysConfig` in `js/api.js`, `loadScript` in `js/data-manager.js`, `loadFromStorage`/`saveToStorage` in `js/state.js`, `savePresentActorsToStorage` in `js/suggestor.js`, and the URL and storage part of `init` in `js/viewer-shared.js` and `js/suggestor.js`. Their outcomes enter the model as parameters: `DataManagement.DataManager.LoadPlaysConfig` takes the fetched body, `Suggestor.RoleSuggestor.LoadCharacterMap` the parsed rows, and `Suggestor.RoleSuggestor.Init` the stored list.
- DOM output: the table of contents and line rendering in `js/renderer.js`; `updateProgress`, `updateConnectionStatus`, `updateDirectorStatus`, `startClock` and the abstract `render` in `js/viewer-shared.js`; `updateToggleButtonText`, `populateActorList` and the card rendering in `js/suggestor.js`. The checkbox handler that `populateActorList` installs is modelled as `Suggestor.RoleSuggestor.OnCheckboxChange`.
- Timer and DOM helpers in `js/utils.js` (`smoothScrollToElement`, `getUrlParams`, `updateUrlParam`, `debounce`, `throttle`, `formatTime`, `getEl`, `createElement`, `AutoScrollManager`) and in `lib/utils.ts` (`cn`, `debounce`, `throttle`, `storage`).
- The `sheetUrl` and `playId` fields of the viewer, the suggester and the data manager, which only feed the loading code.
- `generateSceneMicCues` on `null`: the model takes a list of rows. The empty list is modelled and comes back unchanged.
- `textMentionsActor`'s `catch` branch. The pattern is built from an escaped name, so constructing it cannot throw.
- JavaScript object identity for script rows. Rows are values, except in `normalizeData`, whose in-place rewrite is modelled on row objects (`DataManagement.RowObject`).
- Plain-object key order and prototype keys in `createToC`'s dictionary and in `categoryMap`; a category name such as `toString` is treated as unknown.
- Values other than strings in the sheet's columns. Every field is a string, and a missing field is `''`, which every condition in the core treats like `undefined`.
- `JsText.UpperChar`: `toUpperCase` is defined for Basic Latin and Latin-1 (which covers German text, with `ß` becoming `SS`); other characters are left unchanged.
- `JsText.SignOfNumber`: an exponent that underflows to zero (`'1e-400'`) or overflows is not distinguished from an exact literal.
- `ViewerShared.Percent`: computes `Math.floor((current / count) * 100)` on exact rationals. For some inputs the floating-point product is one unit smaller (`(29 / 100) * 100` is `28.999999999999996`).
- `ViewerShared.BaseViewer.ComputeSceneProgressCounts`: states the percentage only through its bounds `0..99`, because of the floating-point product above.
- `Suggestor.RoundPercent`: computes `Math.round(present / total * 100)` on exact rationals, so floating-point error at a half is not modelled.
- `StateManagement.Value`: numbers are integers, and objects other than arrays and DOM elements are left out. `classList` is modelled as the set of elements that carry the `marked-line` class.
- `StateManagement.StateManager.Set`: the emitted events are recorded in order rather than dispatched to listeners through the `EventEmitter` the class extends, so a listener that writes back into the state during an event is not modelled.
- `EventUtils.EventEmitter.Emit`: listeners are not allowed to call `on` or `off` while an event is being dispatched, and what a listener does apart from throwing is not modelled. The error it logs is not modelled either.
- Handler payloads of the Socket.IO server that are not a dictionary of strings. In `app.py` an explicit `{"playId": null}` makes `data.get("playId", "default")` return `None`, so the caller is registered for, and joins the room of, the play `None`; the model's `Election.JoinPlay` reads a `null` like a missing key and uses `"default"`. The browser client can send this, since `js/socket.js` starts with `playId` set to `null`. Non-string `name`, `password` or `playId` values, and a payload that is not a dictionary (the handler raises before replying), are not modelled either.
- String ordering outside the Basic Multilingual Plane. `Sorting.LexLe` compares Dafny characters, which are Unicode scalar values; JavaScript's default `sort()` compares UTF-16 code units. The two orders agree on characters of the Basic Multilingual Plane only.
- `JsText.ParseInt`: returns the exact integer, so the rounding of `parseInt` to a double above 2^53 is not modelled; this changes the `collectScenes` comparator only for scene numbers of more than 15 digits.
- `ViewerShared.BaseViewer.constructor`: `this.scriptData = null` is modelled as the empty script, so a query made before a script is loaded returns an empty answer where JavaScript would throw on `null`.
- The `clear_marker` relay. `js/socket.js:148` emits `clear_marker`, but `app.py` registers no handler for it and never emits `marker_clear`, so on the server as written the clear never reaches other clients and the `markerClear` handler of `js/viewer-shared.js` (modelled as `ViewerShared.BaseViewer.OnMarkerClear`) is never triggered by it. This comes from reading the source only; it is not executed.
- `ViewerShared.BaseViewer.Load`: only the assignments after the script has arrived are modelled, then the socket handlers for `markerUpdate` and `markerClear`. The `setDirector` handler only updates the page.

## Findings

| source | as written | input that shows it | evidently intended | confidence | as-written member | corrected member |
|---|---|---|---|---|---|---|
| js/renderer.js:193-209 | each line's own iteration stores a fresh `{visible, isContext: false}` after the earlier lines have marked it, so only windows of LATER lines survive | an instruction (`directionsContext` 1) followed by a hidden actor line: the window covers the actor line, which still ends neither visible nor context | context lines on both sides of every shown line, as the window `index - range .. index + range` says | medium, not executed | Renderer.CalculateLineStates (with Renderer.ForwardContextExample) | Renderer.CalculateLineStatesKeepingContext (with Renderer.KeepingContextExtends) |
| js/suggestor.js:101-122 | "all selected" is decided by `presentActors.size === actors.size`, and the present set can keep names restored from storage that are no longer in the cast | present `{HANS, ALT}`, cast `{HANS}`: everyone is present, yet the sizes differ, so every toggle "selects all" again and the selection can never be cleared | clear exactly when every cast member is present, otherwise mark everyone present | medium, not executed | Suggestor.RoleSuggestor.ToggleAllActors (with Suggestor.ToggleNeverClearsStaleSelection) | Suggestor.RoleSuggestor.ToggleAllActorsCovering (with Suggestor.ToggledCoveringFlips) |
