/**
 * The vanilla client's application state (js/state.js): a dictionary of named values, change
 * events on every write that changes a value, a batch update with one event, and the marked line,
 * whose DOM element carries the `marked-line` class.
 */
module StateManagement {
  import opened Common
  import opened OrderedMaps

  /**
   * A state value. Arrays and DOM elements are objects: `!==` compares them by identity (`ref`),
   * everything else by value. Numbers are integers here.
   */
  datatype Value =
    | Undefined
    | Null
    | Bool(b: bool)
    | Num(n: int)
    | Str(s: string)
    | Arr(ref: nat, items: seq<Value>)
    | Element(ref: nat)

  /** `a === b`. */
  predicate StrictlyEqual(a: Value, b: Value) {
    if a.Arr? && b.Arr? then a.ref == b.ref else a == b
  }

  /** `if (v)`: JavaScript truthiness. */
  predicate Truthy(v: Value) {
    match v
    case Undefined => false
    case Null => false
    case Bool(b) => b
    case Num(n) => n != 0
    case Str(s) => s != ""
    case Arr(_, _) => true
    case Element(_) => true
  }

  /** What an event carries: the listener arguments, or the `updates` object of a batch. */
  datatype Payload = Values(values: seq<Value>) | Updates(entries: seq<(string, Value)>)

  /** One `this.emit(event, ...)`. */
  datatype Emission = Emission(event: string, payload: Payload)

  /** `this.state[key]`: a key never written reads as `undefined`. */
  function Lookup(state: map<string, Value>, key: string): (v: Value)
    ensures key in state ==> v == state[key]
    ensures key !in state ==> v == Undefined
  {
    if key in state then state[key] else Undefined
  }

  /** The state a new `StateManager` starts with; `actors` is a fresh empty array. */
  function InitialState(actorsRef: nat): (state: map<string, Value>)
    ensures state.Keys == {"playId", "scriptData", "actors", "markedLine", "markedLineIndex", "isDirector",
                           "directorName", "isConnected", "currentScene", "reconnectAttempts"}
    ensures Lookup(state, "isDirector") == Bool(false) && Lookup(state, "directorName") == Str("")
    ensures Lookup(state, "markedLine") == Null && Lookup(state, "markedLineIndex") == Null
    ensures Lookup(state, "isConnected") == Bool(false) && Lookup(state, "actors") == Arr(actorsRef, [])
  {
    map[
      "playId" := Null,
      "scriptData" := Null,
      "actors" := Arr(actorsRef, []),
      "markedLine" := Null,
      "markedLineIndex" := Null,
      "isDirector" := Bool(false),
      "directorName" := Str(""),
      "isConnected" := Bool(false),
      "currentScene" := Null,
      "reconnectAttempts" := Num(0)]
  }

  /**
   * The events `set(key, value, silent)` emits when `key` held `oldValue`: none when silent or
   * unchanged, else `'change'` with the key and both values, then `'change:<key>'` with both values.
   */
  function SetEmissions(key: string, oldValue: Value, value: Value, silent: bool): (es: seq<Emission>)
    ensures es == [] <==> silent || StrictlyEqual(oldValue, value)
    ensures es != [] ==> (|es| == 2
      && es[0] == Emission("change", Values([Str(key), value, oldValue]))
      && es[1] == Emission("change:" + key, Values([value, oldValue])))
  {
    if !silent && !StrictlyEqual(oldValue, value) then
      [Emission("change", Values([Str(key), value, oldValue])), Emission("change:" + key, Values([value, oldValue]))]
    else []
  }

  /** Writing the value a key already holds emits nothing. */
  lemma RewriteIsQuiet(state: map<string, Value>, key: string, value: Value, silent: bool)
    ensures SetEmissions(key, Lookup(state[key := value], key), value, silent) == []
  {
  }

  /** Of the two events, the general one comes first and the keyed one names the key. */
  lemma ChangeEventsNamed(key: string, oldValue: Value, value: Value)
    requires !StrictlyEqual(oldValue, value)
    ensures |SetEmissions(key, oldValue, value, false)| == 2
    ensures SetEmissions(key, oldValue, value, false)[0].event == "change"
    ensures SetEmissions(key, oldValue, value, false)[1].event[..7] == "change:"
    ensures SetEmissions(key, oldValue, value, false)[1].event[7..] == key
  {
  }

  /** The state after writing `updates` one entry after the other. */
  function Applied(state: map<string, Value>, updates: seq<(string, Value)>): map<string, Value> {
    if updates == [] then state
    else Applied(state, updates[..|updates| - 1])[updates[|updates| - 1].0 := updates[|updates| - 1].1]
  }

  /** After a batch, each key holds its last value in the batch, and keys not in it are untouched. */
  lemma {:induction false} AppliedLookup(state: map<string, Value>, updates: seq<(string, Value)>, key: string)
    ensures Lookup(Applied(state, updates), key) == match LastValue(updates, key)
      case Some(v) => v
      case None => Lookup(state, key)
  {
    if updates != [] {
      AppliedLookup(state, updates[..|updates| - 1], key);
    }
  }

  /** The objects that a value puts the `marked-line` class on: its element, if it is one. */
  function ElementOf(v: Value): set<nat> {
    if v.Element? then {v.ref} else {}
  }

  /** `class StateManager extends EventEmitter`, with the events it emits kept in order. */
  class StateManager {
    /** `this.state`. */
    var state: map<string, Value>
    /** The `emit` calls made so far; the emitter passes each to the event's listeners. */
    var emitted: seq<Emission>
    /** The DOM elements whose `classList` contains `marked-line`. */
    var marked: set<nat>

    constructor(actorsRef: nat, markedElements: set<nat>)
      ensures state == InitialState(actorsRef) && emitted == [] && marked == markedElements
    {
      state := InitialState(actorsRef);
      emitted := [];
      marked := markedElements;
    }

    /** `get(key)`. */
    function Get(key: string): (v: Value)
      reads this
      ensures key in state ==> v == state[key]
      ensures key !in state ==> v == Undefined
    {
      Lookup(state, key)
    }

    /** At most the element recorded as `markedLine` carries the class. */
    ghost predicate MarksOnlyCurrent()
      reads this
    {
      marked <= ElementOf(Get("markedLine"))
    }

    /** `set(key, value, silent)`: `get(key)` returns `value` afterwards. */
    method Set(key: string, value: Value, silent: bool)
      modifies this
      ensures state == old(state)[key := value] && Get(key) == value
      ensures emitted == old(emitted) + SetEmissions(key, old(Get(key)), value, silent)
      ensures marked == old(marked)
    {
      var oldValue := Get(key);
      state := state[key := value];
      if !silent && !StrictlyEqual(oldValue, value) {
        emitted := emitted + [Emission("change", Values([Str(key), value, oldValue]))];
        emitted := emitted + [Emission("change:" + key, Values([value, oldValue]))];
      }
    }

    /** `update(updates)`: every entry written silently, then one `'change'` carrying `updates`. */
    method Update(updates: seq<(string, Value)>)
      modifies this
      ensures state == Applied(old(state), updates)
      ensures emitted == old(emitted) + [Emission("change", Updates(updates))]
      ensures marked == old(marked)
    {
      var i := 0;
      while i < |updates|
        invariant i <= |updates|
        invariant state == Applied(old(state), updates[..i])
        invariant emitted == old(emitted) && marked == old(marked)
      {
        assert updates[..i + 1][..i] == updates[..i];
        Set(updates[i].0, updates[i].1, true);
        i := i + 1;
      }
      assert updates[..i] == updates;
      emitted := emitted + [Emission("change", Updates(updates))];
    }

    /**
     * `clearMarkedLine()`: the marked element loses its class, then both fields are set to `null`.
     * `ok` is false when `markedLine` holds a truthy non-element, whose missing `classList` makes
     * the call throw before anything changes.
     */
    method ClearMarkedLine() returns (ok: bool)
      modifies this
      ensures ok <==> !Truthy(old(Get("markedLine"))) || old(Get("markedLine")).Element?
      ensures !ok ==> state == old(state) && emitted == old(emitted) && marked == old(marked)
      ensures ok ==> marked == old(marked) - ElementOf(old(Get("markedLine")))
      ensures ok ==> state == old(state)["markedLine" := Null]["markedLineIndex" := Null]
      ensures ok ==> (emitted == old(emitted)
        + SetEmissions("markedLine", old(Get("markedLine")), Null, false)
        + SetEmissions("markedLineIndex", old(Get("markedLineIndex")), Null, false))
      ensures ok && old(MarksOnlyCurrent()) ==> marked == {}
    {
      var current := Get("markedLine");
      if Truthy(current) {
        if !current.Element? {
          return false;
        }
        marked := marked - {current.ref};
      }
      var index := Get("markedLineIndex");
      Set("markedLine", Null, false);
      assert Get("markedLineIndex") == index;
      Set("markedLineIndex", Null, false);
      ok := true;
    }

    /**
     * `setMarkedLine(element, index)`: clear first; a truthy element then gets the class and both
     * fields, a falsy one leaves both `null`. `ok` is false when the clear throws, or when a truthy
     * `element` has no `classList`, which throws after the clear.
     */
    method SetMarkedLine(element: Value, index: Value) returns (ok: bool)
      modifies this
      ensures ok ==> Get("markedLine") == (if Truthy(element) then element else Null)
      ensures ok ==> Get("markedLineIndex") == (if Truthy(element) then index else Null)
      ensures ok ==> marked == old(marked) - ElementOf(old(Get("markedLine"))) + ElementOf(element)
      ensures ok <==> (!Truthy(old(Get("markedLine"))) || old(Get("markedLine")).Element?)
                      && (!Truthy(element) || element.Element?)
      ensures ok && old(MarksOnlyCurrent()) ==> MarksOnlyCurrent() && marked == ElementOf(element)
      ensures ok ==> state == old(state)["markedLine" := if Truthy(element) then element else Null]
                                        ["markedLineIndex" := if Truthy(element) then index else Null]
      ensures ok ==> (emitted == old(emitted)
        + SetEmissions("markedLine", old(Get("markedLine")), Null, false)
        + SetEmissions("markedLineIndex", old(Get("markedLineIndex")), Null, false)
        + (if Truthy(element)
           then SetEmissions("markedLine", Null, element, false) + SetEmissions("markedLineIndex", Null, index, false)
           else []))
      ensures !(!Truthy(old(Get("markedLine"))) || old(Get("markedLine")).Element?) ==>
        state == old(state) && emitted == old(emitted) && marked == old(marked)
      ensures (!Truthy(old(Get("markedLine"))) || old(Get("markedLine")).Element?) && !ok ==>
        && state == old(state)["markedLine" := Null]["markedLineIndex" := Null]
        && emitted == old(emitted)
           + SetEmissions("markedLine", old(Get("markedLine")), Null, false)
           + SetEmissions("markedLineIndex", old(Get("markedLineIndex")), Null, false)
        && marked == old(marked) - ElementOf(old(Get("markedLine")))
    {
      ok := ClearMarkedLine();
      if !ok {
        return;
      }
      ghost var cleared, clearEvents := state, emitted;
      if Truthy(element) {
        if !element.Element? {
          return false;
        }
        marked := marked + {element.ref};
        Set("markedLine", element, false);
        Set("markedLineIndex", index, false);
        assert emitted == clearEvents + SetEmissions("markedLine", Null, element, false)
          + SetEmissions("markedLineIndex", Null, index, false);
      } else {
        assert emitted == clearEvents + [];
      }
    }
  }
}
