/**
 * The vanilla client's small utilities (js/utils.js): escaping a string for use inside a regular
 * expression, and the event emitter the state manager is built on.
 */
module EventUtils {
  import opened Common

  // ---------------------------------------------------------------- escapeRegExp

  /** The characters of the class `[.*+?^${}()|[\]\\]`. */
  predicate IsRegExpSpecial(c: char) {
    || c == '.' || c == '*' || c == '+' || c == '?' || c == '^' || c == '$' || c == '{' || c == '}'
    || c == '(' || c == ')' || c == '|' || c == '[' || c == ']' || c == '\\'
  }

  /** The replacement `'\\$&'` for one character: a backslash before a special one. */
  function EscapeChar(c: char): string {
    if IsRegExpSpecial(c) then ['\\', c] else [c]
  }

  /** `escapeRegExp(str)`: one backslash more for each special character, nothing else changed. */
  function EscapeRegExp(s: string): (r: string)
    ensures |r| == |s| + Count(s, IsRegExpSpecial)
  {
    if s == [] then [] else EscapeRegExp(s[..|s| - 1]) + EscapeChar(s[|s| - 1])
  }

  /** The global replace works character by character, so escaping distributes over concatenation. */
  lemma {:induction false} EscapeAppend(a: string, b: string)
    ensures EscapeRegExp(a + b) == EscapeRegExp(a) + EscapeRegExp(b)
  {
    if b == [] {
      assert a + b == a;
    } else {
      var init, c := b[..|b| - 1], b[|b| - 1];
      assert (a + b)[..|a + b| - 1] == a + init;
      assert (a + b)[|a + b| - 1] == c;
      EscapeAppend(a, init);
      calc {
        EscapeRegExp(a + b);
        EscapeRegExp(a + init) + EscapeChar(c);
        EscapeRegExp(a) + EscapeRegExp(init) + EscapeChar(c);
        EscapeRegExp(a) + EscapeRegExp(b);
      }
    }
  }

  /** Reading a pattern back: a backslash stands for the character after it. */
  function Unescape(r: string): string {
    if r == [] then []
    else if r[0] == '\\' && |r| >= 2 then [r[1]] + Unescape(r[2..])
    else [r[0]] + Unescape(r[1..])
  }

  /** The escaped pattern spells out exactly the original string. */
  lemma {:induction false} UnescapeEscape(s: string)
    ensures Unescape(EscapeRegExp(s)) == s
  {
    if s != [] {
      var c, t := s[0], s[1..];
      assert s == [c] + t;
      EscapeAppend([c], t);
      assert EscapeRegExp([c]) == EscapeRegExp([]) + EscapeChar(c);
      var rest := EscapeRegExp(t);
      UnescapeEscape(t);
      if IsRegExpSpecial(c) {
        assert (['\\', c] + rest)[2..] == rest;
      } else {
        assert ([c] + rest)[1..] == rest;
      }
    }
  }

  /** A string without special characters is its own pattern. */
  lemma {:induction false} EscapePlain(s: string)
    requires forall i | 0 <= i < |s| :: !IsRegExpSpecial(s[i])
    ensures EscapeRegExp(s) == s
  {
    if s != [] {
      EscapePlain(s[..|s| - 1]);
      assert s == s[..|s| - 1] + [s[|s| - 1]];
    }
  }

  /** A dot between two plain characters, and a plain character in parentheses. */
  lemma EscapeExamples(x: char, y: char)
    requires !IsRegExpSpecial(x) && !IsRegExpSpecial(y)
    ensures EscapeRegExp([x, '.', y]) == [x, '\\', '.', y]
    ensures EscapeRegExp(['(', x, ')']) == ['\\', '(', x, '\\', ')']
  {
    var dotted, grouped := [x, '.', y], ['(', x, ')'];
    assert [x][..0] == [] && EscapeRegExp([x]) == [x];
    assert [x, '.'][..1] == [x] && EscapeRegExp([x, '.']) == [x] + ['\\', '.'];
    assert dotted[..2] == [x, '.'] && EscapeRegExp(dotted) == [x, '\\', '.'] + [y];
    assert ['('][..0] == [] && EscapeRegExp(['(']) == ['\\', '('];
    assert ['(', x][..1] == ['('] && EscapeRegExp(['(', x]) == ['\\', '('] + [x];
    assert grouped[..2] == ['(', x] && EscapeRegExp(grouped) == ['\\', '(', x] + ['\\', ')'];
  }

  // ---------------------------------------------------------------- EventEmitter

  /** A listener function; `!==` compares functions by identity, modelled by `id`. */
  datatype Callback = Callback(id: nat)

  /** One call `callback(...args)` made by `emit`, and whether it threw. */
  datatype Invocation<A> = Invocation(callback: Callback, args: A, threw: bool)

  /** `list.filter((cb) => cb !== callback)`. */
  function Without(cbs: seq<Callback>, callback: Callback): seq<Callback> {
    Filter(cbs, cb => cb != callback)
  }

  /** `off` leaves none of `callback` and every other listener. */
  lemma WithoutMembers(cbs: seq<Callback>, callback: Callback, other: Callback)
    ensures callback !in Without(cbs, callback)
    ensures other != callback ==> (other in Without(cbs, callback) <==> other in cbs)
  {
    var r := Without(cbs, callback);
    FilterMembers(cbs, cb => cb != callback);
    if other != callback && other in cbs {
      var i :| 0 <= i < |cbs| && cbs[i] == other;
    }
  }

  /** `off` undoes an `on` of a callback that was not registered before. */
  lemma OffUndoesOn(cbs: seq<Callback>, callback: Callback)
    requires callback !in cbs
    ensures Without(cbs + [callback], callback) == cbs
  {
    FilterAppend(cbs, [callback], cb => cb != callback);
    FilterAll(cbs, cb => cb != callback);
    assert [callback][..0] == [];
  }

  /** `class EventEmitter`: one list of listeners per event name. */
  class EventEmitter {
    var events: map<string, seq<Callback>>

    constructor()
      ensures events == map[]
    {
      events := map[];
    }

    /** `this.events[event]`, with a missing list read as empty. */
    function Listeners(event: string): (cbs: seq<Callback>)
      reads this
      ensures event in events ==> cbs == events[event]
      ensures event !in events ==> cbs == []
    {
      if event in events then events[event] else []
    }

    /** `on(event, callback)`: the callback joins the end of the event's list, which is created if absent. */
    method On(event: string, callback: Callback)
      modifies this
      ensures events == old(events)[event := old(Listeners(event)) + [callback]]
      ensures Listeners(event) == old(Listeners(event)) + [callback]
    {
      if event !in events {
        events := events[event := []];
      }
      events := events[event := events[event] + [callback]];
    }

    /** `off(event, callback)`: every occurrence of the callback leaves the list; an unknown event is ignored. */
    method Off(event: string, callback: Callback)
      modifies this
      ensures event !in old(events) ==> events == old(events)
      ensures event in old(events) ==> events == old(events)[event := Without(old(events)[event], callback)]
      ensures callback !in Listeners(event)
    {
      if event !in events {
        return;
      }
      events := events[event := Without(events[event], callback)];
      WithoutMembers(old(events)[event], callback, callback);
    }

    /**
     * `emit(event, ...args)`: each listener of the event is called once, in registration order,
     * with the arguments; a listener that throws is logged and the rest still run.
     */
    method Emit<A>(event: string, args: A, throws: Callback -> bool) returns (calls: seq<Invocation<A>>)
      ensures |calls| == |Listeners(event)|
      ensures forall i | 0 <= i < |calls| :: calls[i] == Invocation(Listeners(event)[i], args, throws(Listeners(event)[i]))
    {
      calls := [];
      if event !in events {
        return;
      }
      var cbs := events[event];
      var i := 0;
      while i < |cbs|
        invariant i <= |cbs| && |calls| == i
        invariant forall j | 0 <= j < i :: calls[j] == Invocation(cbs[j], args, throws(cbs[j]))
      {
        calls := calls + [Invocation(cbs[i], args, throws(cbs[i]))];
        i := i + 1;
      }
    }
  }
}
