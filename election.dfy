/**
 * The director election and marker relay of the Flask-SocketIO server. Per play the server keeps the
 * name of the director and the connection (`sid`) that holds the role, and per connection the play it
 * joined. Five handlers (`join_play`, `set_director`, `unset_director`, `disconnect`, `set_marker`)
 * read and update that state and emit messages. This module states the whole server state as a value
 * and each handler as a function from state to state; `DirectorServer` holds the same state in objects.
 *
 * Outbound traffic is a log of emissions whose recipients are resolved when the message is sent:
 * `emit` with no target or `to=sid` reaches one connection, `room=p` every member of room `p`, and
 * `skip_sid` removes the listed connections from that set.
 */
module Election {
  import opened Common

  type Sid = string
  type Play = string

  /** A JSON value as received from a client; `set_marker` forwards it unchanged. */
  datatype Json = Null | Bool(b: bool) | Number(n: int) | Str(s: string) | Arr(items: seq<Json>) | Obj(fields: map<string, Json>)

  /** The payload objects the handlers send. */
  datatype Payload =
    | Failure(message: string)                                                   // {success: false, message}
    | Success(director: string, isDirector: bool)                                // {success: true, director, isDirector}
    | Takeover(previousDirector: string, newDirector: string, isDirector: bool)  // director_takeover
    | Unset(director: string, previous: Option<string>, isDirector: bool)         // unset_director; previous is previousDirector, maybe null
    | Forward(data: Json)                                                        // marker_update

  /** One `emit`: the connections it reaches, the event name and the payload. */
  datatype Emission = Emission(to: set<Sid>, event: string, payload: Payload)

  const Nobody := "Niemand"
  const DefaultPlay := "default"

  // ---------------------------------------------------------------- DirectorManager

  /** The three dictionaries of `DirectorManager`; a play's value is `None` after `unset_director`. */
  datatype Manager = Manager(
    currentDirector: map<Play, Option<string>>,
    currentDirectorSid: map<Play, Option<Sid>>,
    sidToPlay: map<Sid, Play>)

  const NewManager := Manager(map[], map[], map[])

  /** Python's `d.get(k)` on a dictionary whose values may be `None`. */
  function Lookup<V>(d: map<string, Option<V>>, k: string): Option<V> {
    if k in d then d[k] else None
  }

  function GetDirector(m: Manager, p: Play): Option<string> {
    Lookup(m.currentDirector, p)
  }

  function GetDirectorSid(m: Manager, p: Play): Option<Sid> {
    Lookup(m.currentDirectorSid, p)
  }

  /** `is_director(play, sid)`: the recorded connection of `play` is `sid`. */
  predicate IsDirector(m: Manager, p: Play, sid: Sid) {
    GetDirectorSid(m, p) == Some(sid)
  }

  /** `get_play_for_sid`: an unregistered connection belongs to the default play. */
  function GetPlayForSid(m: Manager, sid: Sid): (p: Play)
    ensures sid !in m.sidToPlay ==> p == DefaultPlay
  {
    if sid in m.sidToPlay then m.sidToPlay[sid] else DefaultPlay
  }

  /** `set_director(play, name, sid)`: records name and connection of `play` together. */
  function SetDirector(m: Manager, p: Play, name: string, sid: Sid): (r: Manager)
    ensures GetDirector(r, p) == Some(name) && GetDirectorSid(r, p) == Some(sid)
    ensures forall q | q != p :: GetDirector(r, q) == GetDirector(m, q) && GetDirectorSid(r, q) == GetDirectorSid(m, q)
    ensures r.sidToPlay == m.sidToPlay
  {
    m.(currentDirector := m.currentDirector[p := Some(name)], currentDirectorSid := m.currentDirectorSid[p := Some(sid)])
  }

  /** `unset_director(play)`: clears name and connection of `play` together. */
  function UnsetDirector(m: Manager, p: Play): (r: Manager)
    ensures GetDirector(r, p).None? && GetDirectorSid(r, p).None?
    ensures forall q | q != p :: GetDirector(r, q) == GetDirector(m, q) && GetDirectorSid(r, q) == GetDirectorSid(m, q)
    ensures r.sidToPlay == m.sidToPlay
  {
    m.(currentDirector := m.currentDirector[p := None], currentDirectorSid := m.currentDirectorSid[p := None])
  }

  /** `set_play_for_sid(sid, play)`: registers one connection, touching no director entry. */
  function SetPlayForSid(m: Manager, sid: Sid, p: Play): (r: Manager)
    ensures GetPlayForSid(r, sid) == p
    ensures forall s | s != sid :: GetPlayForSid(r, s) == GetPlayForSid(m, s)
    ensures r.currentDirector == m.currentDirector && r.currentDirectorSid == m.currentDirectorSid
  {
    m.(sidToPlay := m.sidToPlay[sid := p])
  }

  /** `remove_sid(sid)`: forgets one connection; forgetting an unknown one changes nothing. */
  function RemoveSid(m: Manager, sid: Sid): (r: Manager)
    ensures sid !in r.sidToPlay && GetPlayForSid(r, sid) == DefaultPlay
    ensures forall s | s != sid :: GetPlayForSid(r, s) == GetPlayForSid(m, s)
    ensures r.currentDirector == m.currentDirector && r.currentDirectorSid == m.currentDirectorSid
    ensures sid !in m.sidToPlay ==> r == m
  {
    m.(sidToPlay := m.sidToPlay - {sid})
  }

  /**
   * The pairing invariant: a play has a director name exactly when it has a director connection, and
   * a recorded name is never empty (so Python's truth test on it is the same as "is recorded").
   */
  ghost predicate Paired(m: Manager) {
    && (forall p :: GetDirector(m, p).None? <==> GetDirectorSid(m, p).None?)
    && (forall p | GetDirector(m, p).Some? :: GetDirector(m, p).value != "")
  }

  // ---------------------------------------------------------------- the server

  /** The director state, the Socket.IO rooms and everything emitted so far. */
  datatype Hub = Hub(manager: Manager, rooms: map<Play, set<Sid>>, log: seq<Emission>)

  const NewHub := Hub(NewManager, map[], [])

  ghost predicate Valid(h: Hub) {
    Paired(h.manager)
  }

  /** The members of a room; a room nobody joined is empty. */
  function Members(rooms: map<Play, set<Sid>>, p: Play): set<Sid> {
    if p in rooms then rooms[p] else {}
  }

  /** `join_room(p)`. */
  function JoinRoom(rooms: map<Play, set<Sid>>, p: Play, sid: Sid): (r: map<Play, set<Sid>>)
    ensures Members(r, p) == Members(rooms, p) + {sid}
    ensures forall q | q != p :: Members(r, q) == Members(rooms, q)
  {
    rooms[p := Members(rooms, p) + {sid}]
  }

  /** `leave_room(p)`; leaving a room one is not in changes no membership. */
  function LeaveRoom(rooms: map<Play, set<Sid>>, p: Play, sid: Sid): (r: map<Play, set<Sid>>)
    ensures Members(r, p) == Members(rooms, p) - {sid}
    ensures forall q | q != p :: Members(r, q) == Members(rooms, q)
  {
    if p in rooms then rooms[p := rooms[p] - {sid}] else rooms
  }

  /** What the transport does once a connection is gone: it leaves every room. */
  function LeaveAllRooms(rooms: map<Play, set<Sid>>, sid: Sid): (r: map<Play, set<Sid>>)
    ensures forall q :: Members(r, q) == Members(rooms, q) - {sid}
  {
    map q | q in rooms :: rooms[q] - {sid}
  }

  /** The recipients of `to=sid` for a connection id that may be `None`. */
  function SidSet(o: Option<Sid>): set<Sid> {
    if o.Some? then {o.value} else {}
  }

  /** Python's `x or default` on an optional string: `None` and `""` are both false. */
  function OrElse(o: Option<string>, default: string): (r: string)
    ensures !Falsy(o) ==> r == o.value
    ensures Falsy(o) ==> r == default
  {
    if o.Some? && o.value != "" then o.value else default
  }

  /** Python's `not x` on an optional string. */
  predicate Falsy(o: Option<string>) {
    o.None? || o.value == ""
  }

  // ---------------------------------------------------------------- the handlers

  /** `join_play`: registers the caller for the requested play (default `"default"`) and replies with the director. */
  function JoinPlay(h: Hub, sid: Sid, playId: Option<Play>): Hub {
    var p := playId.GetOr(DefaultPlay);
    var previous := GetPlayForSid(h.manager, sid);
    var rooms := if previous != "" && previous != p then LeaveRoom(h.rooms, previous, sid) else h.rooms;
    var m := SetPlayForSid(h.manager, sid, p);
    var reply := Emission({sid}, "set_director", Success(OrElse(GetDirector(m, p), Nobody), IsDirector(m, p, sid)));
    Hub(m, JoinRoom(rooms, p, sid), h.log + [reply])
  }

  const MissingCredentials := "Name und Passwort erforderlich"
  const WrongPassword := "Falsches Passwort"

  /** `set_director`: checks the credentials against `password`, then claims or takes over the caller's play. */
  function SetDirectorRequest(h: Hub, password: string, sid: Sid, name: Option<string>, pw: Option<string>): Hub {
    if Falsy(name) || Falsy(pw) then
      h.(log := h.log + [Emission({sid}, "set_director", Failure(MissingCredentials))])
    else if pw.value != password then
      h.(log := h.log + [Emission({sid}, "set_director", Failure(WrongPassword))])
    else
      Claim(h, GetPlayForSid(h.manager, sid), sid, name.value)
  }

  /** An accepted claim: `sid` becomes the director `name` of `p`, announced as a takeover if `p` had one. */
  function Claim(h: Hub, p: Play, sid: Sid, name: string): Hub {
    var previous := GetDirector(h.manager, p);
    var m := SetDirector(h.manager, p, name, sid);
    if !Falsy(previous) then
      h.(manager := m, log := h.log + TakeoverNotices(h.rooms, p, previous.value, GetDirectorSid(h.manager, p), name, sid))
    else
      h.(manager := m, log := h.log + ClaimNotices(h.rooms, p, name, sid))
  }

  /** The three `director_takeover` messages: to the old director, to the caller, to the rest of the room. */
  function TakeoverNotices(rooms: map<Play, set<Sid>>, p: Play, previous: string, previousSid: Option<Sid>,
                           name: string, sid: Sid): seq<Emission>
  {
    [ Emission(SidSet(previousSid), "director_takeover", Takeover(previous, name, false)),
      Emission({sid}, "director_takeover", Takeover(previous, name, true)),
      Emission(Members(rooms, p) - SidSet(previousSid) - {sid}, "director_takeover", Takeover(previous, name, false)) ]
  }

  /** The two `set_director` messages of a claim on a vacant play: to the caller, to the rest of the room. */
  function ClaimNotices(rooms: map<Play, set<Sid>>, p: Play, name: string, sid: Sid): seq<Emission> {
    [ Emission({sid}, "set_director", Success(name, true)),
      Emission(Members(rooms, p) - {sid}, "set_director", Success(name, false)) ]
  }

  /** The vacating step shared by `unset_director` and `disconnect`: clear the play and tell its whole room. */
  function Vacate(h: Hub, p: Play): Hub {
    h.(manager := UnsetDirector(h.manager, p),
       log := h.log + [Emission(Members(h.rooms, p), "unset_director", Unset(Nobody, GetDirector(h.manager, p), false))])
  }

  /** `unset_director`: only the recorded director of the caller's play may vacate it. */
  function UnsetDirectorRequest(h: Hub, sid: Sid): Hub {
    var p := GetPlayForSid(h.manager, sid);
    if !IsDirector(h.manager, p, sid) then h else Vacate(h, p)
  }

  /** `disconnect`: vacates the caller's play if the caller directs it, then forgets the caller. */
  function Disconnect(h: Hub, sid: Sid): Hub {
    var p := GetPlayForSid(h.manager, sid);
    var h1 := if IsDirector(h.manager, p, sid) then Vacate(h, p) else h;
    Hub(RemoveSid(h1.manager, sid), LeaveAllRooms(h1.rooms, sid), h1.log)
  }

  /** `set_marker`: the director's marker goes to the rest of the play's room; anyone else's is dropped. */
  function SetMarker(h: Hub, sid: Sid, data: Json): Hub {
    var p := GetPlayForSid(h.manager, sid);
    if !IsDirector(h.manager, p, sid) then h
    else h.(log := h.log + [Emission(Members(h.rooms, p) - {sid}, "marker_update", Forward(data))])
  }

  /** A message from a client, or its disconnection. */
  datatype Event =
    | JoinPlayEvent(sid: Sid, playId: Option<Play>)
    | SetDirectorEvent(sid: Sid, name: Option<string>, pw: Option<string>)
    | UnsetDirectorEvent(sid: Sid)
    | DisconnectEvent(sid: Sid)
    | SetMarkerEvent(sid: Sid, data: Json)

  /** One handler run; handlers run one at a time. */
  function Apply(h: Hub, password: string, e: Event): Hub {
    match e
    case JoinPlayEvent(sid, playId) => JoinPlay(h, sid, playId)
    case SetDirectorEvent(sid, name, pw) => SetDirectorRequest(h, password, sid, name, pw)
    case UnsetDirectorEvent(sid) => UnsetDirectorRequest(h, sid)
    case DisconnectEvent(sid) => Disconnect(h, sid)
    case SetMarkerEvent(sid, data) => SetMarker(h, sid, data)
  }

  /** The state after the events `es`, in order. */
  function Run(h: Hub, password: string, es: seq<Event>): Hub {
    if es == [] then h else Apply(Run(h, password, es[..|es| - 1]), password, es[|es| - 1])
  }

  // ---------------------------------------------------------------- the pairing invariant

  lemma {:induction false} NewHubValid()
    ensures Valid(NewHub)
  {
  }

  lemma {:induction false} SetDirectorPaired(m: Manager, p: Play, name: string, sid: Sid)
    requires Paired(m) && name != ""
    ensures Paired(SetDirector(m, p, name, sid))
  {
    var r := SetDirector(m, p, name, sid);
    forall q ensures GetDirector(r, q).None? <==> GetDirectorSid(r, q).None? {
      if q != p {
        assert GetDirector(r, q) == GetDirector(m, q);
      }
    }
  }

  lemma {:induction false} UnsetDirectorPaired(m: Manager, p: Play)
    requires Paired(m)
    ensures Paired(UnsetDirector(m, p))
  {
    var r := UnsetDirector(m, p);
    forall q ensures GetDirector(r, q).None? <==> GetDirectorSid(r, q).None? {
      if q != p {
        assert GetDirector(r, q) == GetDirector(m, q);
      }
    }
  }

  /** The pairing invariant is about the director dictionaries only. */
  lemma {:induction false} RegistryPaired(m: Manager, m': Manager)
    requires Paired(m)
    requires m'.currentDirector == m.currentDirector && m'.currentDirectorSid == m.currentDirectorSid
    ensures Paired(m')
  {
    assert forall p :: GetDirector(m', p) == GetDirector(m, p) && GetDirectorSid(m', p) == GetDirectorSid(m, p);
  }

  /** Every handler keeps name and connection of every play paired. */
  lemma {:induction false} ApplyValid(h: Hub, password: string, e: Event)
    requires Valid(h)
    ensures Valid(Apply(h, password, e))
  {
    match e
    case JoinPlayEvent(sid, playId) =>
      RegistryPaired(h.manager, JoinPlay(h, sid, playId).manager);
    case SetDirectorEvent(sid, name, pw) =>
      if !Falsy(name) && !Falsy(pw) && pw.value == password {
        SetDirectorPaired(h.manager, GetPlayForSid(h.manager, sid), name.value, sid);
      }
    case UnsetDirectorEvent(sid) =>
      UnsetDirectorPaired(h.manager, GetPlayForSid(h.manager, sid));
    case DisconnectEvent(sid) =>
      var p := GetPlayForSid(h.manager, sid);
      var h1 := if IsDirector(h.manager, p, sid) then Vacate(h, p) else h;
      UnsetDirectorPaired(h.manager, p);
      RegistryPaired(h1.manager, RemoveSid(h1.manager, sid));
    case SetMarkerEvent(sid, data) =>
  }

  /** From a fresh server, every sequence of handler runs keeps the pairing invariant. */
  lemma {:induction false} RunValid(password: string, es: seq<Event>)
    ensures Valid(Run(NewHub, password, es))
  {
    if es != [] {
      RunValid(password, es[..|es| - 1]);
      ApplyValid(Run(NewHub, password, es[..|es| - 1]), password, es[|es| - 1]);
    }
  }

  /** Under the invariant, a recorded director always has a connection to receive the takeover notice. */
  lemma {:induction false} TakeoverTarget(h: Hub, p: Play)
    requires Valid(h) && !Falsy(GetDirector(h.manager, p))
    ensures SidSet(GetDirectorSid(h.manager, p)) == {GetDirectorSid(h.manager, p).value}
  {
  }

  // ---------------------------------------------------------------- play isolation

  /** `p`'s director entries are the same in both managers. */
  predicate SameDirector(m: Manager, m': Manager, p: Play) {
    GetDirector(m', p) == GetDirector(m, p) && GetDirectorSid(m', p) == GetDirectorSid(m, p)
  }

  /** A handler run by a connection changes no director entry of any play but the caller's registered one. */
  lemma {:induction false} ApplyIsolated(h: Hub, password: string, e: Event, q: Play)
    requires q != GetPlayForSid(h.manager, e.sid)
    ensures SameDirector(h.manager, Apply(h, password, e).manager, q)
  {
  }

  /** `join_play` never touches the director dictionaries. */
  lemma {:induction false} JoinPlayKeepsDirectors(h: Hub, sid: Sid, playId: Option<Play>)
    ensures JoinPlay(h, sid, playId).manager.currentDirector == h.manager.currentDirector
    ensures JoinPlay(h, sid, playId).manager.currentDirectorSid == h.manager.currentDirectorSid
  {
  }

  // ---------------------------------------------------------------- join_play

  /** The caller is registered for and joins the requested play and gets one reply naming the director. */
  lemma {:induction false} JoinPlayEffect(h: Hub, sid: Sid, playId: Option<Play>)
    ensures var h', p := JoinPlay(h, sid, playId), playId.GetOr(DefaultPlay);
      && GetPlayForSid(h'.manager, sid) == p
      && (forall s | s != sid :: GetPlayForSid(h'.manager, s) == GetPlayForSid(h.manager, s))
      && Members(h'.rooms, p) == Members(h.rooms, p) + {sid}
      && h'.log == h.log + [Emission({sid}, "set_director",
           Success(OrElse(GetDirector(h.manager, p), Nobody), GetDirectorSid(h.manager, p) == Some(sid)))]
  {
  }

  /** The previous room is left exactly when it is a non-empty name other than the new play; no other room changes. */
  lemma {:induction false} JoinPlayRooms(h: Hub, sid: Sid, playId: Option<Play>, q: Play)
    requires q != playId.GetOr(DefaultPlay)
    ensures var previous := GetPlayForSid(h.manager, sid);
      Members(JoinPlay(h, sid, playId).rooms, q)
      == if q == previous && previous != "" then Members(h.rooms, q) - {sid} else Members(h.rooms, q)
  {
  }

  /** A director who joins another play stays the recorded director of the old one but can no longer release it. */
  lemma {:induction false} SwitchingDirectorStaysRecorded(h: Hub, sid: Sid, p: Play, q: Play)
    requires GetPlayForSid(h.manager, sid) == p && IsDirector(h.manager, p, sid) && q != p
    requires !IsDirector(h.manager, q, sid)
    ensures var h' := JoinPlay(h, sid, Some(q));
      && IsDirector(h'.manager, p, sid)
      && UnsetDirectorRequest(h', sid) == h'
      && IsDirector(Disconnect(h', sid).manager, p, sid)
  {
  }

  // ---------------------------------------------------------------- set_director

  /** A claim without a name or password is refused to the caller alone and changes no state. */
  lemma {:induction false} ClaimMissingCredentials(h: Hub, password: string, sid: Sid, name: Option<string>, pw: Option<string>)
    requires Falsy(name) || Falsy(pw)
    ensures SetDirectorRequest(h, password, sid, name, pw)
         == h.(log := h.log + [Emission({sid}, "set_director", Failure(MissingCredentials))])
  {
  }

  /** A claim with the wrong password is refused to the caller alone and changes no state. */
  lemma {:induction false} ClaimWrongPassword(h: Hub, password: string, sid: Sid, name: string, pw: string)
    requires name != "" && pw != "" && pw != password
    ensures SetDirectorRequest(h, password, sid, Some(name), Some(pw))
         == h.(log := h.log + [Emission({sid}, "set_director", Failure(WrongPassword))])
  {
  }

  /** A valid claim always makes the caller the director of its play, whoever held the role (last writer wins). */
  lemma {:induction false} ClaimRecords(h: Hub, password: string, sid: Sid, name: string)
    requires name != "" && password != ""
    ensures var h', p := SetDirectorRequest(h, password, sid, Some(name), Some(password)), GetPlayForSid(h.manager, sid);
      && GetDirector(h'.manager, p) == Some(name) && IsDirector(h'.manager, p, sid)
      && h'.manager.sidToPlay == h.manager.sidToPlay && h'.rooms == h.rooms
  {
  }

  /** A valid claim on a vacant play: the caller is told it directs, everyone else in the room is told who does. */
  lemma {:induction false} ClaimVacant(h: Hub, password: string, sid: Sid, name: string)
    requires name != "" && password != ""
    requires Falsy(GetDirector(h.manager, GetPlayForSid(h.manager, sid)))
    ensures var p := GetPlayForSid(h.manager, sid);
      SetDirectorRequest(h, password, sid, Some(name), Some(password)).log == h.log + [
        Emission({sid}, "set_director", Success(name, true)),
        Emission(Members(h.rooms, p) - {sid}, "set_director", Success(name, false))]
  {
  }

  /**
   * A valid claim on a directed play takes it over: the old director, the caller and the rest of the
   * room each get a `director_takeover` naming both. This holds when the caller already is the director.
   */
  lemma {:induction false} ClaimTakeover(h: Hub, password: string, sid: Sid, name: string)
    requires Valid(h) && name != "" && password != ""
    requires GetDirector(h.manager, GetPlayForSid(h.manager, sid)).Some?
    ensures var p := GetPlayForSid(h.manager, sid);
      var was, oldSid := GetDirector(h.manager, p).value, GetDirectorSid(h.manager, p).value;
      SetDirectorRequest(h, password, sid, Some(name), Some(password)).log == h.log + [
        Emission({oldSid}, "director_takeover", Takeover(was, name, false)),
        Emission({sid}, "director_takeover", Takeover(was, name, true)),
        Emission(Members(h.rooms, p) - {oldSid, sid}, "director_takeover", Takeover(was, name, false))]
  {
    var p := GetPlayForSid(h.manager, sid);
    TakeoverTarget(h, p);
    assert Members(h.rooms, p) - {GetDirectorSid(h.manager, p).value} - {sid}
        == Members(h.rooms, p) - {GetDirectorSid(h.manager, p).value, sid};
  }

  // ---------------------------------------------------------------- unset_director, disconnect, set_marker

  /** A connection that is not the director of its play cannot release it, and nothing is sent. */
  lemma {:induction false} UnsetByOther(h: Hub, sid: Sid)
    requires !IsDirector(h.manager, GetPlayForSid(h.manager, sid), sid)
    ensures UnsetDirectorRequest(h, sid) == h
  {
  }

  /** The director's release vacates the play and tells the whole room, the director included. */
  lemma {:induction false} UnsetByDirector(h: Hub, sid: Sid)
    requires IsDirector(h.manager, GetPlayForSid(h.manager, sid), sid)
    ensures var h', p := UnsetDirectorRequest(h, sid), GetPlayForSid(h.manager, sid);
      && GetDirector(h'.manager, p).None? && GetDirectorSid(h'.manager, p).None?
      && h'.rooms == h.rooms && h'.manager.sidToPlay == h.manager.sidToPlay
      && h'.log == h.log + [Emission(Members(h.rooms, p), "unset_director", Unset(Nobody, GetDirector(h.manager, p), false))]
  {
  }

  /** A disconnect vacates and announces the play only when the caller directs it; the caller is always forgotten. */
  lemma {:induction false} DisconnectEffect(h: Hub, sid: Sid)
    ensures var h', p := Disconnect(h, sid), GetPlayForSid(h.manager, sid);
      && sid !in h'.manager.sidToPlay
      && (forall s | s != sid :: GetPlayForSid(h'.manager, s) == GetPlayForSid(h.manager, s))
      && (forall q :: Members(h'.rooms, q) == Members(h.rooms, q) - {sid})
      && (IsDirector(h.manager, p, sid) ==>
            && GetDirector(h'.manager, p).None? && GetDirectorSid(h'.manager, p).None?
            && h'.log == h.log + [Emission(Members(h.rooms, p), "unset_director", Unset(Nobody, GetDirector(h.manager, p), false))])
      && (!IsDirector(h.manager, p, sid) ==> SameDirector(h.manager, h'.manager, p) && h'.log == h.log)
  {
  }

  /** A marker from anyone but the director is dropped silently. */
  lemma {:induction false} MarkerFromOther(h: Hub, sid: Sid, data: Json)
    requires !IsDirector(h.manager, GetPlayForSid(h.manager, sid), sid)
    ensures SetMarker(h, sid, data) == h
  {
  }

  /** The director's marker reaches the rest of the play's room unchanged; no state changes. */
  lemma {:induction false} MarkerFromDirector(h: Hub, sid: Sid, data: Json)
    requires IsDirector(h.manager, GetPlayForSid(h.manager, sid), sid)
    ensures var p := GetPlayForSid(h.manager, sid);
      SetMarker(h, sid, data) == h.(log := h.log + [Emission(Members(h.rooms, p) - {sid}, "marker_update", Forward(data))])
  {
  }

  // ---------------------------------------------------------------- the log

  /** Handlers only append to what was sent. */
  lemma {:induction false} RunAppends(h: Hub, password: string, es: seq<Event>)
    ensures |Run(h, password, es).log| >= |h.log| && Run(h, password, es).log[..|h.log|] == h.log
  {
    if es != [] {
      var h0 := Run(h, password, es[..|es| - 1]);
      RunAppends(h, password, es[..|es| - 1]);
      ApplyAppends(h0, password, es[|es| - 1]);
      assert Run(h, password, es).log[..|h.log|] == h0.log[..|h.log|];
    }
  }

  lemma {:induction false} ApplyAppends(h: Hub, password: string, e: Event)
    ensures var h' := Apply(h, password, e);
      |h'.log| >= |h.log| && h'.log[..|h.log|] == h.log
  {
  }
}
