/**
 * The server's objects: `DirectorManager` with its three dictionaries, and the Socket.IO server that
 * owns one manager, the rooms, the director password and the emission log. Every method updates the
 * objects in place and is proved to produce the state the matching `Election` function describes, so
 * the lemmas about those functions hold for these objects too.
 */
module DirectorServer {
  import opened Common
  import opened Election

  class DirectorManager {
    var currentDirector: map<Play, Option<string>>
    var currentDirectorSid: map<Play, Option<Sid>>
    var sidToPlay: map<Sid, Play>

    /** The dictionaries as one value. */
    function Model(): Manager
      reads this
    {
      Manager(currentDirector, currentDirectorSid, sidToPlay)
    }

    constructor()
      ensures Model() == NewManager
    {
      currentDirector := map[];
      currentDirectorSid := map[];
      sidToPlay := map[];
    }

    method GetDirector(playId: Play) returns (name: Option<string>)
      ensures name == Election.GetDirector(Model(), playId)
    {
      name := if playId in currentDirector then currentDirector[playId] else None;
    }

    method GetDirectorSid(playId: Play) returns (sid: Option<Sid>)
      ensures sid == Election.GetDirectorSid(Model(), playId)
    {
      sid := if playId in currentDirectorSid then currentDirectorSid[playId] else None;
    }

    method IsDirector(playId: Play, sid: Sid) returns (b: bool)
      ensures b <==> Election.IsDirector(Model(), playId, sid)
    {
      var recorded := GetDirectorSid(playId);
      b := recorded == Some(sid);
    }

    method GetPlayForSid(sid: Sid) returns (playId: Play)
      ensures playId == Election.GetPlayForSid(Model(), sid)
    {
      playId := if sid in sidToPlay then sidToPlay[sid] else DefaultPlay;
    }

    method SetDirector(playId: Play, name: string, sid: Sid) returns (previous: Option<string>)
      modifies this
      ensures previous == Election.GetDirector(old(Model()), playId)
      ensures Model() == Election.SetDirector(old(Model()), playId, name, sid)
    {
      previous := GetDirector(playId);
      currentDirector := currentDirector[playId := Some(name)];
      currentDirectorSid := currentDirectorSid[playId := Some(sid)];
    }

    method UnsetDirector(playId: Play) returns (previous: Option<string>)
      modifies this
      ensures previous == Election.GetDirector(old(Model()), playId)
      ensures Model() == Election.UnsetDirector(old(Model()), playId)
    {
      previous := GetDirector(playId);
      currentDirector := currentDirector[playId := None];
      currentDirectorSid := currentDirectorSid[playId := None];
    }

    method SetPlayForSid(sid: Sid, playId: Play)
      modifies this
      ensures Model() == Election.SetPlayForSid(old(Model()), sid, playId)
    {
      sidToPlay := sidToPlay[sid := playId];
    }

    method RemoveSid(sid: Sid)
      modifies this
      ensures Model() == Election.RemoveSid(old(Model()), sid)
    {
      sidToPlay := sidToPlay - {sid};
    }
  }

  /** The Socket.IO server with its handlers; `request.sid` is the `sid` argument of each handler. */
  class Server {
    const manager: DirectorManager
    const password: string
    var rooms: map<Play, set<Sid>>
    var log: seq<Emission>

    /** The whole server state as one value. */
    function State(): Hub
      reads this, manager
    {
      Hub(manager.Model(), rooms, log)
    }

    constructor(password: string)
      ensures State() == NewHub && this.password == password
    {
      manager := new DirectorManager();
      this.password := password;
      rooms := map[];
      log := [];
    }

    /** `emit(event, payload, ...)` with the recipients already resolved. */
    method Emit(to: set<Sid>, event: string, payload: Payload)
      modifies this
      ensures rooms == old(rooms) && log == old(log) + [Emission(to, event, payload)]
    {
      log := log + [Emission(to, event, payload)];
    }

    /** The recipients of `room=p, skip_sid=skip`. */
    method RoomExcept(p: Play, skip: set<Sid>) returns (to: set<Sid>)
      ensures to == Members(rooms, p) - skip
    {
      to := if p in rooms then rooms[p] - skip else {};
    }

    method HandleJoinPlay(sid: Sid, playId: Option<Play>)
      modifies this, manager
      ensures State() == JoinPlay(old(State()), sid, playId)
    {
      var p := if playId.Some? then playId.value else DefaultPlay;
      var previous := manager.GetPlayForSid(sid);
      if previous != "" && previous != p {
        rooms := LeaveRoom(rooms, previous, sid);
      }
      manager.SetPlayForSid(sid, p);
      rooms := rooms[p := Members(rooms, p) + {sid}];
      var director := manager.GetDirector(p);
      var isDirector := manager.IsDirector(p, sid);
      Emit({sid}, "set_director", Success(OrElse(director, Nobody), isDirector));
    }

    method HandleSetDirector(sid: Sid, name: Option<string>, pw: Option<string>)
      modifies this, manager
      ensures State() == SetDirectorRequest(old(State()), password, sid, name, pw)
    {
      var p := manager.GetPlayForSid(sid);
      if name.None? || name.value == "" || pw.None? || pw.value == "" {
        Emit({sid}, "set_director", Failure(MissingCredentials));
        return;
      }
      if pw.value != password {
        Emit({sid}, "set_director", Failure(WrongPassword));
        return;
      }
      ClaimPlay(p, sid, name.value);
    }

    /** The accepted claim: record the caller, then announce a takeover or a first claim. */
    method ClaimPlay(p: Play, sid: Sid, name: string)
      modifies this, manager
      ensures State() == Claim(old(State()), p, sid, name)
    {
      var previousDirector := manager.GetDirector(p);
      var previousDirectorSid := manager.GetDirectorSid(p);
      var _ := manager.SetDirector(p, name, sid);
      if previousDirector.Some? && previousDirector.value != "" {
        EmitTakeover(p, previousDirector.value, previousDirectorSid, name, sid);
      } else {
        EmitClaim(p, name, sid);
      }
    }

    method EmitTakeover(p: Play, previous: string, previousSid: Option<Sid>, name: string, sid: Sid)
      modifies this
      ensures rooms == old(rooms) && log == old(log) + TakeoverNotices(rooms, p, previous, previousSid, name, sid)
    {
      var previousTo := if previousSid.Some? then {previousSid.value} else {};
      Emit(previousTo, "director_takeover", Takeover(previous, name, false));
      Emit({sid}, "director_takeover", Takeover(previous, name, true));
      var others := RoomExcept(p, previousTo + {sid});
      assert others == Members(rooms, p) - previousTo - {sid};
      Emit(others, "director_takeover", Takeover(previous, name, false));
    }

    method EmitClaim(p: Play, name: string, sid: Sid)
      modifies this
      ensures rooms == old(rooms) && log == old(log) + ClaimNotices(rooms, p, name, sid)
    {
      Emit({sid}, "set_director", Success(name, true));
      var others := RoomExcept(p, {sid});
      Emit(others, "set_director", Success(name, false));
    }

    /** Clears play `p` and tells its whole room; shared by `unset_director` and `disconnect`. */
    method VacatePlay(p: Play)
      modifies this, manager
      ensures State() == Vacate(old(State()), p)
    {
      var previousDirector := manager.UnsetDirector(p);
      var room := RoomExcept(p, {});
      assert room == Members(rooms, p);
      Emit(room, "unset_director", Unset(Nobody, previousDirector, false));
    }

    method HandleUnsetDirector(sid: Sid)
      modifies this, manager
      ensures State() == UnsetDirectorRequest(old(State()), sid)
    {
      var p := manager.GetPlayForSid(sid);
      var isDirector := manager.IsDirector(p, sid);
      if !isDirector {
        return;
      }
      VacatePlay(p);
    }

    /** `disconnect`, followed by the transport taking the connection out of every room. */
    method HandleDisconnect(sid: Sid)
      modifies this, manager
      ensures State() == Disconnect(old(State()), sid)
    {
      var p := manager.GetPlayForSid(sid);
      var isDirector := manager.IsDirector(p, sid);
      if isDirector {
        VacatePlay(p);
      }
      manager.RemoveSid(sid);
      rooms := LeaveAllRooms(rooms, sid);
    }

    method HandleSetMarker(sid: Sid, data: Json)
      modifies this, manager
      ensures State() == SetMarker(old(State()), sid, data)
    {
      var p := manager.GetPlayForSid(sid);
      var isDirector := manager.IsDirector(p, sid);
      if !isDirector {
        return;
      }
      var others := RoomExcept(p, {sid});
      Emit(others, "marker_update", Forward(data));
    }

    /** Runs the handler an event calls for. */
    method Handle(e: Event)
      modifies this, manager
      ensures State() == Apply(old(State()), password, e)
    {
      match e
      case JoinPlayEvent(sid, playId) => HandleJoinPlay(sid, playId);
      case SetDirectorEvent(sid, name, pw) => HandleSetDirector(sid, name, pw);
      case UnsetDirectorEvent(sid) => HandleUnsetDirector(sid);
      case DisconnectEvent(sid) => HandleDisconnect(sid);
      case SetMarkerEvent(sid, data) => HandleSetMarker(sid, data);
    }

    /** Handles the events one at a time, in order; the state stays paired throughout. */
    method Serve(es: seq<Event>)
      requires Valid(State())
      modifies this, manager
      ensures State() == Run(old(State()), password, es)
      ensures Valid(State())
    {
      var k := 0;
      while k < |es|
        invariant k <= |es|
        invariant State() == Run(old(State()), password, es[..k])
        invariant Valid(State())
      {
        ApplyValid(State(), password, es[k]);
        Handle(es[k]);
        assert es[..k + 1][..k] == es[..k];
        k := k + 1;
      }
      assert es[..k] == es;
    }
  }
}
