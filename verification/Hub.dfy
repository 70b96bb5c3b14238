/** The signalling server: rooms of two, force-takeover, and the ready announcement. */
module Hub {
  import opened Wrappers

  /** Connections are numbered; each sends one join. */
  type Conn = nat

  datatype Room = Room(owner: Option<Conn>, viewer: Option<Conn>)

  type Rooms = map<string, Room>

  predicate ValidRole(role: string) { role == "owner" || role == "viewer" }

  function Slot(rooms: Rooms, id: string, role: string): Option<Conn> {
    if id !in rooms then None
    else if role == "owner" then rooms[id].owner
    else if role == "viewer" then rooms[id].viewer
    else None
  }

  function OtherRole(role: string): string { if role == "owner" then "viewer" else "owner" }

  /** The room is created even when the role is then refused. */
  function Paired(rooms: Rooms, id: string, role: string, p: Conn): Rooms {
    var r := if id in rooms then rooms[id] else Room(None, None);
    rooms[id := if role == "owner" then r.(owner := Some(p)) else if role == "viewer" then r.(viewer := Some(p)) else r]
  }

  function Dropped(rooms: Rooms, id: string, role: string, p: Conn): Rooms {
    if id !in rooms then rooms
    else
      var r := rooms[id];
      var s := if role == "owner" && r.owner == Some(p) then r.(owner := None)
               else if role == "viewer" && r.viewer == Some(p) then r.(viewer := None) else r;
      if s == Room(None, None) then rooms - {id} else rooms[id := s]
  }

  class Hub {
    var rooms: Rooms
    var closed: set<Conn>

    constructor ()
      ensures rooms == map[] && closed == {}
    {
      rooms, closed := map[], {};
    }

    method Pair(id: string, role: string, p: Conn) returns (peer: Option<Conn>, displaced: Option<Conn>, ok: bool)
      modifies this
      ensures rooms == Paired(old(rooms), id, role, p)
      ensures ok == ValidRole(role)
      ensures displaced == Slot(old(rooms), id, role)
      ensures peer == if ok then Slot(old(rooms), id, OtherRole(role)) else None
      ensures closed == if displaced.Some? then old(closed) + {displaced.value} else old(closed)
    {
      if id !in rooms {
        rooms := rooms[id := Room(None, None)];
      }
      var r := rooms[id];
      if role == "owner" {
        displaced := r.owner;
        if displaced.Some? {
          closed := closed + {displaced.value};
        }
        rooms := rooms[id := r.(owner := Some(p))];
        return r.viewer, displaced, true;
      }
      if role == "viewer" {
        displaced := r.viewer;
        if displaced.Some? {
          closed := closed + {displaced.value};
        }
        rooms := rooms[id := r.(viewer := Some(p))];
        return r.owner, displaced, true;
      }
      return None, None, false;
    }

    method Counterpart(id: string, myRole: string) returns (peer: Option<Conn>)
      ensures peer == Slot(rooms, id, OtherRole(myRole))
    {
      if id !in rooms {
        return None;
      }
      if myRole == "owner" {
        return rooms[id].viewer;
      }
      return rooms[id].owner;
    }

    method Drop(id: string, role: string, self: Conn)
      modifies this`rooms
      ensures rooms == Dropped(old(rooms), id, role, self)
    {
      if id !in rooms {
        return;
      }
      var r := rooms[id];
      if role == "owner" && r.owner == Some(self) {
        r := r.(owner := None);
      }
      if role == "viewer" && r.viewer == Some(self) {
        r := r.(viewer := None);
      }
      if r.owner.None? && r.viewer.None? {
        rooms := rooms - {id};
      } else {
        rooms := rooms[id := r];
      }
    }
  }

  // ------------------------------------------------------------------------------------------------------------
  // Runs
  // ------------------------------------------------------------------------------------------------------------

  datatype Membership = Membership(room: string, role: string, key: string)

  /** A ready frame: whose handler writes it, to whom, about which counterpart, and that counterpart's key. */
  datatype Ready = Ready(herald: Conn, to: Conn, peer: Conn, key: string)

  /** An envelope on its way from one connection to another. */
  datatype Forward = Forward(source: Conn, to: Conn, text: string)

  /**
  The server between atomic steps.  pending holds the ready frames a handler has yet to write, attempted those it has
  written, whether or not the write got through; forwarding holds what a pump has looked up a target for.
  */
  datatype State = State(rooms: Rooms, joined: map<Conn, Membership>, pending: map<Conn, seq<Ready>>,
                         attempted: seq<Ready>, forwarding: map<Conn, Forward>, delivered: seq<Forward>,
                         left: set<Conn>)

  datatype Event =
    | Join(p: Conn, room: string, role: string, key: string)
    | WriteReady(p: Conn)
    | Lookup(p: Conn, text: string)
    | Deliver(p: Conn)
    | Leave(p: Conn)

  function Init(): State { State(map[], map[], map[], [], map[], [], {}) }

  function Joined(s: State, p: Conn, room: string, role: string, key: string): State {
    var t := s.(rooms := Paired(s.rooms, room, role, p), joined := s.joined[p := Membership(room, role, key)]);
    if !ValidRole(role) then t.(left := s.left + {p})
    else match Slot(s.rooms, room, OtherRole(role))
      case Some(q) =>
        if q in s.joined then
          t.(pending := s.pending[p := [Ready(p, q, p, key), Ready(p, p, q, s.joined[q].key)]])
        else t
      case None => t.(pending := s.pending[p := []])
  }

  function Step(s: State, ev: Event): Option<State> {
    match ev
    case Join(p, room, role, key) =>
      if p in s.joined || room == "" then None else Some(Joined(s, p, room, role, key))
    case WriteReady(p) =>
      if p in s.pending && s.pending[p] != [] then
        Some(s.(pending := s.pending[p := s.pending[p][1..]], attempted := s.attempted + [s.pending[p][0]]))
      else None
    case Lookup(p, text) =>
      if p in s.joined && p in s.pending && s.pending[p] == [] && p !in s.forwarding && p !in s.left then
        match Slot(s.rooms, s.joined[p].room, OtherRole(s.joined[p].role))
        case None => Some(s)
        case Some(q) => Some(s.(forwarding := s.forwarding[p := Forward(p, q, text)]))
      else None
    case Deliver(p) =>
      if p in s.forwarding then
        Some(s.(forwarding := s.forwarding - {p}, delivered := s.delivered + [s.forwarding[p]]))
      else None
    case Leave(p) =>
      if p in s.joined && p in s.pending && s.pending[p] == [] && p !in s.left then
        Some(s.(rooms := Dropped(s.rooms, s.joined[p].room, s.joined[p].role, p), left := s.left + {p}))
      else None
  }

  function Exec(evs: seq<Event>): Option<State> {
    if evs == [] then Some(Init())
    else match Exec(evs[..|evs| - 1])
      case None => None
      case Some(s) => Step(s, evs[|evs| - 1])
  }

  // ------------------------------------------------------------------------------------------------------------
  // A slot holds what history says
  // ------------------------------------------------------------------------------------------------------------

  /** The last connection that joined this slot. */
  function LastIn(evs: seq<Event>, room: string, role: string): Option<Conn> {
    if evs == [] then None
    else match evs[|evs| - 1]
      case Join(p, r, l, _) => if r == room && l == role then Some(p) else LastIn(evs[..|evs| - 1], room, role)
      case _ => LastIn(evs[..|evs| - 1], room, role)
  }

  /** Who holds the slot, by history: the last to join it, unless it has left. */
  function Holder(evs: seq<Event>, room: string, role: string): Option<Conn> {
    match LastIn(evs, room, role)
    case Some(p) => if Leave(p) in evs then None else Some(p)
    case None => None
  }

  ghost predicate MembersKnown(s: State, evs: seq<Event>) {
    && (forall p :: p in s.joined <==> Entered(evs, p))
    && (forall p | p in s.joined :: Join(p, s.joined[p].room, s.joined[p].role, s.joined[p].key) in evs)
    && (forall p | Leave(p) in evs :: p in s.joined)
  }

  ghost predicate Entered(evs: seq<Event>, p: Conn) {
    exists ev :: ev in evs && ev.Join? && ev.p == p
  }

  lemma EnteredSnoc(evs: seq<Event>, ev: Event, p: Conn)
    ensures Entered(evs + [ev], p) <==> Entered(evs, p) || (ev.Join? && ev.p == p)
  {
    var all := evs + [ev];
    assert forall e :: e in all <==> e in evs || e == ev;
  }

  lemma JoinedStep(s: State, ev: Event, p: Conn)
    requires Step(s, ev).Some?
    ensures p in Step(s, ev).value.joined <==> p in s.joined || (ev.Join? && ev.p == p)
    ensures p in s.joined ==> Step(s, ev).value.joined[p] == s.joined[p]
    ensures ev.Join? ==> Step(s, ev).value.joined[ev.p] == Membership(ev.room, ev.role, ev.key)
    ensures ev.Leave? ==> ev.p in s.joined
  {
  }

  lemma MembersStep(s: State, evs: seq<Event>, ev: Event)
    requires MembersKnown(s, evs) && Step(s, ev).Some?
    ensures MembersKnown(Step(s, ev).value, evs + [ev])
  {
    var t, all := Step(s, ev).value, evs + [ev];
    assert forall e :: e in all <==> e in evs || e == ev;
    forall p
      ensures p in t.joined <==> Entered(all, p)
      ensures p in t.joined ==> Join(p, t.joined[p].room, t.joined[p].role, t.joined[p].key) in all
      ensures Leave(p) in all ==> p in t.joined
    {
      EnteredSnoc(evs, ev, p);
      JoinedStep(s, ev, p);
    }
  }

  lemma {:induction false} MembersRun(evs: seq<Event>)
    requires Exec(evs).Some?
    ensures MembersKnown(Exec(evs).value, evs)
  {
    if evs != [] {
      var n := |evs| - 1;
      MembersRun(evs[..n]);
      MembersStep(Exec(evs[..n]).value, evs[..n], evs[n]);
      assert evs == evs[..n] + [evs[n]];
    }
  }
}
