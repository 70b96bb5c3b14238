/** What the signalling server keeps over every interleaving of joins, takeovers, writes, forwards and departures. */
module HubTheorems {
  import opened Wrappers
  import opened Hub

  // ------------------------------------------------------------------------------------------------------------
  // A slot holds what history says
  // ------------------------------------------------------------------------------------------------------------

  lemma {:induction false} LastInJoined(evs: seq<Event>, room: string, role: string)
    requires Exec(evs).Some?
    ensures LastIn(evs, room, role).Some? ==>
      var p, s := LastIn(evs, room, role).value, Exec(evs).value;
      p in s.joined && s.joined[p].room == room && s.joined[p].role == role
  {
    if evs != [] {
      var n := |evs| - 1;
      LastInJoined(evs[..n], room, role);
      JoinedLasts(Exec(evs[..n]).value, evs[n]);
    }
  }

  lemma JoinedLasts(s: State, ev: Event)
    requires Step(s, ev).Some?
    ensures var t := Step(s, ev).value; forall p | p in s.joined :: p in t.joined && t.joined[p] == s.joined[p]
    ensures ev.Join? ==> Step(s, ev).value.joined[ev.p] == Membership(ev.room, ev.role, ev.key)
    ensures ev.Join? ==> Step(s, ev).value.rooms == Paired(s.rooms, ev.room, ev.role, ev.p)
    ensures !ev.Join? && !ev.Leave? ==> Step(s, ev).value.rooms == s.rooms
  {
  }

  lemma SlotAfterPair(rooms: Rooms, id: string, role: string, p: Conn, room: string, r: string)
    requires ValidRole(r)
    ensures Slot(Paired(rooms, id, role, p), room, r)
      == if room == id && r == role then Some(p) else Slot(rooms, room, r)
  {
  }

  /** A late drop touches nothing but the dropper's own slot, and that only while it still holds it. */
  lemma SlotAfterDrop(rooms: Rooms, id: string, role: string, p: Conn, room: string, r: string)
    requires ValidRole(r)
    ensures Slot(Dropped(rooms, id, role, p), room, r)
      == if room == id && r == role && Slot(rooms, room, r) == Some(p) then None else Slot(rooms, room, r)
  {
  }

  lemma HolderSnoc(evs: seq<Event>, ev: Event, room: string, role: string)
    requires ev.Join? ==> Leave(ev.p) !in evs
    ensures Holder(evs + [ev], room, role)
      == match ev
         case Join(p, r, l, _) => if r == room && l == role then Some(p) else Holder(evs, room, role)
         case Leave(p) => if Holder(evs, room, role) == Some(p) then None else Holder(evs, room, role)
         case _ => Holder(evs, room, role)
  {
    var all := evs + [ev];
    assert all[..|all| - 1] == evs;
    assert forall e :: e in all <==> e in evs || e == ev;
  }

  /** In every run each slot holds exactly the last connection that joined it, if that one has not left. */
  lemma {:induction false} SlotIsHistory(evs: seq<Event>, room: string, role: string)
    requires Exec(evs).Some? && ValidRole(role)
    ensures Slot(Exec(evs).value.rooms, room, role) == Holder(evs, room, role)
  {
    if evs != [] {
      var n := |evs| - 1;
      var s, ev := Exec(evs[..n]).value, evs[n];
      SlotIsHistory(evs[..n], room, role);
      MembersRun(evs[..n]);
      LastInJoined(evs[..n], room, role);
      SlotStep(s, ev, evs[..n], room, role);
      assert evs == evs[..n] + [ev];
    }
  }

  lemma SlotStep(s: State, ev: Event, evs: seq<Event>, room: string, role: string)
    requires Step(s, ev).Some? && MembersKnown(s, evs) && ValidRole(role)
    requires Slot(s.rooms, room, role) == Holder(evs, room, role)
    requires Holder(evs, room, role).Some? ==>
      var p := Holder(evs, room, role).value; p in s.joined && s.joined[p].room == room && s.joined[p].role == role
    ensures Slot(Step(s, ev).value.rooms, room, role) == Holder(evs + [ev], room, role)
  {
    HolderSnoc(evs, ev, room, role);
    JoinedLasts(s, ev);
    match ev
    case Join(p, r, l, k) => SlotAfterPair(s.rooms, r, l, p, room, role);
    case Leave(p) => SlotAfterDrop(s.rooms, s.joined[p].room, s.joined[p].role, p, room, role);
    case _ =>
  }

  // ------------------------------------------------------------------------------------------------------------
  // Rooms
  // ------------------------------------------------------------------------------------------------------------

  /** No room is kept for nobody. */
  ghost predicate Tight(rooms: Rooms) {
    forall id | id in rooms :: rooms[id] != Room(None, None)
  }

  /** A join keeps it so exactly when its role is one of the two or its room exists already. */
  lemma PairTightExactly(rooms: Rooms, id: string, role: string, p: Conn)
    requires Tight(rooms)
    ensures Tight(Paired(rooms, id, role, p)) <==> ValidRole(role) || id in rooms
  {
    var after := Paired(rooms, id, role, p);
    assert id in after;
  }

  lemma DropTight(rooms: Rooms, id: string, role: string, p: Conn)
    requires Tight(rooms)
    ensures Tight(Dropped(rooms, id, role, p))
  {
  }

  ghost predicate RolesValid(evs: seq<Event>) {
    forall ev | ev in evs && ev.Join? :: ValidRole(ev.role)
  }

  /** While all joins name a proper role, a room exists exactly while one of its slots is held. */
  lemma {:induction false} RoomsAreHeld(evs: seq<Event>, id: string)
    requires Exec(evs).Some? && RolesValid(evs)
    ensures Tight(Exec(evs).value.rooms)
    ensures id in Exec(evs).value.rooms <==> Holder(evs, id, "owner").Some? || Holder(evs, id, "viewer").Some?
  {
    if evs != [] {
      var n := |evs| - 1;
      var s, ev := Exec(evs[..n]).value, evs[n];
      assert RolesValid(evs[..n]) by { assert forall e | e in evs[..n] :: e in evs; }
      RoomsAreHeld(evs[..n], id);
      JoinedLasts(s, ev);
      match ev {
        case Join(p, r, l, k) =>
          assert ev in evs;
          PairTightExactly(s.rooms, r, l, p);
        case Leave(p) => DropTight(s.rooms, s.joined[p].room, s.joined[p].role, p);
        case _ =>
      }
    }
    SlotIsHistory(evs, id, "owner");
    SlotIsHistory(evs, id, "viewer");
  }

  lemma OnlyJoin(ev: Event)
    ensures Exec([ev]) == Step(Init(), ev)
  {
    assert [ev][..0] == [];
  }

  lemma RefusedHoldsNothing(ev: Event, room: string, role: string)
    requires ev.Join? && ev.role != role
    ensures Holder([ev], room, role).None?
  {
    assert [ev][..0] == [];
    assert LastIn([ev], room, role) == LastIn([], room, role);
  }

  /** A refused join leaves an empty room behind. */
  lemma RefusedJoinLeavesRoom(p: Conn, room: string, role: string, key: string)
    requires room != "" && !ValidRole(role)
    ensures var evs := [Join(p, room, role, key)];
      && Exec(evs).Some? && room in Exec(evs).value.rooms
      && Holder(evs, room, "owner").None? && Holder(evs, room, "viewer").None?
  {
    var ev := Join(p, room, role, key);
    OnlyJoin(ev);
    RefusedHoldsNothing(ev, room, "owner");
    RefusedHoldsNothing(ev, room, "viewer");
  }

  // ------------------------------------------------------------------------------------------------------------
  // Announcements and forwarding
  // ------------------------------------------------------------------------------------------------------------

  /** The slots hold connections that joined them, and handlers belong to connections that joined. */
  ghost predicate Placed(s: State) {
    && (forall p :: p in s.pending || p in s.forwarding ==> p in s.joined)
    && (forall id | id in s.rooms && s.rooms[id].owner.Some? :: Member(s, s.rooms[id].owner.value, id, "owner"))
    && (forall id | id in s.rooms && s.rooms[id].viewer.Some? :: Member(s, s.rooms[id].viewer.value, id, "viewer"))
  }

  ghost predicate Member(s: State, p: Conn, room: string, role: string) {
    p in s.joined && s.joined[p].room == room && s.joined[p].role == role
  }

  /** Written, or still to be written by the handler it belongs to. */
  ghost predicate Due(s: State, r: Ready) {
    r in s.attempted || (r.herald in s.pending && r in s.pending[r.herald])
  }

  /** h's handler tells each of the two the other's key, in frames made for these two connections. */
  ghost predicate AnnouncedBy(s: State, h: Conn, o: Conn, v: Conn) {
    && o in s.joined && v in s.joined
    && Due(s, Ready(h, o, v, s.joined[v].key)) && Due(s, Ready(h, v, o, s.joined[o].key))
  }

  /** Of two connections, the one whose join is later in the history. */
  function Second(evs: seq<Event>, o: Conn, v: Conn): Conn {
    if evs == [] then o
    else match evs[|evs| - 1]
      case Join(p, _, _, _) => if p == o || p == v then p else Second(evs[..|evs| - 1], o, v)
      case _ => Second(evs[..|evs| - 1], o, v)
  }

  /** Whoever joined second announces the pair. */
  ghost predicate PairsAnnounced(s: State, evs: seq<Event>) {
    forall id | id in s.rooms && s.rooms[id].owner.Some? && s.rooms[id].viewer.Some? ::
      var o, v := s.rooms[id].owner.value, s.rooms[id].viewer.value;
      AnnouncedBy(s, Second(evs, o, v), o, v)
  }

  lemma PlacedSlots(s: State, id: string, role: string)
    requires Placed(s) && ValidRole(role) && Slot(s.rooms, id, role).Some?
    ensures Member(s, Slot(s.rooms, id, role).value, id, role)
  {
  }

  /** Whatever a slot holds after a step it held before, or has just joined it. */
  lemma SlotsStep(s: State, ev: Event, id: string, role: string)
    requires Step(s, ev).Some? && ValidRole(role) && Slot(Step(s, ev).value.rooms, id, role).Some?
    ensures var x := Slot(Step(s, ev).value.rooms, id, role);
      Slot(s.rooms, id, role) == x || (ev.Join? && x == Some(ev.p) && ev.room == id && ev.role == role)
  {
    JoinedLasts(s, ev);
    match ev
    case Join(p, r, l, k) => SlotAfterPair(s.rooms, r, l, p, id, role);
    case Leave(p) => SlotAfterDrop(s.rooms, s.joined[p].room, s.joined[p].role, p, id, role);
    case _ =>
  }

  lemma MemberStep(s: State, ev: Event, id: string, role: string)
    requires Placed(s) && Step(s, ev).Some? && ValidRole(role) && Slot(Step(s, ev).value.rooms, id, role).Some?
    ensures Member(Step(s, ev).value, Slot(Step(s, ev).value.rooms, id, role).value, id, role)
  {
    SlotsStep(s, ev, id, role);
    JoinedLasts(s, ev);
    if Slot(s.rooms, id, role) == Slot(Step(s, ev).value.rooms, id, role) { PlacedSlots(s, id, role); }
  }

  lemma PlacedStep(s: State, ev: Event)
    requires Placed(s) && Step(s, ev).Some?
    ensures Placed(Step(s, ev).value)
  {
    var t := Step(s, ev).value;
    forall id | id in t.rooms && t.rooms[id].owner.Some?
      ensures Member(t, t.rooms[id].owner.value, id, "owner")
    {
      MemberStep(s, ev, id, "owner");
    }
    forall id | id in t.rooms && t.rooms[id].viewer.Some?
      ensures Member(t, t.rooms[id].viewer.value, id, "viewer")
    {
      MemberStep(s, ev, id, "viewer");
    }
    HandlersJoined(s, ev);
  }

  lemma HandlersJoined(s: State, ev: Event)
    requires Step(s, ev).Some? && forall p :: p in s.pending || p in s.forwarding ==> p in s.joined
    ensures var t := Step(s, ev).value; forall p :: p in t.pending || p in t.forwarding ==> p in t.joined
  {
  }

  lemma DueLasts(s: State, ev: Event, r: Ready)
    requires Placed(s) && Step(s, ev).Some? && r.herald in s.joined && Due(s, r)
    ensures Due(Step(s, ev).value, r)
  {
    if ev.WriteReady? && ev.p == r.herald && r !in s.attempted {
      assert s.pending[r.herald] == [s.pending[r.herald][0]] + s.pending[r.herald][1..];
    }
  }

  lemma AnnouncedLasts(s: State, ev: Event, h: Conn, o: Conn, v: Conn)
    requires Placed(s) && Step(s, ev).Some? && AnnouncedBy(s, h, o, v) && h in s.joined
    ensures AnnouncedBy(Step(s, ev).value, h, o, v)
  {
    JoinedLasts(s, ev);
    DueLasts(s, ev, Ready(h, o, v, s.joined[v].key));
    DueLasts(s, ev, Ready(h, v, o, s.joined[o].key));
  }

  /** Joining a held counterpart leaves both announcements with the newcomer's handler. */
  lemma JoinAnnounces(s: State, p: Conn, room: string, role: string, key: string, q: Conn)
    requires Placed(s) && p !in s.joined && ValidRole(role) && Slot(s.rooms, room, OtherRole(role)) == Some(q)
    ensures var t := Joined(s, p, room, role, key); AnnouncedBy(t, p, p, q) && AnnouncedBy(t, p, q, p)
  {
    var t := Joined(s, p, room, role, key);
    assert t.pending[p] == [Ready(p, q, p, key), Ready(p, p, q, s.joined[q].key)];
    assert t.pending[p][0] == Ready(p, q, p, key) && t.pending[p][1] == Ready(p, p, q, s.joined[q].key);
  }

  lemma SecondSnoc(evs: seq<Event>, ev: Event, o: Conn, v: Conn)
    ensures Second(evs + [ev], o, v) == if ev.Join? && (ev.p == o || ev.p == v) then ev.p else Second(evs, o, v)
  {
    assert (evs + [ev])[..|evs|] == evs;
  }

  lemma {:induction false} SecondJoined(evs: seq<Event>, o: Conn, v: Conn)
    requires Exec(evs).Some? && (o in Exec(evs).value.joined || v in Exec(evs).value.joined)
    ensures Second(evs, o, v) in Exec(evs).value.joined && (Second(evs, o, v) == o || Second(evs, o, v) == v)
  {
    var n := |evs| - 1;
    var s := Exec(evs[..n]).value;
    JoinedLasts(s, evs[n]);
    if !(evs[n].Join? && (evs[n].p == o || evs[n].p == v)) { SecondJoined(evs[..n], o, v); }
  }

  lemma AnnouncedStep(s: State, evs: seq<Event>, ev: Event)
    requires Exec(evs) == Some(s) && Placed(s) && PairsAnnounced(s, evs) && Step(s, ev).Some?
    ensures PairsAnnounced(Step(s, ev).value, evs + [ev])
  {
    var t := Step(s, ev).value;
    forall id | id in t.rooms && t.rooms[id].owner.Some? && t.rooms[id].viewer.Some?
      ensures var o, v := t.rooms[id].owner.value, t.rooms[id].viewer.value;
        AnnouncedBy(t, Second(evs + [ev], o, v), o, v)
    {
      if id in s.rooms && s.rooms[id] == t.rooms[id] {
        OldPairAnnounced(s, evs, ev, id);
      } else {
        NewPairAnnounced(s, evs, ev, id);
      }
    }
  }

  lemma CompletedByJoin(s: State, ev: Event, id: string)
    requires Step(s, ev).Some? && id in Step(s, ev).value.rooms
    requires !(id in s.rooms && s.rooms[id] == Step(s, ev).value.rooms[id])
    requires Step(s, ev).value.rooms[id].owner.Some? && Step(s, ev).value.rooms[id].viewer.Some?
    ensures ev.Join? && ev.room == id && ValidRole(ev.role) && ev.p !in s.joined
    ensures var t := Step(s, ev).value;
      && t == Joined(s, ev.p, id, ev.role, ev.key)
      && Some(ev.p) == Slot(t.rooms, id, ev.role)
      && Slot(s.rooms, id, OtherRole(ev.role)) == Slot(t.rooms, id, OtherRole(ev.role))
  {
  }

  /** A room whose holders have changed and are both there was completed by a join. */
  lemma NewPairAnnounced(s: State, evs: seq<Event>, ev: Event, id: string)
    requires Placed(s) && Step(s, ev).Some? && id in Step(s, ev).value.rooms
    requires !(id in s.rooms && s.rooms[id] == Step(s, ev).value.rooms[id])
    requires Step(s, ev).value.rooms[id].owner.Some? && Step(s, ev).value.rooms[id].viewer.Some?
    ensures var t := Step(s, ev).value;
      var o, v := t.rooms[id].owner.value, t.rooms[id].viewer.value;
      AnnouncedBy(t, Second(evs + [ev], o, v), o, v)
  {
    var t := Step(s, ev).value;
    var o, v := t.rooms[id].owner.value, t.rooms[id].viewer.value;
    SecondSnoc(evs, ev, o, v);
    CompletedByJoin(s, ev, id);
    JoinAnnounces(s, ev.p, id, ev.role, ev.key, if ev.role == "owner" then v else o);
  }

  lemma OldPairAnnounced(s: State, evs: seq<Event>, ev: Event, id: string)
    requires Exec(evs) == Some(s) && Placed(s) && PairsAnnounced(s, evs) && Step(s, ev).Some?
    requires id in s.rooms && s.rooms[id].owner.Some? && s.rooms[id].viewer.Some?
    ensures var o, v := s.rooms[id].owner.value, s.rooms[id].viewer.value;
      AnnouncedBy(Step(s, ev).value, Second(evs + [ev], o, v), o, v)
  {
    var o, v := s.rooms[id].owner.value, s.rooms[id].viewer.value;
    assert Member(s, o, id, "owner") && Member(s, v, id, "viewer");
    SecondSnoc(evs, ev, o, v);
    SecondJoined(evs, o, v);
    AnnouncedLasts(s, ev, Second(evs, o, v), o, v);
  }

  lemma {:induction false} AnnouncedRun(evs: seq<Event>)
    requires Exec(evs).Some?
    ensures Placed(Exec(evs).value) && PairsAnnounced(Exec(evs).value, evs)
  {
    if evs != [] {
      var n := |evs| - 1;
      AnnouncedRun(evs[..n]);
      PlacedStep(Exec(evs[..n]).value, evs[n]);
      AnnouncedStep(Exec(evs[..n]).value, evs[..n], evs[n]);
      assert evs == evs[..n] + [evs[n]];
    }
  }

  /** The key a connection joined with. */
  ghost predicate JoinedWith(evs: seq<Event>, p: Conn, key: string) {
    exists room, role :: Join(p, room, role, key) in evs
  }

  /**
  Whenever a room has both an owner and a viewer, the handler of whichever of these two connections joined second has
  written to each of them, or still has to write, a ready about the other with the other's key: the frames of an earlier
  pairing do not count, and no takeover, drop or overtaking loses one.
  */
  lemma PairingIsAnnounced(evs: seq<Event>, id: string, o: Conn, v: Conn) returns (ko: string, kv: string)
    requires Exec(evs).Some? && Holder(evs, id, "owner") == Some(o) && Holder(evs, id, "viewer") == Some(v)
    ensures JoinedWith(evs, o, ko) && JoinedWith(evs, v, kv)
    ensures var s, h := Exec(evs).value, Second(evs, o, v);
      (h == o || h == v) && Due(s, Ready(h, o, v, kv)) && Due(s, Ready(h, v, o, ko))
  {
    SlotIsHistory(evs, id, "owner");
    SlotIsHistory(evs, id, "viewer");
    AnnouncedRun(evs);
    MembersRun(evs);
    var s := Exec(evs).value;
    assert AnnouncedBy(s, Second(evs, o, v), o, v);
    ko, kv := s.joined[o].key, s.joined[v].key;
    assert Join(o, s.joined[o].room, s.joined[o].role, ko) in evs;
    assert Join(v, s.joined[v].room, s.joined[v].role, kv) in evs;
    SecondJoined(evs, o, v);
  }

  /** A frame made in run evs: by the later of two connections in opposite roles of one room, with the right key. */
  ghost predicate Truthful(s: State, r: Ready) {
    && r.to in s.joined && r.peer in s.joined && (r.herald == r.to || r.herald == r.peer)
    && r.key == s.joined[r.peer].key && Opposite(s.joined[r.to], s.joined[r.peer])
  }

  predicate Opposite(a: Membership, b: Membership) {
    a.room == b.room && ValidRole(a.role) && b.role == OtherRole(a.role)
  }

  ghost predicate AllTruthful(s: State) {
    && (forall i | 0 <= i < |s.attempted| :: Truthful(s, s.attempted[i]))
    && (forall p | p in s.pending :: forall i | 0 <= i < |s.pending[p]| :: Truthful(s, s.pending[p][i]))
  }

  lemma TruthfulLasts(s: State, ev: Event, r: Ready)
    requires Truthful(s, r) && Step(s, ev).Some?
    ensures Truthful(Step(s, ev).value, r)
  {
    JoinedLasts(s, ev);
  }

  lemma JoinIsTruthful(s: State, p: Conn, room: string, role: string, key: string)
    requires Placed(s) && p !in s.joined && ValidRole(role)
    ensures var t := Joined(s, p, room, role, key);
      forall i | 0 <= i < |t.pending[p]| :: Truthful(t, t.pending[p][i])
  {
    var q := Slot(s.rooms, room, OtherRole(role));
    if q.Some? { PlacedSlots(s, room, OtherRole(role)); }
  }

  lemma TruthfulStep(s: State, ev: Event)
    requires Placed(s) && AllTruthful(s) && Step(s, ev).Some?
    ensures AllTruthful(Step(s, ev).value)
  {
    var t := Step(s, ev).value;
    forall i | 0 <= i < |t.attempted|
      ensures Truthful(t, t.attempted[i])
    {
      TruthfulLasts(s, ev, if i < |s.attempted| then s.attempted[i] else s.pending[ev.p][0]);
    }
    forall p, i | p in t.pending && 0 <= i < |t.pending[p]|
      ensures Truthful(t, t.pending[p][i])
    {
      if ev.Join? && ev.p == p {
        if ValidRole(ev.role) { JoinIsTruthful(s, p, ev.room, ev.role, ev.key); }
      } else if ev.WriteReady? && ev.p == p {
        TruthfulLasts(s, ev, s.pending[p][i + 1]);
      } else {
        TruthfulLasts(s, ev, s.pending[p][i]);
      }
    }
  }

  /** And nothing else is ever announced: each ready tells one role of a room the key its counterpart joined with. */
  lemma {:induction false} AnnouncementsAreTrue(evs: seq<Event>)
    requires Exec(evs).Some?
    ensures AllTruthful(Exec(evs).value)
  {
    if evs != [] {
      var n := |evs| - 1;
      AnnouncementsAreTrue(evs[..n]);
      AnnouncedRun(evs[..n]);
      TruthfulStep(Exec(evs[..n]).value, evs[n]);
    }
  }

  /** The two ends of a forward are the two roles of one room. */
  ghost predicate Proper(s: State, f: Forward) {
    && f.source in s.joined && f.to in s.joined
    && s.joined[f.source].room == s.joined[f.to].room
    && ValidRole(s.joined[f.to].role) && s.joined[f.source].role == OtherRole(s.joined[f.to].role)
  }

  ghost predicate Routed(s: State) {
    && (forall p | p in s.pending :: p in s.joined && ValidRole(s.joined[p].role))
    && (forall p | p in s.forwarding :: s.forwarding[p].source == p && Proper(s, s.forwarding[p]))
    && (forall i | 0 <= i < |s.delivered| :: Proper(s, s.delivered[i]))
  }

  lemma ProperLasts(s: State, ev: Event, f: Forward)
    requires Proper(s, f) && Step(s, ev).Some?
    ensures Proper(Step(s, ev).value, f)
  {
    JoinedLasts(s, ev);
  }

  lemma PendingStep(s: State, ev: Event)
    requires Routed(s) && Step(s, ev).Some?
    ensures var t := Step(s, ev).value; forall p | p in t.pending :: p in t.joined && ValidRole(t.joined[p].role)
  {
    JoinedLasts(s, ev);
  }

  lemma ForwardingStep(s: State, ev: Event)
    requires Placed(s) && Routed(s) && Step(s, ev).Some?
    ensures var t := Step(s, ev).value;
      forall p | p in t.forwarding :: t.forwarding[p].source == p && Proper(t, t.forwarding[p])
  {
    var t := Step(s, ev).value;
    forall p | p in t.forwarding
      ensures t.forwarding[p].source == p && Proper(t, t.forwarding[p])
    {
      if p in s.forwarding && t.forwarding[p] == s.forwarding[p] { ProperLasts(s, ev, s.forwarding[p]); }
    }
  }

  /** What is delivered was on its way, or had been delivered before. */
  lemma DeliveredBefore(s: State, ev: Event, i: nat)
    requires Step(s, ev).Some? && i < |Step(s, ev).value.delivered|
    ensures var f := Step(s, ev).value.delivered[i];
      if i < |s.delivered| then f == s.delivered[i]
      else exists p :: p in s.forwarding && f == s.forwarding[p]
  {
    if i >= |s.delivered| { assert ev.p in s.forwarding; }
  }

  lemma DeliveredStep(s: State, ev: Event)
    requires Routed(s) && Step(s, ev).Some?
    ensures var t := Step(s, ev).value; forall i | 0 <= i < |t.delivered| :: Proper(t, t.delivered[i])
  {
    var t := Step(s, ev).value;
    forall i | 0 <= i < |t.delivered|
      ensures Proper(t, t.delivered[i])
    {
      DeliveredBefore(s, ev, i);
      ProperLasts(s, ev, t.delivered[i]);
    }
  }

  lemma RoutedStep(s: State, ev: Event)
    requires Placed(s) && Routed(s) && Step(s, ev).Some?
    ensures Routed(Step(s, ev).value)
  {
    PendingStep(s, ev);
    ForwardingStep(s, ev);
    DeliveredStep(s, ev);
  }

  /** Nothing is ever delivered outside its room or back to its own role, however often the room changed hands. */
  lemma {:induction false} ForwardsStayInRoom(evs: seq<Event>)
    requires Exec(evs).Some?
    ensures Routed(Exec(evs).value)
  {
    if evs != [] {
      var n := |evs| - 1;
      ForwardsStayInRoom(evs[..n]);
      AnnouncedRun(evs[..n]);
      RoutedStep(Exec(evs[..n]).value, evs[n]);
    }
  }

  // ------------------------------------------------------------------------------------------------------------
  // Every envelope that had somewhere to go
  // ------------------------------------------------------------------------------------------------------------

  /** What a connection joined as, by history. */
  function JoinOf(evs: seq<Event>, p: Conn): Option<Membership> {
    if evs == [] then None
    else match evs[|evs| - 1]
      case Join(q, room, role, key) => if q == p then Some(Membership(room, role, key)) else JoinOf(evs[..|evs| - 1], p)
      case _ => JoinOf(evs[..|evs| - 1], p)
  }

  /** Who holds the other slot of p's room, by history. */
  function OppositeOf(evs: seq<Event>, p: Conn): Option<Conn> {
    match JoinOf(evs, p)
    case Some(m) => Holder(evs, m.room, OtherRole(m.role))
    case None => None
  }

  /** The envelopes read from p while the slot opposite was held, each with its holder at that moment. */
  function ReadFrom(evs: seq<Event>, p: Conn): seq<Forward> {
    if evs == [] then []
    else
      var front := evs[..|evs| - 1];
      match evs[|evs| - 1]
      case Lookup(q, text) =>
        if q == p && OppositeOf(front, p).Some? then ReadFrom(front, p) + [Forward(p, OppositeOf(front, p).value, text)]
        else ReadFrom(front, p)
      case _ => ReadFrom(front, p)
  }

  function BySource(fs: seq<Forward>, p: Conn): seq<Forward> {
    if fs == [] then []
    else BySource(fs[..|fs| - 1], p) + if fs[|fs| - 1].source == p then [fs[|fs| - 1]] else []
  }

  /** What p's pump has looked up a target for and not yet written. */
  function InHand(s: State, p: Conn): seq<Forward> {
    if p in s.forwarding then [s.forwarding[p]] else []
  }

  lemma BySourceSnoc(fs: seq<Forward>, f: Forward, p: Conn)
    ensures BySource(fs + [f], p) == BySource(fs, p) + if f.source == p then [f] else []
  {
    assert (fs + [f])[..|fs|] == fs;
  }

  lemma {:induction false} JoinOfIsJoined(evs: seq<Event>, p: Conn)
    requires Exec(evs).Some?
    ensures var s := Exec(evs).value; JoinOf(evs, p) == if p in s.joined then Some(s.joined[p]) else None
  {
    if evs != [] {
      var front := evs[..|evs| - 1];
      JoinOfIsJoined(front, p);
      JoinedStep(Exec(front).value, evs[|evs| - 1], p);
    }
  }

  lemma OppositeIsSlot(evs: seq<Event>, p: Conn)
    requires Exec(evs).Some? && p in Exec(evs).value.joined
    ensures var s := Exec(evs).value;
      OppositeOf(evs, p) == Slot(s.rooms, s.joined[p].room, OtherRole(s.joined[p].role))
  {
    var m := Exec(evs).value.joined[p];
    JoinOfIsJoined(evs, p);
    SlotIsHistory(evs, m.room, OtherRole(m.role));
  }

  lemma LookupStep(s: State, q: Conn, text: string, p: Conn)
    requires Step(s, Lookup(q, text)).Some?
    ensures q in s.joined
    ensures var t, to := Step(s, Lookup(q, text)).value, Slot(s.rooms, s.joined[q].room, OtherRole(s.joined[q].role));
      && t.delivered == s.delivered
      && (q == p ==> InHand(s, p) == [])
      && InHand(t, p) == if q == p && to.Some? then [Forward(p, to.value, text)] else InHand(s, p)
  {
  }

  lemma DeliverStep(s: State, q: Conn, p: Conn)
    requires Routed(s) && Step(s, Deliver(q)).Some?
    ensures var t := Step(s, Deliver(q)).value;
      BySource(t.delivered, p) + InHand(t, p) == BySource(s.delivered, p) + InHand(s, p)
  {
    var f := s.forwarding[q];
    BySourceSnoc(s.delivered, f, p);
    HandedOver(s, q, p);
    if q == p {
      assert BySource(s.delivered, p) + [f] + [] == BySource(s.delivered, p) + [f];
    } else {
      assert BySource(s.delivered, p) + [] == BySource(s.delivered, p);
    }
  }

  lemma HandedOver(s: State, q: Conn, p: Conn)
    requires Routed(s) && Step(s, Deliver(q)).Some?
    ensures q in s.forwarding && s.forwarding[q].source == q
    ensures var t := Step(s, Deliver(q)).value;
      t.delivered == s.delivered + [s.forwarding[q]] && InHand(t, p) == if q == p then [] else InHand(s, p)
  {
  }

  lemma NothingForwarded(s: State, ev: Event, p: Conn)
    requires Step(s, ev).Some? && !ev.Lookup? && !ev.Deliver?
    ensures Step(s, ev).value.delivered == s.delivered && InHand(Step(s, ev).value, p) == InHand(s, p)
  {
  }

  /**
  Nothing is lost, invented, changed or reordered: what has been written for p, with what its pump still has in hand,
  is what was read from p while the slot opposite was held, to the holder at that moment and with the text as read.
  */
  lemma {:induction false} EnvelopesGoOn(evs: seq<Event>, p: Conn)
    requires Exec(evs).Some?
    ensures var s := Exec(evs).value; BySource(s.delivered, p) + InHand(s, p) == ReadFrom(evs, p)
  {
    if evs != [] {
      var front, ev := evs[..|evs| - 1], evs[|evs| - 1];
      var s := Exec(front).value;
      EnvelopesGoOn(front, p);
      match ev {
        case Lookup(q, text) =>
          LookupStep(s, q, text, p);
          if q == p { OppositeIsSlot(front, p); }
        case Deliver(q) =>
          ForwardsStayInRoom(front);
          DeliverStep(s, q, p);
        case _ => NothingForwarded(s, ev, p);
      }
    }
  }

  lemma ExecSnoc(evs: seq<Event>, ev: Event)
    requires Exec(evs).Some?
    ensures Exec(evs + [ev]) == Step(Exec(evs).value, ev)
  {
    assert (evs + [ev])[..|evs|] == evs;
  }

  lemma ExecTwo(evs: seq<Event>, a: Event, b: Event)
    requires Exec(evs).Some? && Step(Exec(evs).value, a).Some?
    ensures Exec(evs + [a, b]) == Step(Step(Exec(evs).value, a).value, b)
  {
    var one := evs + [a];
    assert evs + [a, b] == one + [b];
    ExecSnoc(evs, a);
    ExecSnoc(one, b);
  }

  /** Owner and viewer join, are told of each other, and the viewer sends an envelope. */
  function OfferRun(o: Conn, v: Conn, room: string, ko: string, kv: string, text: string): seq<Event> {
    [Join(o, room, "owner", ko), Join(v, room, "viewer", kv), WriteReady(v), WriteReady(v), Lookup(v, text), Deliver(v)]
  }

  lemma BothJoined(o: Conn, v: Conn, room: string, ko: string, kv: string)
    requires o != v && room != ""
    ensures var s := Exec([Join(o, room, "owner", ko), Join(v, room, "viewer", kv)]);
      && s.Some? && s.value.rooms == map[room := Room(Some(o), Some(v))]
      && s.value.joined == map[o := Membership(room, "owner", ko), v := Membership(room, "viewer", kv)]
      && s.value.pending == map[o := [], v := [Ready(v, o, v, kv), Ready(v, v, o, ko)]]
      && s.value.attempted == [] && s.value.forwarding == map[] && s.value.delivered == [] && s.value.left == {}
  {
    OnlyJoin(Join(o, room, "owner", ko));
    ExecSnoc([Join(o, room, "owner", ko)], Join(v, room, "viewer", kv));
    assert [Join(o, room, "owner", ko)] + [Join(v, room, "viewer", kv)]
      == [Join(o, room, "owner", ko), Join(v, room, "viewer", kv)];
  }

  lemma BothTold(s: State, v: Conn, a: Ready, b: Ready)
    requires v in s.pending && s.pending[v] == [a, b]
    ensures Step(s, WriteReady(v)).Some? && Step(Step(s, WriteReady(v)).value, WriteReady(v)).Some?
    ensures Step(Step(s, WriteReady(v)).value, WriteReady(v)).value
      == s.(pending := s.pending[v := []], attempted := s.attempted + [a] + [b])
  {
    assert [a, b][1..] == [b] && [b][1..] == [];
  }

  lemma SentOn(s: State, v: Conn, text: string, to: Conn)
    requires v in s.joined && v in s.pending && s.pending[v] == [] && v !in s.forwarding && v !in s.left
    requires Slot(s.rooms, s.joined[v].room, OtherRole(s.joined[v].role)) == Some(to)
    ensures Step(s, Lookup(v, text)).Some? && Step(Step(s, Lookup(v, text)).value, Deliver(v)).Some?
    ensures var t := Step(Step(s, Lookup(v, text)).value, Deliver(v)).value;
      t.delivered == s.delivered + [Forward(v, to, text)] && t.attempted == s.attempted
  {
  }

  /** The offer of a viewer reaches the owner, whoever they are and whatever it says, and both have been told. */
  lemma OfferReaches(o: Conn, v: Conn, room: string, ko: string, kv: string, text: string)
    requires o != v && room != ""
    ensures var s := Exec(OfferRun(o, v, room, ko, kv, text));
      && s.Some? && s.value.delivered == [Forward(v, o, text)]
      && s.value.attempted == [Ready(v, o, v, kv), Ready(v, v, o, ko)]
  {
    var first := [Join(o, room, "owner", ko), Join(v, room, "viewer", kv)];
    var second := first + [WriteReady(v), WriteReady(v)];
    BothJoined(o, v, room, ko, kv);
    BothTold(Exec(first).value, v, Ready(v, o, v, kv), Ready(v, v, o, ko));
    ExecTwo(first, WriteReady(v), WriteReady(v));
    SentOn(Exec(second).value, v, text, o);
    ExecTwo(second, Lookup(v, text), Deliver(v));
    assert second + [Lookup(v, text), Deliver(v)] == OfferRun(o, v, room, ko, kv, text);
  }
}
