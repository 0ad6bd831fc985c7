/**
 * The socket signalling relay: `join-room`, `signal` and `disconnect` handlers over
 * the transport's room membership. The transport's rooms are modelled as the
 * server process sees them: every socket is also a member of a room named by its
 * own id, `socket.to(room)` reaches a room's members except the sender, and
 * `io.to(room)` reaches all of them.
 */
module Signalling {
  import opened Wrappers

  type SessionId = string
  type RoomId = string
  type Payload = string

  /** `socket.data`: empty on connection, filled in by each join. */
  datatype SessionData = SessionData(room: Option<RoomId>, name: Option<string>, role: Option<string>)

  const Fresh := SessionData(None, None, None)

  /** The server-to-client events. */
  datatype Event =
    | Joined(id: SessionId, peers: seq<SessionId>)
    | PeerJoined(id: SessionId, name: string, role: string)
    | Relayed(from: SessionId, data: Payload)
    | PeerLeft(id: SessionId)

  /** One emit call: the sessions it reaches and what they receive. */
  datatype Delivery = Delivery(recipients: set<SessionId>, event: Event)

  function Elems(xs: seq<SessionId>): set<SessionId>
  {
    set x | x in xs
  }

  predicate NoDup(xs: seq<SessionId>)
  {
    forall i, j :: 0 <= i < j < |xs| ==> xs[i] != xs[j]
  }

  /** `Set.prototype.add` on an insertion-ordered set: appends when absent, keeps order. */
  function Add(xs: seq<SessionId>, s: SessionId): (r: seq<SessionId>)
    ensures Elems(r) == Elems(xs) + {s}
    ensures NoDup(xs) ==> NoDup(r)
    ensures |xs| <= |r| && r[..|xs|] == xs
  {
    if s in xs then xs
    else
      assert Elems(xs + [s]) == Elems(xs) + {s} by {
        forall x ensures x in xs + [s] <==> x in xs || x == s { }
      }
      xs + [s]
  }

  /** `xs.filter((id) => id !== s)`: the elements other than `s`, in their order. */
  function Without(xs: seq<SessionId>, s: SessionId): (r: seq<SessionId>)
    ensures Elems(r) == Elems(xs) - {s}
    ensures s !in r
    ensures NoDup(xs) ==> NoDup(r)
    ensures |r| <= |xs|
  {
    if xs == [] then []
    else
      var rest := Without(xs[1..], s);
      assert Elems(xs) == {xs[0]} + Elems(xs[1..]) by {
        assert xs == [xs[0]] + xs[1..];
      }
      if xs[0] == s then rest
      else
        assert NoDup(xs) ==> xs[0] !in xs[1..];
        assert Elems([xs[0]] + rest) == {xs[0]} + Elems(rest) by {
          forall x ensures x in [xs[0]] + rest <==> x == xs[0] || x in rest { }
        }
        assert NoDup(xs) ==> NoDup([xs[0]] + rest) by {
          if NoDup(xs) {
            forall i, j | 0 <= i < j < |[xs[0]] + rest| ensures ([xs[0]] + rest)[i] != ([xs[0]] + rest)[j] {
              if i == 0 {
                assert ([xs[0]] + rest)[j] == rest[j - 1];
                assert rest[j - 1] in Elems(rest);
              } else {
                assert ([xs[0]] + rest)[i] == rest[i - 1];
                assert ([xs[0]] + rest)[j] == rest[j - 1];
              }
            }
          }
        }
        [xs[0]] + rest
  }

  predicate IsSubsequence(ys: seq<SessionId>, xs: seq<SessionId>)
    decreases |xs|
  {
    if ys == [] then true
    else if xs == [] then false
    else if ys[0] == xs[0] then IsSubsequence(ys[1..], xs[1..])
    else IsSubsequence(ys, xs[1..])
  }

  /** Filtering keeps the relative order: the result is a subsequence of the input. */
  lemma {:induction false} WithoutIsSubsequence(xs: seq<SessionId>, s: SessionId)
    ensures IsSubsequence(Without(xs, s), xs)
  {
    if xs != [] {
      WithoutIsSubsequence(xs[1..], s);
    }
  }

  /** The members of a room; a room nobody is in does not exist. */
  function MembersOf(rooms: map<RoomId, seq<SessionId>>, r: RoomId): seq<SessionId>
  {
    if r in rooms then rooms[r] else []
  }

  /** What socket.io's `leaveAll` does to the rooms: the session leaves each one, and rooms left empty vanish. */
  function LeaveAll(rooms: map<RoomId, seq<SessionId>>, s: SessionId): (r: map<RoomId, seq<SessionId>>)
    ensures forall x :: MembersOf(r, x) == Without(MembersOf(rooms, x), s)
    ensures forall x :: x in r ==> r[x] != []
  {
    map x | x in rooms && Without(rooms[x], s) != [] :: Without(rooms[x], s)
  }

  /** No room is empty or lists a session twice. */
  ghost predicate RoomsWellFormed(rooms: map<RoomId, seq<SessionId>>)
  {
    forall r :: r in rooms ==> rooms[r] != [] && NoDup(rooms[r])
  }

  /** Whether session `s` is in room `r`. */
  predicate InRoom(rooms: map<RoomId, seq<SessionId>>, r: RoomId, s: SessionId)
  {
    s in MembersOf(rooms, r)
  }

  /**
   * Membership is exactly the history of the live sessions: a session is in room `r` if
   * and only if it is live and `r` is its own id or a room it has joined.
   */
  ghost predicate MembershipMatches(connected: set<SessionId>, rooms: map<RoomId, seq<SessionId>>,
                                    joined: map<SessionId, set<RoomId>>)
    requires joined.Keys == connected
  {
    forall s, r :: InRoom(rooms, r, s) <==> s in connected && (r == s || r in joined[s])
  }

  /** A session's recorded room is one it has joined. */
  ghost predicate RecordedRoomJoined(connected: set<SessionId>, data: map<SessionId, SessionData>,
                                     joined: map<SessionId, set<RoomId>>)
    requires data.Keys == connected && joined.Keys == connected
  {
    forall s :: s in connected && data[s].room.Some? ==> data[s].room.value in joined[s]
  }

  /** The router's invariant over its state. */
  ghost predicate Consistent(connected: set<SessionId>, rooms: map<RoomId, seq<SessionId>>,
                             data: map<SessionId, SessionData>, joined: map<SessionId, set<RoomId>>)
  {
    && data.Keys == connected
    && joined.Keys == connected
    && RoomsWellFormed(rooms)
    && MembershipMatches(connected, rooms, joined)
    && RecordedRoomJoined(connected, data, joined)
  }

  /** Every member of every room is a live session. */
  lemma MembersLive(connected: set<SessionId>, rooms: map<RoomId, seq<SessionId>>,
                    joined: map<SessionId, set<RoomId>>, r: RoomId)
    requires joined.Keys == connected && MembershipMatches(connected, rooms, joined)
    ensures Elems(MembersOf(rooms, r)) <= connected
  {
    forall t | t in Elems(MembersOf(rooms, r)) ensures t in connected {
      assert InRoom(rooms, r, t);
    }
  }

  /**
   * `socket.to(room)` excepts the room named by the sender's id: it reaches the live members
   * of `room` other than the sender and other than every session that joined a room of that
   * name. When the sender is not live (after `leaveAll`) only the second exclusion applies.
   */
  lemma ExceptSenderRoom(connected: set<SessionId>, rooms: map<RoomId, seq<SessionId>>,
                         joined: map<SessionId, set<RoomId>>, room: RoomId, s: SessionId, t: SessionId)
    requires joined.Keys == connected && MembershipMatches(connected, rooms, joined)
    ensures t in Elems(MembersOf(rooms, room)) - Elems(MembersOf(rooms, s)) <==>
      t in connected && t in MembersOf(rooms, room) && t != s && s !in joined[t]
  {
    assert InRoom(rooms, room, t) <==> t in connected && (room == t || room in joined[t]);
    assert InRoom(rooms, s, t) <==> t in connected && (s == t || s in joined[t]);
  }

  /**
   * The membership update of a join only adds: afterwards the session is in `room` and in
   * every room it was in before, it is in no other room, and nobody else moves.
   */
  lemma JoinOnlyAdds(rooms: map<RoomId, seq<SessionId>>, room: RoomId, s: SessionId, t: SessionId, r: RoomId)
    ensures var after := rooms[room := Add(MembersOf(rooms, room), s)];
      t in MembersOf(after, r) <==> (t == s && r == room) || t in MembersOf(rooms, r)
  {
    var after := rooms[room := Add(MembersOf(rooms, room), s)];
    assert t in MembersOf(after, r) <==> t in Elems(MembersOf(after, r));
    assert t in MembersOf(rooms, r) <==> t in Elems(MembersOf(rooms, r));
  }

  /**
   * After a join, `socket.to(room)` reaches exactly the live members the room had before
   * that are not the joiner and have not joined a room named by the joiner's id.
   */
  lemma JoinAnnouncement(connected: set<SessionId>, before: map<RoomId, seq<SessionId>>,
                         joined: map<SessionId, set<RoomId>>, room: RoomId, s: SessionId)
    requires var after := before[room := Add(MembersOf(before, room), s)];
      joined.Keys == connected && MembershipMatches(connected, after, joined)
    ensures var after := before[room := Add(MembersOf(before, room), s)];
      forall t :: t in Elems(MembersOf(after, room)) - Elems(MembersOf(after, s)) <==>
        t in connected && t in MembersOf(before, room) && t != s && s !in joined[t]
  {
    var after := before[room := Add(MembersOf(before, room), s)];
    forall t ensures t in Elems(MembersOf(after, room)) - Elems(MembersOf(after, s)) <==>
      t in connected && t in MembersOf(before, room) && t != s && s !in joined[t] {
      ExceptSenderRoom(connected, after, joined, room, s, t);
      JoinOnlyAdds(before, room, s, t, room);
      assert t in MembersOf(after, room) <==> t in Elems(MembersOf(after, room));
      assert t in MembersOf(before, room) <==> t in Elems(MembersOf(before, room));
    }
  }

  /** A new connection, placed in its own room, keeps the invariant. */
  lemma ConnectKeeps(connected: set<SessionId>, rooms: map<RoomId, seq<SessionId>>,
                     data: map<SessionId, SessionData>, joined: map<SessionId, set<RoomId>>, s: SessionId)
    requires Consistent(connected, rooms, data, joined) && s !in connected
    ensures Consistent(connected + {s}, rooms[s := Add(MembersOf(rooms, s), s)], data[s := Fresh], joined[s := {}])
  {
    var rooms', joined' := rooms[s := Add(MembersOf(rooms, s), s)], joined[s := {}];
    forall t, r ensures InRoom(rooms', r, t) <==> t in connected + {s} && (r == t || r in joined'[t]) {
      assert InRoom(rooms, r, t) <==> t in connected && (r == t || r in joined[t]);
      assert t in MembersOf(rooms', r) <==> t in Elems(MembersOf(rooms', r));
      assert t in MembersOf(rooms, r) <==> t in Elems(MembersOf(rooms, r));
    }
  }

  /** A join, which adds to a room and records it, keeps the invariant. */
  lemma JoinKeeps(connected: set<SessionId>, rooms: map<RoomId, seq<SessionId>>,
                  data: map<SessionId, SessionData>, joined: map<SessionId, set<RoomId>>,
                  s: SessionId, room: RoomId, name: string, role: string)
    requires Consistent(connected, rooms, data, joined) && s in connected
    ensures Consistent(connected, rooms[room := Add(MembersOf(rooms, room), s)],
                       data[s := SessionData(Some(room), Some(name), Some(role))],
                       joined[s := joined[s] + {room}])
  {
    var rooms' := rooms[room := Add(MembersOf(rooms, room), s)];
    var joined' := joined[s := joined[s] + {room}];
    forall t, r ensures InRoom(rooms', r, t) <==> t in connected && (r == t || r in joined'[t]) {
      assert InRoom(rooms, r, t) <==> t in connected && (r == t || r in joined[t]);
      assert t in MembersOf(rooms', r) <==> t in Elems(MembersOf(rooms', r));
      assert t in MembersOf(rooms, r) <==> t in Elems(MembersOf(rooms, r));
    }
  }

  /** After `leaveAll`, exactly the remaining sessions' histories are reflected in the rooms. */
  lemma LeaveMembership(connected: set<SessionId>, rooms: map<RoomId, seq<SessionId>>,
                        joined: map<SessionId, set<RoomId>>, s: SessionId)
    requires joined.Keys == connected && MembershipMatches(connected, rooms, joined)
    ensures MembershipMatches(connected - {s}, LeaveAll(rooms, s), joined - {s})
  {
    var rooms' := LeaveAll(rooms, s);
    forall t, r ensures InRoom(rooms', r, t) <==> t in connected - {s} && (r == t || r in joined[t]) {
      var before, after := MembersOf(rooms, r), MembersOf(rooms', r);
      assert InRoom(rooms, r, t) <==> t in connected && (r == t || r in joined[t]);
      assert after == Without(before, s);
      assert t in after <==> t in Elems(after);
      assert t in before <==> t in Elems(before);
      assert t in Elems(after) <==> t in Elems(before) && t != s;
    }
  }

  /** Leaving every room on disconnect keeps the invariant for the sessions that remain. */
  lemma LeaveKeeps(connected: set<SessionId>, rooms: map<RoomId, seq<SessionId>>,
                   data: map<SessionId, SessionData>, joined: map<SessionId, set<RoomId>>, s: SessionId)
    requires Consistent(connected, rooms, data, joined) && s in connected
    ensures Consistent(connected - {s}, LeaveAll(rooms, s), data - {s}, joined - {s})
  {
    var rooms' := LeaveAll(rooms, s);
    forall r | r in rooms' ensures rooms'[r] != [] && NoDup(rooms'[r]) {
      assert rooms'[r] == MembersOf(rooms', r) == Without(MembersOf(rooms, r), s);
    }
    LeaveMembership(connected, rooms, joined, s);
  }

  class Router {
    /** The live connections. */
    var connected: set<SessionId>
    /** The transport's rooms, each an insertion-ordered set of session ids. */
    var rooms: map<RoomId, seq<SessionId>>
    /** `socket.data` of each live connection. */
    var data: map<SessionId, SessionData>
    /** Every emit, in the order the handlers made them. */
    var outbox: seq<Delivery>
    /** The rooms each live session has joined through `join-room` since it connected. */
    ghost var joined: map<SessionId, set<RoomId>>

    function Members(r: RoomId): seq<SessionId>
      reads this
    {
      MembersOf(rooms, r)
    }

    ghost predicate Valid()
      reads this
    {
      Consistent(connected, rooms, data, joined)
    }

    constructor ()
      ensures Valid()
      ensures connected == {} && rooms == map[] && data == map[] && outbox == []
    {
      connected, rooms, data, outbox := {}, map[], map[], [];
      joined := map[];
    }

    /** A connection opens: the transport puts the new socket in the room named by its id. */
    method Connect(s: SessionId)
      requires Valid() && s !in connected
      modifies this
      ensures Valid()
      ensures connected == old(connected) + {s}
      ensures rooms == old(rooms)[s := Add(old(Members(s)), s)]
      ensures data == old(data)[s := Fresh]
      ensures joined == old(joined)[s := {}]
      ensures outbox == old(outbox)
    {
      ConnectKeeps(connected, rooms, data, joined, s);
      rooms := rooms[s := Add(Members(s), s)];
      connected := connected + {s};
      data := data[s := Fresh];
      joined := joined[s := {}];
    }

    /**
     * `join-room`: the session joins `room` without leaving any earlier room, records
     * room, name and role, receives `joined` with every other member of the room, and
     * every other member receives `peer-joined`. The room registry is not consulted.
     */
    method Join(s: SessionId, room: RoomId, name: string, role: string)
      requires Valid() && s in connected
      modifies this
      ensures Valid()
      ensures connected == old(connected)
      ensures rooms == old(rooms)[room := Add(old(Members(room)), s)]
      ensures Elems(Members(room)) == Elems(old(Members(room))) + {s}
      ensures data == old(data)[s := SessionData(Some(room), Some(name), Some(role))]
      ensures joined == old(joined)[s := old(joined)[s] + {room}]
      ensures outbox == old(outbox) + [
        Delivery({s}, Joined(s, Without(Members(room), s))),
        Delivery(Elems(Members(room)) - Elems(Members(s)), PeerJoined(s, name, role))]
      // the reply lists every other member once, never the joiner itself
      ensures var peers := outbox[|old(outbox)|].event.peers;
        Elems(peers) == Elems(old(Members(room))) - {s} && s !in peers && NoDup(peers)
      // the announcement reaches the room's earlier members that are not in the room named
      // by the joiner's id, all of them live
      ensures forall t :: t in outbox[|old(outbox)| + 1].recipients <==>
        t in connected && t in old(Members(room)) && t != s && s !in joined[t]
      ensures outbox[|old(outbox)| + 1].recipients <= Elems(old(Members(room))) - {s} && 
        outbox[|old(outbox)| + 1].recipients <= connected
    {
      JoinKeeps(connected, rooms, data, joined, s, room, name, role);
      MembersLive(connected, rooms, joined, room);
      ghost var before := rooms;
      rooms := rooms[room := Add(Members(room), s)];
      data := data[s := SessionData(Some(room), Some(name), Some(role))];
      joined := joined[s := joined[s] + {room}];
      var peers := Without(rooms[room], s);
      JoinAnnouncement(connected, before, joined, room, s);
      outbox := outbox + [Delivery({s}, Joined(s, peers)), Delivery(Elems(Members(room)) - Elems(Members(s)), PeerJoined(s, name, role))];
    }

    /** `signal`: the payload goes unchanged, tagged with the sender, to every member of the room `to`. */
    method Signal(s: SessionId, to: RoomId, payload: Payload)
      requires Valid() && s in connected
      modifies this
      ensures Valid()
      ensures connected == old(connected) && rooms == old(rooms) && data == old(data)
      ensures outbox == old(outbox) + [Delivery(Elems(Members(to)), Relayed(s, payload))]
      // only live sessions receive it
      ensures Elems(Members(to)) <= connected
      // unless some session joined a room named `to`, it reaches exactly the live session `to`, or no one
      ensures (forall t :: t in connected ==> to !in joined[t]) ==>
        Elems(Members(to)) == if to in connected then {to} else {}
    {
      MembersLive(connected, rooms, joined, to);
      if forall t :: t in connected ==> to !in joined[t] {
        forall t ensures t in Elems(Members(to)) <==> t in connected && t == to {
          assert t in Elems(Members(to)) <==> t in Members(to);
          assert InRoom(rooms, to, t) <==> t in connected && (to == t || to in joined[t]);
        }
      }
      outbox := outbox + [Delivery(Elems(Members(to)), Relayed(s, payload))];
    }

    /**
     * `disconnect`: the transport first takes the session out of every room (an assumption
     * about socket.io, which leaves all rooms before the handler runs); then, if the session
     * recorded a non-empty room, that room's remaining members receive `peer-left`.
     */
    method Disconnect(s: SessionId)
      requires Valid() && s in connected
      modifies this
      ensures Valid()
      ensures connected == old(connected) - {s}
      ensures rooms == LeaveAll(old(rooms), s)
      ensures data == old(data) - {s}
      ensures joined == old(joined) - {s}
      ensures Truthy(old(data)[s].room) ==>
        outbox == old(outbox) + [Delivery(Elems(Members(old(data)[s].room.value)) - Elems(Members(s)), PeerLeft(s))]
      ensures !Truthy(old(data)[s].room) ==> outbox == old(outbox)
      // the session is in no room any more, every other membership is kept
      ensures forall r :: Elems(Members(r)) == Elems(old(Members(r))) - {s}
      // `peer-left` reaches the remaining members of the recorded room that are not in the room
      // named by the departed session's id, all of them live
      ensures Truthy(old(data)[s].room) ==> forall t :: t in outbox[|old(outbox)|].recipients <==>
        t in connected && t in old(Members(data[s].room.value)) && t != s && s !in joined[t]
      ensures Truthy(old(data)[s].room) ==>
        outbox[|old(outbox)|].recipients <= Elems(old(Members(data[s].room.value))) - {s} &&
        outbox[|old(outbox)|].recipients <= connected
    {
      var room := data[s].room;
      LeaveKeeps(connected, rooms, data, joined, s);
      ghost var before := rooms;
      rooms := LeaveAll(rooms, s);
      connected := connected - {s};
      data := data - {s};
      joined := joined - {s};
      if Truthy(room) {
        MembersLive(connected, rooms, joined, room.value);
        forall t ensures t in Elems(Members(room.value)) - Elems(Members(s)) <==>
          t in connected && t in MembersOf(before, room.value) && t != s && s !in joined[t] {
          ExceptSenderRoom(connected, rooms, joined, room.value, s, t);
          assert t in Members(room.value) <==> t in Elems(Members(room.value));
          assert t in MembersOf(before, room.value) <==> t in Elems(MembersOf(before, room.value));
        }
        outbox := outbox + [Delivery(Elems(Members(room.value)) - Elems(Members(s)), PeerLeft(s))];
      }
    }
  }

  /** A fresh router where `a` and `b` have connected and `a` alone has joined `room`. */
  method FirstArrival(a: SessionId, b: SessionId, room: RoomId, name: string, role: string)
    returns (router: Router)
    requires a != b && room != a && room != b
    ensures fresh(router) && router.Valid()
    ensures router.connected == {a, b}
    ensures router.Members(room) == [a] && router.Members(a) == [a] && router.Members(b) == [b]
    ensures router.outbox == [Delivery({a}, Joined(a, [])), Delivery({}, PeerJoined(a, name, role))]
  {
    router := new Router();
    router.Connect(a);
    router.Connect(b);
    assert router.Members(a) == [a];
    router.Join(a, room, name, role);
    assert router.Members(room) == [a];
    assert router.Members(a) == [a];
    assert Without([a], a) == [];
    assert Elems([a]) - Elems([a]) == {};
  }

  /**
   * Two sessions join a room one after the other, then the second disconnects: the first
   * sees an empty peer list, the second sees the first, the first is told of the second's
   * arrival and departure, and the room is left with the first alone.
   */
  method TwoPeerScenario(a: SessionId, b: SessionId, room: RoomId, name: string, role: string)
    returns (sent: seq<Delivery>, left: seq<SessionId>)
    requires a != b && room != a && room != b && room != ""
    ensures |sent| == 5
    ensures sent[0] == Delivery({a}, Joined(a, []))
    ensures sent[1] == Delivery({}, PeerJoined(a, name, role))
    ensures sent[2] == Delivery({b}, Joined(b, [a]))
    ensures sent[3] == Delivery({a}, PeerJoined(b, name, role))
    ensures sent[4] == Delivery({a}, PeerLeft(b))
    ensures left == [a]
  {
    var router := FirstArrival(a, b, room, name, role);
    ghost var first := router.outbox;
    router.Join(b, room, name, role);
    assert router.Members(room) == [a, b];
    assert Without([a, b], b) == [a];
    assert Elems([a, b]) - {b} == {a};
    assert router.Members(b) == [b];
    assert Elems([a, b]) - Elems([b]) == {a};
    assert router.outbox[..2] == first;
    ghost var second := router.outbox;
    router.Disconnect(b);
    assert router.Members(room) == Without([a, b], b) == [a];
    assert Elems(router.Members(b)) == {};
    assert Elems([a]) - Elems(router.Members(b)) == {a};
    assert router.outbox[..4] == second;
    sent := router.outbox;
    left := router.Members(room);
  }
}
