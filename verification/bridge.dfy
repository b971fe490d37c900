/** `bridge` (app.py:92-107): rebind every listed, registered node to the room of the first
    listed node, appending each moved node's old room log to that base room's log. */
module Bridging {
  import opened Wrappers
  import opened RelayState

  /** Whether the loop body (app.py:100-105) acts on `n`: `n` is registered and its current
      room differs from `base`. When `base` is `None` (unknown first node) every registered
      node qualifies, since no room id equals `None`. */
  predicate Moves(s: State, n: NodeId, base: Option<RoomId>) {
    RoomOf(s, n).Some? && RoomOf(s, n) != base
  }

  /** One iteration's writes (app.py:104-105): the base log is extended by the node's old
      room log, then the node is rebound to the base room. */
  function MoveNode(s: State, n: NodeId, b: RoomId): State
    requires n in s.nodes && b in s.rooms
  {
    State(s.nodes[n := b], s.rooms[b := s.rooms[b] + LogOf(s, s.nodes[n])])
  }

  /** The loop of app.py:99-105 over `ids`, one node at a time. `None` is the `KeyError`
      raised by `rooms[base_room]` when the base room has no log (always so when the first
      node is unknown); it happens at the first node that needs moving, before any write. */
  function Relink(s: State, ids: seq<NodeId>, base: Option<RoomId>): (r: Option<State>)
    decreases |ids|
    ensures base.None? || base.value !in s.rooms ==>
      && (r.None? <==> exists i :: 0 <= i < |ids| && Moves(s, ids[i], base))
      && (r.Some? ==> r.value == s)
    ensures base.Some? && base.value in s.rooms ==> r.Some?
    ensures r.Some? ==> r.value.nodes.Keys == s.nodes.Keys && r.value.rooms.Keys == s.rooms.Keys
    ensures r.Some? && base.Some? ==>
      forall m :: m in s.nodes ==> r.value.nodes[m] == if m in ids then base.value else s.nodes[m]
    ensures r.Some? && base.Some? ==>
      forall q :: q in s.rooms && q != base.value ==> r.value.rooms[q] == s.rooms[q]
    ensures r.Some? && base.Some? && base.value in s.rooms ==>
      s.rooms[base.value] <= r.value.rooms[base.value]
  {
    if ids == [] then Some(s)
    else if Moves(s, ids[0], base) then
      if base.None? || base.value !in s.rooms then None
      else
        Relink(MoveNode(s, ids[0], base.value), ids[1..], base)
    else Relink(s, ids[1..], base)
  }

  /** The answers `bridge` gives: 400 for fewer than two ids, the linked room (`None` when
      the first node is unknown and nothing needed moving), and 500 for the `KeyError`. */
  datatype BridgeReply = NeedTwoNodes | Linked(room: Option<RoomId>) | ServerError

  function Bridge(s: State, ids: seq<NodeId>): (r: Step<BridgeReply>)
    ensures |ids| < 2 ==> r == Step(s, NeedTwoNodes)
    ensures r.reply.NeedTwoNodes? || r.reply.ServerError? ==> r.state == s
    ensures |ids| >= 2 && ids[0] !in s.nodes ==>
      && r.state == s
      && (r.reply == ServerError <==> exists i :: 0 <= i < |ids| && ids[i] in s.nodes)
      && (r.reply != ServerError ==> r.reply == Linked(None))
    ensures Valid(s) && |ids| >= 2 && ids[0] in s.nodes ==>
      var b := s.nodes[ids[0]];
      && r.reply == Linked(Some(b))
      && r.state.nodes.Keys == s.nodes.Keys
      && (forall m :: m in s.nodes ==> r.state.nodes[m] == if m in ids then b else s.nodes[m])
      && r.state.rooms.Keys == s.rooms.Keys
      && (forall q :: q in s.rooms && q != b ==> r.state.rooms[q] == s.rooms[q])
    ensures Valid(s) ==> Valid(r.state)
  {
    if |ids| < 2 then Step(s, NeedTwoNodes)
    else
      var base := RoomOf(s, ids[0]);
      match Relink(s, ids, base)
      case None => Step(s, ServerError)
      case Some(t) => Step(t, Linked(base))
  }

  /** The history a bridge appends to the base room, defined on the state before the
      bridge: for each listed node in list order, the log of its original room when the
      node is registered, bound elsewhere than `base`, and not already met earlier in the
      list (`seen`). Two listed nodes sharing a room contribute that room's log twice. */
  function Absorbed(s: State, ids: seq<NodeId>, base: RoomId, seen: set<NodeId>): seq<Entry>
    decreases |ids|
  {
    if ids == [] then []
    else
      var n := ids[0];
      (if n !in seen && Moves(s, n, Some(base)) then LogOf(s, s.nodes[n]) else [])
        + Absorbed(s, ids[1..], base, seen + {n})
  }

  /** `Absorbed` reads only the bindings of nodes outside `seen` and the logs of rooms other
      than `base`. */
  lemma {:induction false} AbsorbedFrame(t1: State, t2: State, ids: seq<NodeId>, base: RoomId, seen: set<NodeId>)
    requires forall m :: m !in seen ==> RoomOf(t1, m) == RoomOf(t2, m)
    requires forall q :: q != base ==> LogOf(t1, q) == LogOf(t2, q)
    ensures Absorbed(t1, ids, base, seen) == Absorbed(t2, ids, base, seen)
    decreases |ids|
  {
    if ids != [] {
      var n := ids[0];
      AbsorbedFrame(t1, t2, ids[1..], base, seen + {n});
      if n !in seen && Moves(t1, n, Some(base)) {
        assert RoomOf(t1, n) == RoomOf(t2, n);
        assert LogOf(t1, t1.nodes[n]) == LogOf(t2, t2.nodes[n]);
      }
    }
  }

  /** Moving a node already counted in `seen` does not change what the rest of the list
      absorbs: the move writes only that node's binding and the base log. */
  lemma {:induction false} MoveNodeKeepsAbsorbed(t: State, n: NodeId, base: RoomId, ids: seq<NodeId>, seen: set<NodeId>)
    requires n in t.nodes && base in t.rooms && n in seen
    ensures Absorbed(MoveNode(t, n, base), ids, base, seen) == Absorbed(t, ids, base, seen)
  {
    var t' := MoveNode(t, n, base);
    forall m | m !in seen
      ensures RoomOf(t', m) == RoomOf(t, m)
    {
    }
    forall q | q != base
      ensures LogOf(t', q) == LogOf(t, q)
    {
    }
    AbsorbedFrame(t', t, ids, base, seen);
  }

  /** The loop's effect on the base log, from any intermediate state in which the nodes
      already met are bound to the base room. */
  lemma {:induction false} RelinkHistory(t: State, ids: seq<NodeId>, base: RoomId, seen: set<NodeId>)
    requires base in t.rooms
    requires forall n :: n in seen && n in t.nodes ==> t.nodes[n] == base
    ensures Relink(t, ids, Some(base)).Some?
    ensures Relink(t, ids, Some(base)).value.rooms[base] == t.rooms[base] + Absorbed(t, ids, base, seen)
    decreases |ids|
  {
    if ids != [] {
      var n := ids[0];
      if Moves(t, n, Some(base)) {
        var t' := MoveNode(t, n, base);
        assert Relink(t, ids, Some(base)) == Relink(t', ids[1..], Some(base));
        RelinkHistory(t', ids[1..], base, seen + {n});
        MoveNodeKeepsAbsorbed(t, n, base, ids[1..], seen + {n});
        assert Absorbed(t, ids, base, seen) == LogOf(t, t.nodes[n]) + Absorbed(t, ids[1..], base, seen + {n});
      } else {
        assert Relink(t, ids, Some(base)) == Relink(t, ids[1..], Some(base));
        RelinkHistory(t, ids[1..], base, seen + {n});
        assert Absorbed(t, ids, base, seen) == Absorbed(t, ids[1..], base, seen + {n});
      }
    }
  }

  /** With a registered first node, the base room's log grows by exactly the pre-bridge logs
      of the moved nodes' old rooms, in list order (app.py:98-105). */
  lemma BridgeHistory(s: State, ids: seq<NodeId>)
    requires Valid(s) && |ids| >= 2 && ids[0] in s.nodes
    ensures var b := s.nodes[ids[0]];
      Bridge(s, ids).state.rooms[b] == s.rooms[b] + Absorbed(s, ids, b, {})
  {
    RelinkHistory(s, ids, s.nodes[ids[0]], {});
  }

  /** A relink in which every listed, registered node already sits in the base room is a
      no-op. */
  lemma {:induction false} RelinkSettled(t: State, ids: seq<NodeId>, base: RoomId)
    requires forall i :: 0 <= i < |ids| && ids[i] in t.nodes ==> t.nodes[ids[i]] == base
    ensures Relink(t, ids, Some(base)) == Some(t)
    decreases |ids|
  {
    if ids != [] {
      RelinkSettled(t, ids[1..], base);
    }
  }

  /** Running `bridge` a second time with the same list changes nothing and answers the
      same: no node is moved again and no entry is appended again. This holds for every
      state and list, including the rejected and failing cases. */
  lemma BridgeIdempotent(s: State, ids: seq<NodeId>)
    ensures Bridge(Bridge(s, ids).state, ids) == Bridge(s, ids)
  {
    if |ids| >= 2 {
      var base := RoomOf(s, ids[0]);
      var r := Relink(s, ids, base);
      if r.Some? && base.Some? {
        var t := r.value;
        assert RoomOf(t, ids[0]) == base;
        RelinkSettled(t, ids, base.value);
      }
    }
  }
}
