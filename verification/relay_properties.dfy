/** Properties that relate several operations of the relay to one another. */
module RelayProperties {
  import opened Wrappers
  import opened RelayState
  import opened Relay
  import opened Bridging

  /** Registering a node a second time returns the room of the first call and changes
      nothing, whatever room id the second call draws. */
  lemma GetNodeRoomIdempotent(s: State, n: NodeId, first: RoomId, second: RoomId)
    ensures var r := GetNodeRoom(s, n, first);
      GetNodeRoom(r.state, n, second) == Step(r.state, r.reply)
  {
  }

  /** A newly registered node whose room id is not yet in use starts alone, in an empty
      room, and what every other node polls or sees as participants is unchanged. */
  lemma NewNodeStartsAlone(s: State, n: NodeId, newRoom: RoomId)
    requires Valid(s) && n !in s.nodes && newRoom !in s.rooms
    ensures var t := GetNodeRoom(s, n, newRoom).state;
      && Poll(t, n) == []
      && Participants(t, n) == {n}
      && (forall m :: m != n ==> Poll(t, m) == Poll(s, m))
      && (forall m :: m != n ==> Participants(t, m) == Participants(s, m))
  {
  }

  /** After a successful push by `n`, exactly the nodes sharing `n`'s room poll one more
      entry, the one `n` pushed, at the end of what they polled before. */
  lemma PollAfterPush(s: State, n: NodeId, sub: Submission)
    requires Valid(s) && n in s.nodes
    ensures var t := Push(s, n, sub).state;
      forall m :: Poll(t, m) == if m in Participants(s, n) then Poll(s, m) + [MakeEntry(n, sub)] else Poll(s, m)
  {
  }

  /** `n` pushes each submission of `subs` in turn. */
  function PushAll(s: State, n: NodeId, subs: seq<Submission>): State
    decreases |subs|
  {
    if subs == [] then s else PushAll(Push(s, n, subs[0]).state, n, subs[1..])
  }

  /** The entries a sequence of pushes by `n` creates, in push order. */
  function EntriesOf(n: NodeId, subs: seq<Submission>): seq<Entry>
  {
    if subs == [] then [] else [MakeEntry(n, subs[0])] + EntriesOf(n, subs[1..])
  }

  /** One push by a registered node keeps the state valid and the bindings as they were,
      and adds its entry at the end of the node's poll. */
  lemma PushStep(s: State, n: NodeId, sub: Submission)
    requires Valid(s) && n in s.nodes
    ensures var t := Push(s, n, sub).state;
      Valid(t) && t.nodes == s.nodes && Poll(t, n) == Poll(s, n) + [MakeEntry(n, sub)]
  {
  }

  /** After N pushes by a registered node, its poll returns what it returned before
      followed by exactly those N entries in push order; nothing is lost or duplicated,
      and the state stays valid. */
  lemma {:induction false} PushesAccumulate(s: State, n: NodeId, subs: seq<Submission>)
    requires Valid(s) && n in s.nodes
    ensures Valid(PushAll(s, n, subs))
    ensures Poll(PushAll(s, n, subs), n) == Poll(s, n) + EntriesOf(n, subs)
    ensures PushAll(s, n, subs).nodes == s.nodes
    decreases |subs|
  {
    if subs != [] {
      var e := MakeEntry(n, subs[0]);
      var t := Push(s, n, subs[0]).state;
      PushStep(s, n, subs[0]);
      PushesAccumulate(t, n, subs[1..]);
      calc {
        Poll(PushAll(s, n, subs), n);
        Poll(PushAll(t, n, subs[1..]), n);
        Poll(t, n) + EntriesOf(n, subs[1..]);
        (Poll(s, n) + [e]) + EntriesOf(n, subs[1..]);
        Poll(s, n) + ([e] + EntriesOf(n, subs[1..]));
        Poll(s, n) + EntriesOf(n, subs);
      }
    }
  }

  /** Being participants is an equivalence: two nodes sharing a room see the same set. */
  lemma ParticipantsPartition(s: State, n: NodeId, m: NodeId)
    requires m in Participants(s, n)
    ensures n in Participants(s, m)
    ensures Participants(s, m) == Participants(s, n)
  {
  }

  /** After a bridge whose first node is registered, every listed registered node polls
      the base room's log and sees every other one as a participant. */
  lemma BridgeJoinsParticipants(s: State, ids: seq<NodeId>)
    requires Valid(s) && |ids| >= 2 && ids[0] in s.nodes
    ensures var t := Bridge(s, ids).state;
      forall i, j :: 0 <= i < |ids| && 0 <= j < |ids| && ids[i] in s.nodes && ids[j] in s.nodes ==>
        ids[j] in Participants(t, ids[i]) && Poll(t, ids[i]) == Poll(t, ids[0])
  {
  }

  /** What a two-node bridge absorbs: the second node's log, once. */
  lemma AbsorbedPair(s: State, a: NodeId, b: NodeId)
    requires a in s.nodes && b in s.nodes && s.nodes[a] != s.nodes[b]
    ensures Absorbed(s, [a, b], s.nodes[a], {}) == LogOf(s, s.nodes[b])
  {
    var ra := s.nodes[a];
    assert [a, b][1..] == [b] && [b][1..] == [];
    assert !Moves(s, a, Some(ra)) && {} + {a} == {a};
    assert Absorbed(s, [b], ra, {a}) == LogOf(s, s.nodes[b]) + Absorbed(s, [], ra, {a, b});
  }

  /** Bridging two registered nodes with distinct rooms leaves both in the first node's
      room, whose log is its old log followed by the second room's log; the second room's
      log stays in place. */
  lemma BridgePair(s: State, a: NodeId, b: NodeId)
    requires Valid(s) && a in s.nodes && b in s.nodes && s.nodes[a] != s.nodes[b]
    ensures var t := Bridge(s, [a, b]).state;
      && t.nodes[a] == t.nodes[b] == s.nodes[a]
      && Poll(t, a) == Poll(s, a) + Poll(s, b)
      && t.rooms[s.nodes[b]] == s.rooms[s.nodes[b]]
  {
    BridgeHistory(s, [a, b]);
    AbsorbedPair(s, a, b);
  }

  /** What a bridge of a base node and two nodes sharing another room absorbs: that room's
      log, twice. */
  lemma AbsorbedSharedRoom(s: State, a: NodeId, b: NodeId, c: NodeId)
    requires a in s.nodes && b in s.nodes && c in s.nodes && b != c
    requires s.nodes[b] == s.nodes[c] != s.nodes[a]
    ensures Absorbed(s, [a, b, c], s.nodes[a], {}) == LogOf(s, s.nodes[b]) + LogOf(s, s.nodes[b])
  {
    var ra := s.nodes[a];
    assert [a, b, c][1..] == [b, c] && [b, c][1..] == [c] && [c][1..] == [];
    assert !Moves(s, a, Some(ra)) && {} + {a} == {a};
    assert Moves(s, b, Some(ra)) && b !in {a} && {a} + {b} == {a, b};
    assert Moves(s, c, Some(ra)) && c !in {a, b};
    assert Absorbed(s, [c], ra, {a, b}) == LogOf(s, s.nodes[c]) + Absorbed(s, [], ra, {a, b, c});
    assert Absorbed(s, [b, c], ra, {a}) == LogOf(s, s.nodes[b]) + Absorbed(s, [c], ra, {a, b});
  }

  /** Two listed nodes that share a room other than the base room each bring that room's
      log along, so it is appended twice (app.py:100-105 compares each node's own binding
      against the base room, and only the base room is rewritten). */
  lemma BridgeDuplicatesSharedRoom(s: State, a: NodeId, b: NodeId, c: NodeId)
    requires Valid(s) && a in s.nodes && b in s.nodes && c in s.nodes && b != c
    requires s.nodes[b] == s.nodes[c] != s.nodes[a]
    ensures var t := Bridge(s, [a, b, c]).state;
      Poll(t, a) == Poll(s, a) + Poll(s, b) + Poll(s, b)
  {
    BridgeHistory(s, [a, b, c]);
    AbsorbedSharedRoom(s, a, b, c);
  }

  /** A node left out of the list keeps its room even when a listed node moved away from
      it; the old room's log is neither emptied nor deleted. */
  lemma BridgeLeavesUnlisted(s: State, ids: seq<NodeId>, u: NodeId)
    requires Valid(s) && |ids| >= 2 && ids[0] in s.nodes && u in s.nodes && u !in ids
    ensures var t := Bridge(s, ids).state;
      t.nodes[u] == s.nodes[u] && (s.nodes[u] != s.nodes[ids[0]] ==> Poll(t, u) == Poll(s, u))
  {
  }
}
