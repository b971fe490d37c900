/** The four single-node operations of the relay: registration (`get_node_room`), `push`,
    `poll` and `get_participants` (app.py:14-19, 50-90), with the HTTP layer removed. */
module Relay {
  import opened Wrappers
  import opened RelayState

  /** `get_node_room(n)`: a node seen for the first time is bound to the room id `newRoom`
      (the code draws it from `uuid4()`), and that room gets an empty log; a known node
      keeps its room. `app.py` does not check `newRoom` against the existing rooms, so a
      collision empties that room's log. */
  function GetNodeRoom(s: State, n: NodeId, newRoom: RoomId): (r: Step<RoomId>)
    ensures n in s.nodes ==> r.state == s && r.reply == s.nodes[n]
    ensures n !in s.nodes ==>
      && r.reply == newRoom
      && r.state.rooms.Keys == s.rooms.Keys + {newRoom}
      && r.state.rooms[newRoom] == []
    ensures r.state.nodes.Keys == s.nodes.Keys + {n}
    ensures r.state.nodes[n] == r.reply
    ensures forall m :: m in s.nodes ==> r.state.nodes[m] == s.nodes[m]
    ensures forall q :: q in s.rooms && q != r.reply ==> r.state.rooms[q] == s.rooms[q]
    ensures Valid(s) ==> Valid(r.state)
  {
    if n in s.nodes then Step(s, s.nodes[n])
    else Step(State(s.nodes[n := newRoom], s.rooms[newRoom := []]), newRoom)
  }

  /** What one `push` request supplies: the optional `text` form field, the optional
      uploaded file's name, and the two random tokens the code draws for it (the entry id
      and the prefix of the stored file name). */
  datatype Submission = Submission(
    text: Option<string>,
    fileName: Option<string>,
    entryId: EntryId,
    filePrefix: FilePrefix)

  /** The JSON `type` field of an entry. */
  function TypeTag(e: Entry): string {
    if e.body.File? then "file" else "text"
  }

  /** The entry `push` builds for sender `n`: a file entry when a file was uploaded (its
      storage name is the random prefix, an underscore, and the original name), a text
      entry carrying the `text` field otherwise (app.py:60-67). */
  function MakeEntry(n: NodeId, sub: Submission): (e: Entry)
    ensures e.from == n && e.id == sub.entryId
    ensures sub.fileName.Some? <==> TypeTag(e) == "file"
    ensures sub.fileName.None? <==> TypeTag(e) == "text"
    ensures e.body.File? ==>
      && e.body.name == sub.fileName.value
      && |e.body.url| == |e.body.name| + 5
      && e.body.url[..4] == sub.filePrefix
      && e.body.url[4] == '_'
      && e.body.url[5..] == e.body.name
    ensures e.body.Text? ==> e.body.content == sub.text
  {
    match sub.fileName
    case Some(name) => Entry(sub.entryId, n, File(sub.filePrefix + "_" + name, name))
    case None => Entry(sub.entryId, n, Text(sub.text))
  }

  /** The answers `push` gives: success, 404 for an unknown node, and 500 for the `KeyError`
      raised when the node's room has no log (unreachable from a `Valid` state). */
  datatype PushReply = Pushed | NodeNotFound | ServerError

  /** `push`: append the entry built from `sub` to the sender's room log (app.py:56-69). */
  function Push(s: State, n: NodeId, sub: Submission): (r: Step<PushReply>)
    ensures n !in s.nodes ==> r == Step(s, NodeNotFound)
    ensures r.reply != Pushed ==> r.state == s
    ensures Valid(s) && n in s.nodes ==> r.reply == Pushed
    ensures r.reply == Pushed ==>
      && n in s.nodes
      && s.nodes[n] in s.rooms
      && r.state.nodes == s.nodes
      && r.state.rooms.Keys == s.rooms.Keys
      && r.state.rooms[s.nodes[n]] == s.rooms[s.nodes[n]] + [MakeEntry(n, sub)]
      && (forall q :: q in s.rooms && q != s.nodes[n] ==> r.state.rooms[q] == s.rooms[q])
    ensures Valid(s) ==> Valid(r.state)
  {
    match RoomOf(s, n)
    case None => Step(s, NodeNotFound)
    case Some(room) =>
      if room !in s.rooms then Step(s, ServerError)
      else Step(State(s.nodes, s.rooms[room := s.rooms[room] + [MakeEntry(n, sub)]]), Pushed)
  }

  /** `poll`: the whole log of the node's room; nothing for an unknown node (app.py:80-82).
      It returns no state: polling changes nothing. */
  function Poll(s: State, n: NodeId): (r: seq<Entry>)
    ensures n !in s.nodes ==> r == []
    ensures Valid(s) && n in s.nodes ==> r == s.rooms[s.nodes[n]]
  {
    match RoomOf(s, n)
    case None => []
    case Some(room) => LogOf(s, room)
  }

  /** `get_participants`: every node bound to the same room as `n`; nothing for an unknown
      node (app.py:86-89). */
  function Participants(s: State, n: NodeId): (r: set<NodeId>)
    ensures n !in s.nodes ==> r == {}
    ensures n in s.nodes ==> n in r
    ensures forall m :: m in r <==> m in s.nodes && n in s.nodes && s.nodes[m] == s.nodes[n]
  {
    match RoomOf(s, n)
    case None => {}
    case Some(room) => set m | m in s.nodes && s.nodes[m] == room
  }
}
