# dreamShare relay core, modelled in Dafny

dreamShare pairs devices ("nodes") through a relay. A node registers under an id it picks
itself and is bound to a room. Nodes push text or file entries into their room's log and poll
the whole log back. A bridge merges several nodes into the room of the first one. The whole
state is two maps in `app.py`: `nodes` maps a node id to a room id, and `rooms` maps a room id
to the ordered list of entries.

This project models that state and its five operations as pure functions over an immutable
`State(nodes: map<NodeId, RoomId>, rooms: map<RoomId, seq<Entry>>)`. The three operations that
write (registration, `Push` and `Bridge`) return a `Step(state, reply)`, where the reply stands
for the HTTP answer (success, 404, 400 or 500). `Poll` and `Participants` are pure queries:
they return only their answer, a sequence of entries or a set of node ids, and no state.

- `wrappers.dfy` holds `Option`, which stands for Python's `None`.
- `relay_state.dfy` holds ids, entries, the state, and the invariant `Valid`: every room a node
  is bound to has a log. Room, entry and file-prefix ids are lower-case hex strings of length
  8, 6 and 4, the slices of `uuid4().hex` the code takes. A room id is never empty, so the
  code's `if not room_id` is true exactly when the node is unknown.
- `relay.dfy` holds registration (`GetNodeRoom`), `Push`, `Poll` and `Participants`.
- `bridge.dfy` holds `Bridge`. Its loop is the recursion `Relink` over the id list. `Absorbed`
  is an independent definition, on the pre-bridge state, of the history the base room gains.
- `relay_properties.dfy` holds the lemmas that relate several operations.

The random ids are parameters. Registration takes the new room id, and `Push` takes the entry
id and the stored-file prefix inside its `Submission`. Registration does not check that the new
room id is unused, and neither does the code: a collision empties the existing log. The lemmas
that need fresh ids state freshness as a precondition.

The comment at app.py:94 describes `bridge` as linking all the passed ids into one room, the
first id's room, and the comment at app.py:103 calls the transfer of history optional. The
model follows what the lines around those comments do, which shows three less obvious
behaviours:

- Unknown first node in a bridge. The base room is then `None` (app.py:98), and
  `rooms[None]` raises `KeyError` at the first listed node that is known (app.py:104). No
  write happens before that. The model answers `ServerError` and leaves the state unchanged.
  When no listed node is known, the reply is `Linked(None)` and nothing changes.
- Duplicate history. Two bridge calls with the same list are idempotent
  (`BridgeIdempotent`). A single call, though, appends a room's log once per listed node bound
  to that room (`BridgeDuplicatesSharedRoom`), because app.py:102 tests each node's own
  binding and only the base room is rewritten.
- Stale bindings. Nodes left out of the list keep their old room, even when that room was
  merged away (`BridgeLeavesUnlisted`). The old room's log is neither cleared nor removed.

## Model

| member | source | states |
|---|---|---|
| Relay.GetNodeRoom | app.py:14-19 | A known node keeps its room and the state is unchanged. An unknown node is bound to the new room id, which gets an empty log. No other binding changes, and no other log changes except a colliding one. Validity is preserved. |
| Relay.MakeEntry | app.py:60-67 | The entry records the sender and the entry id. Its type is `file` exactly when a file was uploaded. A file entry keeps the original name, and its url is the 4-hex prefix, `_`, then that name. A text entry carries the `text` field, which may be absent. |
| Relay.Push | app.py:56-72 | An unknown node gets 404 and the state is unchanged. A failure changes nothing. From a valid state, a known node always succeeds. Success appends exactly the built entry to the sender's room log and leaves bindings, room keys and other logs alone. Validity is preserved. |
| Relay.Poll | app.py:78-82 | An unknown node polls the empty sequence. In a valid state, a known node polls exactly its room's current log. |
| Relay.Participants | app.py:84-90 | An unknown node gets no participants. Otherwise the result is exactly the registered nodes bound to the node's room, and it includes the node itself. |
| Bridging.Relink | app.py:98-105 | With a base room that has a log, the loop always completes. Node and room key sets stay the same. Each registered node ends in the base room if listed and keeps its room otherwise. Only the base log changes, and only by growing at the end. Without such a base room, the loop fails exactly when some listed node would move. When it does not fail, it changes nothing. |
| Bridging.Bridge | app.py:92-107 | Fewer than two ids gives 400 with no change. An unknown first node never changes state. The reply is 500 exactly when some listed node is known, and otherwise links to no room. A known first node in a valid state links to its room, rebinds exactly the listed registered nodes, creates no nodes, and changes no log but the base room's. Validity is preserved. |
| Bridging.RelinkHistory | app.py:99-105 | From any loop state in which already-met nodes sit in the base room, the base log ends up as its current contents followed by `Absorbed` of the remaining ids. |
| Bridging.BridgeHistory | app.py:98-105 | With a known first node, the base log becomes its old contents plus the pre-bridge logs of the moved nodes' old rooms, in list order. |
| Bridging.RelinkSettled | app.py:100-102 | When every listed registered node is already in the base room, the loop changes nothing. |
| Bridging.BridgeIdempotent | app.py:96-107 | For every state and list, running the bridge a second time with the same list gives the same state and reply: nothing is rebound and nothing is appended again. |
| RelayProperties.GetNodeRoomIdempotent | app.py:14-19 | A second registration returns the first call's room and changes nothing, whatever room id it draws. |
| RelayProperties.NewNodeStartsAlone | app.py:15-18 | With an unused room id, a new node polls nothing and is its room's only participant. Every other node polls and sees the same as before. |
| RelayProperties.PollAfterPush | app.py:56-82 | After a push, exactly the participants of the sender's room poll one more entry, the pushed one, at the end. Everyone else polls the same as before. |
| RelayProperties.PushStep | app.py:56-69 | One push by a registered node keeps the state valid and the bindings unchanged. The node's poll grows by the pushed entry. |
| RelayProperties.PushesAccumulate | app.py:69 | After any number of pushes by a registered node, its poll is the old poll followed by exactly those entries in push order. The state stays valid and the bindings are unchanged. |
| RelayProperties.ParticipantsPartition | app.py:86-89 | Sharing a room is symmetric, and two nodes that share a room see the same participant set. |
| RelayProperties.BridgeJoinsParticipants | app.py:98-105 | After a bridge with a known first node, all listed registered nodes are mutual participants. They all poll the base room's log. |
| RelayProperties.AbsorbedPair | app.py:99-105 | For two nodes in distinct rooms, the absorbed history is the second node's log, once. |
| RelayProperties.BridgePair | app.py:98-105 | Bridging two nodes in distinct rooms puts both in the first room. The first room's poll becomes the first log followed by the second. The second log stays in place. |
| RelayProperties.AbsorbedSharedRoom | app.py:100-105 | When two listed nodes share a room other than the base room, the absorbed history is that room's log twice. |
| RelayProperties.BridgeDuplicatesSharedRoom | app.py:100-105 | A bridge of a base node and two nodes sharing another room appends that room's log twice. |
| RelayProperties.BridgeLeavesUnlisted | app.py:99-105 | A node not in the list keeps its room. If that room is not the base room, the node polls the same log as before. |

## Left out

- HTTP plumbing is not modelled: Flask routing, form and JSON parsing, and `jsonify` responses. Replies are datatypes standing for the status codes.
- The static routes are not modelled: `index`, `robots.txt`, `sitemap.xml`, `manifest.json` and the 413 handler. Each returns a constant.
- File saving and downloading are not modelled, including `UPLOAD_FOLDER` and the 10 GB `MAX_CONTENT_LENGTH`. These are disk I/O. A file is only its name and the storage url built from it.
- Werkzeug treats an upload with an empty file name as falsy. The model's `fileName` is `Some` only for an upload the code treats as present.
- Random ids are not generated. The room id, entry id and file prefix come from `uuid4()` and are parameters here.
- Concurrency is not modelled. The code has no locking; the model runs requests one at a time.
- Errors modelled: the `KeyError` of `bridge` (app.py:104), which an unknown first id reaches, and the `KeyError` of `push` (app.py:69), which no `Valid` state reaches. Exceptions from malformed requests that fail before any write (a missing JSON body, an unhashable first id at app.py:98) are HTTP-layer faults and are left out.
- Relay.Push: a failed file save is not modelled. `file.save` at app.py:64 raises `OSError` when the stored name is too long for the file system (for example 126 Cyrillic letters, 252 bytes, plus the 5-byte prefix) or contains `/`; the handler at app.py:71-72 then answers 500 and app.py:69 never appends the entry. The model treats the save as always succeeding and answers `Pushed`.
- Bridging.Bridge: a partly applied bridge is not modelled. A listed id that is not hashable (a JSON list, say) raises `TypeError` at app.py:100 when the loop reaches it, after earlier iterations have already rebound nodes and extended the base log at app.py:104-105; the request then answers 500 with those writes kept. The model takes ids as strings, so its `ServerError` always leaves the state unchanged.
- A `push` request without a `node_id` field is not modelled. The code looks up `None` and answers 404, the same as for any unregistered id.
- Server startup is not modelled.
- Relay.Participants: returns a set rather than a list. The code's list follows dictionary insertion order, which a Dafny `map` does not record. The list has no duplicates, so only the order is lost.
