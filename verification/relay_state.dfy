/** The relay's whole state: the `nodes` map from a node (device) id to its room id, and the
    `rooms` map from a room id to that room's ordered log of entries (app.py:11-12). */
module RelayState {
  import opened Wrappers

  /** A digit of the lower-case hexadecimal form Python's `uuid.UUID.hex` produces. */
  predicate IsHexDigit(c: char) {
    '0' <= c <= '9' || 'a' <= c <= 'f'
  }

  /** A token cut from the lower-case hex form of a random UUID: exactly `len` hex digits. */
  predicate IsHexToken(t: string, len: nat) {
    |t| == len && forall i :: 0 <= i < |t| ==> IsHexDigit(t[i])
  }

  /** A node id is whatever string the client chooses; it is never validated. */
  type NodeId = string

  /** A room id is `uuid4().hex[:8]`. It is never empty, so the code's falsy test on a
      looked-up room id is true exactly when the lookup found nothing. */
  type RoomId = t: string | IsHexToken(t, 8) witness "00000000"

  /** An entry id is `uuid4().hex[:6]`. */
  type EntryId = t: string | IsHexToken(t, 6) witness "000000"

  /** The prefix put in front of a stored file's name is `uuid4().hex[:4]`. */
  type FilePrefix = t: string | IsHexToken(t, 4) witness "0000"

  /** The type-specific part of an entry: a text entry carries `content` (absent when the
      request had no `text` field); a file entry carries the storage `url` and the client's
      original file `name`. */
  datatype Body = Text(content: Option<string>) | File(url: string, name: string)

  /** One relayed item; `from` is the sender's node id. */
  datatype Entry = Entry(id: EntryId, from: NodeId, body: Body)

  datatype State = State(nodes: map<NodeId, RoomId>, rooms: map<RoomId, seq<Entry>>)

  /** The state after an operation, together with what the operation answers. */
  datatype Step<T> = Step(state: State, reply: T)

  /** The state at process start: both maps empty. */
  const Initial: State := State(map[], map[])

  /** Every room a node is bound to has a log. */
  ghost predicate Valid(s: State) {
    forall n :: n in s.nodes ==> s.nodes[n] in s.rooms
  }

  /** `nodes.get(n)`. */
  function RoomOf(s: State, n: NodeId): Option<RoomId> {
    if n in s.nodes then Some(s.nodes[n]) else None
  }

  /** `rooms.get(room, [])`. */
  function LogOf(s: State, room: RoomId): seq<Entry> {
    if room in s.rooms then s.rooms[room] else []
  }
}
