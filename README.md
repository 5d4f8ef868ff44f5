# ether: the per-connection protocol engine

This project models how one eTh3r `ether` connection is served, and proves
properties of that model. The connection goes through three stages, and
`authState` records them as 0, 1 and 2:

1. **Handshake.** `Connection.Serve` reads one frame into a 1024-byte buffer.
   It answers `0xff` on a read error, `0xa1` when the frame is not 6 bytes
   long and `0xa2` when it does not start with `05 31 B0 0B`. Otherwise it
   decodes a big-endian version. Version `0x0001` hands over to `serve0001`;
   any other version gets `0xa4`.
2. **Key exchange.** `serve0001` sets `authState` to 1 and acks with `0xa0`.
   A failed ack abandons the connection. It then loops over key frames. It
   answers `0xff` on a read error, `0xaa` below 4 bytes, `0xab` when the magic
   is not `0E 1F`, and `0xac` when the frame's length and 4 plus the declared
   key length differ as uint16 values. When a frame passes, it stores
   `keyLength` and then the key slice `buff[4:uint16(4+keyLength)]`.
3. **Active session.** `authState` becomes 2 and a second ack is written; a
   failed ack abandons the connection. Each packet's leading byte then selects
   a reply: `0xfe` for `0xba`, `0xee`, `0xda` and `0xaf`, `0xe0` for `0xab`,
   `0xfd` for any other byte. `0xbf` is acked and serving returns.

`NotifyRoomClose` writes `0xaf`, the room-id length truncated to one byte, and
the room id.

The model has three modules:

- `Wire` (wire.dfy) holds the pure codec. It has the three classifiers and
  the reply codes. It also has the room-close encoder, with a decoder that
  shows what a client reads back. Round trips are proved for the handshake,
  the key frame and the room-close notification.
- `Engine` (engine.dfy) gives a value-level specification of a whole run over
  a transport. A `Peer` holds the read results still to come, the log of
  every write attempted, the numbers of the write attempts that fail, and a
  closed flag. The lemmas state the protocol's properties over this
  specification.
- `Ether` (connection.dfy) holds the classes `Transport` and `Connection`.
  Their methods update `authState`, `key`, `keyLength` and the transport in
  place. Each method is proved to end exactly where the matching `Engine`
  function says.

Three behaviours of the code are easy to miss when reading it, and the model
keeps each exactly as written:

- **The length check.** The key-frame length check compares `uint16(len(buff))`
  with `uint16(4)+keyLength`, so the two only have to agree modulo 65536. A
  frame 65536 bytes longer than declared is accepted, and only its declared
  prefix is kept as the key.
- **Long keys panic.** For a declared length of 65532 to 65535, the uint16
  slice bound wraps below 4, and the slice panics. `keyLength` has already
  been stored at that point. The round trip therefore holds only for keys of
  at most 65531 bytes (`KeyFrameRoundTrip`, `KeyFrameBoundWraps`).
- **Empty packets and disconnects.** A zero-length session packet is answered
  with `0xba`. There is no `continue` after it, so `buff[0]` is then indexed
  out of range and the code panics. A disconnect (`0xbf`) only acks and
  returns: the transport is not closed, and no room is left.

## Model

| member | source | states |
|---|---|---|
| `Ether.Connection.constructor` | ether/protocol.go:35-43 | InitialiseConnection: authState is 0, the connection is bound to the given transport, and key, keyLength and keyId are empty or zero |
| `Ether.Connection.HandleErr` | ether/protocol.go:45-51 | exactly the one-byte error code is written, whether or not the write succeeds; nothing else changes |
| `Ether.Connection.Ack` | ether/protocol.go:53-61 | writes `[0xa0]` and reports failure exactly when the transport is closed or this write attempt is one that fails |
| `Ether.Connection.Abandon` | ether/protocol.go:63-65 | closes the transport and changes nothing else |
| `Ether.Connection.Serve` | ether/protocol.go:67-104 | the connection and transport end exactly as `Engine.ServeRun` prescribes from the state before the call; keyId and keyIdLength are untouched |
| `Engine.ServeRun` | ether/protocol.go:67-104 | authState changes only when the first read is a well-formed handshake offering version 0x0001, and then ends at 1 or 2 |
| `Wire.ClassifyHandshake` | ether/protocol.go:70-94 | only a read error is classified as a failed read; a frame is accepted as offering version v only when it is exactly the 6-byte frame a client builds for v |
| `Wire.BigEndian16Split` | ether/protocol.go:94 | the two bytes a big-endian uint16 is read from are the two bytes it splits back into |
| `Wire.HandshakeCheckOrder` | ether/protocol.go:79-94 | the length is checked first: a frame of any length other than 6 gets WrongLength whatever its magic; a 6-byte frame gets WrongMagic iff its first four bytes are not `05 31 B0 0B`; otherwise the version is `buff[4]*256 + buff[5]` |
| `Wire.HandshakeRoundTrip` | ether/protocol.go:86-97 | the frame a client builds for any uint16 version is classified as offering exactly that version |
| `Engine.ServeHandshakeRejections` | ether/protocol.go:70-92 | a read error, a wrong length or a wrong magic on the first frame each write exactly one reply (`0xff`, `0xa1`, `0xa2`) and serving returns with authState untouched and nothing else read |
| `Engine.ServeVersionDispatch` | ether/protocol.go:94-103 | version 0x0001 continues exactly as serve0001; any other version writes only `0xa4` and returns |
| `Engine.ServeFromFresh` | ether/protocol.go:67-104 | from a freshly initialised connection, authState ends in {0,1,2}; it is 2 only with a stored key of keyLength ≤ 65531 bytes; at 0 at most one reply was written and nothing was closed; every write is one protocol byte |
| `Ether.Connection.NotifyRoomClose` | ether/protocol.go:106-115 | writes the room-close buffer, which a client decodes back to the room id exactly when the recorded length agrees with it modulo 256; reports a failed write |
| `Wire.EncodeRoomClose` | ether/protocol.go:107-110 | the notification is `0xaf`, `roomIdLength mod 256`, then the room id, so its length is 2 + the id's length |
| `Wire.RoomCloseRoundTrip` | ether/protocol.go:107-110 | the notification decodes to the room id iff the recorded length equals the id's length modulo 256, and fails to decode otherwise |
| `Wire.RoomCloseExample` | ether/protocol.go:106-115 | room id `01 02 03` with length 3 encodes to `AF 03 01 02 03` |
| `Ether.Connection.ComputeKeyId` | ether/protocol.go:117-119 | the key id is always 0 |
| `Wire.CheckErr` | ether/protocol.go:121-129 | checkErr is true exactly when an error is present |
| `Ether.Connection.Serve0001` | ether/proto0001.go:5-65 | the connection and transport end exactly as `Engine.Serve0001Run` prescribes; keyId and keyIdLength are untouched |
| `Engine.Serve0001Run` | ether/proto0001.go:5-65 | serve0001 ends with authState 1 or 2, and at 2 a key is stored whose length equals keyLength ≤ 65531 |
| `Engine.Serve0001FirstAckFails` | ether/proto0001.go:6-11 | if the first ack fails, authState is 1, the ack is the only write, the transport is closed and nothing is read |
| `Engine.Serve0001Facts` | ether/proto0001.go:5-118 | serve0001 leaves authState at 1 or 2; it reaches 2 only with a stored key whose length equals keyLength ≤ 65531; it writes only acks, key-rejection codes and session codes |
| `Ether.Connection.ExchangeKey` | ether/proto0001.go:13-58 | the `for !pass` loop ends exactly as `Engine.KeyExchangeRun` prescribes: key stored, panic on a wrapped bound, or script exhausted; keyId and keyIdLength are untouched |
| `Engine.KeyExchangeRun` | ether/proto0001.go:16-58 | the key loop keeps authState and the closed flag, never returns normally, and passes only with a key whose length equals keyLength ≤ 65531 |
| `Wire.ClassifyKeyFrame` | ether/proto0001.go:17-55 | an accepted frame carries a key whose length is its declared keyLength ≤ 65531; a wrapped slice bound happens only for a declared length of 65532 to 65535 |
| `Wire.KeyFrameClassification` | ether/proto0001.go:26-55 | below 4 bytes is TooShort; a bad magic is BadMagic; a frame is rejected iff it fails one of the three checks (length compared modulo 65536); a valid frame is accepted iff its declared length n ≤ 65531, with key `buff[4..4+n]`, and otherwise hits the wrapped slice bound |
| `Wire.KeyRejectReplies` | ether/proto0001.go:16-51 | a rejected key frame is answered `0xff` for a read error, `0xaa` below 4 bytes, `0xab` for a bad magic and `0xac` otherwise |
| `Wire.KeyFrameRoundTrip` | ether/proto0001.go:42-55 | the frame `0E 1F be16(len(k)) ++ k` is accepted with key k and keyLength len(k) for every key of at most 65531 bytes |
| `Wire.KeyFrameBoundWraps` | ether/proto0001.go:46-55 | for keys of 65532 to 65535 bytes the same frame passes the checks but its uint16 slice bound wraps: never accepted |
| `Engine.KeyExchangeFacts` | ether/proto0001.go:16-58 | the key loop keeps authState and the closed flag, writes only `0xff`/`0xaa`/`0xab`/`0xac`, and changes the key only when it accepts a frame (key and keyLength agree, ≤ 65531) or panics (keyLength ≥ 65532 stored, key unchanged) |
| `Engine.KeyExchangeFirstPassing` | ether/proto0001.go:16-58 | the first key frame that is not rejected decides the loop: each earlier frame is answered in order with its own rejection code; an accepted frame stores exactly its key and keyLength and the loop passes; a wrapped bound stores keyLength, keeps the key and panics; nothing after that frame is read |
| `Engine.KeyExchangeAllRejected` | ether/proto0001.go:16-51 | a script of rejected frames is answered frame by frame, in order, each with its own rejection code; the whole script is read, the loop starves, and authState, key and keyLength are unchanged |
| `Ether.Connection.Activate` | ether/proto0001.go:60-65 | sets authState to 2, writes the second ack, and ends exactly as `Engine.ActivateRun` prescribes; keyId and keyIdLength are untouched |
| `Engine.ActivateRun` | ether/proto0001.go:60-118 | the active stage ends with authState 2 and the key and keyLength as they were stored |
| `Engine.Serve0001SecondAck` | ether/proto0001.go:57-65 | after a key is stored, authState is 2 and the key is kept; a failed second ack closes the transport and returns before any session packet is read; otherwise the session loop runs |
| `Engine.ActivateFacts` | ether/proto0001.go:60-118 | the active stage ends with authState 2 and the key and keyLength unchanged, writing only acks and session codes |
| `Ether.Connection.Session` | ether/proto0001.go:67-118 | the session loop ends exactly as `Engine.SessionRun` prescribes |
| `Engine.SessionRun` | ether/proto0001.go:67-118 | the session keeps authState, key, keyLength and the closed flag, and runs out of input only when the whole script has been read |
| `Wire.Dispatch` | ether/proto0001.go:84-117 | no leading byte is the empty-packet case; only `0xbf` disconnects; every other byte is answered `0xfe`, `0xe0` or `0xfd` |
| `Wire.ClassifySession` | ether/proto0001.go:68-117 | a packet is the panicking empty case iff it is the empty read; it disconnects iff it is a read whose first byte is `0xbf`; every other reply is `0xff`, `0xfe`, `0xe0` or `0xfd` |
| `Wire.SessionReplyTable` | ether/proto0001.go:68-117 | a read error is answered `0xff`; an empty packet is the panicking case; leading `0xba`/`0xee`/`0xda`/`0xaf` get `0xfe`, `0xab` gets `0xe0`, `0xbf` disconnects, every other byte gets `0xfd` (each iff) |
| `Engine.SessionFacts` | ether/proto0001.go:67-118 | the session loop never changes authState, key, keyLength or the closed flag, and writes only session codes |
| `Engine.SessionOneReplyPerPacket` | ether/proto0001.go:67-118 | the session reads a prefix of the script and answers its i-th packet with the i-th new write: the dispatched code, `0xba` for the empty packet, `0xa0` for the disconnect |
| `Engine.SessionStopsAtFirstTerminator` | ether/proto0001.go:67-118 | answered packets keep the loop going; it returns exactly at the first `0xbf`, panics exactly at the first empty packet, and starves only after answering every packet of the script |
| `Engine.SessionReply` | ether/proto0001.go:68-117 | the byte written for one packet is a session code, and it is the ack exactly for the disconnect |
| `Engine.SessionDisconnect` | ether/proto0001.go:106-111 | `0xbf` writes `[0xa0]` and serving returns; the transport's closed flag is unchanged |
| `Engine.SessionEmptyPacketPanics` | ether/proto0001.go:77-84 | an empty packet is answered `0xba` and then panics on `buff[0]` |
| `Ether.KeyRetryThenDisconnect` | ether/proto0001.go:16-111 | a whole connection (handshake, a mismatched key frame, the good one, a knock, a disconnect) writes `a0 ac a0 fe a0`, ends with authState 2 and the key stored |

## Left out

- Real `net.Conn` I/O is not modelled. A transport is a finite script of read results and a log of write attempts. Write failures are chosen by attempt number. A failed write is still logged, and its partial bytes are not modelled. Blocking and partial reads are not modelled.
- Each read is modelled as delivering the bytes the peer sent. The handshake read keeps at most 1024 of them.
- The read buffer in `serve0001` is not modelled as written. There, `buff` is a nil slice that is never allocated (ether/proto0001.go:13), so a real read would deliver no bytes. The model assumes that a read yields the received bytes and that `len(buff)` equals the read count `l`.
- In the source, neither loop of `serve0001` ends for lack of input: each read blocks until bytes or an error arrive. Here a loop also stops when the script runs out (ending `Starved`), which stands for a read that never returns.
- Slice aliasing is not modelled. In the source the key is a slice of the read buffer (ether/proto0001.go:55), and the session reads into that same buffer (ether/proto0001.go:68), so a later packet could overwrite the stored key's bytes. Here the key is a value. The "key unchanged" results of `Engine.SessionFacts`, `Engine.ActivateFacts`, `Engine.ActivateRun`, `Engine.SessionRun` and `Engine.Serve0001SecondAck` hold for that value, not for the bytes behind the Go slice.
- A Go panic is modelled as the ending `Panicked`. What the panic then does to the process is not modelled.
- Logging through `slog`, the hex dumps in log messages, and `handleErr`'s `level` argument are left out. They are only logged.
- `Test()` only prints, so it is left out.
- Rooms, their members and the Manager are left out. `Room.clients`, `Connection.rooms` and the Manager argument of `Serve` are never used by this code. `serve0001` takes no argument.
- Concurrency is left out: each connection is one sequential task.
- `keyId` and `keyIdLength` are never set beyond their zero values. `ComputeKeyId` is a stub, and no cryptography is modelled.
