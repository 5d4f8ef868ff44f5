/**
 * The byte-level vocabulary of the ether protocol: reply codes, the three frame
 * classifiers the connection engine runs on each read (handshake, key frame,
 * session packet), and the room-close notification encoder.  Everything here is
 * pure; the transport and the connection state live in the Engine and Ether
 * modules.
 */
module Wire {

  type byte = b: int | 0 <= b < 256

  datatype Option<T> = None | Some(value: T)

  /** What one read on the transport yields: an error, or the bytes received. */
  datatype ReadResult = ReadErr | Received(data: seq<byte>)

  // Single-byte replies written back to the peer.
  const AckCode: byte := 0xa0
  const ErrRead: byte := 0xff
  const ErrHandshakeLength: byte := 0xa1
  const ErrHandshakeMagic: byte := 0xa2
  const ErrVersion: byte := 0xa4
  const ErrKeyShort: byte := 0xaa
  const ErrKeyMagic: byte := 0xab
  const ErrKeyLength: byte := 0xac
  const ErrMalformed: byte := 0xba
  const ErrOutOfPath: byte := 0xe0
  const ErrUnknown: byte := 0xfd
  const ErrUnimplemented: byte := 0xfe

  /** Leading byte of the outbound room-close notification. */
  const RoomCloseCode: byte := 0xaf

  /** Size of the buffer the handshake is read into. */
  const HandshakeBufferSize: nat := 1024

  const HandshakeMagic: seq<byte> := [0x05, 0x31, 0xb0, 0x0b]
  const KeyMagic: seq<byte> := [0x0e, 0x1f]

  /** The only protocol version the server speaks. */
  const Version0001: int := 0x0001

  /** Conversion of an integer to a Go uint16: wrap-around modulo 2^16. */
  function U16(x: int): (r: int)
    ensures 0 <= r < 0x1_0000
    ensures 0 <= x < 0x1_0000 ==> r == x
  {
    x % 0x1_0000
  }

  /** binary.BigEndian.Uint16 on two bytes. */
  function BigEndian16(hi: byte, lo: byte): (v: int)
    ensures 0 <= v < 0x1_0000
  {
    hi * 256 + lo
  }

  /** The two bytes that BigEndian16 decodes back to v. */
  function PutBigEndian16(v: int): (r: seq<byte>)
    requires 0 <= v < 0x1_0000
    ensures |r| == 2 && BigEndian16(r[0], r[1]) == v
  {
    [v / 256, v % 256]
  }

  /** Splitting a decoded uint16 gives back the two bytes it came from. */
  lemma BigEndian16Split(hi: byte, lo: byte)
    ensures PutBigEndian16(BigEndian16(hi, lo)) == [hi, lo]
  {
    var v := BigEndian16(hi, lo);
    assert v == hi * 256 + lo;
    assert v / 256 == hi && v % 256 == lo;
  }

  /** Go's checkErr: true ("should break") exactly when an error is present. */
  function CheckErr(err: Option<string>): (shouldBreak: bool)
    ensures shouldBreak <==> err != None
  {
    match err
    case None => false
    case Some(_) => true
  }

  // ---------------------------------------------------------------------------
  // Handshake frame

  datatype HandshakeVerdict =
    | HandshakeReadFailed
    | WrongLength
    | WrongMagic
    | Offered(version: int)
  {
    /** The error byte the server replies with; an offered version has none of its own. */
    function Reply(): byte
      requires !Offered?
    {
      match this
      case HandshakeReadFailed => ErrRead
      case WrongLength => ErrHandshakeLength
      case WrongMagic => ErrHandshakeMagic
    }
  }

  /**
   * The first read of a connection goes into a 1024-byte buffer, so at most
   * 1024 bytes count; the frame must then be 6 bytes long, start with the
   * handshake magic, and carries a big-endian version in its last two bytes.
   */
  function ClassifyHandshake(r: ReadResult): (v: HandshakeVerdict)
    ensures v == HandshakeReadFailed <==> r == ReadErr
    ensures v.Offered? ==> 0 <= v.version < 0x1_0000 && r == Received(EncodeHandshake(v.version))
  {
    match r
    case ReadErr => HandshakeReadFailed
    case Received(buff) =>
      var l := if |buff| < HandshakeBufferSize then |buff| else HandshakeBufferSize;
      if l != 6 then WrongLength
      else if buff[0] != 0x05 || buff[1] != 0x31 || buff[2] != 0xb0 || buff[3] != 0x0b then WrongMagic
      else
        BigEndian16Split(buff[4], buff[5]);
        assert buff == HandshakeMagic + [buff[4], buff[5]];
        Offered(BigEndian16(buff[4], buff[5]))
  }

  /** The handshake frame a client sends to offer `version`. */
  function EncodeHandshake(version: int): (frame: seq<byte>)
    requires 0 <= version < 0x1_0000
    ensures |frame| == 6 && frame[..4] == HandshakeMagic
  {
    HandshakeMagic + PutBigEndian16(version)
  }

  /** Length is checked before magic, magic before the version is read. */
  lemma HandshakeCheckOrder(buff: seq<byte>)
    ensures |buff| != 6 <==> ClassifyHandshake(Received(buff)) == WrongLength
    ensures |buff| == 6 ==>
      (ClassifyHandshake(Received(buff)) == WrongMagic <==> buff[..4] != HandshakeMagic)
    ensures |buff| == 6 && buff[..4] == HandshakeMagic ==>
      ClassifyHandshake(Received(buff)) == Offered((buff[4] as int) * 256 + buff[5] as int)
  {
    if |buff| == 6 {
      assert buff[..4] == HandshakeMagic <==>
        buff[0] == 0x05 && buff[1] == 0x31 && buff[2] == 0xb0 && buff[3] == 0x0b;
    }
  }

  lemma HandshakeRoundTrip(version: int)
    requires 0 <= version < 0x1_0000
    ensures ClassifyHandshake(Received(EncodeHandshake(version))) == Offered(version)
  {
    var frame := EncodeHandshake(version);
    assert frame[0] == 0x05 && frame[1] == 0x31 && frame[2] == 0xb0 && frame[3] == 0x0b;
    assert frame[4..] == PutBigEndian16(version);
  }

  // ---------------------------------------------------------------------------
  // Key-exchange frame

  datatype KeyVerdict =
    | KeyReadFailed
    | TooShort
    | BadMagic
    | LengthMismatch
      /** Passed every check, but the uint16 slice bound 4+keyLength wrapped below 4. */
    | BoundWrapped(keyLength: int)
    | Accepted(key: seq<byte>, keyLength: int)
  {
    /** A verdict on which the key loop answers with an error byte and reads again. */
    predicate Rejected() {
      KeyReadFailed? || TooShort? || BadMagic? || LengthMismatch?
    }

    function Reply(): byte
      requires Rejected()
    {
      match this
      case KeyReadFailed => ErrRead
      case TooShort => ErrKeyShort
      case BadMagic => ErrKeyMagic
      case LengthMismatch => ErrKeyLength
    }
  }

  /**
   * One key frame: at least 4 bytes, magic 0E 1F, a big-endian key length n,
   * and a total length that agrees with 4 + n when both are taken as uint16.
   * The key is then the slice [4 : uint16(4 + n)], whose bound wraps for
   * n >= 65532.  The frame is the received bytes: its length is the read count.
   */
  function ClassifyKeyFrame(r: ReadResult): (v: KeyVerdict)
    ensures v.Accepted? ==> |v.key| == v.keyLength <= 0x1_0000 - 5
    ensures v.BoundWrapped? ==> 0x1_0000 - 4 <= v.keyLength < 0x1_0000
  {
    match r
    case ReadErr => KeyReadFailed
    case Received(buff) =>
      if |buff| < 4 then TooShort
      else if buff[0] != 0x0e || buff[1] != 0x1f then BadMagic
      else
        var keyLength := BigEndian16(buff[2], buff[3]);
        if U16(|buff|) != U16(U16(4) + keyLength) then LengthMismatch
        else
          var bound := U16(U16(4) + keyLength);
          if bound < 4 || bound > |buff| then BoundWrapped(keyLength)
          else Accepted(buff[4..bound], keyLength)
  }

  /** True when a key frame passes all three validation checks. */
  predicate KeyFrameValid(buff: seq<byte>)
  {
    && |buff| >= 4
    && buff[..2] == KeyMagic
    && |buff| % 0x1_0000 == (4 + BigEndian16(buff[2], buff[3])) % 0x1_0000
  }

  /** The key frame a client sends for key k. */
  function EncodeKeyFrame(k: seq<byte>): (frame: seq<byte>)
    requires |k| < 0x1_0000
    ensures |frame| == 4 + |k| && frame[4..] == k
  {
    KeyMagic + PutBigEndian16(|k|) + k
  }

  /**
   * The checks run in the order length, magic, declared length, and a frame
   * gets past them exactly when it is valid; it is then accepted exactly
   * when the declared length is at most 65531, with the key the declared
   * number of bytes after the header.
   */
  lemma KeyFrameClassification(buff: seq<byte>)
    ensures |buff| < 4 ==> ClassifyKeyFrame(Received(buff)) == TooShort
    ensures |buff| >= 4 && buff[..2] != KeyMagic ==> ClassifyKeyFrame(Received(buff)) == BadMagic
    ensures ClassifyKeyFrame(Received(buff)).Rejected() <==> !KeyFrameValid(buff)
    ensures KeyFrameValid(buff) ==>
      var n := BigEndian16(buff[2], buff[3]);
      if n <= 0x1_0000 - 5 then ClassifyKeyFrame(Received(buff)) == Accepted(buff[4..4 + n], n)
      else ClassifyKeyFrame(Received(buff)) == BoundWrapped(n)
  {
    if |buff| >= 4 {
      assert buff[..2] == KeyMagic <==> buff[0] == 0x0e && buff[1] == 0x1f;
      var n := BigEndian16(buff[2], buff[3]);
      if KeyFrameValid(buff) && n <= 0x1_0000 - 5 {
        // |buff| and 4 + n agree modulo 2^16 and 4 + n < 2^16, so 4 + n <= |buff|
        assert |buff| == (|buff| / 0x1_0000) * 0x1_0000 + (4 + n);
      }
    }
  }

  /**
   * The reply to a rejected key frame follows the order of the checks:
   * 0xff for a read error, 0xaa below 4 bytes, 0xab for a bad magic, and
   * 0xac for a declared length that disagrees with the frame's.
   */
  lemma KeyRejectReplies(r: ReadResult)
    ensures var v := ClassifyKeyFrame(r);
      v.Rejected() ==>
        v.Reply() ==
          if r == ReadErr then ErrRead
          else if |r.data| < 4 then ErrKeyShort
          else if r.data[..2] != KeyMagic then ErrKeyMagic
          else ErrKeyLength
  {
    if r.Received? && |r.data| >= 4 {
      KeyFrameClassification(r.data);
    }
  }

  /** Every key of at most 65531 bytes survives the trip through its frame. */
  lemma KeyFrameRoundTrip(k: seq<byte>)
    requires |k| <= 0x1_0000 - 5
    ensures ClassifyKeyFrame(Received(EncodeKeyFrame(k))) == Accepted(k, |k|)
  {
    var frame := EncodeKeyFrame(k);
    assert frame[..2] == KeyMagic;
    assert frame[2..4] == PutBigEndian16(|k|);
    KeyFrameClassification(frame);
  }

  /** Keys of 65532..65535 bytes make the uint16 slice bound wrap: never accepted. */
  lemma KeyFrameBoundWraps(k: seq<byte>)
    requires 0x1_0000 - 4 <= |k| < 0x1_0000
    ensures ClassifyKeyFrame(Received(EncodeKeyFrame(k))) == BoundWrapped(|k|)
  {
    var frame := EncodeKeyFrame(k);
    assert frame[..2] == KeyMagic;
    assert frame[2..4] == PutBigEndian16(|k|);
    KeyFrameClassification(frame);
  }

  // ---------------------------------------------------------------------------
  // Session packets

  datatype SessionAction =
    | Answer(code: byte)
      /** 0xbf: acknowledge and stop serving. */
    | Disconnect
      /** A zero-length read: 0xba is written, then indexing buff[0] panics. */
    | EmptyPacket

  /** The dispatch on a session packet's leading byte. */
  function Dispatch(lead: byte): (a: SessionAction)
    ensures a != EmptyPacket
    ensures a == Disconnect <==> lead == 0xbf
    ensures a.Answer? ==> a.code in {ErrUnimplemented, ErrOutOfPath, ErrUnknown}
  {
    if lead == 0xba then Answer(ErrUnimplemented)       // asking for a key
    else if lead == 0xee then Answer(ErrUnimplemented)  // knock
    else if lead == 0xab then Answer(ErrOutOfPath)      // knock answer
    else if lead == 0xda then Answer(ErrUnimplemented)  // message
    else if lead == 0xaf then Answer(ErrUnimplemented)  // room termination
    else if lead == 0xbf then Disconnect
    else Answer(ErrUnknown)
  }

  /** A read error, an empty packet, or the dispatch on the leading byte. */
  function ClassifySession(r: ReadResult): (a: SessionAction)
    ensures a == EmptyPacket <==> r == Received([])
    ensures a == Disconnect <==> r.Received? && |r.data| >= 1 && r.data[0] == 0xbf
    ensures a.Answer? ==> a.code in {ErrRead, ErrUnimplemented, ErrOutOfPath, ErrUnknown}
  {
    match r
    case ReadErr => Answer(ErrRead)
    case Received(buff) => if |buff| < 1 then EmptyPacket else Dispatch(buff[0])
  }

  const UnimplementedKinds: set<byte> := {0xba, 0xee, 0xda, 0xaf}

  /** The full reply table of the active session. */
  lemma SessionReplyTable(r: ReadResult)
    ensures r == ReadErr ==> ClassifySession(r) == Answer(ErrRead)
    ensures r == Received([]) ==> ClassifySession(r) == EmptyPacket
    ensures r.Received? && |r.data| >= 1 ==>
      var lead := r.data[0];
      && (lead in UnimplementedKinds <==> ClassifySession(r) == Answer(ErrUnimplemented))
      && (lead == 0xab <==> ClassifySession(r) == Answer(ErrOutOfPath))
      && (lead == 0xbf <==> ClassifySession(r) == Disconnect)
      && (lead !in UnimplementedKinds + {0xab, 0xbf} <==> ClassifySession(r) == Answer(ErrUnknown))
  {
  }

  // ---------------------------------------------------------------------------
  // Room-close notification

  /** The parts of a room that the notification reads; membership is not modelled. */
  datatype Room = Room(roomId: seq<byte>, roomIdLength: nat)

  /** 0xaf, the room-id length truncated to one byte, then the room id. */
  function EncodeRoomClose(room: Room): (buff: seq<byte>)
    ensures |buff| == 2 + |room.roomId|
    ensures buff[0] == RoomCloseCode && buff[1] == room.roomIdLength % 256
    ensures buff[2..] == room.roomId
  {
    [RoomCloseCode, room.roomIdLength % 256] + room.roomId
  }

  /** How a client reads a room-close notification back. */
  function DecodeRoomClose(buff: seq<byte>): (roomId: Option<seq<byte>>)
    ensures roomId.Some? ==> |buff| == 2 + |roomId.value| && buff[0] == RoomCloseCode
  {
    if |buff| >= 2 && buff[0] == RoomCloseCode && |buff| == 2 + buff[1] as int then Some(buff[2..])
    else None
  }

  /**
   * A notification decodes back to the room id exactly when the recorded
   * length agrees with the id's length modulo 256 (so ids of up to 255 bytes
   * whose recorded length is their own length always do).
   */
  lemma RoomCloseRoundTrip(room: Room)
    ensures DecodeRoomClose(EncodeRoomClose(room)) ==
      if room.roomIdLength % 256 == |room.roomId| then Some(room.roomId) else None
  {
    var buff := EncodeRoomClose(room);
    assert buff[2..] == room.roomId;
  }

  lemma RoomCloseExample()
    ensures EncodeRoomClose(Room([0x01, 0x02, 0x03], 3)) == [0xaf, 0x03, 0x01, 0x02, 0x03]
  {
  }
}
