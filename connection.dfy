/**
 * The ether Connection as the source has it: an object whose fields the
 * protocol updates in place, bound to a transport it reads frames from and
 * writes single-byte replies to.  Each method is proved to leave the object
 * and its transport exactly where the matching Engine function says.
 */
module Ether {
  import opened Wire
  import opened Engine

  /**
   * The byte stream a connection is bound to: a script of read results, the
   * log of every write attempted, the write attempts (numbered from 0) that
   * fail, and whether it has been closed.
   */
  class Transport {
    var pending: seq<ReadResult>
    var sent: seq<seq<byte>>
    const failing: set<nat>
    var closed: bool

    function View(): Peer
      reads this
    {
      Peer(pending, sent, failing, closed)
    }

    constructor (script: seq<ReadResult>, failing: set<nat>)
      ensures View() == Peer(script, [], failing, false)
    {
      pending := script;
      sent := [];
      this.failing := failing;
      closed := false;
    }

    method Read() returns (r: ReadResult)
      requires pending != []
      modifies this
      ensures r == old(pending[0])
      ensures View() == Consumed(old(View()))
    {
      r := pending[0];
      pending := pending[1..];
    }

    method Write(b: seq<byte>) returns (ok: bool)
      modifies this
      ensures ok == WriteSucceeds(old(View()))
      ensures View() == Written(old(View()), b)
    {
      ok := !closed && |sent| !in failing;
      sent := sent + [b];
    }

    method Close()
      modifies this
      ensures View() == old(View()).(closed := true)
    {
      closed := true;
    }
  }

  class Connection {
    var authState: int
    var key: seq<byte>
    var keyId: seq<byte>
    var keyLength: int
    var keyIdLength: nat
    const bind: Transport

    ghost function Snapshot(): State
      reads this, bind
    {
      State(authState, key, keyLength, bind.View())
    }

    /** InitialiseConnection: authState 0, bound to `conn`, no key yet. */
    constructor (conn: Transport)
      ensures bind == conn
      ensures authState == 0 && key == [] && keyLength == 0
      ensures keyId == [] && keyIdLength == 0
    {
      authState := 0;
      key := [];
      keyId := [];
      keyLength := 0;
      keyIdLength := 0;
      bind := conn;
    }

    /** Writes a one-byte error code; a failed write is only logged by the source. */
    method HandleErr(code: byte)
      modifies bind
      ensures bind.View() == Written(old(bind.View()), [code])
    {
      var _ := bind.Write([code]);
    }

    /** ack: writes 0xa0 and reports whether the write went through. */
    method Ack() returns (ok: bool)
      modifies bind
      ensures ok == WriteSucceeds(old(bind.View()))
      ensures bind.View() == Written(old(bind.View()), [AckCode])
    {
      ok := bind.Write([AckCode]);
    }

    method Abandon()
      modifies bind
      ensures bind.View() == old(bind.View()).(closed := true)
    {
      bind.Close();
    }

    /** Serve: classify the handshake frame, reject it, or hand over to version 0x0001. */
    method Serve() returns (ending: Ending)
      modifies this, bind
      ensures Run(Snapshot(), ending) == ServeRun(old(Snapshot()))
      ensures keyId == old(keyId) && keyIdLength == old(keyIdLength)
    {
      if bind.pending == [] {
        return Starved;
      }
      var r := bind.Read();
      match ClassifyHandshake(r)
      case HandshakeReadFailed =>
        HandleErr(ErrRead);
        ending := Returned;
      case WrongLength =>
        HandleErr(ErrHandshakeLength);
        ending := Returned;
      case WrongMagic =>
        HandleErr(ErrHandshakeMagic);
        ending := Returned;
      case Offered(version) =>
        if version == Version0001 {
          ending := Serve0001();
        } else {
          HandleErr(ErrVersion);
          ending := Returned;
        }
    }

    /** serve0001: ack, exchange a key, ack again, then serve the session. */
    method Serve0001() returns (ending: Ending)
      modifies this, bind
      ensures Run(Snapshot(), ending) == Serve0001Run(old(Snapshot()))
      ensures keyId == old(keyId) && keyIdLength == old(keyIdLength)
    {
      authState := 1;
      var ok := Ack();
      if !ok {
        Abandon();
        return Returned;
      }
      var stage := ExchangeKey();
      if stage.Halt? {
        return stage.ending;
      }
      ending := Activate();
    }

    /** The key loop: answer each rejected frame and read again until one is accepted. */
    method ExchangeKey() returns (stage: Stage)
      modifies this, bind
      ensures Progress(Snapshot(), stage) == KeyExchangeRun(old(Snapshot()))
      ensures keyId == old(keyId) && keyIdLength == old(keyIdLength)
    {
      var pass := false;
      while !pass
        invariant !pass ==> KeyExchangeRun(Snapshot()) == KeyExchangeRun(old(Snapshot()))
        invariant pass ==> Progress(Snapshot(), Continue) == KeyExchangeRun(old(Snapshot()))
        invariant keyId == old(keyId) && keyIdLength == old(keyIdLength)
        decreases |bind.pending|, !pass
      {
        if bind.pending == [] {
          return Halt(Starved);
        }
        var r := bind.Read();
        var v := ClassifyKeyFrame(r);
        match v
        case Accepted(k, n) =>
          keyLength := n;
          key := k;
          pass := true;
        case BoundWrapped(n) =>
          // keyLength is stored before the key is sliced, and the slice panics
          keyLength := n;
          return Halt(Panicked);
        case _ =>
          HandleErr(v.Reply());
      }
      stage := Continue;
    }

    /** authState 2, the second ack, then the active-session loop. */
    method Activate() returns (ending: Ending)
      modifies this, bind
      ensures Run(Snapshot(), ending) == ActivateRun(old(Snapshot()))
      ensures keyId == old(keyId) && keyIdLength == old(keyIdLength)
    {
      authState := 2;
      var ok := Ack();
      if !ok {
        Abandon();
        return Returned;
      }
      ending := Session();
    }

    /** The session loop: one reply per packet, until a disconnect or a panic. */
    method Session() returns (ending: Ending)
      modifies bind
      ensures Run(Snapshot(), ending) == SessionRun(old(Snapshot()))
    {
      while true
        invariant SessionRun(Snapshot()) == SessionRun(old(Snapshot()))
        decreases |bind.pending|
      {
        if bind.pending == [] {
          return Starved;
        }
        var r := bind.Read();
        match ClassifySession(r)
        case Answer(code) =>
          HandleErr(code);
        case EmptyPacket =>
          // the reply is written, then indexing the empty buffer panics
          HandleErr(ErrMalformed);
          return Panicked;
        case Disconnect =>
          var _ := Ack();
          return Returned;
      }
    }

    /** NotifyRoomClose: write 0xaf, the room-id length byte and the room id; report a failed write. */
    method NotifyRoomClose(room: Room) returns (failed: bool)
      modifies bind
      ensures failed == !WriteSucceeds(old(bind.View()))
      ensures bind.View() == Written(old(bind.View()), EncodeRoomClose(room))
      ensures |bind.sent| > 0 && DecodeRoomClose(bind.sent[|bind.sent| - 1]) ==
        (if room.roomIdLength % 256 == |room.roomId| then Some(room.roomId) else None)
    {
      var buff: seq<byte> := [RoomCloseCode];
      buff := buff + [room.roomIdLength % 256];
      buff := buff + room.roomId;
      assert buff == EncodeRoomClose(room);
      RoomCloseRoundTrip(room);
      var ok := bind.Write(buff);
      failed := !ok;
    }

    /** The key id is a stub: always 0, whatever the key. */
    function ComputeKeyId(): (id: int)
      ensures id == 0
    {
      0
    }
  }

  /**
   * A whole connection: version 0x0001 is offered, a key frame whose length
   * disagrees is answered 0xac and retried, the well-formed frame for k is
   * accepted, a knock gets 0xfe and the disconnect its ack.
   */
  method KeyRetryThenDisconnect(k: seq<byte>) returns (log: seq<seq<byte>>, state: int, stored: seq<byte>, ending: Ending)
    requires |k| <= 0x1_0000 - 5
    ensures log == [[AckCode], [ErrKeyLength], [AckCode], [ErrUnimplemented], [AckCode]]
    ensures state == 2 && stored == k && ending == Returned
  {
    var hello := EncodeHandshake(Version0001);
    var bad := EncodeKeyFrame(k) + [0];
    var good := EncodeKeyFrame(k);
    var t := new Transport([Received(hello), Received(bad), Received(good), Received([0xee]), Received([0xbf])], {});
    var c := new Connection(t);
    HandshakeRoundTrip(Version0001);
    KeyFrameRoundTrip(k);
    assert bad[..2] == KeyMagic && bad[2..4] == PutBigEndian16(|k|);
    KeyFrameClassification(bad);
    KeyRejectReplies(Received(bad));
    assert ClassifyKeyFrame(Received(bad)) == LengthMismatch;
    // the run, stage by stage, as Engine specifies it
    ghost var s0 := c.Snapshot();
    ghost var a := WithReply(Next(s0).(authState := 1), AckCode);
    assert ServeRun(s0) == Serve0001Run(Next(s0));
    ghost var b := WithReply(Next(a), ErrKeyLength);
    assert KeyExchangeRun(a) == KeyExchangeRun(b);
    ghost var keyed := Next(b).(key := k, keyLength := |k|);
    assert KeyExchangeRun(b) == Progress(keyed, Continue);
    ghost var active := WithReply(keyed.(authState := 2), AckCode);
    assert ActivateRun(keyed) == SessionRun(active);
    ghost var knocked := WithReply(Next(active), ErrUnimplemented);
    assert SessionRun(active) == SessionRun(knocked);
    assert SessionRun(knocked) == Run(WithReply(Next(knocked), AckCode), Returned);
    ending := c.Serve();
    log := t.sent;
    state := c.authState;
    stored := c.key;
  }
}
