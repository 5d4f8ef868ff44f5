/**
 * A value-level specification of one connection served from start to end.
 * The transport is a script of read results still to be delivered, the log of
 * every write attempted, the set of write attempts (numbered from 0) that
 * fail, and whether the transport has been closed.  The Connection class in
 * module Ether is proved to behave exactly as these functions say.
 *
 * The source loops forever waiting for the next read; here every loop stops
 * when the script runs out, with the ending Starved.
 */
module Engine {
  import opened Wire

  datatype Ending =
    | Returned  // serving returned normally
    | Panicked  // a Go runtime panic (index or slice out of range)
    | Starved   // the script ran out while a read was awaited

  datatype Peer = Peer(pending: seq<ReadResult>, sent: seq<seq<byte>>, failing: set<nat>, closed: bool)

  datatype State = State(authState: int, key: seq<byte>, keyLength: int, peer: Peer)

  /** Where a connection stands after the key-exchange loop. */
  datatype Stage = Continue | Halt(ending: Ending)

  datatype Progress = Progress(state: State, stage: Stage)

  datatype Run = Run(state: State, ending: Ending)

  /** Whether the next write attempt on p goes through. */
  predicate WriteSucceeds(p: Peer)
  {
    !p.closed && |p.sent| !in p.failing
  }

  /** A write attempt is logged whether or not it succeeds. */
  function Written(p: Peer, b: seq<byte>): (q: Peer)
  {
    p.(sent := p.sent + [b])
  }

  function Consumed(p: Peer): (q: Peer)
    requires p.pending != []
  {
    p.(pending := p.pending[1..])
  }

  /** s after the one-byte reply `code` is written (the attempt is logged either way). */
  function WithReply(s: State, code: byte): (t: State)
  {
    s.(peer := Written(s.peer, [code]))
  }

  function Abandon(s: State): (t: State)
  {
    s.(peer := s.peer.(closed := true))
  }

  /** Takes the next read result off the script. */
  function Next(s: State): (t: State)
    requires s.peer.pending != []
  {
    s.(peer := Consumed(s.peer))
  }

  /** Connection.Serve: read one handshake frame, reject it or dispatch on its version. */
  function ServeRun(s: State): (r: Run)
    ensures r.state.authState != s.authState ==>
      && r.state.authState in {1, 2}
      && s.peer.pending != [] && ClassifyHandshake(s.peer.pending[0]) == Offered(Version0001)
  {
    if s.peer.pending == [] then Run(s, Starved)
    else
      var t := Next(s);
      match ClassifyHandshake(s.peer.pending[0])
      case Offered(version) =>
        if version == Version0001 then Serve0001Run(t)
        else Run(WithReply(t, ErrVersion), Returned)
      case v => Run(WithReply(t, v.Reply()), Returned)
  }

  /** serve0001: first ack, key exchange, second ack, session. */
  function Serve0001Run(s: State): (r: Run)
    ensures r.state.authState in {1, 2}
    ensures r.state.authState == 2 ==> |r.state.key| == r.state.keyLength <= 0x1_0000 - 5
  {
    var s1 := s.(authState := 1);
    if !WriteSucceeds(s1.peer) then Run(Abandon(WithReply(s1, AckCode)), Returned)
    else
      var p := KeyExchangeRun(WithReply(s1, AckCode));
      match p.stage
      case Halt(ending) => Run(p.state, ending)
      case Continue => ActivateRun(p.state)
  }

  /** Once a key is stored: authState 2, the second ack, then the session loop. */
  function ActivateRun(s: State): (r: Run)
    ensures r.state.authState == 2 && r.state.key == s.key && r.state.keyLength == s.keyLength
  {
    var s2 := s.(authState := 2);
    if !WriteSucceeds(s2.peer) then Run(Abandon(WithReply(s2, AckCode)), Returned)
    else SessionRun(WithReply(s2, AckCode))
  }

  /** The `for !pass` loop: answer rejected key frames until one is accepted. */
  function KeyExchangeRun(s: State): (p: Progress)
    ensures p.state.authState == s.authState && p.state.peer.closed == s.peer.closed
    ensures p.stage == Continue ==> |p.state.key| == p.state.keyLength <= 0x1_0000 - 5
    ensures p.stage != Halt(Returned)
    decreases |s.peer.pending|
  {
    if s.peer.pending == [] then Progress(s, Halt(Starved))
    else
      var t := Next(s);
      match ClassifyKeyFrame(s.peer.pending[0])
      case Accepted(key, keyLength) => Progress(t.(key := key, keyLength := keyLength), Continue)
      case BoundWrapped(keyLength) => Progress(t.(keyLength := keyLength), Halt(Panicked))
      case v => KeyExchangeRun(WithReply(t, v.Reply()))
  }

  /** The active-session loop: one reply per packet until a disconnect or a panic. */
  function SessionRun(s: State): (r: Run)
    ensures r.state.authState == s.authState && r.state.key == s.key && r.state.keyLength == s.keyLength
    ensures r.state.peer.closed == s.peer.closed
    ensures r.ending == Starved ==> r.state.peer.pending == []
    decreases |s.peer.pending|
  {
    if s.peer.pending == [] then Run(s, Starved)
    else
      var t := Next(s);
      match ClassifySession(s.peer.pending[0])
      case Answer(code) => SessionRun(WithReply(t, code))
      case EmptyPacket => Run(WithReply(t, ErrMalformed), Panicked)
      case Disconnect => Run(WithReply(t, AckCode), Returned)
  }

  // ---------------------------------------------------------------------------
  // Properties of a run

  /** Every write in `log` is a single byte drawn from `codes`. */
  predicate SingleBytesFrom(log: seq<seq<byte>>, codes: set<byte>)
  {
    forall i :: 0 <= i < |log| ==> |log[i]| == 1 && log[i][0] in codes
  }

  /** t's transport is s's, with reads taken and writes appended. */
  predicate Follows(s: State, t: State)
  {
    && s.peer.sent <= t.peer.sent
    && |t.peer.pending| <= |s.peer.pending|
    && t.peer.failing == s.peer.failing
  }

  /** Writes t made after s. */
  function NewWrites(s: State, t: State): seq<seq<byte>>
    requires s.peer.sent <= t.peer.sent
  {
    t.peer.sent[|s.peer.sent|..]
  }

  const KeyRejectCodes: set<byte> := {ErrRead, ErrKeyShort, ErrKeyMagic, ErrKeyLength}

  const SessionCodes: set<byte> := {ErrRead, ErrMalformed, ErrUnimplemented, ErrOutOfPath, ErrUnknown, AckCode}

  const HandshakeCodes: set<byte> := {ErrRead, ErrHandshakeLength, ErrHandshakeMagic, ErrVersion}

  /**
   * The key loop never touches authState nor the transport's closed flag; it
   * only answers with key-rejection codes; and it leaves the key alone unless
   * a frame is accepted (key stored with its length) or the slice bound
   * wraps (keyLength stored, then a panic).
   */
  lemma {:induction false} KeyExchangeFacts(s: State)
    ensures var t := KeyExchangeRun(s).state;
      && Follows(s, t)
      && t.authState == s.authState
      && t.peer.closed == s.peer.closed
      && SingleBytesFrom(NewWrites(s, t), KeyRejectCodes)
    ensures var p := KeyExchangeRun(s);
      match p.stage
      case Continue =>
        |p.state.key| == p.state.keyLength <= 0x1_0000 - 5 && |p.state.peer.pending| < |s.peer.pending|
      case Halt(ending) =>
        && ending != Returned
        && p.state.key == s.key
        && (ending == Starved ==> p.state.keyLength == s.keyLength && p.state.peer.pending == [])
        && (ending == Panicked ==> 0x1_0000 - 4 <= p.state.keyLength)
    decreases |s.peer.pending|
  {
    if s.peer.pending != [] {
      var t := Next(s);
      var v := ClassifyKeyFrame(s.peer.pending[0]);
      if v.Rejected() {
        var u := WithReply(t, v.Reply());
        KeyExchangeFacts(u);
        var w := KeyExchangeRun(u).state;
        assert NewWrites(s, w) == [[v.Reply()]] + NewWrites(u, w);
        assert t.peer.pending == s.peer.pending[1..];
      }
    }
  }

  /** A script made only of rejected key frames: one reply each, nothing stored. */
  lemma {:induction false} KeyExchangeAllRejected(s: State)
    requires forall i :: 0 <= i < |s.peer.pending| ==> ClassifyKeyFrame(s.peer.pending[i]).Rejected()
    ensures KeyExchangeRun(s).stage == Halt(Starved)
    ensures var t := KeyExchangeRun(s).state;
      && t.authState == s.authState && t.key == s.key && t.keyLength == s.keyLength
      && t.peer.pending == []
      && t.peer.sent == s.peer.sent +
           seq(|s.peer.pending|, i requires 0 <= i < |s.peer.pending| =>
             [ClassifyKeyFrame(s.peer.pending[i]).Reply()])
    decreases |s.peer.pending|
  {
    if s.peer.pending != [] {
      var t := Next(s);
      var v := ClassifyKeyFrame(s.peer.pending[0]);
      var u := WithReply(t, v.Reply());
      var n := |u.peer.pending|;
      assert u.peer.pending == s.peer.pending[1..];
      assert forall i :: 0 <= i < n ==> u.peer.pending[i] == s.peer.pending[i + 1];
      KeyExchangeAllRejected(u);
      assert seq(n + 1, i requires 0 <= i < n + 1 => [ClassifyKeyFrame(s.peer.pending[i]).Reply()])
        == [[v.Reply()]] + seq(n, i requires 0 <= i < n => [ClassifyKeyFrame(u.peer.pending[i]).Reply()]);
    }
  }

  /**
   * The first key frame that is not rejected decides the loop: every frame
   * before it is answered with its own rejection code, in order; an accepted
   * frame stores its key and keyLength and the loop passes; a wrapped slice
   * bound stores keyLength, leaves the key and panics.  Nothing after that
   * frame is read.
   */
  lemma {:induction false} KeyExchangeFirstPassing(s: State, j: nat)
    requires j < |s.peer.pending|
    requires forall i :: 0 <= i < j ==> ClassifyKeyFrame(s.peer.pending[i]).Rejected()
    requires !ClassifyKeyFrame(s.peer.pending[j]).Rejected()
    ensures var p := KeyExchangeRun(s);
      var v := ClassifyKeyFrame(s.peer.pending[j]);
      && p.state.authState == s.authState
      && p.state.keyLength == v.keyLength
      && (v.Accepted? ==> p.stage == Continue && p.state.key == v.key)
      && (v.BoundWrapped? ==> p.stage == Halt(Panicked) && p.state.key == s.key)
      && p.state.peer.pending == s.peer.pending[j + 1..]
      && p.state.peer.sent == s.peer.sent +
           seq(j, i requires 0 <= i < j => [ClassifyKeyFrame(s.peer.pending[i]).Reply()])
    decreases j
  {
    if j > 0 {
      var t := Next(s);
      var v := ClassifyKeyFrame(s.peer.pending[0]);
      var u := WithReply(t, v.Reply());
      assert u.peer.pending == s.peer.pending[1..];
      assert forall i :: 0 <= i < |u.peer.pending| ==> u.peer.pending[i] == s.peer.pending[i + 1];
      KeyExchangeFirstPassing(u, j - 1);
      assert u.peer.pending[j..] == s.peer.pending[j + 1..];
      assert seq(j, i requires 0 <= i < j => [ClassifyKeyFrame(s.peer.pending[i]).Reply()])
        == [[v.Reply()]] + seq(j - 1, i requires 0 <= i < j - 1 => [ClassifyKeyFrame(u.peer.pending[i]).Reply()]);
    }
  }

  /**
   * The session loop never changes authState, key, keyLength or the closed
   * flag, and answers only with session codes (the final ack included).
   */
  lemma {:induction false} SessionFacts(s: State)
    ensures var t := SessionRun(s).state;
      && Follows(s, t)
      && t.authState == s.authState && t.key == s.key && t.keyLength == s.keyLength
      && t.peer.closed == s.peer.closed
      && SingleBytesFrom(NewWrites(s, t), SessionCodes)
    ensures SessionRun(s).ending == Starved ==> SessionRun(s).state.peer.pending == []
    decreases |s.peer.pending|
  {
    if s.peer.pending != [] {
      var t := Next(s);
      assert t.peer.pending == s.peer.pending[1..];
      match ClassifySession(s.peer.pending[0])
      case Answer(code) =>
        assert code in SessionCodes;
        var u := WithReply(t, code);
        SessionFacts(u);
        var w := SessionRun(u).state;
        assert NewWrites(s, w) == [[code]] + NewWrites(u, w);
      case EmptyPacket =>
      case Disconnect =>
    }
  }

  /** The byte the session writes in answer to one packet, the panicking and the final one included. */
  function SessionReply(r: ReadResult): (code: byte)
    ensures code in SessionCodes
    ensures code == AckCode <==> ClassifySession(r) == Disconnect
  {
    match ClassifySession(r)
    case Answer(c) => c
    case EmptyPacket => ErrMalformed
    case Disconnect => AckCode
  }

  /**
   * The session consumes a prefix of the script and answers its i-th packet
   * with the i-th new write, in order, one write per packet
   * (SessionStopsAtFirstTerminator says which prefix).
   */
  lemma {:induction false} SessionOneReplyPerPacket(s: State)
    ensures var t := SessionRun(s).state;
      var k := |s.peer.pending| - |t.peer.pending|;
      && 0 <= k
      && t.peer.pending == s.peer.pending[k..]
      && t.peer.sent == s.peer.sent + seq(k, i requires 0 <= i < k => [SessionReply(s.peer.pending[i])])
    decreases |s.peer.pending|
  {
    if s.peer.pending != [] {
      var t := Next(s);
      assert t.peer.pending == s.peer.pending[1..];
      match ClassifySession(s.peer.pending[0])
      case Answer(code) =>
        var u := WithReply(t, code);
        SessionOneReplyPerPacket(u);
        var w := SessionRun(u).state;
        var k := |s.peer.pending| - |w.peer.pending|;
        assert w.peer.pending == s.peer.pending[k..];
        assert seq(k, i requires 0 <= i < k => [SessionReply(s.peer.pending[i])])
          == [[code]] + seq(k - 1, i requires 0 <= i < k - 1 => [SessionReply(u.peer.pending[i])]);
      case EmptyPacket =>
        assert seq(1, i requires 0 <= i < 1 => [SessionReply(s.peer.pending[i])]) == [[ErrMalformed]];
      case Disconnect =>
        assert seq(1, i requires 0 <= i < 1 => [SessionReply(s.peer.pending[i])]) == [[AckCode]];
    }
  }

  /**
   * The consumed prefix is the longest run of answered packets plus the first
   * disconnect or empty packet after it: an answered packet keeps the loop
   * going, and the loop stops exactly at the first packet that is not
   * answered, or starves once every packet has been answered.
   */
  lemma {:induction false} SessionStopsAtFirstTerminator(s: State)
    ensures var r := SessionRun(s);
      var k := |s.peer.pending| - |r.state.peer.pending|;
      && 0 <= k
      && (forall i :: 0 <= i < k - 1 ==> ClassifySession(s.peer.pending[i]).Answer?)
      && (r.ending == Starved <==>
            k == |s.peer.pending| && forall i :: 0 <= i < k ==> ClassifySession(s.peer.pending[i]).Answer?)
      && (r.ending == Returned <==> 0 < k && ClassifySession(s.peer.pending[k - 1]) == Disconnect)
      && (r.ending == Panicked <==> 0 < k && ClassifySession(s.peer.pending[k - 1]) == EmptyPacket)
    decreases |s.peer.pending|
  {
    if s.peer.pending != [] {
      var t := Next(s);
      match ClassifySession(s.peer.pending[0])
      case Answer(code) =>
        var u := WithReply(t, code);
        SessionStopsAtFirstTerminator(u);
        assert u.peer.pending == s.peer.pending[1..];
        assert forall i :: 0 <= i < |u.peer.pending| ==> u.peer.pending[i] == s.peer.pending[i + 1];
      case EmptyPacket =>
      case Disconnect =>
    }
  }

  /** A disconnect packet is acknowledged and ends serving without closing the transport. */
  lemma SessionDisconnect(s: State)
    requires s.peer.pending != [] && s.peer.pending[0].Received?
    requires |s.peer.pending[0].data| >= 1 && s.peer.pending[0].data[0] == 0xbf
    ensures SessionRun(s) == Run(WithReply(Next(s), AckCode), Returned)
    ensures !SessionRun(s).state.peer.closed <==> !s.peer.closed
  {
  }

  /** An empty session packet is answered with 0xba and then panics on buff[0]. */
  lemma SessionEmptyPacketPanics(s: State)
    requires s.peer.pending != [] && s.peer.pending[0] == Received([])
    ensures SessionRun(s) == Run(WithReply(Next(s), ErrMalformed), Panicked)
  {
  }

  /** The handshake stage: a read error or a malformed frame gets one reply and serving stops. */
  lemma ServeHandshakeRejections(s: State)
    requires s.peer.pending != []
    ensures var r := s.peer.pending[0];
      var first := ServeRun(s);
      && (r == ReadErr ==> first == Run(WithReply(Next(s), ErrRead), Returned))
      && (r.Received? && |r.data| != 6 ==> first == Run(WithReply(Next(s), ErrHandshakeLength), Returned))
      && (r.Received? && |r.data| == 6 && r.data[..4] != HandshakeMagic ==>
            first == Run(WithReply(Next(s), ErrHandshakeMagic), Returned))
  {
    if s.peer.pending[0].Received? {
      HandshakeCheckOrder(s.peer.pending[0].data);
    }
  }

  /** A well-formed handshake: version 1 enters serve0001, any other version gets 0xa4 only. */
  lemma ServeVersionDispatch(s: State, version: int)
    requires 0 <= version < 0x1_0000
    requires s.peer.pending != [] && s.peer.pending[0] == Received(EncodeHandshake(version))
    ensures version == Version0001 ==> ServeRun(s) == Serve0001Run(Next(s))
    ensures version != Version0001 ==> ServeRun(s) == Run(WithReply(Next(s), ErrVersion), Returned)
  {
    HandshakeRoundTrip(version);
  }

  /** A failed first ack closes the transport before anything is read. */
  lemma Serve0001FirstAckFails(s: State)
    requires !WriteSucceeds(s.peer)
    ensures var t := Serve0001Run(s);
      && t.ending == Returned
      && t.state.authState == 1
      && t.state.peer.closed
      && t.state.peer.pending == s.peer.pending
      && t.state.peer.sent == s.peer.sent + [[AckCode]]
  {
  }

  /**
   * After a key is stored, authState is 2 and a second ack is written; if it
   * fails the transport is closed and no session packet is read.
   */
  lemma Serve0001SecondAck(s: State)
    requires WriteSucceeds(s.peer)
    requires KeyExchangeRun(WithReply(s.(authState := 1), AckCode)).stage == Continue
    ensures var k := KeyExchangeRun(WithReply(s.(authState := 1), AckCode)).state;
      var t := Serve0001Run(s);
      && t.state.authState == 2
      && t.state.key == k.key
      && (!WriteSucceeds(k.peer) ==>
            t == Run(Abandon(WithReply(k.(authState := 2), AckCode)), Returned))
      && (WriteSucceeds(k.peer) ==>
            t == SessionRun(WithReply(k.(authState := 2), AckCode)))
  {
    var k := KeyExchangeRun(WithReply(s.(authState := 1), AckCode)).state;
    ActivateFacts(k);
  }

  lemma FollowsChain(a: State, b: State, c: State)
    requires Follows(a, b) && Follows(b, c)
    ensures Follows(a, c)
    ensures NewWrites(a, c) == NewWrites(a, b) + NewWrites(b, c)
  {
  }

  lemma {:induction false} SingleBytesConcat(x: seq<seq<byte>>, y: seq<seq<byte>>, codes: set<byte>)
    requires SingleBytesFrom(x, codes) && SingleBytesFrom(y, codes)
    ensures SingleBytesFrom(x + y, codes)
  {
    forall i | 0 <= i < |x + y|
      ensures |(x + y)[i]| == 1 && (x + y)[i][0] in codes
    {
      if i >= |x| {
        assert (x + y)[i] == y[i - |x|];
      }
    }
  }

  const Serve0001Codes: set<byte> := KeyRejectCodes + SessionCodes

  /** One ack write, successful or not, adds one protocol byte to the log. */
  lemma AckFollows(s: State)
    ensures Follows(s, WithReply(s, AckCode)) && Follows(s, Abandon(WithReply(s, AckCode)))
    ensures NewWrites(s, WithReply(s, AckCode)) == [[AckCode]]
    ensures NewWrites(s, Abandon(WithReply(s, AckCode))) == [[AckCode]]
    ensures SingleBytesFrom([[AckCode]], Serve0001Codes)
  {
  }

  /** The active stage keeps the key, sets authState to 2 and writes only session codes. */
  lemma ActivateFacts(s: State)
    ensures var t := ActivateRun(s).state;
      && Follows(s, t)
      && t.authState == 2 && t.key == s.key && t.keyLength == s.keyLength
      && SingleBytesFrom(NewWrites(s, t), Serve0001Codes)
  {
    var s2 := s.(authState := 2);
    AckFollows(s2);
    var b := WithReply(s2, AckCode);
    if WriteSucceeds(s2.peer) {
      SessionFacts(b);
      var w := SessionRun(b).state;
      FollowsChain(s2, b, w);
      SingleBytesConcat(NewWrites(s2, b), NewWrites(b, w), Serve0001Codes);
    }
  }

  /**
   * serve0001 leaves authState at 1 or 2, reaches 2 only with a stored key
   * of keyLength <= 65531 bytes, and writes only acks, key-rejection codes
   * and session codes.
   */
  lemma Serve0001Facts(s: State)
    ensures var t := Serve0001Run(s).state;
      && Follows(s, t)
      && t.authState in {1, 2}
      && (t.authState == 2 ==> |t.key| == t.keyLength <= 0x1_0000 - 5)
      && SingleBytesFrom(NewWrites(s, t), Serve0001Codes)
  {
    var s1 := s.(authState := 1);
    AckFollows(s1);
    if WriteSucceeds(s1.peer) {
      var a := WithReply(s1, AckCode);
      KeyExchangeFacts(a);
      var p := KeyExchangeRun(a);
      FollowsChain(s, a, p.state);
      SingleBytesConcat(NewWrites(s, a), NewWrites(a, p.state), Serve0001Codes);
      if p.stage == Continue {
        ActivateFacts(p.state);
        var t := ActivateRun(p.state).state;
        FollowsChain(s, p.state, t);
        SingleBytesConcat(NewWrites(s, p.state), NewWrites(p.state, t), Serve0001Codes);
      }
    }
  }

  /** A connection as InitialiseConnection leaves it. */
  predicate Fresh(s: State)
  {
    s.authState == 0 && s.key == [] && s.keyLength == 0 && !s.peer.closed
  }

  /**
   * Over a whole run from a fresh connection: authState only takes the values
   * 0, 1 and 2; it is 2 only once a key of keyLength <= 65531 bytes is
   * stored; at 0 the peer got at most one reply and nothing was closed; and
   * every write is a single protocol byte.
   */
  lemma ServeFromFresh(s: State)
    requires Fresh(s)
    ensures var t := ServeRun(s).state;
      && Follows(s, t)
      && t.authState in {0, 1, 2}
      && (t.authState == 2 ==> |t.key| == t.keyLength <= 0x1_0000 - 5)
      && (t.authState == 0 ==> |t.peer.sent| <= |s.peer.sent| + 1 && t.key == [] && !t.peer.closed)
      && SingleBytesFrom(NewWrites(s, t), HandshakeCodes + Serve0001Codes)
  {
    if s.peer.pending != [] {
      var n := Next(s);
      assert n.peer.pending == s.peer.pending[1..];
      var v := ClassifyHandshake(s.peer.pending[0]);
      if v.Offered? && v.version == Version0001 {
        Serve0001Facts(n);
        var t := Serve0001Run(n).state;
        assert NewWrites(s, t) == NewWrites(n, t);
        var all := HandshakeCodes + Serve0001Codes;
        assert SingleBytesFrom(NewWrites(s, t), all) by {
          forall i | 0 <= i < |NewWrites(s, t)|
            ensures |NewWrites(s, t)[i]| == 1 && NewWrites(s, t)[i][0] in all
          {
          }
        }
      }
    }
  }
}
