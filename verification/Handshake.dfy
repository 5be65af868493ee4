/**
 * The Noise_XX handshake driver run by both ends of a connection. Each end is an asynchronous loop;
 * the model takes the stretches between two of its waits as steps and interleaves them freely.
 */
module Handshake {
  import opened MeshTypes

  datatype Version = Version(major: nat, minor: nat, patch: nat) {
    predicate CompatibleWith(other: Version) { major == other.major }
  }

  datatype Role = Initiator | Responder

  /** What each end puts into every handshake message. */
  datatype Payload = Payload(version: Version, peerId: PeerId)

  /** A handshake message; it only opens for a reader whose transcript equals the writer's. */
  datatype Message = Message(key: Option<nat>, payload: Payload, context: seq<Message>)

  /** Noise_XX as in section 7.5 of the Noise Protocol Framework: three messages, initiator first. */
  datatype Noise = Noise(role: Role, key: nat, remoteKey: Option<nat>, transcript: seq<Message>) {
    predicate Finished() { |transcript| == 3 }

    predicate MyTurn() { !Finished() && (|transcript| % 2 == 0 <==> role.Initiator?) }

    /** Static keys travel in the second and third message. */
    function Write(payload: Payload): (r: Option<(Noise, Message)>) {
      if !MyTurn() then None
      else
        var msg := Message(if transcript == [] then None else Some(key), payload, transcript);
        Some((this.(transcript := transcript + [msg]), msg))
    }

    function Read(msg: Message): (r: Option<Noise>) {
      if Finished() || MyTurn() || msg.context != transcript || (msg.key.None? <==> transcript != []) then None
      else Some(this.(transcript := transcript + [msg], remoteKey := if msg.key.Some? then msg.key else remoteKey))
    }
  }

  datatype Failure = OutOfTurn | Unreadable | ClosedEarly | ProtocolMismatch | NoRemotePeer

  /** Where the loop stands: at its top, waiting to receive, or returned. */
  datatype Phase = Top | Waiting | Done(remote: PeerId) | Failed(why: Failure)

  datatype Party = Party(noise: Noise, version: Version, localId: PeerId, remoteId: Option<PeerId>, phase: Phase) {
    function Fail(why: Failure): (r: Party) { this.(phase := Failed(why)) }

    /** After the loop: a finished handshake without a peer id is an error. */
    function Return(): (r: Party) {
      if !noise.Finished() then Fail(OutOfTurn)
      else if remoteId.None? then Fail(NoRemotePeer)
      else this.(phase := Done(remoteId.value))
    }

    function WriteAnd(after: Phase): (r: (Party, Option<Message>)) {
      match noise.Write(Payload(version, localId))
      case None => (Fail(OutOfTurn), None)
      case Some((noise', msg)) => (this.(noise := noise', phase := after), Some(msg))
    }

    /** From the top of the loop to the next wait. */
    function Advance(): (r: (Party, Option<Message>)) {
      if noise.Finished() then (Return(), None)
      else match noise.role
        case Initiator =>
          var (p, msg) := WriteAnd(Waiting);
          (if p.phase.Waiting? && p.noise.Finished() then p.Return() else p, msg)
        case Responder => (this.(phase := Waiting), None)
    }

    /** A received message, or the end of the stream, up to the next top of the loop. */
    function OnReceive(incoming: Option<Message>): (r: (Party, Option<Message>)) {
      if incoming.None? then (Fail(ClosedEarly), None)
      else match noise.Read(incoming.value)
        case None => (Fail(Unreadable), None)
        case Some(noise') =>
          var p := this.(noise := noise');
          if !version.CompatibleWith(incoming.value.payload.version) then (p.Fail(ProtocolMismatch), None)
          else
            var known := p.(remoteId := Some(incoming.value.payload.peerId), phase := Top);
            if noise.role.Initiator? then (known, None)
            else if noise'.Finished() then (known.Return(), None)
            else known.WriteAnd(Top)
    }
  }

  function FreshParty(role: Role, key: nat, version: Version, id: PeerId): (p: Party) {
    Party(Noise(role, key, None, []), version, id, None, Top)
  }

  /** Both ends and the two ordered streams between them. */
  datatype Link = Link(ini: Party, res: Party, toRes: seq<Message>, toIni: seq<Message>, sent: nat)

  datatype Move = InitiatorMoves | ResponderMoves

  predicate CanMove(p: Party, inbox: seq<Message>, peer: Party) {
    p.phase.Top? || (p.phase.Waiting? && (inbox != [] || peer.phase.Failed?))
  }

  /** A waiting end takes the next message; if none is left and the peer gave up, the stream ends. */
  function MoveParty(p: Party, inbox: seq<Message>): (r: (Party, Option<Message>)) {
    if p.phase.Top? then p.Advance()
    else p.OnReceive(if inbox == [] then None else Some(inbox[0]))
  }

  function Rest(p: Party, inbox: seq<Message>): (r: seq<Message>) {
    if p.phase.Top? || inbox == [] then inbox else inbox[1..]
  }

  function AsSeq(msg: Option<Message>): (r: seq<Message>) {
    if msg.None? then [] else [msg.value]
  }

  predicate Enabled(s: Link, move: Move) {
    match move
    case InitiatorMoves => CanMove(s.ini, s.toIni, s.res)
    case ResponderMoves => CanMove(s.res, s.toRes, s.ini)
  }

  function Step(s: Link, move: Move): (r: Link) {
    match move
    case InitiatorMoves =>
      var (p, out) := MoveParty(s.ini, s.toIni);
      Link(p, s.res, s.toRes + AsSeq(out), Rest(s.ini, s.toIni), s.sent + |AsSeq(out)|)
    case ResponderMoves =>
      var (p, out) := MoveParty(s.res, s.toRes);
      Link(s.ini, p, Rest(s.res, s.toRes), s.toIni + AsSeq(out), s.sent + |AsSeq(out)|)
  }

  /** The two ends of a connection before either has moved. */
  datatype Ends = Ends(
    iniKey: nat, iniVersion: Version, iniId: PeerId,
    resKey: nat, resVersion: Version, resId: PeerId)
  {
    function Start(): (r: Link) {
      Link(FreshParty(Initiator, iniKey, iniVersion, iniId), FreshParty(Responder, resKey, resVersion, resId),
           [], [], 0)
    }

    /** Equal major versions; minor and patch do not matter. */
    predicate Compatible() { iniVersion.major == resVersion.major }

    /** The only three messages the pattern allows. */
    ghost function Msg(k: nat): (r: Message)
      requires k < 3
    {
      if k == 0 then Message(None, Payload(iniVersion, iniId), [])
      else if k == 1 then Message(Some(resKey), Payload(resVersion, resId), [Msg(0)])
      else Message(Some(iniKey), Payload(iniVersion, iniId), [Msg(0), Msg(1)])
    }

    ghost function Transcript(n: nat): (r: seq<Message>)
      requires n <= 3
    {
      if n == 0 then [] else if n == 1 then [Msg(0)] else if n == 2 then [Msg(0), Msg(1)] else [Msg(0), Msg(1), Msg(2)]
    }

    /** The initiator after it has seen `n` messages, when it has not failed. */
    ghost function IniAt(n: nat): (r: Party)
      requires n <= 3
    {
      Party(Noise(Initiator, iniKey, if n < 2 then None else Some(resKey), Transcript(n)), iniVersion, iniId,
            if n < 2 then None else Some(resId), if n == 1 then Waiting else if n == 3 then Done(resId) else Top)
    }

    ghost function ResAt(n: nat, waiting: bool): (r: Party)
      requires n <= 3
    {
      Party(Noise(Responder, resKey, if n < 3 then None else Some(iniKey), Transcript(n)), resVersion, resId,
            if n < 2 then None else Some(iniId), if n == 3 then Done(iniId) else if waiting then Waiting else Top)
    }

    /** While both ends are alive: their progress determines everything in flight. */
    ghost predicate Alive(s: Link, i: nat, r: nat, waiting: bool) {
      && i <= 3 && r <= 3 && r != 1
      && (r >= 2 ==> i >= 1) && (i >= 2 ==> r >= 2) && (r == 3 ==> i == 3)
      && s.ini == IniAt(i) && s.res == ResAt(r, waiting)
      && s.toRes == (if i >= 1 && r == 0 then [Msg(0)] else if i == 3 && r == 2 then [Msg(2)] else [])
      && s.toIni == (if r >= 2 && i == 1 then [Msg(1)] else [])
      && s.sent == (if i == 0 then 0 else if i == 3 then 3 else if r == 0 then 1 else 2)
      && (r >= 2 ==> Compatible())
    }

    /** After a version mismatch: the responder refused the first message. */
    ghost predicate Refused(s: Link) {
      && !Compatible()
      && s.res.phase == Failed(ProtocolMismatch) && s.sent == 1 && s.toRes == [] && s.toIni == []
      && (s.ini == IniAt(1) || s.ini.phase == Failed(ClosedEarly))
    }

    /** What holds after `n` moves of any interleaving. */
    ghost predicate After(s: Link, n: nat) {
      || (exists i: nat, r: nat, waiting :: Alive(s, i, r, waiting) && n == i + ResponderMovesMade(r, waiting))
      || (Refused(s) && n == if s.ini.phase.Failed? then 4 else 3)
    }
  }

  function ResponderMovesMade(r: nat, waiting: bool): (result: nat) {
    if r == 3 then 4 else r + if waiting then 1 else 0
  }

  ghost predicate Runs(s: Link, moves: seq<Move>, s': Link)
    decreases |moves|
  {
    if moves == [] then s' == s else Enabled(s, moves[0]) && Runs(Step(s, moves[0]), moves[1..], s')
  }

  /** Neither end can move. */
  predicate Stuck(s: Link) {
    !Enabled(s, InitiatorMoves) && !Enabled(s, ResponderMoves)
  }

  lemma InitiatorStep(e: Ends, s: Link, i: nat, r: nat, waiting: bool)
    requires e.Alive(s, i, r, waiting) && Enabled(s, InitiatorMoves)
    ensures i < 3 && e.Alive(Step(s, InitiatorMoves), i + 1, r, waiting)
  {
  }

  lemma ResponderWaits(e: Ends, s: Link, i: nat, r: nat)
    requires e.Alive(s, i, r, false) && r < 3
    ensures e.Alive(Step(s, ResponderMoves), i, r, true)
  {
  }

  lemma ResponderReceives(e: Ends, s: Link, i: nat, r: nat)
    requires e.Alive(s, i, r, true) && r < 3 && Enabled(s, ResponderMoves)
    ensures var s' := Step(s, ResponderMoves);
            if e.Compatible() then e.Alive(s', i, if r == 0 then 2 else 3, false)
            else r == 0 && e.Refused(s') && s'.ini == e.IniAt(1)
  {
    if r == 0 {
      assert [] + [e.Msg(0)] == e.Transcript(1);
      assert e.Transcript(1) + [e.Msg(1)] == e.Transcript(2);
    } else {
      assert e.Transcript(2) + [e.Msg(2)] == e.Transcript(3);
    }
  }

  lemma StepAfter(e: Ends, s: Link, n: nat, move: Move)
    requires e.After(s, n) && Enabled(s, move)
    ensures e.After(Step(s, move), n + 1)
  {
    if e.Refused(s) && n == if s.ini.phase.Failed? then 4 else 3 {
      assert move.InitiatorMoves? && s.ini == e.IniAt(1);
    } else {
      var i: nat, r: nat, waiting :| e.Alive(s, i, r, waiting) && n == i + ResponderMovesMade(r, waiting);
      match move
      case InitiatorMoves => InitiatorStep(e, s, i, r, waiting);
      case ResponderMoves => if waiting { ResponderReceives(e, s, i, r); } else { ResponderWaits(e, s, i, r); }
    }
  }

  lemma {:induction false} RunsAfter(e: Ends, s: Link, n: nat, moves: seq<Move>, s': Link)
    requires e.After(s, n) && Runs(s, moves, s')
    ensures e.After(s', n + |moves|)
    decreases |moves|
  {
    if moves != [] {
      StepAfter(e, s, n, moves[0]);
      RunsAfter(e, Step(s, moves[0]), n + 1, moves[1..], s');
    }
  }

  /** Nobody ever reads or writes out of turn, meets a foreign message, or forgets the peer. */
  lemma NeverOutOfTurn(e: Ends, moves: seq<Move>, s: Link)
    requires Runs(e.Start(), moves, s)
    ensures s.sent <= 3 && |moves| <= 7
    ensures s.ini.phase.Failed? ==> !e.Compatible() && s.ini.phase.why == ClosedEarly
    ensures s.res.phase.Failed? ==> !e.Compatible() && s.res.phase.why == ProtocolMismatch
  {
    assert e.Alive(e.Start(), 0, 0, false);
    RunsAfter(e, e.Start(), 0, moves, s);
  }

  /**
   * Agreement and progress: an interleaving can only stop after seven moves and three messages, with
   * each end holding the other's peer id and static key over one transcript; or, when the major
   * versions differ, after four moves and one message, with both ends having failed.
   */
  lemma EveryRunEndsInAgreement(e: Ends, moves: seq<Move>, s: Link)
    requires Runs(e.Start(), moves, s)
    ensures Stuck(s) <==> |moves| == if e.Compatible() then 7 else 4
    ensures Stuck(s) && e.Compatible() ==>
              && s.ini.phase == Done(e.resId) && s.res.phase == Done(e.iniId)
              && s.ini.noise.remoteKey == Some(e.resKey) && s.res.noise.remoteKey == Some(e.iniKey)
              && s.ini.noise.transcript == s.res.noise.transcript && |s.ini.noise.transcript| == 3
              && s.sent == 3 && s.toIni == [] && s.toRes == []
    ensures Stuck(s) && !e.Compatible() ==>
              s.ini.phase == Failed(ClosedEarly) && s.res.phase == Failed(ProtocolMismatch) && s.sent == 1
  {
    assert e.Alive(e.Start(), 0, 0, false);
    RunsAfter(e, e.Start(), 0, moves, s);
    if !(e.Refused(s) && |moves| == if s.ini.phase.Failed? then 4 else 3) {
      var i: nat, r: nat, waiting :| e.Alive(s, i, r, waiting) && |moves| == i + ResponderMovesMade(r, waiting);
      AliveStuckOnlyAtEnd(e, s, i, r, waiting);
    }
  }

  lemma AliveStuckOnlyAtEnd(e: Ends, s: Link, i: nat, r: nat, waiting: bool)
    requires e.Alive(s, i, r, waiting)
    ensures Stuck(s) <==> i == 3 && r == 3
  {
  }

  /** Both loops under an arbitrary scheduler: they always finish. */
  method RunBoth(e: Ends, schedule: nat -> Move) returns (s: Link, ghost moves: seq<Move>)
    ensures Runs(e.Start(), moves, s) && Stuck(s)
  {
    s := e.Start();
    moves := [];
    var tick := 0;
    while Enabled(s, InitiatorMoves) || Enabled(s, ResponderMoves)
      invariant Runs(e.Start(), moves, s)
      decreases 7 - |moves|
    {
      NeverOutOfTurn(e, moves, s);
      var wanted := schedule(tick);
      var other := if wanted.InitiatorMoves? then ResponderMoves else InitiatorMoves;
      var move := if Enabled(s, wanted) then wanted else other;
      RunsAppend(e.Start(), moves, s, move);
      moves, s, tick := moves + [move], Step(s, move), tick + 1;
      NeverOutOfTurn(e, moves, s);
    }
  }

  lemma {:induction false} RunsAppend(s: Link, moves: seq<Move>, s': Link, move: Move)
    requires Runs(s, moves, s') && Enabled(s', move)
    ensures Runs(s, moves + [move], Step(s', move))
    decreases |moves|
  {
    if moves != [] {
      RunsAppend(Step(s, moves[0]), moves[1..], s', move);
      assert (moves + [move])[1..] == moves[1..] + [move];
    }
  }

  // ----- One end against any peer

  /** The initiator's loop when `reply` arrives at its wait, or the end of the stream; with what it sent. */
  function RunInitiator(p: Party, reply: Option<Message>): (r: (Party, seq<Message>)) {
    var (p1, m1) := p.Advance();
    if !p1.phase.Waiting? then (p1, AsSeq(m1))
    else
      var (p2, none) := p1.OnReceive(reply);
      if !p2.phase.Top? then (p2, AsSeq(m1))
      else
        var (p3, m3) := p2.Advance();
        (p3, AsSeq(m1) + AsSeq(m3))
  }

  /** The responder's loop when `first` and then `third` arrive at its waits. */
  function RunResponder(p: Party, first: Option<Message>, third: Option<Message>): (r: (Party, seq<Message>)) {
    var (p1, none) := p.Advance();
    if !p1.phase.Waiting? then (p1, [])
    else
      var (p2, m2) := p1.OnReceive(first);
      if !p2.phase.Top? then (p2, AsSeq(m2))
      else
        var (p3, none') := p2.Advance();
        if !p3.phase.Waiting? then (p3, AsSeq(m2))
        else
          var (p4, none'') := p3.OnReceive(third);
          (p4, AsSeq(m2))
  }

  /** What decides over a message that arrived: whether it came, can be read, and has the same major version. */
  ghost predicate Passes(msg: Option<Message>, version: Version, context: seq<Message>) {
    && msg.Some? && msg.value.context == context && (msg.value.key.Some? <==> context != [])
    && msg.value.payload.version.major == version.major
  }

  /** Why a message that does not pass is refused. */
  ghost function Refusal(msg: Option<Message>, context: seq<Message>): (why: Failure) {
    if msg.None? then ClosedEarly
    else if msg.value.context != context || (msg.value.key.None? <==> context != []) then Unreadable
    else ProtocolMismatch
  }

  /**
   * Whatever the other side is and sends, the initiator finishes exactly if the one message it waits
   * for passes, and then holds its sender's peer id and static key; otherwise it fails with the reason.
   */
  lemma InitiatorAgainstAnyone(key: nat, version: Version, id: PeerId, reply: Option<Message>)
    ensures var m1 := Message(None, Payload(version, id), []);
            var (p, sent) := RunInitiator(FreshParty(Initiator, key, version, id), reply);
            if Passes(reply, version, [m1])
            then && p.phase == Done(reply.value.payload.peerId) && p.noise.remoteKey == reply.value.key
                 && sent == [m1, Message(Some(key), Payload(version, id), [m1, reply.value])]
            else p.phase == Failed(Refusal(reply, [m1])) && sent == [m1]
  {
    var m1 := Message(None, Payload(version, id), []);
    assert [] + [m1] == [m1];
    if reply.Some? {
      assert [m1] + [reply.value] == [m1, reply.value];
    }
  }

  /**
   * Whatever the other side is and sends, the responder answers exactly if the first message passes, and
   * finishes exactly if the third does too, with the peer id and the static key of that one.
   */
  lemma ResponderAgainstAnyone(key: nat, version: Version, id: PeerId, first: Option<Message>, third: Option<Message>)
    ensures var (p, sent) := RunResponder(FreshParty(Responder, key, version, id), first, third);
            if !Passes(first, version, [])
            then p.phase == Failed(Refusal(first, [])) && sent == []
            else
              var m2 := Message(Some(key), Payload(version, id), [first.value]);
              && sent == [m2]
              && if Passes(third, version, [first.value, m2])
                 then p.phase == Done(third.value.payload.peerId) && p.noise.remoteKey == third.value.key
                 else p.phase == Failed(Refusal(third, [first.value, m2]))
  {
    if first.Some? {
      var m2 := Message(Some(key), Payload(version, id), [first.value]);
      assert [] + [first.value] == [first.value] && [first.value] + [m2] == [first.value, m2];
    }
  }

  /**
   * Agreement although the network may put in anything: if both ends finish and the responder's last
   * message is the initiator's, then every message arrived as it was sent, and each end holds the
   * other's peer id and static key, with equal major versions.
   */
  lemma FinishedEndsAgree(e: Ends, reply: Option<Message>, first: Option<Message>, third: Option<Message>)
    ensures var (ini, toRes) := RunInitiator(FreshParty(Initiator, e.iniKey, e.iniVersion, e.iniId), reply);
            var (res, toIni) := RunResponder(FreshParty(Responder, e.resKey, e.resVersion, e.resId), first, third);
            ini.phase.Done? && res.phase.Done? && |toRes| == 2 && third == Some(toRes[1]) ==>
              && first == Some(toRes[0]) && reply.Some? && toIni == [reply.value] && e.Compatible()
              && ini.phase == Done(e.resId) && res.phase == Done(e.iniId)
              && ini.noise.remoteKey == Some(e.resKey) && res.noise.remoteKey == Some(e.iniKey)
  {
    InitiatorAgainstAnyone(e.iniKey, e.iniVersion, e.iniId, reply);
    ResponderAgainstAnyone(e.resKey, e.resVersion, e.resId, first, third);
  }
}
