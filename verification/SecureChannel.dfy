/** The ratcheting secure channel, alone and in pairs over a network that delivers anything. */
module SecureChannel {
  import opened MeshTypes

  const REKEY_THRESHOLD: nat := 1_000_000

  type Key = Bytes

  /**
   * The primitives, as given functions: HKDF (sections 2.2 and 2.3 of RFC 5869) and the AEAD of
   * section 2.8 of RFC 8439 with the nonce it drew.
   */
  datatype Suite = Suite(
    derivePair: Key -> (Key, Key),
    ratchet: Key -> Key,
    seal: (Key, Bytes, Bytes) -> Option<Bytes>,
    open: (Key, Bytes) -> Option<Bytes>)

  /** An ideal AEAD: what was sealed opens under its own key, and under no other. */
  ghost predicate Ideal(c: Suite) {
    && (forall k, nonce, plain :: c.seal(k, nonce, plain).Some? ==>
          c.open(k, c.seal(k, nonce, plain).value) == Some(plain))
    && (forall k, k', nonce, plain :: k != k' && c.seal(k, nonce, plain).Some? ==>
          c.open(k', c.seal(k, nonce, plain).value) == None)
  }

  /** Sealing never fails. */
  ghost predicate SealsAll(c: Suite) {
    forall k, nonce, plain :: c.seal(k, nonce, plain).Some?
  }

  /** The key after `n` ratchets of `k`. */
  function Chain(c: Suite, k: Key, n: nat): (r: Key) {
    if n == 0 then k else c.ratchet(Chain(c, k, n - 1))
  }

  datatype Reply = Rekey | Rejected | Accepted(bytes: Bytes)

  /** The value of one end of a channel. */
  datatype Channel = Channel(sendKey: Key, recvKey: Key, sendCounter: nat, recvCounter: nat) {
    function Encrypted(c: Suite, nonce: Bytes, plain: Bytes): (r: (Channel, Reply)) {
      if sendCounter >= REKEY_THRESHOLD then (this, Rekey)
      else match c.seal(sendKey, nonce, plain)
        case None => (this, Rejected)
        case Some(cipher) =>
          (this.(sendKey := c.ratchet(sendKey), sendCounter := sendCounter + 1), Accepted(cipher))
    }

    function Decrypted(c: Suite, cipher: Bytes): (r: (Channel, Reply)) {
      if recvCounter >= REKEY_THRESHOLD then (this, Rekey)
      else match c.open(recvKey, cipher)
        case None => (this, Rejected)
        case Some(plain) =>
          (this.(recvKey := c.ratchet(recvKey), recvCounter := recvCounter + 1), Accepted(plain))
    }
  }

  function Opened(c: Suite, secret: Key, isInitiator: bool): (r: Channel) {
    var (a, b) := c.derivePair(secret);
    if isInitiator then Channel(a, b, 0, 0) else Channel(b, a, 0, 0)
  }

  /** One end, updated in place. */
  class SecureChannel {
    const suite: Suite
    var sendKey: Key
    var recvKey: Key
    var sendCounter: nat
    var recvCounter: nat

    ghost function State(): (r: Channel)
      reads this
    {
      Channel(sendKey, recvKey, sendCounter, recvCounter)
    }

    constructor (suite: Suite, secret: Key, isInitiator: bool)
      ensures this.suite == suite && State() == Opened(suite, secret, isInitiator)
      ensures (if isInitiator then (sendKey, recvKey) else (recvKey, sendKey)) == suite.derivePair(secret)
      ensures sendCounter == 0 && recvCounter == 0
    {
      this.suite := suite;
      var (a, b) := suite.derivePair(secret);
      sendKey, recvKey := if isInitiator then a else b, if isInitiator then b else a;
      sendCounter, recvCounter := 0, 0;
    }

    method Encrypt(nonce: Bytes, plaintext: Bytes) returns (r: Reply)
      modifies this
      ensures (State(), r) == old(State()).Encrypted(suite, nonce, plaintext)
      ensures r.Rekey? <==> old(sendCounter) >= 1_000_000
      ensures r.Accepted? <==> old(sendCounter) < 1_000_000 && suite.seal(old(sendKey), nonce, plaintext).Some?
      ensures r.Accepted? ==> suite.seal(old(sendKey), nonce, plaintext) == Some(r.bytes)
      ensures r.Accepted? ==> sendKey == suite.ratchet(old(sendKey)) && sendCounter == old(sendCounter) + 1
      ensures !r.Accepted? ==> sendKey == old(sendKey) && sendCounter == old(sendCounter)
      ensures recvKey == old(recvKey) && recvCounter == old(recvCounter)
    {
      if sendCounter >= REKEY_THRESHOLD {
        return Rekey;
      }
      var ciphertext := suite.seal(sendKey, nonce, plaintext);
      if ciphertext.None? {
        return Rejected;
      }
      sendKey := suite.ratchet(sendKey);
      sendCounter := sendCounter + 1;
      r := Accepted(ciphertext.value);
    }

    method Decrypt(ciphertext: Bytes) returns (r: Reply)
      modifies this
      ensures (State(), r) == old(State()).Decrypted(suite, ciphertext)
      ensures r.Rekey? <==> old(recvCounter) >= 1_000_000
      ensures r.Accepted? <==> old(recvCounter) < 1_000_000 && suite.open(old(recvKey), ciphertext).Some?
      ensures r.Accepted? ==> suite.open(old(recvKey), ciphertext) == Some(r.bytes)
      ensures r.Accepted? ==> recvKey == suite.ratchet(old(recvKey)) && recvCounter == old(recvCounter) + 1
      ensures !r.Accepted? ==> recvKey == old(recvKey) && recvCounter == old(recvCounter)
      ensures sendKey == old(sendKey) && sendCounter == old(sendCounter)
    {
      if recvCounter >= REKEY_THRESHOLD {
        return Rekey;
      }
      var plaintext := suite.open(recvKey, ciphertext);
      if plaintext.None? {
        return Rejected;
      }
      recvKey := suite.ratchet(recvKey);
      recvCounter := recvCounter + 1;
      r := Accepted(plaintext.value);
    }

    /** How many messages can certainly still be sent, and still be received. */
    method MessagesRemaining() returns (n: nat)
      ensures n == 0 <==> sendCounter >= REKEY_THRESHOLD || recvCounter >= REKEY_THRESHOLD
      ensures n > 0 ==> sendCounter + n <= REKEY_THRESHOLD && recvCounter + n <= REKEY_THRESHOLD
      ensures n > 0 ==> sendCounter + n == REKEY_THRESHOLD || recvCounter + n == REKEY_THRESHOLD
      ensures SendsAllowed(suite, State(), n) && ReceivesAllowed(suite, State(), n)
    {
      var used := if sendCounter > recvCounter then sendCounter else recvCounter;
      n := if used >= REKEY_THRESHOLD then 0 else REKEY_THRESHOLD - used;
      RemainingIsAllowed(suite, State(), n);
    }
  }

  // ----- What is left until rekeying

  /** The replies to sending the messages, each with its nonce, one after the other. */
  function SendReplies(c: Suite, ch: Channel, msgs: seq<(Bytes, Bytes)>): (replies: seq<Reply>)
    decreases |msgs|
  {
    if msgs == [] then []
    else
      var (ch', r) := ch.Encrypted(c, msgs[0].0, msgs[0].1);
      [r] + SendReplies(c, ch', msgs[1..])
  }

  function ReceiveReplies(c: Suite, ch: Channel, ciphers: seq<Bytes>): (replies: seq<Reply>)
    decreases |ciphers|
  {
    if ciphers == [] then []
    else
      var (ch', r) := ch.Decrypted(c, ciphers[0]);
      [r] + ReceiveReplies(c, ch', ciphers[1..])
  }

  /** No `n` messages are refused for want of a new key. */
  ghost predicate SendsAllowed(c: Suite, ch: Channel, n: nat) {
    forall msgs {:trigger SendReplies(c, ch, msgs)} | |msgs| <= n :: Rekey !in SendReplies(c, ch, msgs)
  }

  ghost predicate ReceivesAllowed(c: Suite, ch: Channel, n: nat) {
    forall ciphers {:trigger ReceiveReplies(c, ch, ciphers)} | |ciphers| <= n ::
      Rekey !in ReceiveReplies(c, ch, ciphers)
  }

  lemma {:induction false} NoSendRefused(c: Suite, ch: Channel, msgs: seq<(Bytes, Bytes)>)
    requires ch.sendCounter + |msgs| <= 1_000_000
    ensures Rekey !in SendReplies(c, ch, msgs)
    decreases |msgs|
  {
    if msgs != [] {
      NoSendRefused(c, ch.Encrypted(c, msgs[0].0, msgs[0].1).0, msgs[1..]);
    }
  }

  lemma {:induction false} NoReceiveRefused(c: Suite, ch: Channel, ciphers: seq<Bytes>)
    requires ch.recvCounter + |ciphers| <= 1_000_000
    ensures Rekey !in ReceiveReplies(c, ch, ciphers)
    decreases |ciphers|
  {
    if ciphers != [] {
      NoReceiveRefused(c, ch.Decrypted(c, ciphers[0]).0, ciphers[1..]);
    }
  }

  lemma RemainingIsAllowed(c: Suite, ch: Channel, n: nat)
    requires n > 0 ==> ch.sendCounter + n <= 1_000_000 && ch.recvCounter + n <= 1_000_000
    ensures SendsAllowed(c, ch, n) && ReceivesAllowed(c, ch, n)
  {
    forall msgs: seq<(Bytes, Bytes)> | |msgs| <= n ensures Rekey !in SendReplies(c, ch, msgs) {
      if n > 0 {
        NoSendRefused(c, ch, msgs);
      }
    }
    forall ciphers: seq<Bytes> | |ciphers| <= n ensures Rekey !in ReceiveReplies(c, ch, ciphers) {
      if n > 0 {
        NoReceiveRefused(c, ch, ciphers);
      }
    }
  }

  // ----- Two ends and everything in between

  datatype Sent = Sent(nonce: Bytes, plain: Bytes, cipher: Bytes)

  function Plains(sent: seq<Sent>): (r: seq<Bytes>) {
    seq(|sent|, i requires 0 <= i < |sent| => sent[i].plain)
  }

  /** Which end acts; `peer` is the other one. */
  datatype End = A | B {
    function Peer(): (r: End) { if A? then B else A }
  }

  /** Both ends, what each sent, and what each accepted. */
  datatype Session = Session(ends: map<End, Channel>, sent: map<End, seq<Sent>>, got: map<End, seq<Bytes>>) {
    ghost predicate Total() {
      forall x: End :: x in ends && x in sent && x in got
    }
  }

  datatype Event = Send(who: End, nonce: Bytes, plain: Bytes) | Deliver(who: End, cipher: Bytes)

  lemma EndsCovered<T>(m: map<End, T>)
    requires A in m && B in m
    ensures forall x: End :: x in m
  {
    forall x: End ensures x in m {
      match x case A => case B =>
    }
  }

  ghost function Begin(c: Suite, secret: Key): (s: Session)
    ensures s.Total()
  {
    var s := Session(map[A := Opened(c, secret, true), B := Opened(c, secret, false)],
                     map[A := [], B := []], map[A := [], B := []]);
    EndsCovered(s.ends);
    EndsCovered(s.sent);
    EndsCovered(s.got);
    s
  }

  /**
   * Anything may be delivered to either end at any time, as often as the network likes: a ciphertext
   * sent by either of them, or forged bytes, which an ideal AEAD does not open.
   */
  ghost predicate Possible(c: Suite, s: Session, e: Event)
    requires s.Total()
  {
    e.Deliver? ==>
      || (exists x: End, i :: 0 <= i < |s.sent[x]| && e.cipher == s.sent[x][i].cipher)
      || c.open(s.ends[e.who].recvKey, e.cipher) == None
  }

  ghost function Step(c: Suite, s: Session, e: Event): (s': Session)
    requires s.Total()
    ensures s'.Total()
  {
    match e
    case Send(who, nonce, plain) =>
      var (ch, r) := s.ends[who].Encrypted(c, nonce, plain);
      s.(ends := s.ends[who := ch],
         sent := if r.Accepted? then s.sent[who := s.sent[who] + [Sent(nonce, plain, r.bytes)]] else s.sent)
    case Deliver(who, cipher) =>
      var (ch, r) := s.ends[who].Decrypted(c, cipher);
      s.(ends := s.ends[who := ch],
         got := if r.Accepted? then s.got[who := s.got[who] + [r.bytes]] else s.got)
  }

  ghost predicate Runs(c: Suite, s: Session, es: seq<Event>, s': Session)
    requires s.Total()
    decreases |es|
  {
    if es == [] then s' == s else Possible(c, s, es[0]) && Runs(c, Step(c, s, es[0]), es[1..], s')
  }

  /** The key chain an end sends on. */
  ghost function Base(c: Suite, secret: Key, who: End): (r: Key) {
    if who.A? then c.derivePair(secret).0 else c.derivePair(secret).1
  }

  /** All keys of the two chains are pairwise different. */
  ghost predicate DistinctKeys(c: Suite, secret: Key) {
    forall x: End, y: End, i: nat, j: nat | i <= REKEY_THRESHOLD && j <= REKEY_THRESHOLD && (x, i) != (y, j) ::
      Chain(c, Base(c, secret, x), i) != Chain(c, Base(c, secret, y), j)
  }

  /** One direction in lockstep: `who` sends, its peer receives. */
  ghost predicate LaneOk(c: Suite, secret: Key, s: Session, who: End)
    requires s.Total()
  {
    var tx, rx, sent, got := s.ends[who], s.ends[who.Peer()], s.sent[who], s.got[who.Peer()];
    && tx.sendCounter == |sent| <= REKEY_THRESHOLD
    && tx.sendKey == Chain(c, Base(c, secret, who), |sent|)
    && rx.recvCounter == |got| <= |sent|
    && rx.recvKey == Chain(c, Base(c, secret, who), |got|)
    && got == Plains(sent)[..|got|]
    && forall i | 0 <= i < |sent| ::
         c.seal(Chain(c, Base(c, secret, who), i), sent[i].nonce, sent[i].plain) == Some(sent[i].cipher)
  }

  ghost predicate SessionOk(c: Suite, secret: Key, s: Session) {
    s.Total() && LaneOk(c, secret, s, A) && LaneOk(c, secret, s, B)
  }

  /** Message number `i` of a lane opens under exactly one key of either chain, the lane's `i`-th. */
  lemma OpensUnderOneKey(c: Suite, secret: Key, s: Session, x: End, i: nat, y: End, j: nat)
    requires Ideal(c) && DistinctKeys(c, secret) && SessionOk(c, secret, s)
    requires i < |s.sent[x]| && j <= REKEY_THRESHOLD
    ensures c.open(Chain(c, Base(c, secret, y), j), s.sent[x][i].cipher) ==
            if (x, i) == (y, j) then Some(s.sent[x][i].plain) else None
  {
    assert LaneOk(c, secret, s, x);
    var m := s.sent[x][i];
    assert c.seal(Chain(c, Base(c, secret, x), i), m.nonce, m.plain) == Some(m.cipher);
    if (x, i) != (y, j) {
      assert Chain(c, Base(c, secret, x), i) != Chain(c, Base(c, secret, y), j);
    }
  }

  /** The receiver accepts a ciphertext exactly when it is the very next one of its peer. */
  lemma AcceptsOnlyTheNext(c: Suite, secret: Key, s: Session, who: End, x: End, i: nat)
    requires Ideal(c) && DistinctKeys(c, secret) && SessionOk(c, secret, s) && i < |s.sent[x]|
    ensures var (ch, r) := s.ends[who].Decrypted(c, s.sent[x][i].cipher);
            && (r.Accepted? <==> x == who.Peer() && i == |s.got[who]|)
            && (r.Accepted? ==> r.bytes == s.sent[x][i].plain)
            && (!r.Accepted? ==> ch == s.ends[who])
  {
    assert LaneOk(c, secret, s, who.Peer());
    OpensUnderOneKey(c, secret, s, x, i, who.Peer(), |s.got[who]|);
  }

  lemma SendKeepsLane(c: Suite, secret: Key, s: Session, e: Event, lane: End)
    requires s.Total() && LaneOk(c, secret, s, lane) && e.Send?
    ensures LaneOk(c, secret, Step(c, s, e), lane)
  {
    var sent, sent' := s.sent[lane], Step(c, s, e).sent[lane];
    var n := |s.got[lane.Peer()]|;
    assert sent <= sent';
    assert Plains(sent')[..n] == Plains(sent)[..n];
  }

  /** A delivery changes an end only if it is the peer's next message; then that plaintext is added. */
  lemma DeliverEffect(c: Suite, secret: Key, s: Session, e: Event)
    requires Ideal(c) && DistinctKeys(c, secret) && SessionOk(c, secret, s) && e.Deliver? && Possible(c, s, e)
    ensures var got, sent, (ch, r) := s.got[e.who], s.sent[e.who.Peer()], s.ends[e.who].Decrypted(c, e.cipher);
            && (r.Accepted? <==> |got| < |sent| && e.cipher == sent[|got|].cipher)
            && (r.Accepted? ==> r.bytes == sent[|got|].plain)
  {
    var got, sent := s.got[e.who], s.sent[e.who.Peer()];
    if |got| < |sent| && e.cipher == sent[|got|].cipher {
      AcceptsOnlyTheNext(c, secret, s, e.who, e.who.Peer(), |got|);
    }
    if c.open(s.ends[e.who].recvKey, e.cipher) != None {
      var x: End, i :| 0 <= i < |s.sent[x]| && e.cipher == s.sent[x][i].cipher;
      AcceptsOnlyTheNext(c, secret, s, e.who, x, i);
    }
  }

  lemma DeliverKeepsLane(c: Suite, secret: Key, s: Session, e: Event, lane: End)
    requires s.Total() && LaneOk(c, secret, s, lane) && e.Deliver?
    requires var got, sent, (ch, r) := s.got[e.who], s.sent[e.who.Peer()], s.ends[e.who].Decrypted(c, e.cipher);
             r.Accepted? ==> |got| < |sent| && r.bytes == sent[|got|].plain
    ensures LaneOk(c, secret, Step(c, s, e), lane)
  {
    if e.who == lane.Peer() && s.ends[e.who].Decrypted(c, e.cipher).1.Accepted? {
      var sent, got := s.sent[lane], s.got[e.who];
      assert got + [sent[|got|].plain] == Plains(sent)[..|got| + 1];
    }
  }

  lemma LaneFacts(c: Suite, secret: Key, s: Session, lane: End)
    requires SessionOk(c, secret, s)
    ensures LaneOk(c, secret, s, lane)
  {
    match lane case A => case B =>
  }

  lemma StepKeepsLane(c: Suite, secret: Key, s: Session, e: Event, lane: End)
    requires Ideal(c) && DistinctKeys(c, secret) && SessionOk(c, secret, s) && Possible(c, s, e)
    ensures LaneOk(c, secret, Step(c, s, e), lane)
  {
    LaneFacts(c, secret, s, lane);
    if e.Send? {
      SendKeepsLane(c, secret, s, e, lane);
    } else {
      DeliverEffect(c, secret, s, e);
      DeliverKeepsLane(c, secret, s, e, lane);
    }
  }

  lemma StepKeepsSession(c: Suite, secret: Key, s: Session, e: Event)
    requires Ideal(c) && DistinctKeys(c, secret) && SessionOk(c, secret, s) && Possible(c, s, e)
    ensures SessionOk(c, secret, Step(c, s, e))
  {
    StepKeepsLane(c, secret, s, e, A);
    StepKeepsLane(c, secret, s, e, B);
  }

  lemma {:induction false} RunKeepsSession(c: Suite, secret: Key, s: Session, es: seq<Event>, s': Session)
    requires Ideal(c) && DistinctKeys(c, secret) && SessionOk(c, secret, s) && Runs(c, s, es, s')
    ensures SessionOk(c, secret, s')
    decreases |es|
  {
    if es != [] {
      StepKeepsSession(c, secret, s, es[0]);
      RunKeepsSession(c, secret, Step(c, s, es[0]), es[1..], s');
    }
  }

  lemma BeginIsOk(c: Suite, secret: Key)
    ensures SessionOk(c, secret, Begin(c, secret))
  {
  }

  /**
   * Lockstep and prefix delivery: whatever the network loses, repeats, reorders, reflects or forges,
   * each end has accepted a prefix of what its peer sent, and every key is the counter-th ratchet.
   */
  lemma PrefixDelivery(c: Suite, secret: Key, es: seq<Event>, s: Session, who: End)
    requires Ideal(c) && DistinctKeys(c, secret) && Runs(c, Begin(c, secret), es, s)
    ensures s.Total()
    ensures s.got[who] <= Plains(s.sent[who.Peer()])
    ensures s.ends[who].recvCounter == |s.got[who]| <= s.ends[who.Peer()].sendCounter <= REKEY_THRESHOLD
    ensures s.ends[who].sendKey == Chain(c, Base(c, secret, who), s.ends[who].sendCounter)
    ensures s.ends[who].recvKey == Chain(c, Base(c, secret, who.Peer()), s.ends[who].recvCounter)
  {
    assert SessionOk(c, secret, s) by {
      BeginIsOk(c, secret);
      RunKeepsSession(c, secret, Begin(c, secret), es, s);
    }
    LaneFacts(c, secret, s, who);
    LaneFacts(c, secret, s, who.Peer());
  }

  /** A ciphertext that was lost blocks its lane: nothing but that one can be accepted next. */
  lemma LossBlocksTheLane(c: Suite, secret: Key, es: seq<Event>, s: Session, e: Event)
    requires Ideal(c) && DistinctKeys(c, secret) && Runs(c, Begin(c, secret), es, s)
    requires e.Deliver? && s.Total() && Possible(c, s, e)
    ensures var got, sent := s.got[e.who], s.sent[e.who.Peer()];
            Step(c, s, e) != s <==> |got| < |sent| && e.cipher == sent[|got|].cipher
  {
    RunKeepsSession(c, secret, Begin(c, secret), es, s);
    DeliverEffect(c, secret, s, e);
    DeliverChanges(c, s, e);
  }

  lemma DeliverChanges(c: Suite, s: Session, e: Event)
    requires s.Total() && e.Deliver?
    ensures Step(c, s, e) != s <==> s.ends[e.who].Decrypted(c, e.cipher).1.Accepted?
  {
    if s.ends[e.who].Decrypted(c, e.cipher).1.Accepted? {
      assert |Step(c, s, e).got[e.who]| == |s.got[e.who]| + 1;
    } else {
      assert s.ends[e.who := s.ends[e.who]] == s.ends;
    }
  }

  // ----- When a message can be sent, and that it can always arrive

  /** For any suite: the sender's counter and key follow what it has sent. */
  ghost predicate SendingOk(c: Suite, secret: Key, s: Session, who: End)
    requires s.Total()
  {
    s.ends[who].sendCounter == |s.sent[who]| && s.ends[who].sendKey == Chain(c, Base(c, secret, who), |s.sent[who]|)
  }

  lemma {:induction false} RunKeepsSending(c: Suite, secret: Key, s: Session, es: seq<Event>, s': Session, who: End)
    requires s.Total() && SendingOk(c, secret, s, who) && Runs(c, s, es, s')
    ensures s'.Total() && SendingOk(c, secret, s', who)
    decreases |es|
  {
    if es != [] {
      RunKeepsSending(c, secret, Step(c, s, es[0]), es[1..], s', who);
    }
  }

  /**
   * For any suite and in every run: a message is sent exactly if fewer than a million were sent before
   * it and the current ratchet of the base key seals it; otherwise nothing changes.
   */
  lemma SendSucceedsIff(c: Suite, secret: Key, es: seq<Event>, s: Session, who: End, nonce: Bytes, plain: Bytes)
    requires Runs(c, Begin(c, secret), es, s)
    ensures s.Total()
    ensures var n, s' := |s.sent[who]|, Step(c, s, Send(who, nonce, plain));
            var cipher := c.seal(Chain(c, Base(c, secret, who), n), nonce, plain);
            if n < 1_000_000 && cipher.Some?
            then s'.sent == s.sent[who := s.sent[who] + [Sent(nonce, plain, cipher.value)]] && s'.got == s.got
            else s' == s
  {
    RunKeepsSending(c, secret, Begin(c, secret), es, s, who);
    assert s.ends[who := s.ends[who]] == s.ends;
  }

  /** Some run leads from `s` to `s'`. */
  ghost predicate Leads(c: Suite, s: Session, s': Session)
    requires s.Total()
  {
    exists es :: Runs(c, s, es, s')
  }

  lemma {:induction false} RunsAppend(c: Suite, s: Session, es: seq<Event>, s': Session, e: Event)
    requires s.Total() && s'.Total() && Runs(c, s, es, s') && Possible(c, s', e)
    ensures Runs(c, s, es + [e], Step(c, s', e))
    decreases |es|
  {
    if es == [] {
      assert ([] + [e])[0] == e && ([] + [e])[1..] == [];
    } else {
      RunsAppend(c, Step(c, s, es[0]), es[1..], s', e);
      assert (es + [e])[0] == es[0] && (es + [e])[1..] == es[1..] + [e];
    }
  }

  lemma LeadsOn(c: Suite, s: Session, s': Session, e: Event)
    requires s.Total() && s'.Total() && Leads(c, s, s') && Possible(c, s', e)
    ensures Leads(c, s, Step(c, s', e))
  {
    var es :| Runs(c, s, es, s');
    RunsAppend(c, s, es, s', e);
  }

  /** The first message that has not arrived is delivered. */
  lemma DeliverNext(c: Suite, secret: Key, s: Session, who: End, e: Event)
    requires Ideal(c) && DistinctKeys(c, secret) && SessionOk(c, secret, s) && |s.got[who.Peer()]| < |s.sent[who]|
    requires e == Deliver(who.Peer(), s.sent[who][|s.got[who.Peer()]|].cipher)
    ensures Possible(c, s, e) && Step(c, s, e).sent == s.sent && SessionOk(c, secret, Step(c, s, e))
    ensures Step(c, s, e).got == s.got[who.Peer() := s.got[who.Peer()] + [s.sent[who][|s.got[who.Peer()]|].plain]]
  {
    assert who.Peer().Peer() == who;
    assert Possible(c, s, e);
    DeliverEffect(c, secret, s, e);
    StepKeepsSession(c, secret, s, e);
  }

  /** Some run leads from the beginning to `s0`, and some from there to `s`. */
  ghost predicate Reached(c: Suite, secret: Key, s0: Session, s: Session) {
    s0.Total() && s.Total() && Leads(c, Begin(c, secret), s) && Leads(c, s0, s)
  }

  lemma ReachedIsOk(c: Suite, secret: Key, s0: Session, s: Session)
    requires Ideal(c) && DistinctKeys(c, secret) && Reached(c, secret, s0, s)
    ensures SessionOk(c, secret, s)
  {
    var es :| Runs(c, Begin(c, secret), es, s);
    RunKeepsSession(c, secret, Begin(c, secret), es, s);
  }

  lemma ReachedOn(c: Suite, secret: Key, s0: Session, s: Session, e: Event)
    requires Reached(c, secret, s0, s) && Possible(c, s, e)
    ensures Reached(c, secret, s0, Step(c, s, e))
  {
    LeadsOn(c, Begin(c, secret), s, e);
    LeadsOn(c, s0, s, e);
  }

  /** `got` is what arrived of `sent`. */
  lemma ReachedIsPrefix(c: Suite, secret: Key, s0: Session, s: Session, who: End)
    requires Ideal(c) && DistinctKeys(c, secret) && Reached(c, secret, s0, s)
    ensures s.got[who.Peer()] <= Plains(s.sent[who]) && |s.sent[who]| <= 1_000_000
  {
    ReachedIsOk(c, secret, s0, s);
    assert LaneOk(c, secret, s, who);
  }

  lemma ReachedDelivers(c: Suite, secret: Key, s0: Session, s: Session, who: End) returns (next: Session)
    requires Ideal(c) && DistinctKeys(c, secret) && Reached(c, secret, s0, s)
    requires |s.got[who.Peer()]| < |s.sent[who]|
    ensures Reached(c, secret, s0, next) && next.sent == s.sent
    ensures next.got == s.got[who.Peer() := s.got[who.Peer()] + [s.sent[who][|s.got[who.Peer()]|].plain]]
  {
    var e := Deliver(who.Peer(), s.sent[who][|s.got[who.Peer()]|].cipher);
    ReachedIsOk(c, secret, s0, s);
    DeliverNext(c, secret, s, who, e);
    ReachedOn(c, secret, s0, s, e);
    next := Step(c, s, e);
  }

  lemma SendNext(c: Suite, secret: Key, s: Session, who: End, plain: Bytes, e: Event)
    requires SessionOk(c, secret, s) && |s.sent[who]| < 1_000_000 && e == Send(who, [], plain)
    requires SealsAll(c)
    ensures SessionOk(c, secret, Step(c, s, e)) && Step(c, s, e).got == s.got
    ensures |Step(c, s, e).sent[who]| == |s.sent[who]| + 1
    ensures Plains(Step(c, s, e).sent[who]) == Plains(s.sent[who]) + [plain]
  {
    LaneFacts(c, secret, s, who);
    LaneFacts(c, secret, s, who.Peer());
    SendKeepsLane(c, secret, s, e, who);
    SendKeepsLane(c, secret, s, e, who.Peer());
  }

  lemma ReachedSends(c: Suite, secret: Key, s0: Session, s: Session, who: End, plain: Bytes) returns (next: Session)
    requires Ideal(c) && DistinctKeys(c, secret) && Reached(c, secret, s0, s) && |s.sent[who]| < 1_000_000
    requires SealsAll(c)
    ensures Reached(c, secret, s0, next) && next.got == s.got
    ensures |next.sent[who]| == |s.sent[who]| + 1 && Plains(next.sent[who]) == Plains(s.sent[who]) + [plain]
  {
    var e := Send(who, [], plain);
    ReachedIsOk(c, secret, s0, s);
    SendNext(c, secret, s, who, plain, e);
    ReachedOn(c, secret, s0, s, e);
    next := Step(c, s, e);
  }

  /** Every end can catch up: what was lost, repeated or reordered so far can still be delivered. */
  lemma {:induction false} CatchUp(c: Suite, secret: Key, s0: Session, s: Session, who: End) returns (s': Session)
    requires Ideal(c) && DistinctKeys(c, secret) && Reached(c, secret, s0, s)
    ensures Reached(c, secret, s0, s') && s'.sent == s.sent
    ensures s'.got == s.got[who.Peer() := Plains(s.sent[who])]
    decreases |s.sent[who]| - |s.got[who.Peer()]|
  {
    ReachedIsPrefix(c, secret, s0, s, who);
    if |s.got[who.Peer()]| == |s.sent[who]| {
      s' := s;
      SameEntry(s.got, who.Peer(), Plains(s.sent[who]));
    } else {
      var next := ReachedDelivers(c, secret, s0, s, who);
      s' := CatchUp(c, secret, s0, next, who);
      LastEntry(s.got, who.Peer(), next.got[who.Peer()], Plains(s.sent[who]));
    }
  }

  lemma {:induction false} SendEach(c: Suite, secret: Key, s0: Session, s: Session, who: End, plains: seq<Bytes>)
    returns (s': Session)
    requires Ideal(c) && DistinctKeys(c, secret) && SealsAll(c)
    requires Reached(c, secret, s0, s) && |s.sent[who]| + |plains| <= 1_000_000
    ensures Reached(c, secret, s0, s') && s'.got == s.got
    ensures Plains(s'.sent[who]) == Plains(s.sent[who]) + plains
    decreases |plains|
  {
    if plains == [] {
      s' := s;
    } else {
      var next := ReachedSends(c, secret, s0, s, who, plains[0]);
      s' := SendEach(c, secret, s0, next, who, plains[1..]);
      Regroup(Plains(s.sent[who]), plains);
    }
  }

  lemma SameEntry(m: map<End, seq<Bytes>>, x: End, v: seq<Bytes>)
    requires x in m && m[x] <= v && |v| == |m[x]|
    ensures m[x := v] == m
  {
    assert m[x] == v;
  }

  lemma LastEntry(m: map<End, seq<Bytes>>, x: End, v: seq<Bytes>, v': seq<Bytes>)
    ensures m[x := v][x := v'] == m[x := v']
  {
  }

  lemma Regroup(a: seq<Bytes>, b: seq<Bytes>)
    requires b != []
    ensures a + [b[0]] + b[1..] == a + b
  {
  }

  /**
   * From every session any run can reach, and for any messages within the limit of a million, some run
   * ends with the peer holding everything sent before and all of them, in order.
   */
  lemma EverythingCanArrive(c: Suite, secret: Key, s: Session, who: End, plains: seq<Bytes>) returns (s': Session)
    requires Ideal(c) && DistinctKeys(c, secret) && SealsAll(c)
    requires s.Total() && Leads(c, Begin(c, secret), s) && |s.sent[who]| + |plains| <= 1_000_000
    ensures s'.Total() && Leads(c, s, s') && s'.got[who.Peer()] == Plains(s.sent[who]) + plains
    ensures s'.got[who] == s.got[who]
  {
    assert Runs(c, s, [], s);
    var all := SendEach(c, secret, s, s, who, plains);
    s' := CatchUp(c, secret, s, all, who);
  }

  // ----- Both hypotheses can hold together

  function Ones(n: nat): (b: Bytes)
    ensures |b| == n && forall i | 0 <= i < n :: b[i] == 1
  {
    if n == 0 then [] else Ones(n - 1) + [1]
  }

  /** A prefix that names its key: no tag begins another. */
  function Tag(k: Key): (b: Bytes) {
    Ones(|k|) + [0] + k
  }

  lemma TagsAreApart(k: Key, k': Key, plain: Bytes)
    requires Tag(k') <= Tag(k) + plain
    ensures k == k'
  {
    var t, t' := Tag(k) + plain, Tag(k');
    var n, n' := |k|, |k'|;
    assert t[n] == 0 && t'[n'] == 0;
    assert n == n' by {
      assert forall i | 0 <= i < n :: t[i] == 1;
      assert forall i | 0 <= i < n' :: t'[i] == 1 && t[i] == t'[i];
    }
    assert t[n + 1..n + 1 + n] == k && t'[n' + 1..] == k';
  }

  function TaggedSeal(k: Key, nonce: Bytes, plain: Bytes): (cipher: Option<Bytes>) {
    Some(Tag(k) + plain)
  }

  function TaggedOpen(k: Key, cipher: Bytes): (plain: Option<Bytes>) {
    if Tag(k) <= cipher then Some(cipher[|Tag(k)|..]) else None
  }

  function LongerKey(k: Key): (k': Key) {
    k + [0]
  }

  function TwoKeys(secret: Key): (keys: (Key, Key)) {
    ([0], [1])
  }

  const TAGGED_SUITE := Suite(TwoKeys, LongerKey, TaggedSeal, TaggedOpen)

  lemma {:induction false} TaggedChain(k: Key, n: nat)
    requires |k| == 1
    ensures |Chain(TAGGED_SUITE, k, n)| == n + 1 && Chain(TAGGED_SUITE, k, n)[0] == k[0]
    decreases n
  {
    if n > 0 {
      TaggedChain(k, n - 1);
    }
  }

  /** The results above are about something: some suite is ideal and never repeats a key. */
  lemma SomeSuiteIsIdeal(secret: Key)
    ensures Ideal(TAGGED_SUITE) && DistinctKeys(TAGGED_SUITE, secret)
    ensures SealsAll(TAGGED_SUITE)
  {
    var c := TAGGED_SUITE;
    forall k, k', nonce, plain | k != k' && c.seal(k, nonce, plain).Some?
      ensures c.open(k', c.seal(k, nonce, plain).value) == None
    {
      if Tag(k') <= Tag(k) + plain {
        TagsAreApart(k, k', plain);
      }
    }
    forall x: End, y: End, i: nat, j: nat | i <= REKEY_THRESHOLD && j <= REKEY_THRESHOLD && (x, i) != (y, j)
      ensures Chain(c, Base(c, secret, x), i) != Chain(c, Base(c, secret, y), j)
    {
      TaggedChain(Base(c, secret, x), i);
      TaggedChain(Base(c, secret, y), j);
    }
  }
}
