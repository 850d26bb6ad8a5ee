/** vhu_console.rs: what the guest sees of the control protocol, message by message. */
module ConsoleReplies {
  import opened Wrappers
  import opened Words
  import opened Sequences
  import opened ConsoleControl

  // Which replies.

  /** Of a good guest's messages, event 0 is answered by event 1 and sets ready, and event 3 is answered by
      the events 4, 7 and 6 in this order. Any other is returned and does nothing else. */
  lemma RepliesAre(env: Env, s: State, c: TxChain, m: Message)
    requires GoodEnv(env) && NothingLost(s.log.popped)
    requires c.descs != [] && c.descs[0] == TxDesc(false, 8, Some(m))
    ensures Accepted(c)
    ensures var t := Handle(env, s, c);
            && t.log.generated
               == s.log.generated
                  + (if m.event == 0 then [Message(0, 1, 1)]
                     else if m.event == 3 then [Message(0, 4, 1), Message(0, 7, 1), Message(0, 6, 1)]
                     else [])
            && (t.ready <==> s.ready || m.event == 0)
            && t.returned == s.returned + [c.head]
            && (m.event != 0 && m.event != 3 ==> t == s.(returned := s.returned + [c.head]))
  {
    GoodHandle(env, s, c);
    HandleReturnsChain(env, s, c);
    RepliesInFull(m.event);
    AnswersReturnNothing(env, if m.event == 0 then s.(ready := true) else s, RepliesTo(m.event));
  }

  lemma RepliesInFull(event: U16)
    ensures Replies(RepliesTo(event))
            == if event == 0 then [Message(0, 1, 1)]
               else if event == 3 then [Message(0, 4, 1), Message(0, 7, 1), Message(0, 6, 1)]
               else []
  {
    assert RepliesTo(0)[1..] == [];
    assert RepliesTo(3)[1..] == [7, 6] && [7, 6][1..] == [6] && [6][1..] == [];
    assert Replies([6]) == [Message(0, 6, 1)];
    assert Replies([7, 6]) == [Message(0, 7, 1), Message(0, 6, 1)];
  }

  /** What is due for the messages of a pass: the replies to each in turn, up to the first that is
      not a readable descriptor of eight bytes. */
  lemma DueForChains(c: TxChain, rest: seq<TxChain>)
    ensures BatchReplies([]) == []
    ensures var ok := c.descs != [] && !c.descs[0].writeOnly && c.descs[0].len == 8 && c.descs[0].msg.Some?;
            && (!ok ==> BatchReplies([c] + rest) == [])
            && (ok ==> var event := c.descs[0].msg.value.event;
                       BatchReplies([c] + rest)
                       == (if event == 0 then [Message(0, 1, 1)]
                           else if event == 3 then [Message(0, 4, 1), Message(0, 7, 1), Message(0, 6, 1)]
                           else [])
                          + BatchReplies(rest))
  {
    assert ([c] + rest)[1..] == rest;
    if Accepted(c) { RepliesInFull(EventOf(c)); }
  }

  /** What is due for a run: passes are made until one is not accepted in full, cannot be read or
      cannot be notified. */
  lemma DueForPasses(chains: seq<TxChain>, notified: bool, rest: seq<TxPass>)
    ensures PassReplies([]) == [] && PassReplies([TxUnreadable] + rest) == []
    ensures (notified && forall c :: c in chains ==> Accepted(c))
            ==> PassReplies([TxPass(chains, notified)] + rest) == BatchReplies(chains) + PassReplies(rest)
    ensures !(notified && forall c :: c in chains ==> Accepted(c))
            ==> PassReplies([TxPass(chains, notified)] + rest) == BatchReplies(chains)
  {
    assert ([TxPass(chains, notified)] + rest)[1..] == rest;
    Regroup(BatchReplies(chains), [], []);
  }

  lemma DueForRun(steps: seq<Step>, passes: seq<TxPass>, n: nat)
    ensures RunReplies([]) == []
    ensures RunReplies(steps + [TxQueue(passes)]) == RunReplies(steps) + PassReplies(passes)
    ensures RunReplies(steps + [RxQueue(n)]) == RunReplies(steps) == RunReplies(steps + [RxKick(n)])
  {
    assert forall step :: (steps + [step])[..|steps|] == steps;
    Regroup(RunReplies(steps), [], []);
  }

  // How they are written.

  /** Eight bytes: four of the id, two of the event, two of the value, the low byte first; behind
      those of event 7 comes the name. */
  lemma ReplyLayout(m: Message)
    ensures var b := MessageBytes(m);
            && |b| >= 8 && (m.event != 7 ==> |b| == 8)
            && b[0] as int + 256 * b[1] as int + 65536 * b[2] as int + 16777216 * b[3] as int == m.id
            && b[4] as int + 256 * b[5] as int == m.event && b[6] as int + 256 * b[7] as int == m.value
  {
    MessageRoundTrip(m);
  }

  lemma NameLayout(m: Message, i: nat)
    requires m.event == 7 && i < |"org.fedoraproject.console.foo!"|
    ensures var b, name := MessageBytes(m), "org.fedoraproject.console.foo!";
            |b| == 8 + |name| && b[8 + i] == name[i] as int % 256
  {
  }

  // One walk.

  /** What becomes of the first buffer of a walk, and with it of the message in front: a buffer that
      is not writable or below eight bytes takes the message with it. */
  lemma FirstBuffer(s: State, c: RxChain, rest: seq<RxChain>)
    ensures var all := [c] + rest;
            var (t, verdict) := Serve(s, all);
            && Serve(s, []) == (s, Served)
            && (c.descs == [] || s.fifo == [] ==>
                  && t == s.(log := s.log.(lost := s.log.lost + all))
                  && verdict == if c.descs == [] then Refused else Starved)
            && (c.descs != [] && s.fifo != [] ==>
                  var good := c.descs[0].writeOnly && c.descs[0].len >= 8 && c.descs[0].writable;
                  var popped := s.log.popped + [Fate(s.fifo[0], good)];
                  if good then
                    var w := Written(c.head, MessageBytes(s.fifo[0]));
                    Serve(s, all)
                    == Serve(s.(fifo := s.fifo[1..], written := s.written + [w], log := s.log.(popped := popped)), rest)
                  else
                    && verdict == Refused
                    && t == s.(fifo := s.fifo[1..], log := Log(s.log.generated, popped, s.log.lost + all)))
  {
    assert ([c] + rest)[1..] == rest;
  }

  /** A walk notifies the guest exactly when it filled every buffer it took and the guest can be
      notified; it succeeds in that case and when it ran out of messages. */
  lemma WalkOutcome(env: Env, s: State)
    ensures var (t, ok) := WalkRx(env, s);
            match env(s.walks)
            case Unreadable => t == s.(walks := s.walks + 1) && !ok
            case Walk(chains, notified) =>
              var (u, verdict) := Serve(s.(walks := s.walks + 1), chains);
              && t == u.(signals := t.signals)
              && t.signals == s.signals + (if verdict == Served && notified then 1 else 0)
              && (ok <==> verdict == Starved || (verdict == Served && notified))
  {
    if env(s.walks).Walk? { ServeReturnsNothing(s.(walks := s.walks + 1), env(s.walks).chains); }
  }

  /** With one buffer of eight bytes or more posted and nothing queued, a reply is in the guest's hands
      as soon as it is generated. */
  lemma ReplyIsDelivered(env: Env, s: State, event: U16, head: U16, len: U32)
    requires s.fifo == [] && len >= 8 && env(s.walks) == Walk([RxChain(head, [RxDesc(true, len, true)])], true)
    ensures var m := Message(0, event, 1);
            Answer(env, s, event)
            == (s.(walks := s.walks + 1, signals := s.signals + 1,
                   written := s.written + [Written(head, MessageBytes(m))],
                   log := s.log.(generated := s.log.generated + [m], popped := s.log.popped + [Fate(m, true)])), true)
  {
    var c, m := RxChain(head, [RxDesc(true, len, true)]), Message(0, event, 1);
    var t := s.(walks := s.walks + 1, fifo := [m], log := s.log.(generated := s.log.generated + [m]));
    assert s.fifo + [m] == [m] && [m][1..] == [] && [c] + [] == [c];
    FirstBuffer(t, c, []);
  }

  /** For walk n the guest has posted a single buffer. */
  ghost predicate Posts(env: Env, n: nat) {
    n < 0x1_0000 && env(n) == Walk([RxChain(n, [RxDesc(true, 64, true)])], true)
  }

  /** A state after a reply that was delivered at once. */
  function Replied(s: State, n: U16, m: Message): State {
    s.(walks := n + 1, signals := s.signals + 1, written := s.written + [Written(n, MessageBytes(m))],
       log := s.log.(generated := s.log.generated + [m], popped := s.log.popped + [Fate(m, true)]))
  }

  lemma PortReadyIsAnswered(env: Env, s: State, n: nat, c: TxChain)
    requires s.fifo == [] && s.walks == n && Posts(env, n) && Posts(env, n + 1) && Posts(env, n + 2)
    requires c.descs == [TxDesc(false, 8, Some(Message(0, 3, 1)))]
    ensures var t := Replied(Replied(s, n, Message(0, 4, 1)), n + 1, Message(0, 7, 1));
            var u := Replied(t, n + 2, Message(0, 6, 1));
            Accepted(c) && Handle(env, s, c) == u.(returned := s.returned + [c.head])
  {
    ReplyIsDelivered(env, s, 4, n, 64);
    var t := Replied(s, n, Message(0, 4, 1));
    ReplyIsDelivered(env, t, 7, n + 1, 64);
    ReplyIsDelivered(env, Replied(t, n + 1, Message(0, 7, 1)), 6, n + 2, 64);
    AnswersThree(env, s, 4, 7, 6);
  }

  lemma DeviceReadyIsAnswered(env: Env, s: State, n: nat, c: TxChain)
    requires s.fifo == [] && s.walks == n && Posts(env, n)
    requires c.descs == [TxDesc(false, 8, Some(Message(0, 0, 1)))]
    ensures var t := Replied(s.(ready := true), n, Message(0, 1, 1));
            Accepted(c) && Handle(env, s, c) == t.(returned := s.returned + [c.head])
  {
    ReplyIsDelivered(env, s.(ready := true), 1, n, 64);
    AnswersOne(env, s.(ready := true), 1);
  }

  /** A guest that posts one buffer for each walk finds in them what its DEVICE_READY and its
      PORT_READY ask for. */
  lemma Handshake(env: Env)
    requires Posts(env, 0) && Posts(env, 1) && Posts(env, 2) && Posts(env, 3)
    ensures var device := TxChain(0, [TxDesc(false, 8, Some(Message(0, 0, 1)))]);
            var port := TxChain(1, [TxDesc(false, 8, Some(Message(0, 3, 1)))]);
            var s := Run(env, INITIAL, [TxQueue([TxPass([device, port], true)])]);
            && s.ready && s.fifo == [] && s.returned == [0, 1] && s.signals == 4 && s.txSignals == 1
            && s.written == [Written(0, MessageBytes(Message(0, 1, 1))), Written(1, MessageBytes(Message(0, 4, 1))),
                             Written(2, MessageBytes(Message(0, 7, 1))), Written(3, MessageBytes(Message(0, 6, 1)))]
  {
    var device := TxChain(0, [TxDesc(false, 8, Some(Message(0, 0, 1)))]);
    var port := TxChain(1, [TxDesc(false, 8, Some(Message(0, 3, 1)))]);
    DeviceReadyIsAnswered(env, INITIAL, 0, device);
    var s := Handle(env, INITIAL, device);
    PortReadyIsAnswered(env, s, 1, port);
    BatchOfTwo(env, INITIAL, device, port);
    OnePassRun(env, [device, port]);
  }

  lemma BatchOfTwo(env: Env, s: State, a: TxChain, b: TxChain)
    requires Accepted(a) && Accepted(b)
    ensures Batch(env, s, [a, b]) == Handle(env, Handle(env, s, a), b) && AllAccepted([a, b])
  {
    var t := Handle(env, s, a);
    assert [a, b][1..] == [b] && [b][1..] == [];
    assert Batch(env, t, [b]) == Batch(env, Handle(env, t, b), []) == Handle(env, t, b);
  }

  lemma OnePassRun(env: Env, chains: seq<TxChain>)
    requires AllAccepted(chains)
    ensures var t := Batch(env, INITIAL, chains);
            Run(env, INITIAL, [TxQueue([TxPass(chains, true)])]) == t.(txSignals := t.txSignals + 1)
  {
    var passes := [TxPass(chains, true)];
    assert [TxQueue(passes)][..0] == [] && passes[1..] == [];
    assert Run(env, INITIAL, []) == INITIAL;
    var (t, ok) := ProcessTx(env, INITIAL, passes[0]);
    assert ok && TxPasses(env, t, []) == (t, true);
  }

  // Events.

  /** A control receive event counts once the guest is ready, the backend's own event always; both walk
      again until a walk fails. */
  lemma RxEvents(env: Env, s: State, n: nat)
    ensures !s.ready ==> Next(env, s, RxQueue(n)) == (s, true)
    ensures s.ready ==> Next(env, s, RxQueue(n)) == Next(env, s, RxKick(n))
    ensures Next(env, s, RxKick(0)) == (s, true)
    ensures var (t, ok) := WalkRx(env, s);
            Next(env, s, RxKick(n + 1)) == if ok then Next(env, t, RxKick(n)) else (t, false)
  {
  }

  /** A control message is accepted if it is a readable descriptor of eight bytes. */
  lemma AcceptedIff(c: TxChain)
    ensures Accepted(c)
            <==> c.descs != [] && !c.descs[0].writeOnly && c.descs[0].len == 8 && c.descs[0].msg.Some?
  {
  }

  /** A control transmit event handles the messages of each pass, and makes the next one if the guest was
      notified; that is when all were accepted. */
  lemma TxEvents(env: Env, s: State, chains: seq<TxChain>, notified: bool, rest: seq<TxPass>)
    ensures Next(env, s, TxQueue([])) == (s, true)
    ensures Next(env, s, TxQueue([TxUnreadable] + rest)) == (s, false)
    ensures var done, t := forall c :: c in chains ==> Accepted(c), Batch(env, s, chains);
            Next(env, s, TxQueue([TxPass(chains, notified)] + rest))
            == if done && notified then Next(env, t.(txSignals := t.txSignals + 1), TxQueue(rest)) else (t, false)
  {
    assert ([TxPass(chains, notified)] + rest)[1..] == rest;
  }
}
