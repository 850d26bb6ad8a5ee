/** vhu_console.rs: the control queues of the console device. Control messages from the guest queue
    replies in rx_fifo; the replies are written to whatever receive buffers the guest has posted.

    What the guest posts, and whether its memory and its notification work, is given for each walk
    over the control receive queue; walks are numbered in the order in which they happen. */
module ConsoleControl {
  import opened Wrappers
  import opened Words
  import opened Sequences

  const DEVICE_READY: U16 := 0
  const PORT_ADD: U16 := 1
  const PORT_READY: U16 := 3
  const CONSOLE_PORT: U16 := 4
  const PORT_OPEN: U16 := 6
  const PORT_NAME: U16 := 7
  const MESSAGE_SIZE: nat := 8
  const NAME: string := "org.fedoraproject.console.foo!"

  datatype Message = Message(id: U32, event: U16, value: U16)

  function ToBytes(s: string): (b: Bytes)
    ensures |b| == |s|
  {
    seq(|s|, i requires 0 <= i < |s| => s[i] as int % 0x100)
  }

  function Header(m: Message): (b: Bytes)
    ensures |b| == MESSAGE_SIZE
  {
    Le32(m.id) + Le16(m.event) + Le16(m.value)
  }

  /** What is written for a message; the name follows a PORT_NAME. */
  function MessageBytes(m: Message): Bytes {
    Header(m) + if m.event == PORT_NAME then ToBytes(NAME) else []
  }

  function ReadMessage(b: Bytes): Message
    requires |b| >= MESSAGE_SIZE
  {
    Message(ReadLe32(b, 0), ReadLe16(b, 4), ReadLe16(b, 6))
  }

  lemma ReadFront(b: Bytes, tail: Bytes)
    requires |b| >= MESSAGE_SIZE
    ensures ReadMessage(b + tail) == ReadMessage(b)
  {
  }

  lemma ReadHeader(m: Message)
    ensures ReadMessage(Header(m)) == m
  {
    Le32RoundTrip(m.id);
    Le16RoundTrip(m.event);
    Le16RoundTrip(m.value);
    var b := Header(m);
    assert b[0] == Le32(m.id)[0] && b[1] == Le32(m.id)[1] && b[2] == Le32(m.id)[2] && b[3] == Le32(m.id)[3];
    assert b[4] == Le16(m.event)[0] && b[5] == Le16(m.event)[1] && b[6] == Le16(m.value)[0] && b[7] == Le16(m.value)[1];
  }

  /** The guest reads back the message, whatever its kind. */
  lemma MessageRoundTrip(m: Message)
    ensures |MessageBytes(m)| >= MESSAGE_SIZE && ReadMessage(MessageBytes(m)) == m
  {
    ReadFront(Header(m), if m.event == PORT_NAME then ToBytes(NAME) else []);
    ReadHeader(m);
  }

  // What the environment supplies.

  /** A receive buffer descriptor; writable tells whether its guest memory can be written. */
  datatype RxDesc = RxDesc(writeOnly: bool, len: U32, writable: bool)

  datatype RxChain = RxChain(head: U16, descs: seq<RxDesc>)

  /** One walk over the control receive queue: all chains available then, and whether the guest
      can be notified; or the queue cannot be read. */
  datatype Walk = Unreadable | Walk(chains: seq<RxChain>, notified: bool)

  type Env = nat -> Walk

  /** A control message descriptor; None when its memory cannot be read. */
  datatype TxDesc = TxDesc(writeOnly: bool, len: U32, msg: Option<Message>)

  datatype TxChain = TxChain(head: U16, descs: seq<TxDesc>)

  predicate GoodBuffer(c: RxChain) {
    c.descs != [] && c.descs[0].writeOnly && c.descs[0].len >= MESSAGE_SIZE && c.descs[0].writable
  }

  predicate AllGood(chains: seq<RxChain>) { forall c :: c in chains ==> GoodBuffer(c) }

  ghost predicate GoodEnv(env: Env) { forall n: nat :: env(n).Walk? && env(n).notified && AllGood(env(n).chains) }

  // State.

  /** A reply taken from the queue: written into a buffer, or lost with one that was refused. */
  datatype Fate = Fate(msg: Message, delivered: bool)

  datatype Written = Written(head: U16, bytes: Bytes)

  /** What has happened: replies queued, replies taken, buffers taken from the ring without being
      returned. */
  datatype Log = Log(generated: seq<Message>, popped: seq<Fate>, lost: seq<RxChain>)

  /** The backend, the buffers written and returned, the control messages returned, and the
      notifications sent for either queue. */
  datatype State = State(ready: bool, fifo: seq<Message>, walks: nat,
                         written: seq<Written>, returned: seq<U16>, signals: nat, txSignals: nat, log: Log)

  const INITIAL: State := State(false, [], 0, [], [], 0, 0, Log([], [], []))

  datatype Verdict = Served | Starved | Refused

  // One walk over the receive queue.

  function Lose(s: State, chains: seq<RxChain>): State { s.(log := s.log.(lost := s.log.lost + chains)) }

  function Pop(s: State, delivered: bool): State
    requires s.fifo != []
  {
    s.(fifo := s.fifo[1..], log := s.log.(popped := s.log.popped + [Fate(s.fifo[0], delivered)]))
  }

  function Deliver(s: State, head: U16): State
    requires s.fifo != []
  {
    var t := Pop(s, true);
    t.(written := t.written + [Written(head, MessageBytes(s.fifo[0]))])
  }

  /** process_ctrl_rx_requests: a message is taken before the buffer for it is looked at. */
  function Serve(s: State, chains: seq<RxChain>): (State, Verdict)
    decreases |chains|
  {
    if chains == [] then (s, Served)
    else if chains[0].descs == [] then (Lose(s, chains), Refused)
    else if s.fifo == [] then (Lose(s, chains), Starved)
    else if !GoodBuffer(chains[0]) then (Lose(Pop(s, false), chains), Refused)
    else Serve(Deliver(s, chains[0].head), chains[1..])
  }

  /** process_ctrl_rx_queue; false for an error. */
  function WalkRx(env: Env, s: State): (State, bool) {
    var w, t := env(s.walks), s.(walks := s.walks + 1);
    if w.Unreadable? then (t, false)
    else
      var (u, verdict) := Serve(t, w.chains);
      match verdict
      case Served => if w.notified then (u.(signals := u.signals + 1), true) else (u, false)
      case Starved => (u, true)
      case Refused => (u, false)
  }

  // Control messages.

  function Reply(event: U16): Message { Message(0, event, 1) }

  function Push(s: State, event: U16): State {
    s.(fifo := s.fifo + [Reply(event)], log := s.log.(generated := s.log.generated + [Reply(event)]))
  }

  function Answer(env: Env, s: State, event: U16): (State, bool) { WalkRx(env, Push(s, event)) }

  /** Answers in turn, up to the first error. */
  function Answers(env: Env, s: State, events: seq<U16>): (State, bool)
    decreases |events|
  {
    if events == [] then (s, true)
    else
      var (t, ok) := Answer(env, s, events[0]);
      if ok then Answers(env, t, events[1..]) else (t, false)
  }

  /** The replies a control message calls for. */
  function RepliesTo(event: U16): seq<U16> {
    if event == DEVICE_READY then [PORT_ADD]
    else if event == PORT_READY then [CONSOLE_PORT, PORT_NAME, PORT_OPEN]
    else []
  }

  /** handle_control_msg, whose result process_ctrl_tx_requests ignores. */
  function HandleControl(env: Env, s: State, event: U16): State {
    Answers(env, if event == DEVICE_READY then s.(ready := true) else s, RepliesTo(event)).0
  }

  predicate Accepted(c: TxChain) {
    c.descs != [] && !c.descs[0].writeOnly && c.descs[0].len == MESSAGE_SIZE && c.descs[0].msg.Some?
  }

  function EventOf(c: TxChain): U16
    requires Accepted(c)
  {
    c.descs[0].msg.value.event
  }

  /** One control message handled and returned. */
  function Handle(env: Env, s: State, c: TxChain): State
    requires Accepted(c)
  {
    var t := HandleControl(env, s, EventOf(c));
    t.(returned := t.returned + [c.head])
  }

  /** process_ctrl_tx_requests: up to the first chain that is refused. */
  function Batch(env: Env, s: State, chains: seq<TxChain>): State
    decreases |chains|
  {
    if chains == [] || !Accepted(chains[0]) then s else Batch(env, Handle(env, s, chains[0]), chains[1..])
  }

  /** A pass over the control transmit queue: the chains available then, and whether the guest can
      be notified; or the queue cannot be read. */
  datatype TxPass = TxUnreadable | TxPass(chains: seq<TxChain>, notified: bool)

  predicate AllAccepted(chains: seq<TxChain>) { forall c :: c in chains ==> Accepted(c) }

  /** process_ctrl_tx_queue; false for an error. */
  function ProcessTx(env: Env, s: State, pass: TxPass): (State, bool) {
    if pass.TxUnreadable? then (s, false)
    else
      var t := Batch(env, s, pass.chains);
      if AllAccepted(pass.chains) && pass.notified then (t.(txSignals := t.txSignals + 1), true) else (t, false)
  }

  // Events; with EVENT_IDX the loop of handle_event may make several passes.

  function TxPasses(env: Env, s: State, passes: seq<TxPass>): (State, bool)
    decreases |passes|
  {
    if passes == [] then (s, true)
    else
      var (t, ok) := ProcessTx(env, s, passes[0]);
      if ok then TxPasses(env, t, passes[1..]) else (t, false)
  }

  function RxPasses(env: Env, s: State, n: nat): (State, bool)
    decreases n
  {
    if n == 0 then (s, true)
    else
      var (t, ok) := WalkRx(env, s);
      if ok then RxPasses(env, t, n - 1) else (t, false)
  }

  /** An event on the control receive queue, on the backend's own event for it, or on the control
      transmit queue, with the passes that handling it makes. */
  datatype Step = RxQueue(n: nat) | RxKick(n: nat) | TxQueue(passes: seq<TxPass>)

  function Next(env: Env, s: State, step: Step): (State, bool) {
    match step
    case RxQueue(n) => if s.ready then RxPasses(env, s, n) else (s, true)
    case RxKick(n) => RxPasses(env, s, n)
    case TxQueue(passes) => TxPasses(env, s, passes)
  }

  function Run(env: Env, s: State, steps: seq<Step>): State {
    if steps == [] then s else Next(env, Run(env, s, steps[..|steps| - 1]), steps[|steps| - 1]).0
  }

  // Replies form a FIFO.

  function Messages(popped: seq<Fate>): seq<Message> {
    if popped == [] then [] else Messages(popped[..|popped| - 1]) + [popped[|popped| - 1].msg]
  }

  /** The messages that were written, in order. */
  function Delivered(popped: seq<Fate>): seq<Message> {
    if popped == [] then []
    else Delivered(popped[..|popped| - 1]) + if popped[|popped| - 1].delivered then [popped[|popped| - 1].msg] else []
  }

  function Contents(written: seq<Written>): seq<Bytes> {
    if written == [] then [] else Contents(written[..|written| - 1]) + [written[|written| - 1].bytes]
  }

  function Encoded(ms: seq<Message>): seq<Bytes> {
    if ms == [] then [] else Encoded(ms[..|ms| - 1]) + [MessageBytes(ms[|ms| - 1])]
  }

  /** Replies leave in the order they were queued in, and what the guest finds in its buffers is
      those of them that were not lost. */
  predicate Fifo(s: State) {
    && s.log.generated == Messages(s.log.popped) + s.fifo
    && Contents(s.written) == Encoded(Delivered(s.log.popped))
  }

  lemma PopKeepsFifo(s: State, delivered: bool, head: U16)
    requires Fifo(s) && s.fifo != []
    ensures delivered ==> Fifo(Deliver(s, head))
    ensures !delivered ==> Fifo(Pop(s, false))
  {
    var p := s.log.popped;
    var q := p + [Fate(s.fifo[0], delivered)];
    assert q[..|q| - 1] == p;
    assert Messages(q) + s.fifo[1..] == Messages(p) + s.fifo;
    if delivered {
      var ms := Delivered(p);
      assert (ms + [s.fifo[0]])[..|ms|] == ms;
      var w := s.written + [Written(head, MessageBytes(s.fifo[0]))];
      assert w[..|w| - 1] == s.written;
    } else {
      assert Delivered(q) == Delivered(p);
    }
  }

  lemma {:induction false} ServeKeepsFifo(s: State, chains: seq<RxChain>)
    requires Fifo(s)
    ensures Fifo(Serve(s, chains).0)
    decreases |chains|
  {
    if chains != [] && s.fifo != [] {
      PopKeepsFifo(s, false, 0);
      PopKeepsFifo(s, true, chains[0].head);
      ServeKeepsFifo(Deliver(s, chains[0].head), chains[1..]);
    }
  }

  lemma WalkKeepsFifo(env: Env, s: State)
    requires Fifo(s)
    ensures Fifo(WalkRx(env, s).0)
  {
    var t := s.(walks := s.walks + 1);
    SameFifo(s, t);
    if env(s.walks).Walk? {
      ServeKeepsFifo(t, env(s.walks).chains);
      SameFifo(Serve(t, env(s.walks).chains).0, WalkRx(env, s).0);
    }
  }

  lemma SameFifo(s: State, t: State)
    requires Fifo(s) && t.log == s.log && t.fifo == s.fifo && t.written == s.written
    ensures Fifo(t)
  {
  }

  lemma {:induction false} AnswersKeepFifo(env: Env, s: State, events: seq<U16>)
    requires Fifo(s)
    ensures Fifo(Answers(env, s, events).0)
    decreases |events|
  {
    if events != [] {
      Regroup(Messages(s.log.popped), s.fifo, [Reply(events[0])]);
      WalkKeepsFifo(env, Push(s, events[0]));
      AnswersKeepFifo(env, Answer(env, s, events[0]).0, events[1..]);
    }
  }

  lemma {:induction false} BatchKeepsFifo(env: Env, s: State, chains: seq<TxChain>)
    requires Fifo(s)
    ensures Fifo(Batch(env, s, chains))
    decreases |chains|
  {
    if chains != [] && Accepted(chains[0]) {
      var event := EventOf(chains[0]);
      AnswersKeepFifo(env, if event == DEVICE_READY then s.(ready := true) else s, RepliesTo(event));
      BatchKeepsFifo(env, Handle(env, s, chains[0]), chains[1..]);
    }
  }

  lemma {:induction false} RxPassesKeepFifo(env: Env, s: State, n: nat)
    requires Fifo(s)
    ensures Fifo(RxPasses(env, s, n).0)
    decreases n
  {
    if n > 0 {
      WalkKeepsFifo(env, s);
      RxPassesKeepFifo(env, WalkRx(env, s).0, n - 1);
    }
  }

  lemma {:induction false} TxPassesKeepFifo(env: Env, s: State, passes: seq<TxPass>)
    requires Fifo(s)
    ensures Fifo(TxPasses(env, s, passes).0)
    decreases |passes|
  {
    if passes != [] {
      if passes[0].TxPass? { BatchKeepsFifo(env, s, passes[0].chains); }
      TxPassesKeepFifo(env, ProcessTx(env, s, passes[0]).0, passes[1..]);
    }
  }

  /** In every run, with any guest. */
  lemma {:induction false} RunKeepsFifo(env: Env, steps: seq<Step>)
    ensures Fifo(Run(env, INITIAL, steps))
    decreases |steps|
  {
    if steps != [] {
      var before := Run(env, INITIAL, steps[..|steps| - 1]);
      RunKeepsFifo(env, steps[..|steps| - 1]);
      match steps[|steps| - 1]
      case TxQueue(passes) => TxPassesKeepFifo(env, before, passes);
      case RxQueue(n) => RxPassesKeepFifo(env, before, n);
      case RxKick(n) => RxPassesKeepFifo(env, before, n);
    }
  }

  predicate NothingLost(popped: seq<Fate>) { forall i :: 0 <= i < |popped| ==> popped[i].delivered }

  lemma {:induction false} DeliveredLength(popped: seq<Fate>)
    ensures |Messages(popped)| == |popped| && |Delivered(popped)| <= |popped|
    ensures |Delivered(popped)| == |popped| <==> NothingLost(popped)
    ensures NothingLost(popped) ==> Delivered(popped) == Messages(popped)
    decreases |popped|
  {
    if popped != [] { DeliveredLength(popped[..|popped| - 1]); }
  }

  /** The guest has, or will get, exactly what was generated if and only if no buffer was refused
      after a message had been taken for it. */
  lemma NothingMissingIff(s: State)
    requires Fifo(s)
    ensures Delivered(s.log.popped) + s.fifo == s.log.generated <==> NothingLost(s.log.popped)
  {
    DeliveredLength(s.log.popped);
    assert |Delivered(s.log.popped) + s.fifo| == |Delivered(s.log.popped)| + |s.fifo|;
  }

  /** How many chains come before the first bad one. */
  function GoodCount(chains: seq<RxChain>): (n: nat)
    ensures n <= |chains|
    ensures n < |chains| ==> !GoodBuffer(chains[n])
    ensures forall i :: 0 <= i < n ==> GoodBuffer(chains[i])
  {
    if chains == [] || !GoodBuffer(chains[0]) then 0 else 1 + GoodCount(chains[1..])
  }

  /** A walk loses a message exactly when it reaches a bad buffer, other than an empty chain, while
      a message is queued. */
  lemma {:induction false} ServeLosesIff(s: State, chains: seq<RxChain>)
    requires NothingLost(s.log.popped)
    ensures !NothingLost(Serve(s, chains).0.log.popped)
            <==> var n := GoodCount(chains); n < |chains| && n < |s.fifo| && chains[n].descs != []
    decreases |chains|
  {
    if chains != [] && s.fifo != [] && chains[0].descs != [] {
      if GoodBuffer(chains[0]) {
        ServeLosesIff(Deliver(s, chains[0].head), chains[1..]);
      } else {
        var p := Pop(s, false).log.popped;
        assert !p[|p| - 1].delivered;
      }
    }
  }

  /** A guest whose first buffer is not writable loses the first of the three replies to its
      PORT_READY, and the other two are never queued. */
  lemma BadBufferLosesReplies()
    ensures var bad := RxChain(0, [RxDesc(false, 64, true)]);
            var env := (n: nat) => Walk(if n == 0 then [bad] else [], true);
            var ready := TxChain(0, [TxDesc(false, 8, Some(Message(0, PORT_READY, 1)))]);
            var s := Run(env, INITIAL, [TxQueue([TxPass([ready], true)])]);
            && s.log.generated == [Reply(CONSOLE_PORT)] && s.fifo == [] && s.written == []
            && s.returned == [0]
  {
    var bad := RxChain(0, [RxDesc(false, 64, true)]);
    var env := (n: nat) => Walk(if n == 0 then [bad] else [], true);
    var ready := TxChain(0, [TxDesc(false, 8, Some(Message(0, PORT_READY, 1)))]);
    var passes := [TxPass([ready], true)];
    var steps := [TxQueue(passes)];
    assert steps[..|steps| - 1] == [] && passes[1..] == [] && [ready][1..] == [];
    assert Run(env, INITIAL, []) == INITIAL;
    var t := BadBufferEndsAnswers(env, bad);
    assert Accepted(ready) && EventOf(ready) == PORT_READY;
    assert Batch(env, INITIAL, [ready]) == Handle(env, INITIAL, ready) == t.(returned := [0]);
    assert TxPasses(env, INITIAL, passes).0 == ProcessTx(env, INITIAL, passes[0]).0;
  }

  lemma BadBufferEndsAnswers(env: Env, bad: RxChain) returns (t: State)
    requires bad == RxChain(0, [RxDesc(false, 64, true)]) && env(0) == Walk([bad], true)
    ensures t == HandleControl(env, INITIAL, PORT_READY)
    ensures t.log.generated == [Reply(CONSOLE_PORT)] && t.fifo == [] && t.written == [] && t.returned == []
  {
    var pushed := Push(INITIAL, CONSOLE_PORT);
    assert Serve(pushed.(walks := 1), [bad]) == (Lose(Pop(pushed.(walks := 1), false), [bad]), Refused);
    assert RepliesTo(PORT_READY)[0] == CONSOLE_PORT;
    t := Answers(env, INITIAL, RepliesTo(PORT_READY)).0;
    assert t == WalkRx(env, pushed).0;
  }

  // Receive buffers.

  function RxHeads(chains: seq<RxChain>): seq<U16> {
    if chains == [] then [] else [chains[0].head] + RxHeads(chains[1..])
  }

  /** Buffers as filled one by one. */
  function Filled(chains: seq<RxChain>, ms: seq<Message>): seq<Written> {
    if chains == [] || ms == [] then []
    else [Written(chains[0].head, MessageBytes(ms[0]))] + Filled(chains[1..], ms[1..])
  }

  function Taken(ms: seq<Message>): seq<Fate> {
    if ms == [] then [] else [Fate(ms[0], true)] + Taken(ms[1..])
  }

  function Min(a: nat, b: nat): nat { if a < b then a else b }

  /** m buffers filled with the first m messages, the other chains lost. */
  function Filling(s: State, chains: seq<RxChain>): State {
    var m := Min(|chains|, |s.fifo|);
    s.(fifo := s.fifo[m..], written := s.written + Filled(chains, s.fifo),
       log := s.log.(popped := s.log.popped + Taken(s.fifo[..m]), lost := s.log.lost + chains[m..]))
  }

  lemma FillingFirst(s: State, chains: seq<RxChain>)
    requires chains != [] && s.fifo != []
    ensures Filling(Deliver(s, chains[0].head), chains[1..]) == Filling(s, chains)
  {
    var m, t := Min(|chains|, |s.fifo|), Deliver(s, chains[0].head);
    assert s.fifo[1..][m - 1..] == s.fifo[m..] && chains[1..][m - 1..] == chains[m..];
    assert s.fifo[..m][1..] == s.fifo[1..][..m - 1];
    Regroup(s.log.popped, [Fate(s.fifo[0], true)], Taken(t.fifo[..m - 1]));
    Regroup(s.written, [Written(chains[0].head, MessageBytes(s.fifo[0]))], Filled(chains[1..], t.fifo));
  }

  /** A walk over good buffers fills the i-th buffer with the i-th message; buffers left over are
      not returned, and the guest is not notified then. */
  lemma {:induction false} ServeGoodBuffers(s: State, chains: seq<RxChain>)
    requires AllGood(chains)
    ensures Serve(s, chains) == (Filling(s, chains), if |chains| <= |s.fifo| then Served else Starved)
    decreases |chains|
  {
    if chains == [] || s.fifo == [] {
      assert s.fifo[..0] == [] && s.fifo[0..] == s.fifo && chains[0..] == chains;
      Regroup(s.log.popped, [], []);
      Regroup(s.written, [], []);
      Regroup(s.log.lost, [], []);
      assert chains != [] ==> GoodBuffer(chains[0]);
    } else {
      assert GoodBuffer(chains[0]);
      ServeGoodBuffers(Deliver(s, chains[0].head), chains[1..]);
      FillingFirst(s, chains);
    }
  }

  function WrittenHeads(written: seq<Written>): seq<U16> {
    if written == [] then [] else [written[0].head] + WrittenHeads(written[1..])
  }

  /** Whatever the guest posts: a walk returns the first k buffers it took, in order and once each,
      and keeps the rest; it keeps none exactly when it reports that it served all. */
  lemma {:induction false} ServeAccountsForBuffers(s: State, chains: seq<RxChain>) returns (k: nat, fill: seq<Written>)
    ensures k <= |chains|
    ensures var (t, verdict) := Serve(s, chains);
            && t.written == s.written + fill && WrittenHeads(fill) == RxHeads(chains[..k])
            && t.log.lost == s.log.lost + chains[k..]
            && (verdict == Served <==> k == |chains|)
    decreases |chains|
  {
    k, fill := 0, [];
    assert s.written + [] == s.written && s.log.lost + [] == s.log.lost && chains[0..] == chains;
    if chains != [] && s.fifo != [] && GoodBuffer(chains[0]) {
      var t := Deliver(s, chains[0].head);
      var rest: seq<Written>;
      k, rest := ServeAccountsForBuffers(t, chains[1..]);
      var first := Written(chains[0].head, MessageBytes(s.fifo[0]));
      fill := [first] + rest;
      assert s.written + [first] + rest == s.written + fill;
      assert fill[1..] == rest && chains[..k + 1][1..] == chains[1..][..k] && chains[1..][k..] == chains[k + 1..];
      k := k + 1;
    }
  }

  // Control messages.

  function AcceptedPrefix(chains: seq<TxChain>): (r: seq<TxChain>)
    ensures forall c :: c in r ==> Accepted(c)
  {
    if chains == [] || !Accepted(chains[0]) then [] else [chains[0]] + AcceptedPrefix(chains[1..])
  }

  function TxHeads(chains: seq<TxChain>): seq<U16> {
    if chains == [] then [] else [chains[0].head] + TxHeads(chains[1..])
  }

  lemma {:induction false} AnswersReturnNothing(env: Env, s: State, events: seq<U16>)
    ensures Answers(env, s, events).0.returned == s.returned && Answers(env, s, events).0.ready == s.ready
    decreases |events|
  {
    if events != [] {
      WalkReturnsNothing(env, Push(s, events[0]));
      AnswersReturnNothing(env, Answer(env, s, events[0]).0, events[1..]);
    }
  }

  lemma WalkReturnsNothing(env: Env, s: State)
    ensures WalkRx(env, s).0.returned == s.returned && WalkRx(env, s).0.log.generated == s.log.generated
    ensures WalkRx(env, s).0.ready == s.ready
  {
    if env(s.walks).Walk? { ServeReturnsNothing(s.(walks := s.walks + 1), env(s.walks).chains); }
  }

  lemma {:induction false} ServeReturnsNothing(s: State, chains: seq<RxChain>)
    ensures Serve(s, chains).0.returned == s.returned && Serve(s, chains).0.log.generated == s.log.generated
    ensures Serve(s, chains).0.ready == s.ready && Serve(s, chains).0.signals == s.signals
    decreases |chains|
  {
    if chains != [] && s.fifo != [] && GoodBuffer(chains[0]) {
      ServeReturnsNothing(Deliver(s, chains[0].head), chains[1..]);
    }
  }

  lemma HandleReturnsChain(env: Env, s: State, c: TxChain)
    requires Accepted(c)
    ensures Handle(env, s, c).returned == s.returned + [c.head]
  {
    var event := EventOf(c);
    AnswersReturnNothing(env, if event == DEVICE_READY then s.(ready := true) else s, RepliesTo(event));
  }

  /** Control messages are returned once each and in order, up to the first that is refused,
      whatever becomes of the replies. */
  lemma {:induction false} BatchReturnsAcceptedPrefix(env: Env, s: State, chains: seq<TxChain>)
    ensures Batch(env, s, chains).returned == s.returned + TxHeads(AcceptedPrefix(chains))
    decreases |chains|
  {
    Regroup(s.returned, [], []);
    if chains != [] && Accepted(chains[0]) {
      HandleReturnsChain(env, s, chains[0]);
      BatchReturnsAcceptedPrefix(env, Handle(env, s, chains[0]), chains[1..]);
      assert AcceptedPrefix(chains)[1..] == AcceptedPrefix(chains[1..]);
      Regroup(s.returned, [chains[0].head], TxHeads(AcceptedPrefix(chains[1..])));
    }
  }

  // Which replies.

  function Replies(events: seq<U16>): seq<Message> {
    if events == [] then [] else [Reply(events[0])] + Replies(events[1..])
  }

  /** The replies a batch of control messages calls for. */
  function BatchReplies(chains: seq<TxChain>): seq<Message> {
    if chains == [] || !Accepted(chains[0]) then []
    else Replies(RepliesTo(EventOf(chains[0]))) + BatchReplies(chains[1..])
  }

  /** The replies that passes over the control transmit queue call for, up to the first that fails. */
  function PassReplies(passes: seq<TxPass>): seq<Message> {
    if passes == [] || passes[0].TxUnreadable? then []
    else
      BatchReplies(passes[0].chains)
      + if AllAccepted(passes[0].chains) && passes[0].notified then PassReplies(passes[1..]) else []
  }

  function RunReplies(steps: seq<Step>): seq<Message> {
    if steps == [] then []
    else
      RunReplies(steps[..|steps| - 1])
      + match steps[|steps| - 1]
        case TxQueue(passes) => PassReplies(passes)
        case _ => []
  }

  lemma {:induction false} TakenIsDelivered(popped: seq<Fate>, ms: seq<Message>)
    requires NothingLost(popped)
    ensures NothingLost(popped + Taken(ms))
    decreases |ms|
  {
    if ms == [] {
      assert popped + [] == popped;
    } else {
      TakenIsDelivered(popped + [Fate(ms[0], true)], ms[1..]);
      assert popped + [Fate(ms[0], true)] + Taken(ms[1..]) == popped + Taken(ms);
    }
  }

  /** With a good guest a walk succeeds and loses no message. */
  lemma GoodWalk(env: Env, s: State)
    requires GoodEnv(env) && NothingLost(s.log.popped)
    ensures WalkRx(env, s).1 && NothingLost(WalkRx(env, s).0.log.popped)
    ensures WalkRx(env, s).0.log.generated == s.log.generated
  {
    var chains := env(s.walks).chains;
    assert AllGood(chains);
    ServeGoodBuffers(s.(walks := s.walks + 1), chains);
    TakenIsDelivered(s.log.popped, s.fifo[..Min(|chains|, |s.fifo|)]);
  }

  lemma {:induction false} GoodAnswers(env: Env, s: State, events: seq<U16>)
    requires GoodEnv(env) && NothingLost(s.log.popped)
    ensures NothingLost(Answers(env, s, events).0.log.popped)
    ensures Answers(env, s, events).0.log.generated == s.log.generated + Replies(events)
    decreases |events|
  {
    Regroup(s.log.generated, [], []);
    if events != [] {
      GoodWalk(env, Push(s, events[0]));
      GoodAnswers(env, Answer(env, s, events[0]).0, events[1..]);
      Regroup(s.log.generated, [Reply(events[0])], Replies(events[1..]));
    }
  }

  lemma GoodHandle(env: Env, s: State, c: TxChain)
    requires GoodEnv(env) && NothingLost(s.log.popped) && Accepted(c)
    ensures NothingLost(Handle(env, s, c).log.popped)
    ensures Handle(env, s, c).log.generated == s.log.generated + Replies(RepliesTo(EventOf(c)))
  {
    var event := EventOf(c);
    GoodAnswers(env, if event == DEVICE_READY then s.(ready := true) else s, RepliesTo(event));
  }

  lemma {:induction false} GoodBatch(env: Env, s: State, chains: seq<TxChain>)
    requires GoodEnv(env) && NothingLost(s.log.popped)
    ensures NothingLost(Batch(env, s, chains).log.popped)
    ensures Batch(env, s, chains).log.generated == s.log.generated + BatchReplies(chains)
    decreases |chains|
  {
    Regroup(s.log.generated, [], []);
    if chains != [] && Accepted(chains[0]) {
      GoodHandle(env, s, chains[0]);
      GoodBatch(env, Handle(env, s, chains[0]), chains[1..]);
      Regroup(s.log.generated, Replies(RepliesTo(EventOf(chains[0]))), BatchReplies(chains[1..]));
    }
  }

  lemma {:induction false} GoodRxPasses(env: Env, s: State, n: nat)
    requires GoodEnv(env) && NothingLost(s.log.popped)
    ensures RxPasses(env, s, n).1 && NothingLost(RxPasses(env, s, n).0.log.popped)
    ensures RxPasses(env, s, n).0.log.generated == s.log.generated
    decreases n
  {
    if n > 0 {
      GoodWalk(env, s);
      GoodRxPasses(env, WalkRx(env, s).0, n - 1);
    }
  }

  lemma {:induction false} GoodTxPasses(env: Env, s: State, passes: seq<TxPass>)
    requires GoodEnv(env) && NothingLost(s.log.popped)
    ensures NothingLost(TxPasses(env, s, passes).0.log.popped)
    ensures TxPasses(env, s, passes).0.log.generated == s.log.generated + PassReplies(passes)
    decreases |passes|
  {
    Regroup(s.log.generated, [], []);
    if passes != [] && passes[0].TxPass? {
      GoodBatch(env, s, passes[0].chains);
      var (t, ok) := ProcessTx(env, s, passes[0]);
      if ok { GoodTxPasses(env, t, passes[1..]); }
      Regroup(s.log.generated, BatchReplies(passes[0].chains), PassReplies(passes[1..]));
      Regroup(BatchReplies(passes[0].chains), [], []);
    }
  }

  lemma {:induction false} GoodRun(env: Env, steps: seq<Step>)
    requires GoodEnv(env)
    ensures NothingLost(Run(env, INITIAL, steps).log.popped)
    ensures Run(env, INITIAL, steps).log.generated == RunReplies(steps)
    decreases |steps|
  {
    if steps != [] {
      var before := Run(env, INITIAL, steps[..|steps| - 1]);
      GoodRun(env, steps[..|steps| - 1]);
      Regroup(before.log.generated, [], []);
      match steps[|steps| - 1]
      case TxQueue(passes) => GoodTxPasses(env, before, passes);
      case RxQueue(n) => GoodRxPasses(env, before, n);
      case RxKick(n) => GoodRxPasses(env, before, n);
    }
  }

  /** In every run with a good guest, what was written followed by what is still queued are the
      replies the control messages called for, in order. */
  lemma RepliesFormFifo(env: Env, steps: seq<Step>)
    requires GoodEnv(env)
    ensures var s := Run(env, INITIAL, steps);
            && Delivered(s.log.popped) + s.fifo == RunReplies(steps)
            && Contents(s.written) == Encoded(Delivered(s.log.popped))
  {
    RunKeepsFifo(env, steps);
    GoodRun(env, steps);
    NothingMissingIff(Run(env, INITIAL, steps));
  }

  /** Replies are queued in the order they are due, all of them unless a walk fails. */
  lemma {:induction false} AnswersQueuePrefix(env: Env, s: State, events: seq<U16>) returns (n: nat)
    ensures n <= |events| && (Answers(env, s, events).1 ==> n == |events|)
    ensures Answers(env, s, events).0.log.generated == s.log.generated + Replies(events[..n])
    ensures n < |events| ==> !Answers(env, s, events).1
    decreases |events|
  {
    n := 0;
    Regroup(s.log.generated, [], []);
    if events != [] {
      var (t, ok) := Answer(env, s, events[0]);
      WalkReturnsNothing(env, Push(s, events[0]));
      if ok { n := AnswersQueuePrefix(env, t, events[1..]); }
      assert events[..n + 1][0] == events[0] && events[..n + 1][1..] == events[1..][..n];
      Regroup(s.log.generated, [Reply(events[0])], Replies(events[1..][..n]));
      Regroup(t.log.generated, [], []);
      n := n + 1;
    }
  }

  // The backend.

  class Backend {
    var ready: bool
    var rxFifo: seq<Message>
    var walks: nat
    var written: seq<Written>
    var returned: seq<U16>
    var signals: nat
    var txSignals: nat
    ghost var log: Log

    ghost function Now(): State
      reads this
    {
      State(ready, rxFifo, walks, written, returned, signals, txSignals, log)
    }

    constructor ()
      ensures Now() == INITIAL && !ready && rxFifo == [] && walks == 0
    {
      ready, rxFifo, walks, written, returned := false, [], 0, [], [];
      signals, txSignals, log := 0, 0, INITIAL.log;
    }

    ghost method LoseChains(chains: seq<RxChain>)
      modifies this`log
      ensures Now() == Lose(old(Now()), chains)
    {
      log := log.(lost := log.lost + chains);
    }

    /** One pass of the loop in process_ctrl_rx_requests: None to go on. */
    method ServeChain(chains: seq<RxChain>) returns (r: Option<Verdict>)
      requires chains != []
      modifies this`rxFifo, this`written, this`log
      ensures r.Some? ==> Serve(old(Now()), chains) == (Now(), r.value)
      ensures r == None ==> Serve(old(Now()), chains) == Serve(Now(), chains[1..])
    {
      r := None;
      var descs := chains[0].descs;
      if |descs| < 1 {
        LoseChains(chains);
        return Some(Refused);
      }
      if rxFifo == [] {
        LoseChains(chains);
        return Some(Starved);
      }
      var msg := rxFifo[0];
      rxFifo := rxFifo[1..];
      if !descs[0].writeOnly || descs[0].len < MESSAGE_SIZE || !descs[0].writable {
        log := log.(popped := log.popped + [Fate(msg, false)]);
        LoseChains(chains);
        return Some(Refused);
      }
      log := log.(popped := log.popped + [Fate(msg, true)]);
      written := written + [Written(chains[0].head, MessageBytes(msg))];
    }

    method ProcessCtrlRxRequests(chains: seq<RxChain>) returns (verdict: Verdict)
      modifies this`rxFifo, this`written, this`log
      ensures (Now(), verdict) == Serve(old(Now()), chains)
    {
      var i := 0;
      assert chains[0..] == chains;
      while i < |chains|
        invariant 0 <= i <= |chains|
        invariant Serve(old(Now()), chains) == Serve(Now(), chains[i..])
        invariant unchanged(this`ready, this`walks, this`returned, this`signals, this`txSignals)
      {
        var r := ServeChain(chains[i..]);
        if r.Some? { return r.value; }
        assert chains[i..][1..] == chains[i + 1..];
        i := i + 1;
      }
      verdict := Served;
    }

    method ProcessCtrlRxQueue(env: Env) returns (ok: bool)
      modifies this
      ensures (Now(), ok) == WalkRx(env, old(Now()))
    {
      var w := env(walks);
      walks := walks + 1;
      if w.Unreadable? { return false; }
      var verdict := ProcessCtrlRxRequests(w.chains);
      if verdict == Served {
        if w.notified { signals := signals + 1; }
        return w.notified;
      }
      ok := verdict == Starved;
    }

    /** Queue a reply, then walk the receive queue. */
    method SendReply(env: Env, event: U16) returns (ok: bool)
      modifies this
      ensures (Now(), ok) == Answer(env, old(Now()), event)
    {
      rxFifo := rxFifo + [Message(0, event, 1)];
      log := log.(generated := log.generated + [Message(0, event, 1)]);
      ok := ProcessCtrlRxQueue(env);
    }

    /** handle_control_msg */
    method HandleControlMsg(env: Env, event: U16)
      modifies this
      ensures Now() == HandleControl(env, old(Now()), event)
    {
      if event == DEVICE_READY {
        ready := true;
        ghost var s := Now();
        var _ := SendReply(env, PORT_ADD);
        AnswersOne(env, s, PORT_ADD);
      } else if event == PORT_READY {
        AnswersThree(env, Now(), CONSOLE_PORT, PORT_NAME, PORT_OPEN);
        var ok := SendReply(env, CONSOLE_PORT);
        if !ok { return; }
        ok := SendReply(env, PORT_NAME);
        if !ok { return; }
        ok := SendReply(env, PORT_OPEN);
      }
    }

    /** process_ctrl_tx_requests; false for an error. */
    method ProcessCtrlTxRequests(env: Env, chains: seq<TxChain>) returns (ok: bool)
      modifies this
      ensures Now() == Batch(env, old(Now()), chains)
      ensures ok == AllAccepted(chains)
    {
      var i := 0;
      assert chains[0..] == chains;
      while i < |chains|
        invariant 0 <= i <= |chains| && forall c :: c in chains[..i] ==> Accepted(c)
        invariant Batch(env, old(Now()), chains) == Batch(env, Now(), chains[i..])
      {
        var descs := chains[i].descs;
        if |descs| < 1 || descs[0].writeOnly || descs[0].len != MESSAGE_SIZE || descs[0].msg == None {
          assert !Accepted(chains[i]);
          return false;
        }
        HandleControlMsg(env, descs[0].msg.value.event);
        returned := returned + [chains[i].head];
        assert chains[i..][1..] == chains[i + 1..];
        i := i + 1;
      }
      ok := true;
    }

    method ProcessCtrlTxQueue(env: Env, pass: TxPass) returns (ok: bool)
      modifies this
      ensures (Now(), ok) == ProcessTx(env, old(Now()), pass)
    {
      if pass.TxUnreadable? { return false; }
      ok := ProcessCtrlTxRequests(env, pass.chains);
      if ok && pass.notified { txSignals := txSignals + 1; }
      ok := ok && pass.notified;
    }

    /** The control queue part of handle_event; false for an error. */
    method HandleEvent(env: Env, step: Step) returns (ok: bool)
      modifies this
      ensures (Now(), ok) == Next(env, old(Now()), step)
    {
      match step
      case RxQueue(n) =>
        ok := true;
        if ready { ok := WalkPasses(env, n); }
      case RxKick(n) => ok := WalkPasses(env, n);
      case TxQueue(passes) =>
        ok := true;
        var i := 0;
        assert passes[0..] == passes;
        while ok && i < |passes|
          invariant 0 <= i <= |passes|
          invariant TxPasses(env, old(Now()), passes)
                    == if ok then TxPasses(env, Now(), passes[i..]) else (Now(), false)
          decreases |passes| - i, ok
        {
          ok := ProcessCtrlTxQueue(env, passes[i]);
          assert passes[i..][1..] == passes[i + 1..];
          i := i + 1;
        }
    }

    /** The loop of handle_event over the control receive queue. */
    method WalkPasses(env: Env, n: nat) returns (ok: bool)
      modifies this
      ensures (Now(), ok) == RxPasses(env, old(Now()), n)
    {
      ok := true;
      var left := n;
      while ok && left > 0
        invariant 0 <= left <= n
        invariant RxPasses(env, old(Now()), n) == if ok then RxPasses(env, Now(), left) else (Now(), false)
      {
        ok := ProcessCtrlRxQueue(env);
        left := left - 1;
      }
    }
  }

  lemma AnswersOne(env: Env, s: State, a: U16)
    ensures Answers(env, s, [a]) == Answer(env, s, a)
  {
    assert [a][1..] == [];
  }

  lemma AnswersThree(env: Env, s: State, a: U16, b: U16, c: U16)
    ensures var (t, ok) := Answer(env, s, a);
            Answers(env, s, [a, b, c])
            == if !ok then (t, false)
               else var (u, ok2) := Answer(env, t, b);
                    if !ok2 then (u, false) else Answer(env, u, c)
  {
    assert [a, b, c][1..] == [b, c] && [b, c][1..] == [c];
    var (t, ok) := Answer(env, s, a);
    var (u, ok2) := Answer(env, t, b);
    AnswersOne(env, u, c);
  }
}
