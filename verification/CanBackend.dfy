/** vhu_can.rs: the transmit and control queues of the CAN device. Every event takes the chains the
    guest has made available and returns them one by one; a chain that is refused ends the event.

    What guest memory holds, and whether the socket accepts a frame, is given with each chain; what
    the guest makes available meanwhile, and whether queue and notification work, is given for each
    pass over the queue. */
module CanBackend {
  import opened Wrappers
  import opened Words
  import opened Sequences
  import opened Counting
  import opened VirtioCanCodec

  const CTRL_MODE_START: U16 := 0x0201
  const CTRL_MODE_STOP: U16 := 0x0202
  const STATUS_OK: Byte := 0
  const STATUS_ERR: Byte := 1
  const FRAME_SIZE: nat := 80
  const MAX_STANDARD_ID: nat := 0x7FF

  /** A descriptor: what reading its memory yields, if it can be read, and whether it can be written. */
  datatype Desc = Desc(writeOnly: bool, len: U32, mem: Option<Bytes>, writable: bool)

  /** A chain; sent is the socket's answer to the frame in it. */
  datatype Chain = Chain(head: U16, descs: seq<Desc>, sent: bool)

  datatype Error = UnexpectedWriteOnlyDescriptor | UnexpectedReadableDescriptor | UnexpectedDescriptorCount
    | UnexpectedDescriptorSize | DescriptorReadFailed | DescriptorWriteFailed | HandleEventUnknown
    | UnexpectedCanMsgType | UnexpectedRtrFlag | UnexpectedFdFlag | UnexpectedClassicFlag
    | DescriptorNotFound | NotificationFailed

  /** What becomes of a chain; handed tells whether its frame reached the socket. */
  datatype Verdict = Returned(len: U32, status: Byte) | Refused(error: Error, handed: bool) | Panicked

  datatype Kind = Ctrl | Tx(features: Features)

  predicate Readable(d: Desc, size: nat) { d.mem.Some? && |d.mem.value| >= size }

  /** The body of the loop in process_ctrl_requests. */
  function JudgeCtrl(c: Chain): Verdict {
    if c.descs == [] then Refused(UnexpectedDescriptorCount, false)
    else if c.descs[0].writeOnly then Refused(UnexpectedWriteOnlyDescriptor, false)
    else if c.descs[0].len != 2 then Refused(UnexpectedDescriptorSize, false)
    else if !Readable(c.descs[0], 2) then Refused(DescriptorReadFailed, false)
    else if ReadLe16(c.descs[0].mem.value, 0) !in {CTRL_MODE_START, CTRL_MODE_STOP} then
      Refused(HandleEventUnknown, false)
    else if |c.descs| < 2 then Panicked
    else if !c.descs[1].writeOnly then Refused(UnexpectedReadableDescriptor, false)
    else if !c.descs[1].writable then Refused(DescriptorWriteFailed, false)
    else Returned(c.descs[1].len, STATUS_OK)
  }

  /** The flags as process_tx_requests masks them before it looks at them. */
  function MaskedFlags(flags: U32): U32 {
    if Extended(flags) then EffBits(flags) + CAN_EFF_FLAG else SffBits(flags)
  }

  /** The checks of a frame against the negotiated features. In a frame that is not extended, the
      mask has cleared the flags that are looked at. */
  function CheckFlags(f: Features, flags: U32): Option<Error> {
    var rtr, fd := Extended(flags) && Rtr(flags), Extended(flags) && Fd(flags);
    if rtr && !(f.classic && f.rtr) then Some(UnexpectedRtrFlag)
    else if fd then if f.fd then None else Some(UnexpectedFdFlag)
    else if f.classic then None else Some(UnexpectedClassicFlag)
  }

  /** The identifier the controller is given. */
  function CorrectedId(flags: U32, canId: U32): nat {
    var masked := MaskedFlags(flags);
    if Rtr(masked) then Or(canId, Or(masked, CAN_RTR_FLAG)) else canId
  }

  /** The body of the loop in process_tx_requests. The controller takes the identifier as a standard
      one and panics on any other. */
  function JudgeTx(f: Features, c: Chain): Verdict {
    if |c.descs| != 2 then Refused(UnexpectedDescriptorCount, false)
    else if c.descs[0].writeOnly then Refused(UnexpectedWriteOnlyDescriptor, false)
    else if !Readable(c.descs[0], FRAME_SIZE) then Refused(DescriptorReadFailed, false)
    else
      var frame := c.descs[0].mem.value;
      if ReadLe16(frame, 0) != VIRTIO_CAN_TX then Refused(UnexpectedCanMsgType, false)
      else
        match CheckFlags(f, ReadLe32(frame, 8))
        case Some(e) => Refused(e, false)
        case None =>
          if !c.descs[1].writeOnly then Refused(UnexpectedReadableDescriptor, false)
          else if CorrectedId(ReadLe32(frame, 8), ReadLe32(frame, 12)) > MAX_STANDARD_ID then Panicked
          else if !c.descs[1].writable then Refused(DescriptorWriteFailed, true)
          else Returned(c.descs[1].len, if c.sent then STATUS_OK else STATUS_ERR)
  }

  function Judge(kind: Kind, c: Chain): Verdict {
    match kind
    case Ctrl => JudgeCtrl(c)
    case Tx(f) => JudgeTx(f, c)
  }

  datatype Used = Used(head: U16, len: U32, status: Byte)

  datatype Result = Done | Failed(error: Error) | Panic

  /** A pass over the queue: what arrives during it, whether the queue can be read and the guest
      notified. */
  datatype Pass = Pass(chains: seq<Chain>, readable: bool, notified: bool)

  /** One queue: the chains available, the passes to come, the used ring, the chains taken but never
      returned, frames handed to the socket, and whether the guest is to notify. */
  datatype State = State(avail: seq<Chain>, passes: seq<Pass>, used: seq<Used>, lost: seq<Chain>,
                         handed: nat, signals: nat, notify: bool)

  // One batch.

  function Hand(kind: Kind, v: Verdict): nat { if kind.Tx? && (v.Returned? || (v.Refused? && v.handed)) then 1 else 0 }

  /** The state after the first chain, if it is returned. */
  function First(kind: Kind, s: State, c: Chain): State
    requires Judge(kind, c).Returned?
  {
    var v := Judge(kind, c);
    s.(handed := s.handed + Hand(kind, v), used := s.used + [Used(c.head, v.len, v.status)])
  }

  function Batch(kind: Kind, s: State, chains: seq<Chain>): (State, Result)
    decreases |chains|
  {
    if chains == [] then (s, Done)
    else
      var v := Judge(kind, chains[0]);
      var t := s.(handed := s.handed + Hand(kind, v));
      match v
      case Returned(_, _) => Batch(kind, First(kind, s, chains[0]), chains[1..])
      case Refused(e, _) => (t.(lost := t.lost + chains), Failed(e))
      case Panicked => (t.(lost := t.lost + chains), Panic)
  }

  /** The next pass; nothing more happens after the last. */
  function NextPass(s: State): Pass { if s.passes == [] then Pass([], true, true) else s.passes[0] }

  /** All available chains leave the ring; others may arrive in the meantime. */
  function Take(s: State): State {
    s.(avail := NextPass(s).chains, passes := if s.passes == [] then [] else s.passes[1..])
  }

  /** process_ctrl_queue and process_tx_queue */
  function Process(kind: Kind, s: State): (State, Result) {
    if !NextPass(s).readable then (Take(s).(avail := s.avail + NextPass(s).chains), Failed(DescriptorNotFound))
    else
      var (t, r) := Batch(kind, Take(s), s.avail);
      if r != Done then (t, r)
      else if NextPass(s).notified then (t.(signals := t.signals + 1), Done)
      else (t, Failed(NotificationFailed))
  }

  /** The loop of handle_event with EVENT_IDX. */
  function Loop(kind: Kind, s: State): (State, Result)
    decreases |s.passes|, 1
  {
    var (t, r) := Process(kind, s.(notify := false));
    BatchKeepsRing(kind, Take(s.(notify := false)), s.avail);
    if r != Done then (t, r) else Enabled(kind, s, t)
  }

  /** From enable_notification on. */
  function Enabled(kind: Kind, s: State, t: State): (State, Result)
    requires t.passes == if s.passes == [] then [] else s.passes[1..]
    requires s.passes == [] ==> t.avail == []
    decreases |s.passes|, 0
  {
    var u := t.(notify := true);
    if u.avail == [] then (u, Done) else Loop(kind, u)
  }

  lemma {:induction false} BatchKeepsRing(kind: Kind, s: State, chains: seq<Chain>)
    ensures var t := Batch(kind, s, chains).0;
            t.avail == s.avail && t.passes == s.passes && t.notify == s.notify && t.signals == s.signals
    decreases |chains|
  {
    if chains != [] {
      if Judge(kind, chains[0]).Returned? { BatchKeepsRing(kind, First(kind, s, chains[0]), chains[1..]); }
    }
  }

  // What is returned.

  function ReturnedCount(kind: Kind, chains: seq<Chain>): (n: nat)
    ensures n <= |chains|
    ensures forall i :: 0 <= i < n ==> Judge(kind, chains[i]).Returned?
    ensures n < |chains| ==> !Judge(kind, chains[n]).Returned?
  {
    if chains == [] || !Judge(kind, chains[0]).Returned? then 0 else 1 + ReturnedCount(kind, chains[1..])
  }

  /** The used ring entries of chains that are returned. */
  function Entries(kind: Kind, chains: seq<Chain>): (r: seq<Used>)
    requires forall i :: 0 <= i < |chains| ==> Judge(kind, chains[i]).Returned?
    ensures |r| == |chains|
    ensures forall i :: 0 <= i < |chains| ==>
              r[i] == Used(chains[i].head, Judge(kind, chains[i]).len, Judge(kind, chains[i]).status)
  {
    if chains == [] then []
    else
      var v := Judge(kind, chains[0]);
      [Used(chains[0].head, v.len, v.status)] + Entries(kind, chains[1..])
  }

  function ResultOf(v: Verdict): Result {
    match v
    case Returned(_, _) => Done
    case Refused(e, _) => Failed(e)
    case Panicked => Panic
  }

  /** Frames handed to the controller: one for each chain returned, and one more when it is the
      response that cannot be written. */
  function HandedCount(kind: Kind, chains: seq<Chain>): nat {
    var n := ReturnedCount(kind, chains);
    if kind == Ctrl then 0 else n + if n < |chains| then Hand(kind, Judge(kind, chains[n])) else 0
  }

  /** What a batch comes to: the chains before the first that is refused are returned in order and
      once each; that one and the rest are taken but not returned. */
  function Outcome(kind: Kind, s: State, chains: seq<Chain>): (State, Result) {
    var n := ReturnedCount(kind, chains);
    (s.(used := s.used + Entries(kind, chains[..n]), lost := s.lost + chains[n..],
        handed := s.handed + HandedCount(kind, chains)),
     if n == |chains| then Done else ResultOf(Judge(kind, chains[n])))
  }

  lemma OutcomeFirst(kind: Kind, s: State, chains: seq<Chain>)
    requires chains != [] && Judge(kind, chains[0]).Returned?
    ensures Outcome(kind, First(kind, s, chains[0]), chains[1..]) == Outcome(kind, s, chains)
  {
    var n := ReturnedCount(kind, chains);
    assert chains[..n][1..] == chains[1..][..n - 1] && chains[n..] == chains[1..][n - 1..];
    Regroup(s.used, First(kind, s, chains[0]).used[|s.used|..], Entries(kind, chains[1..][..n - 1]));
  }

  lemma {:induction false} BatchReturnsPrefix(kind: Kind, s: State, chains: seq<Chain>)
    ensures Batch(kind, s, chains) == Outcome(kind, s, chains)
    decreases |chains|
  {
    if chains != [] && Judge(kind, chains[0]).Returned? {
      BatchReturnsPrefix(kind, First(kind, s, chains[0]), chains[1..]);
      OutcomeFirst(kind, s, chains);
    } else {
      assert chains[..0] == [] && chains[0..] == chains;
      Regroup(s.used, [], []);
      Regroup(s.lost, [], []);
    }
  }

  /** The batch succeeds exactly when every chain is returned. */
  lemma BatchDoneIff(kind: Kind, s: State, chains: seq<Chain>)
    ensures Batch(kind, s, chains).1 == Done <==> forall i :: 0 <= i < |chains| ==> Judge(kind, chains[i]).Returned?
  {
    BatchReturnsPrefix(kind, s, chains);
    var n := ReturnedCount(kind, chains);
    if n < |chains| { assert !Judge(kind, chains[n]).Returned?; }
  }

  /** The control queue panics on, and only on, a request it understands in a chain of one descriptor. */
  lemma CtrlPanicsIff(c: Chain)
    ensures JudgeCtrl(c) == Panicked
            <==> && |c.descs| == 1 && !c.descs[0].writeOnly && c.descs[0].len == 2 && Readable(c.descs[0], 2)
                 && ReadLe16(c.descs[0].mem.value, 0) in {CTRL_MODE_START, CTRL_MODE_STOP}
  {
  }

  lemma CorrectedIdIsStandardIff(flags: U32, canId: U32)
    ensures CorrectedId(flags, canId) > MAX_STANDARD_ID
            <==> canId > MAX_STANDARD_ID || (Extended(flags) && Rtr(flags))
  {
    MaskKeepsFlags(flags);
    OrAtLeast(MaskedFlags(flags), CAN_RTR_FLAG);
    OrAtLeast(canId, Or(MaskedFlags(flags), CAN_RTR_FLAG));
  }

  /** The transmit queue panics on, and only on, a well-formed and negotiated frame with a response
      descriptor whose identifier is above 0x7FF or that is an extended remote request. */
  lemma TxPanicsIff(f: Features, c: Chain)
    ensures JudgeTx(f, c) == Panicked
            <==> && |c.descs| == 2 && !c.descs[0].writeOnly && Readable(c.descs[0], FRAME_SIZE) && c.descs[1].writeOnly
                 && var frame := c.descs[0].mem.value;
                    var flags := ReadLe32(frame, 8);
                    && ReadLe16(frame, 0) == VIRTIO_CAN_TX && CheckFlags(f, flags) == None
                    && (ReadLe32(frame, 12) > MAX_STANDARD_ID || (Extended(flags) && Rtr(flags)))
  {
    if |c.descs| == 2 && Readable(c.descs[0], FRAME_SIZE) {
      CorrectedIdIsStandardIff(ReadLe32(c.descs[0].mem.value, 8), ReadLe32(c.descs[0].mem.value, 12));
    }
  }

  /** So an ordinary extended frame, with identifier 0x800, ends the backend. */
  lemma ExtendedFramePanics(sent: bool)
    ensures var frame := seq(FRAME_SIZE, i => if i == 0 then 1 else if i == 9 then 0x80 else if i == 13 then 8 else 0);
            var c := Chain(0, [Desc(false, 80, Some(frame), true), Desc(true, 1, None, true)], sent);
            JudgeTx(Features(true, true, false), c) == Panicked
  {
    var frame := seq(FRAME_SIZE, i => if i == 0 then 1 else if i == 9 then 0x80 else if i == 13 then 8 else 0);
    var c := Chain(0, [Desc(false, 80, Some(frame), true), Desc(true, 1, None, true)], sent);
    assert ReadLe16(frame, 0) == VIRTIO_CAN_TX && ReadLe32(frame, 8) == 0x8000 && ReadLe32(frame, 12) == 0x800;
    assert CheckFlags(Features(true, true, false), 0x8000) == None;
    TxPanicsIff(Features(true, true, false), c);
  }

  // All passes and all events.

  function Flatten(passes: seq<Pass>): seq<Chain> {
    if passes == [] then [] else passes[0].chains + Flatten(passes[1..])
  }

  function Heads(chains: seq<Chain>): seq<U16> {
    if chains == [] then [] else [chains[0].head] + Heads(chains[1..])
  }

  function UsedHeads(used: seq<Used>): seq<U16> {
    if used == [] then [] else [used[0].head] + UsedHeads(used[1..])
  }

  lemma {:induction false} HeadsAppend(a: seq<Chain>, b: seq<Chain>)
    ensures Heads(a + b) == Heads(a) + Heads(b)
  {
    if a == [] {
      assert a + b == b;
    } else {
      assert (a + b)[1..] == a[1..] + b;
      HeadsAppend(a[1..], b);
    }
  }

  /** Everything on the ring or to come. */
  function Coming(s: State): seq<Chain> { s.avail + Flatten(s.passes) }

  /** Everything on or off the ring, in the order the guest made it available: what was returned,
      what was lost, what is still available, what is to arrive. */
  function Ledger(s: State): seq<U16> { UsedHeads(s.used) + Heads(s.lost) + Heads(Coming(s)) }

  lemma TakeMoves(s: State)
    ensures s.avail + Coming(Take(s)) == Coming(s)
    ensures Coming(Take(s).(avail := s.avail + NextPass(s).chains)) == Coming(s)
  {
    Regroup(s.avail, NextPass(s).chains, Flatten(Take(s).passes));
  }

  lemma {:induction false} UsedHeadsMore(used: seq<Used>, u: Used)
    ensures UsedHeads(used + [u]) == UsedHeads(used) + [u.head]
  {
    if used != [] {
      assert (used + [u])[1..] == used[1..] + [u];
      UsedHeadsMore(used[1..], u);
    }
  }

  lemma FirstAddsHead(kind: Kind, s: State, c: Chain)
    requires Judge(kind, c).Returned?
    ensures UsedHeads(First(kind, s, c).used) == UsedHeads(s.used) + [c.head]
  {
    UsedHeadsMore(s.used, Used(c.head, Judge(kind, c).len, Judge(kind, c).status));
  }

  lemma {:induction false} BatchKeepsHeads(kind: Kind, s: State, chains: seq<Chain>)
    requires s.lost == []
    ensures var (t, r) := Batch(kind, s, chains);
            && UsedHeads(t.used) + Heads(t.lost) == UsedHeads(s.used) + Heads(chains)
            && (r == Done ==> t.lost == [])
    decreases |chains|
  {
    if chains != [] {
      if Judge(kind, chains[0]).Returned? {
        BatchKeepsHeads(kind, First(kind, s, chains[0]), chains[1..]);
        FirstAddsHead(kind, s, chains[0]);
        Regroup(UsedHeads(s.used), [chains[0].head], Heads(chains[1..]));
      } else {
        assert [] + chains == chains;
      }
    }
  }

  lemma ProcessKeepsLedger(kind: Kind, s: State)
    requires s.lost == []
    ensures var (t, r) := Process(kind, s);
            Ledger(t) == Ledger(s) && (r == Done ==> t.lost == [])
  {
    TakeMoves(s);
    if NextPass(s).readable {
      BatchKeepsHeads(kind, Take(s), s.avail);
      BatchKeepsRing(kind, Take(s), s.avail);
      HeadsAppend(s.avail, Coming(Take(s)));
      Regroup(UsedHeads(s.used), Heads(s.avail), Heads(Coming(Take(s))));
      Regroup(UsedHeads(s.used), [], []);
    }
  }

  /** Within an event no chain is returned twice, none is skipped and none overtaken, however often
      the loop goes round and however it ends. It ends without error only after returning all it
      took, with nothing available when the notifications came on again. */
  lemma {:induction false} LoopKeepsLedger(kind: Kind, s: State)
    requires s.lost == []
    ensures var (t, r) := Loop(kind, s);
            && Ledger(t) == Ledger(s)
            && (r == Done ==> t.lost == [] && t.avail == [] && t.notify)
    decreases |s.passes|
  {
    var off := s.(notify := false);
    var (t, r) := Process(kind, off);
    ProcessKeepsLedger(kind, off);
    BatchKeepsRing(kind, Take(off), s.avail);
    if r == Done && t.avail != [] { LoopKeepsLedger(kind, t.(notify := true)); }
  }

  /** How often a head is among those returned, lost, available and to come. */
  function Tally(s: State, h: U16): nat {
    Count(UsedHeads(s.used), h) + Count(Heads(s.lost), h) + Count(Heads(Coming(s)), h)
  }

  lemma {:induction false} BatchKeepsTally(kind: Kind, s: State, chains: seq<Chain>, h: U16)
    ensures var t := Batch(kind, s, chains).0;
            Count(UsedHeads(t.used), h) + Count(Heads(t.lost), h)
            == Count(UsedHeads(s.used), h) + Count(Heads(s.lost), h) + Count(Heads(chains), h)
    decreases |chains|
  {
    if chains != [] {
      if Judge(kind, chains[0]).Returned? {
        BatchKeepsTally(kind, First(kind, s, chains[0]), chains[1..], h);
        FirstAddsHead(kind, s, chains[0]);
        CountAppend(UsedHeads(s.used), [chains[0].head], h);
        CountAppend([chains[0].head], Heads(chains[1..]), h);
      } else {
        HeadsAppend(s.lost, chains);
        CountAppend(Heads(s.lost), Heads(chains), h);
      }
    }
  }

  lemma ProcessKeepsTally(kind: Kind, s: State, h: U16)
    ensures Tally(Process(kind, s).0, h) == Tally(s, h)
  {
    TakeMoves(s);
    if NextPass(s).readable {
      BatchKeepsTally(kind, Take(s), s.avail, h);
      BatchKeepsRing(kind, Take(s), s.avail);
      HeadsAppend(s.avail, Coming(Take(s)));
      CountAppend(Heads(s.avail), Heads(Coming(Take(s))), h);
    }
  }

  lemma {:induction false} LoopKeepsTally(kind: Kind, s: State, h: U16)
    ensures Tally(Loop(kind, s).0, h) == Tally(s, h)
    decreases |s.passes|
  {
    var off := s.(notify := false);
    var (t, r) := Process(kind, off);
    ProcessKeepsTally(kind, off, h);
    BatchKeepsRing(kind, Take(off), s.avail);
    if r == Done && t.avail != [] { LoopKeepsTally(kind, t.(notify := true), h); }
  }

  /** An event, or chains that arrive between events. */
  datatype Step = Event | Arrive

  function Next(kind: Kind, eventIdx: bool, s: State, step: Step): State {
    match step
    case Event => if eventIdx then Loop(kind, s).0 else Process(kind, s).0
    case Arrive => Take(s).(avail := s.avail + NextPass(s).chains)
  }

  function Run(kind: Kind, eventIdx: bool, s: State, steps: seq<Step>): State {
    if steps == [] then s
    else Next(kind, eventIdx, Run(kind, eventIdx, s, steps[..|steps| - 1]), steps[|steps| - 1])
  }

  /** Over any events, failing or not: every chain the guest made available is returned, lost, still
      available or to come, as often as it was made available. */
  lemma {:induction false} RunKeepsTally(kind: Kind, eventIdx: bool, s: State, steps: seq<Step>, h: U16)
    ensures Tally(Run(kind, eventIdx, s, steps), h) == Tally(s, h)
    decreases |steps|
  {
    if steps != [] {
      var before := Run(kind, eventIdx, s, steps[..|steps| - 1]);
      RunKeepsTally(kind, eventIdx, s, steps[..|steps| - 1], h);
      TakeMoves(before);
      ProcessKeepsTally(kind, before, h);
      LoopKeepsTally(kind, before, h);
    }
  }

  // Order over several events.

  /** a is b with some elements left out. */
  predicate Within(a: seq<U16>, b: seq<U16>) {
    a == [] || (b != [] && ((a[0] == b[0] && Within(a[1..], b[1..])) || Within(a, b[1..])))
  }

  lemma {:induction false} WithinItself(a: seq<U16>)
    ensures Within(a, a)
  {
    if a != [] { WithinItself(a[1..]); }
  }

  lemma {:induction false} WithinTail(a: seq<U16>, b: seq<U16>)
    requires a != [] && Within(a, b)
    ensures Within(a[1..], b)
    decreases |b|
  {
    if a[0] == b[0] && Within(a[1..], b[1..]) {
      assert a[1..] == [] || Within(a[1..], b);
    } else {
      WithinTail(a, b[1..]);
    }
  }

  lemma {:induction false} WithinWithin(a: seq<U16>, b: seq<U16>, c: seq<U16>)
    requires Within(a, b) && Within(b, c)
    ensures Within(a, c)
    decreases |c|
  {
    if a != [] {
      if b[0] == c[0] && Within(b[1..], c[1..]) {
        if a[0] == b[0] && Within(a[1..], b[1..]) {
          WithinWithin(a[1..], b[1..], c[1..]);
        } else {
          WithinWithin(a, b[1..], c[1..]);
        }
      } else {
        WithinWithin(a, b, c[1..]);
      }
    }
  }

  lemma {:induction false} WithinDrop(a: seq<U16>, b: seq<U16>, c: seq<U16>)
    ensures Within(a + c, a + (b + c))
    decreases |a| + |b|
  {
    if a != [] {
      assert (a + c)[1..] == a[1..] + c && (a + (b + c))[1..] == a[1..] + (b + c);
      WithinDrop(a[1..], b, c);
    } else if b != [] {
      assert (b + c)[1..] == b[1..] + c && [] + c == c && [] + (b + c) == b + c && [] + (b[1..] + c) == b[1..] + c;
      WithinDrop([], b[1..], c);
    } else {
      assert a + c == a + (b + c);
      WithinItself(a + c);
    }
  }

  /** What was returned, followed by what is available or to come. */
  function InOrder(s: State): seq<U16> { UsedHeads(s.used) + Heads(Coming(s)) }

  lemma {:induction false} BatchKeepsOrder(kind: Kind, s: State, chains: seq<Chain>, rest: seq<U16>)
    ensures Within(UsedHeads(Batch(kind, s, chains).0.used) + rest, UsedHeads(s.used) + (Heads(chains) + rest))
    decreases |chains|
  {
    if chains != [] && Judge(kind, chains[0]).Returned? {
      BatchKeepsOrder(kind, First(kind, s, chains[0]), chains[1..], rest);
      FirstAddsHead(kind, s, chains[0]);
      Regroup(UsedHeads(s.used), [chains[0].head], Heads(chains[1..]) + rest);
      Regroup([chains[0].head], Heads(chains[1..]), rest);
    } else {
      WithinDrop(UsedHeads(s.used), Heads(chains), rest);
    }
  }

  lemma ProcessKeepsOrder(kind: Kind, s: State)
    ensures Within(InOrder(Process(kind, s).0), InOrder(s))
  {
    TakeMoves(s);
    if NextPass(s).readable {
      BatchKeepsOrder(kind, Take(s), s.avail, Heads(Coming(Take(s))));
      BatchKeepsRing(kind, Take(s), s.avail);
      HeadsAppend(s.avail, Coming(Take(s)));
    } else {
      WithinItself(InOrder(s));
    }
  }

  lemma {:induction false} LoopKeepsOrder(kind: Kind, s: State)
    ensures Within(InOrder(Loop(kind, s).0), InOrder(s))
    decreases |s.passes|
  {
    var off := s.(notify := false);
    var (t, r) := Process(kind, off);
    ProcessKeepsOrder(kind, off);
    BatchKeepsRing(kind, Take(off), s.avail);
    if r == Done && t.avail != [] {
      var u := t.(notify := true);
      LoopKeepsOrder(kind, u);
      WithinWithin(InOrder(Loop(kind, u).0), InOrder(u), InOrder(s));
    }
  }

  lemma {:induction false} RunKeepsOrder(kind: Kind, eventIdx: bool, s: State, steps: seq<Step>)
    ensures Within(InOrder(Run(kind, eventIdx, s, steps)), InOrder(s))
    decreases |steps|
  {
    if steps == [] {
      WithinItself(InOrder(s));
    } else {
      var before := Run(kind, eventIdx, s, steps[..|steps| - 1]);
      RunKeepsOrder(kind, eventIdx, s, steps[..|steps| - 1]);
      TakeMoves(before);
      ProcessKeepsOrder(kind, before);
      LoopKeepsOrder(kind, before);
      WithinItself(InOrder(before));
      WithinWithin(InOrder(Run(kind, eventIdx, s, steps)), InOrder(before), InOrder(s));
    }
  }

  /** Over any events, failing or not, chains are returned in the order in which the guest made them
      available: the used heads are those made available with some left out. */
  lemma UsedInOrder(kind: Kind, eventIdx: bool, s: State, steps: seq<Step>)
    requires s.used == []
    ensures Within(UsedHeads(Run(kind, eventIdx, s, steps).used), Heads(Coming(s)))
  {
    var t := Run(kind, eventIdx, s, steps);
    RunKeepsOrder(kind, eventIdx, s, steps);
    assert InOrder(s) == Heads(Coming(s));
    WithinDrop(UsedHeads(t.used), Heads(Coming(t)), []);
    Regroup(UsedHeads(t.used), [], []);
    Regroup(Heads(Coming(t)), [], []);
    WithinWithin(UsedHeads(t.used), InOrder(t), InOrder(s));
  }

  // The backend.

  class Backend {
    const features: Features
    const eventIdx: bool
    var avail: seq<Chain>
    var passes: seq<Pass>
    var used: seq<Used>
    ghost var lost: seq<Chain>
    ghost var handed: nat
    var signals: nat
    var notify: bool

    ghost function Now(): State
      reads this
    {
      State(avail, passes, used, lost, handed, signals, notify)
    }

    constructor (features: Features, eventIdx: bool, avail: seq<Chain>, passes: seq<Pass>)
      ensures Now() == State(avail, passes, [], [], 0, 0, true)
      ensures this.features == features && this.eventIdx == eventIdx
    {
      this.features, this.eventIdx := features, eventIdx;
      this.avail, this.passes, this.used, this.lost := avail, passes, [], [];
      this.handed, this.signals, this.notify := 0, 0, true;
    }

    /** One chain of the control queue. */
    method CtrlRequest(c: Chain) returns (v: Verdict)
      ensures v == JudgeCtrl(c)
    {
      var descs := c.descs;
      if |descs| < 1 { return Refused(UnexpectedDescriptorCount, false); }
      var request := descs[0];
      if request.writeOnly { return Refused(UnexpectedWriteOnlyDescriptor, false); }
      if request.len != 2 { return Refused(UnexpectedDescriptorSize, false); }
      if !Readable(request, 2) { return Refused(DescriptorReadFailed, false); }
      var msgType := ReadLe16(request.mem.value, 0);
      if msgType != CTRL_MODE_START && msgType != CTRL_MODE_STOP { return Refused(HandleEventUnknown, false); }
      if |descs| < 2 { return Panicked; }
      var response := descs[1];
      if !response.writeOnly { return Refused(UnexpectedReadableDescriptor, false); }
      if !response.writable { return Refused(DescriptorWriteFailed, false); }
      v := Returned(response.len, STATUS_OK);
    }

    /** One chain of the transmit queue. */
    method TxRequest(c: Chain) returns (v: Verdict)
      modifies this`handed
      ensures v == JudgeTx(features, c) && handed == old(handed) + Hand(Tx(features), v)
    {
      var descs := c.descs;
      if |descs| != 2 { return Refused(UnexpectedDescriptorCount, false); }
      var request, response := descs[0], descs[1];
      if request.writeOnly { return Refused(UnexpectedWriteOnlyDescriptor, false); }
      if !Readable(request, FRAME_SIZE) { return Refused(DescriptorReadFailed, false); }
      if ReadLe16(request.mem.value, 0) != VIRTIO_CAN_TX { return Refused(UnexpectedCanMsgType, false); }
      var bad, canId := CheckFrame(ReadLe32(request.mem.value, 8), ReadLe32(request.mem.value, 12));
      if bad.Some? { return Refused(bad.value, false); }
      if !response.writeOnly { return Refused(UnexpectedReadableDescriptor, false); }
      if canId > MAX_STANDARD_ID { return Panicked; }
      handed := handed + 1;
      if !response.writable { return Refused(DescriptorWriteFailed, true); }
      v := Returned(response.len, if c.sent then STATUS_OK else STATUS_ERR);
    }

    /** The flags are masked before they are looked at, and go into the identifier of a remote request. */
    method CheckFrame(flags: U32, rawId: U32) returns (bad: Option<Error>, canId: nat)
      ensures bad == CheckFlags(features, flags)
      ensures bad == None ==> canId == CorrectedId(flags, rawId)
    {
      canId := rawId;
      var masked: U32;
      if Extended(flags) {
        masked := EffBits(flags) + CAN_EFF_FLAG;
      } else {
        masked := SffBits(flags);
      }
      MaskKeepsFlags(flags);
      if Rtr(masked) {
        if !features.classic || !features.rtr { return Some(UnexpectedRtrFlag), canId; }
        canId := Or(canId, Or(masked, CAN_RTR_FLAG));
      }
      if Fd(masked) {
        if !features.fd { return Some(UnexpectedFdFlag), canId; }
      } else {
        if !features.classic { return Some(UnexpectedClassicFlag), canId; }
      }
      bad := None;
    }

    /** process_ctrl_requests or process_tx_requests */
    method ProcessRequests(kind: Kind, chains: seq<Chain>) returns (r: Result)
      requires kind.Tx? ==> kind.features == features
      modifies this`used, this`lost, this`handed
      ensures (Now(), r) == Batch(kind, old(Now()), chains)
    {
      var i := 0;
      assert chains[0..] == chains;
      while i < |chains|
        invariant 0 <= i <= |chains|
        invariant Batch(kind, old(Now()), chains) == Batch(kind, Now(), chains[i..])
      {
        var v: Verdict;
        if kind == Ctrl { v := CtrlRequest(chains[i]); } else { v := TxRequest(chains[i]); }
        assert chains[i..][0] == chains[i] && chains[i..][1..] == chains[i + 1..];
        if !v.Returned? {
          lost := lost + chains[i..];
          return ResultOf(v);
        }
        used := used + [Used(chains[i].head, v.len, v.status)];
        i := i + 1;
      }
      r := Done;
    }

    /** process_ctrl_queue or process_tx_queue */
    method ProcessQueue(kind: Kind) returns (r: Result)
      requires kind.Tx? ==> kind.features == features
      modifies this
      ensures (Now(), r) == Process(kind, old(Now()))
    {
      var requests, pass := avail, if passes == [] then Pass([], true, true) else passes[0];
      if passes != [] { passes := passes[1..]; }
      if !pass.readable {
        avail := avail + pass.chains;
        return Failed(DescriptorNotFound);
      }
      avail := pass.chains;
      r := ProcessRequests(kind, requests);
      if r == Done {
        if !pass.notified { return Failed(NotificationFailed); }
        signals := signals + 1;
      }
    }

    /** handle_event for the control or the transmit queue. */
    method HandleEvent(kind: Kind) returns (r: Result)
      requires kind.Tx? ==> kind.features == features
      modifies this
      ensures (Now(), r) == if eventIdx then Loop(kind, old(Now())) else Process(kind, old(Now()))
      ensures Now() == Next(kind, eventIdx, old(Now()), Event)
    {
      if !eventIdx {
        r := ProcessQueue(kind);
        return;
      }
      var more := true;
      r := Done;
      while more
        invariant if more then Loop(kind, old(Now())) == Loop(kind, Now()) else Loop(kind, old(Now())) == (Now(), Done)
        invariant r == Done
        decreases more, |passes|
      {
        notify := false;
        BatchKeepsRing(kind, Take(Now()), avail);
        ghost var was := passes;
        r := ProcessQueue(kind);
        if r != Done { return; }
        notify := true;
        more := avail != [];
        assert more ==> |passes| < |was|;
      }
    }
  }

  lemma MaskKeepsFlags(flags: U32)
    ensures Rtr(MaskedFlags(flags)) <==> Extended(flags) && Rtr(flags)
    ensures Fd(MaskedFlags(flags)) <==> Extended(flags) && Fd(flags)
  {
    var x, q := EffBits(flags), flags / 0x2000_0000;
    assert flags == x + (q * 0x1_0000) * 0x2000 && flags == x + (q * 0x8000) * 0x4000;
    KeepsRtrBit(x, q * 0x8000);
    KeepsRtrBit(x, 0x2_0000);
    KeepsFdBit(x, q * 0x4000);
    KeepsFdBit(x, 0x1_0000);
  }

  /** A low bit of x is the same with other high bits. */
  lemma KeepsRtrBit(x: nat, k: nat)
    ensures (x + 2 * k * 0x2000) / 0x2000 % 2 == x / 0x2000 % 2
  {
    assert (x + 2 * k * 0x2000) / 0x2000 == x / 0x2000 + 2 * k;
  }

  lemma KeepsFdBit(x: nat, k: nat)
    ensures (x + 2 * k * 0x4000) / 0x4000 % 2 == x / 0x4000 % 2
  {
    assert (x + 2 * k * 0x4000) / 0x4000 == x / 0x4000 + 2 * k;
  }
}
