/** vhu_can.rs: what becomes of each chain, in terms of the bytes and descriptors the guest supplies. */
module CanVerdicts {
  import opened Wrappers
  import opened Words
  import opened VirtioCanCodec
  import opened CanBackend

  // Transmit chains.

  /** What every transmit chain that reaches the socket has: two descriptors, 80 readable bytes in the
      first, a second one for the response, message type 1, a standard identifier, and flags the
      guest negotiated: those of an extended frame count, but not as a remote request. */
  predicate Sendable(f: Features, c: Chain) {
    && |c.descs| == 2 && !c.descs[0].writeOnly && c.descs[1].writeOnly
    && c.descs[0].mem.Some? && |c.descs[0].mem.value| >= 80
    && var frame := c.descs[0].mem.value;
       var flags := ReadLe32(frame, 8);
       var extended := flags / 0x8000 % 2 == 1;
       && ReadLe16(frame, 0) == 1 && ReadLe32(frame, 12) <= 0x7FF
       && !(extended && flags / 0x2000 % 2 == 1)
       && (if extended && flags / 0x4000 % 2 == 1 then f.fd else f.classic)
  }

  /** A transmit chain is returned exactly when it can be sent and its response be written; the response
      is 0 when the socket took the frame, and 1 otherwise. */
  lemma TxReturnedIff(f: Features, c: Chain, len: U32, status: Byte)
    ensures Judge(Tx(f), c) == Returned(len, status)
            <==> Sendable(f, c) && c.descs[1].writable && len == c.descs[1].len && status == if c.sent then 0 else 1
  {
    if |c.descs| == 2 && Readable(c.descs[0], 80) {
      CorrectedIdIsStandardIff(ReadLe32(c.descs[0].mem.value, 8), ReadLe32(c.descs[0].mem.value, 12));
    }
  }

  /** Its frame is handed to the socket exactly when it can be sent; without a place for the response
      the chain is refused after that. */
  lemma TxHandedIff(f: Features, c: Chain)
    ensures Hand(Tx(f), Judge(Tx(f), c)) == (if Sendable(f, c) then 1 else 0)
    ensures Judge(Tx(f), c) == Refused(DescriptorWriteFailed, true) <==> Sendable(f, c) && !c.descs[1].writable
  {
    if |c.descs| == 2 && Readable(c.descs[0], 80) {
      CorrectedIdIsStandardIff(ReadLe32(c.descs[0].mem.value, 8), ReadLe32(c.descs[0].mem.value, 12));
    }
  }

  /** Which of the flags are refused first: a remote request, then an FD frame, then a classic one. */
  lemma FlagsRefusedIff(f: Features, flags: U32)
    ensures var extended := flags / 0x8000 % 2 == 1;
            var rtr, fd := extended && flags / 0x2000 % 2 == 1, extended && flags / 0x4000 % 2 == 1;
            var bad := CheckFlags(f, flags);
            && (bad == Some(UnexpectedRtrFlag) <==> rtr && !(f.classic && f.rtr))
            && (bad == Some(UnexpectedFdFlag) <==> fd && !f.fd && (rtr ==> f.classic && f.rtr))
            && (bad == Some(UnexpectedClassicFlag) <==> !fd && !f.classic && !rtr)
            && (bad == None <==> (rtr ==> f.classic && f.rtr) && if fd then f.fd else f.classic)
  {
  }

  /** Why a transmit chain is refused before its frame is looked at, the first reason counting. */
  lemma TxRefusedFirst(f: Features, c: Chain)
    ensures JudgeTx(f, c) == Refused(UnexpectedDescriptorCount, false) <==> |c.descs| != 2
    ensures JudgeTx(f, c) == Refused(UnexpectedWriteOnlyDescriptor, false) <==> |c.descs| == 2 && c.descs[0].writeOnly
    ensures JudgeTx(f, c) == Refused(DescriptorReadFailed, false)
            <==> |c.descs| == 2 && !c.descs[0].writeOnly && (c.descs[0].mem == None || |c.descs[0].mem.value| < 80)
  {
  }

  /** Why a frame is refused: another message type than 1, then its flags, then a second descriptor
      that is not for writing. */
  lemma TxRefusedNext(f: Features, c: Chain, frame: Bytes)
    requires |c.descs| == 2 && !c.descs[0].writeOnly && c.descs[0].mem == Some(frame) && |frame| >= 80
    ensures JudgeTx(f, c) == Refused(UnexpectedCanMsgType, false) <==> ReadLe16(frame, 0) != 1
    ensures var bad := CheckFlags(f, ReadLe32(frame, 8));
            && (bad.Some? && ReadLe16(frame, 0) == 1 ==> JudgeTx(f, c) == Refused(bad.value, false))
            && (JudgeTx(f, c) == Refused(UnexpectedReadableDescriptor, false)
                <==> ReadLe16(frame, 0) == 1 && bad == None && !c.descs[1].writeOnly)
  {
  }

  // Control chains.

  /** A control chain asks for start (0x201) or stop (0x202) in a readable descriptor of two bytes. */
  predicate Asks(c: Chain) {
    && c.descs != [] && !c.descs[0].writeOnly && c.descs[0].len == 2
    && c.descs[0].mem.Some? && |c.descs[0].mem.value| >= 2
    && (ReadLe16(c.descs[0].mem.value, 0) == 0x201 || ReadLe16(c.descs[0].mem.value, 0) == 0x202)
  }

  /** It is returned exactly when there is a second descriptor its response can be written to; the response is
      always 0. */
  lemma CtrlReturnedIff(c: Chain, len: U32, status: Byte)
    ensures Judge(Ctrl, c) == Returned(len, status)
            <==> && Asks(c) && |c.descs| >= 2 && c.descs[1].writeOnly && c.descs[1].writable
                 && len == c.descs[1].len && status == 0
    ensures Judge(Ctrl, c) == Panicked <==> Asks(c) && |c.descs| == 1
    ensures Hand(Ctrl, Judge(Ctrl, c)) == 0
  {
  }

  /** Why it is refused, the first reason counting. */
  lemma CtrlRefusedIff(c: Chain)
    ensures JudgeCtrl(c) == Refused(UnexpectedDescriptorCount, false) <==> c.descs == []
    ensures JudgeCtrl(c) == Refused(UnexpectedWriteOnlyDescriptor, false) <==> c.descs != [] && c.descs[0].writeOnly
    ensures JudgeCtrl(c) == Refused(UnexpectedDescriptorSize, false)
            <==> c.descs != [] && !c.descs[0].writeOnly && c.descs[0].len != 2
    ensures JudgeCtrl(c) == Refused(DescriptorReadFailed, false)
            <==> && c.descs != [] && !c.descs[0].writeOnly && c.descs[0].len == 2
                 && (c.descs[0].mem == None || |c.descs[0].mem.value| < 2)
    ensures JudgeCtrl(c) == Refused(UnexpectedReadableDescriptor, false)
            <==> Asks(c) && |c.descs| >= 2 && !c.descs[1].writeOnly
    ensures JudgeCtrl(c) == Refused(DescriptorWriteFailed, false)
            <==> Asks(c) && |c.descs| >= 2 && c.descs[1].writeOnly && !c.descs[1].writable
    ensures JudgeCtrl(c) == Refused(HandleEventUnknown, false)
            <==> && c.descs != [] && !c.descs[0].writeOnly && c.descs[0].len == 2
                 && c.descs[0].mem.Some? && |c.descs[0].mem.value| >= 2 && !Asks(c)
  {
  }

  // One pass.

  predicate AllReturned(kind: Kind, chains: seq<Chain>) {
    forall i :: 0 <= i < |chains| ==> Judge(kind, chains[i]).Returned?
  }

  lemma RefusalsAreOfChains(kind: Kind, c: Chain)
    ensures var v := Judge(kind, c);
            v.Refused? ==> v.error != DescriptorNotFound && v.error != NotificationFailed
  {
  }

  /** A pass notifies the guest exactly when it succeeds: the queue could be read, every chain was
      returned, and the guest could be notified. Chains stay on a queue that could not be read. */
  lemma PassOutcome(kind: Kind, s: State, pass: Pass, rest: seq<Pass>)
    requires s.passes == [pass] + rest || (s.passes == rest == [] && pass == Pass([], true, true))
    ensures var (t, r) := Process(kind, s);
            && t.signals == s.signals + (if r == Done then 1 else 0)
            && (r == Done <==> pass.readable && AllReturned(kind, s.avail) && pass.notified)
            && (r == Failed(NotificationFailed) <==> pass.readable && AllReturned(kind, s.avail) && !pass.notified)
            && (r == Failed(DescriptorNotFound) <==> !pass.readable)
            && t.passes == rest && t.notify == s.notify
            && t.avail == (if pass.readable then pass.chains else s.avail + pass.chains)
            && Next(kind, false, s, Event) == t
  {
    assert s.passes != [] ==> s.passes[1..] == rest;
    BatchReturnsPrefix(kind, Take(s), s.avail);
    var n := ReturnedCount(kind, s.avail);
    if n < |s.avail| { RefusalsAreOfChains(kind, s.avail[n]); }
  }

  /** With notifications suppressed, passes are made until one fails or leaves nothing available. */
  lemma LoopOutcome(kind: Kind, s: State)
    ensures var (t, r) := Loop(kind, s);
            var (u, first) := Process(kind, s.(notify := false));
            && Next(kind, true, s, Event) == t && (r == Done <==> t.notify)
            && (first != Done ==> (t, r) == (u, first))
            && (first == Done && u.avail == [] ==> (t, r) == (u.(notify := true), Done))
            && (first == Done && u.avail != [] ==> (t, r) == Loop(kind, u.(notify := true)))
    decreases |s.passes|
  {
    var off := s.(notify := false);
    var (u, first) := Process(kind, off);
    BatchKeepsRing(kind, Take(off), s.avail);
    if first == Done && u.avail != [] { LoopOutcome(kind, u.(notify := true)); }
  }
}
