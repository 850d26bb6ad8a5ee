/** The transmit path of virtio_can.c: slot allocator, flow control, the three stages of
    virtio_can_start_xmit, completion, suspend and resume, and what starts and stops the queue from
    outside: open, close and the restart after bus-off.

    Each step below is one lock-protected region or one unlocked access of the driver, or one
    step of the device; an execution interleaves them freely. One transmission is in progress
    at a time, as the network stack serialises ndo_start_xmit per queue. */
module VirtioCanTx {
  import opened Counting
  import opened CanStates
  import opened Sequences

  const ECHO_SKB_MAX: nat := 128

  /** Size of the TX ring and whether indirect descriptors were negotiated. */
  datatype Config = Config(ringSize: nat, indirect: bool)

  /** Descriptors one message takes: one out and one in element, or one indirect table. */
  function PerMessage(c: Config): nat { if c.indirect then 1 else 2 }

  /** tx_limit as virtio_can_probe computes it. */
  function TxLimit(c: Config): nat {
    var slots := if c.indirect then c.ringSize else c.ringSize / 2;
    if ECHO_SKB_MAX > slots then slots else ECHO_SKB_MAX
  }

  /** A struct virtio_can_tx; `serial` stands for its address, fresh for every allocation. */
  datatype TxMsg = TxMsg(serial: int, putidx: int)

  /** How far virtio_can_start_xmit has come. */
  datatype XmitPc =
    | Idle
    | Admitted                // found tx_inflight below tx_limit
    | MustStop                // about to call netif_stop_queue and return busy
    | Reserved(msg: TxMsg)    // has an index and is on tx_list
    | Echoed(msg: TxMsg)      // echo skb stored, not yet added to the ring

  /** What has happened so far; only proofs look at it. */
  datatype History = History(
    added: nat, packets: nat, dropped: nat, failed: nat, gone: seq<int>, lost: seq<TxMsg>)

  /** State of the controller, interface up, queue stopped, a completion about to wake it, and device
      not suspended. */
  datatype Link = Link(canState: nat, up: bool, stopped: bool, wakeDue: bool, running: bool)

  /** Driver, ring and network queue. */
  datatype State = State(
    inflight: int, free: seq<int>, list: seq<TxMsg>, echo: map<int, int>,
    xmit: XmitPc, link: Link, crashed: bool,
    numFree: int, device: seq<TxMsg>, used: seq<TxMsg>,
    serials: nat, hist: History)

  function Probed(c: Config): State {
    State(0, Range(ECHO_SKB_MAX), [], map[], Idle, Link(STOPPED, false, false, false, true), false,
          c.ringSize, [], [], 0, History(0, 0, 0, 0, [], []))
  }

  // The slot allocator.

  /** virtio_can_alloc_tx_idx; BUG_ON shows as `crashed`. */
  function AllocTxIdx(s: State): (State, int) {
    if s.inflight >= ECHO_SKB_MAX then (s.(crashed := true), -1)
    else
      var counted := s.(inflight := s.inflight + 1);
      if s.free == [] then (counted, -1) else (counted.(free := s.free[1..]), s.free[0])
  }

  /** virtio_can_free_tx_idx. */
  function FreeTxIdx(s: State, idx: int): State {
    if !(0 <= idx < ECHO_SKB_MAX) || s.inflight == 0 then s.(crashed := true)
    else s.(free := [idx] + s.free, inflight := s.inflight - 1)
  }

  /** list_del: the list without that message. */
  function Without(list: seq<TxMsg>, m: TxMsg): seq<TxMsg> {
    if list == [] then [] else if list[0] == m then list[1..] else [list[0]] + Without(list[1..], m)
  }

  // virtio_can_start_xmit, stage by stage.

  function XmitCheck(c: Config, s: State): State {
    s.(xmit := if s.inflight >= TxLimit(c) then MustStop else Admitted)
  }

  function XmitStop(s: State): State { s.(link := s.link.(stopped := true), xmit := Idle) }

  /** First locked region and the BUG_ON after it. */
  function XmitReserve(s: State): State {
    var (t, idx) := AllocTxIdx(s);
    if t.crashed then t
    else
      var m := TxMsg(s.serials, idx);
      t.(list := t.list + [m], serials := s.serials + 1, xmit := Reserved(m), crashed := idx < 0)
  }

  /** can_put_echo_skb: an occupied slot keeps what it has, and nothing is stored without memory;
      its result is ignored. */
  function XmitEcho(s: State, stored: bool): State
    requires s.xmit.Reserved?
  {
    var m := s.xmit.msg;
    s.(xmit := Echoed(m), echo := if m.putidx in s.echo || !stored then s.echo else s.echo[m.putidx := m.serial])
  }

  predicate RingHasRoom(c: Config, s: State) { s.numFree >= PerMessage(c) }

  function Refused(s: State): State
    requires s.xmit.Echoed?
  {
    var m := s.xmit.msg;
    s.(list := Without(s.list, m), xmit := MustStop,
       hist := s.hist.(failed := s.hist.failed + 1, gone := s.hist.gone + [m.serial]))
  }

  /** Second locked region: virtqueue_add_sgs and what follows its failure. */
  function XmitAdd(c: Config, s: State, ringWorks: bool): State
    requires s.xmit.Echoed?
  {
    if ringWorks && RingHasRoom(c, s) then
      s.(numFree := s.numFree - PerMessage(c), device := s.device + [s.xmit.msg], xmit := Idle,
         hist := s.hist.(added := s.hist.added + 1))
    else FreeTxIdx(Refused(s), s.xmit.msg.putidx)
  }

  // Completion, suspend and resume.

  /** The device is done with one of its messages, in whatever order it likes. */
  function DeviceComplete(s: State, which: nat): State
    requires which < |s.device|
  {
    s.(device := s.device[..which] + s.device[which + 1..], used := s.used + [s.device[which]])
  }

  function Reaped(h: History, m: TxMsg, inactive: bool): History {
    if inactive then h.(dropped := h.dropped + 1, gone := h.gone + [m.serial])
    else h.(packets := h.packets + 1, gone := h.gone + [m.serial])
  }

  /** virtqueue_get_buf, the echo handed on or dropped, and list_del. */
  function Taken(c: Config, s: State, inactive: bool): State
    requires s.used != []
  {
    var m := s.used[0];
    s.(used := s.used[1..], numFree := s.numFree + PerMessage(c), echo := s.echo - {m.putidx},
       list := Without(s.list, m), link := s.link.(wakeDue := true), hist := Reaped(s.hist, m, inactive))
  }

  /** The controller does not echo. */
  predicate Inactive(s: State) { s.link.canState >= BUS_OFF }

  /** The locked region of virtio_can_read_tx_queue. */
  function ReadTx(c: Config, s: State, inactive: bool): State {
    if s.used == [] then s else FreeTxIdx(Taken(c, s, inactive), s.used[0].putidx)
  }

  /** The flow control at the end of virtio_can_read_tx_queue. */
  function WakeCheck(s: State): State { s.(link := s.link.(stopped := false, wakeDue := false)) }

  function SerialsOf(list: seq<TxMsg>): seq<int> {
    if list == [] then [] else [list[0].serial] + SerialsOf(list[1..])
  }

  /** virtio_can_freeze with virtio_can_del_vq: every listed message is freed, no index returned. */
  function Freeze(c: Config, s: State): State {
    s.(link := s.link.(stopped := s.link.up || s.link.stopped, canState := SLEEPING, running := false),
       device := [], used := [], numFree := c.ringSize,
       list := [], hist := s.hist.(gone := s.hist.gone + SerialsOf(s.list), lost := s.hist.lost + s.list))
  }

  /** virtio_can_restore. */
  function Restore(s: State): State {
    s.(link := s.link.(canState := ERROR_ACTIVE, running := true, stopped := !s.link.up && s.link.stopped))
  }

  // The interface.

  /** virtio_can_open. */
  function Opened(s: State): State { s.(link := s.link.(canState := ERROR_ACTIVE, up := true, stopped := false)) }

  /** virtio_can_close; close_candev drops whatever is in the echo slots. */
  function Closed(s: State): State {
    s.(link := s.link.(canState := STOPPED, up := false, stopped := true), echo := map[])
  }

  /** The receive side turns the controller off. */
  function TurnedOff(s: State): State {
    if s.link.canState < BUS_OFF then s.(link := s.link.(canState := BUS_OFF)) else s
  }

  /** A restart, which the CAN core allows in bus-off only: it drops what is in the echo slots, then calls
      virtio_can_set_mode. */
  function Restarted(s: State): State {
    s.(link := s.link.(canState := ERROR_ACTIVE, stopped := false), echo := map[])
  }

  datatype Step =
    | DoCheck | DoStop | DoReserve | DoEcho(stored: bool) | DoAdd(ringWorks: bool)
    | DoComplete(which: nat) | DoRead | DoWake | DoFreeze | DoRestore
    | DoOpen | DoClose | DoBusOff | DoRestart

  predicate Enabled(s: State, step: Step) {
    && !s.crashed
    && match step
       case DoCheck => s.link.running && s.link.up && !s.link.stopped && s.xmit == Idle
       case DoStop => s.xmit == MustStop
       case DoReserve => s.xmit == Admitted
       case DoEcho(_) => s.xmit.Reserved?
       case DoAdd(_) => s.xmit.Echoed?
       case DoComplete(which) => s.link.running && which < |s.device|
       case DoRead => s.link.running && !s.link.wakeDue
       case DoWake => s.link.wakeDue
       case DoFreeze => s.link.running && s.xmit == Idle && !s.link.wakeDue
       case DoRestore => !s.link.running
       case DoOpen => s.link.running && !s.link.up
       case DoClose => s.link.running && s.link.up && s.xmit == Idle
       case DoBusOff => s.link.running
       case DoRestart => s.link.running && s.link.up && s.link.canState == BUS_OFF
  }

  function Next(c: Config, s: State, step: Step): State
    requires Enabled(s, step)
  {
    match step
    case DoCheck => XmitCheck(c, s)
    case DoStop => XmitStop(s)
    case DoReserve => XmitReserve(s)
    case DoEcho(stored) => XmitEcho(s, stored)
    case DoAdd(ringWorks) => XmitAdd(c, s, ringWorks)
    case DoComplete(which) => DeviceComplete(s, which)
    case DoRead => ReadTx(c, s, Inactive(s))
    case DoWake => WakeCheck(s)
    case DoFreeze => Freeze(c, s)
    case DoRestore => Restore(s)
    case DoOpen => Opened(s)
    case DoClose => Closed(s)
    case DoBusOff => TurnedOff(s)
    case DoRestart => Restarted(s)
  }

  ghost predicate Takes(c: Config, s: State, step: Step, t: State) {
    Enabled(s, step) && t == Next(c, s, step)
  }

  ghost predicate StepTaken(c: Config, states: seq<State>, steps: seq<Step>, i: int)
    requires 0 <= i < |steps| < |states|
  {
    Takes(c, states[i], steps[i], states[i + 1])
  }

  ghost predicate Execution(c: Config, states: seq<State>, steps: seq<Step>) {
    && |states| == |steps| + 1
    && states[0] == Probed(c)
    && forall i :: 0 <= i < |steps| ==> StepTaken(c, states, steps, i)
  }

  // Invariants.

  function SlotsOf(list: seq<TxMsg>): seq<int> {
    if list == [] then [] else [list[0].putidx] + SlotsOf(list[1..])
  }

  /** Is m the message whose transmission is between the two locked regions? */
  function InHand(pc: XmitPc, m: TxMsg): nat {
    if (pc.Reserved? || pc.Echoed?) && pc.msg == m then 1 else 0
  }

  function HandSize(pc: XmitPc): nat { if pc.Reserved? || pc.Echoed? then 1 else 0 }

  function OnRing(s: State): nat { |s.device| + |s.used| }

  /** Every index is free, held by a listed message or lost in a suspend, exactly once. */
  ghost predicate SlotLaw(free: seq<int>, list: seq<TxMsg>, lost: seq<TxMsg>) {
    && |free| + |list| + |lost| == ECHO_SKB_MAX
    && forall x {:trigger Count(free, x)} ::
         Count(free, x) + Count(SlotsOf(list), x) + Count(SlotsOf(lost), x) == if 0 <= x < ECHO_SKB_MAX then 1 else 0
  }

  /** Every message ever allocated is listed or has left the list, exactly once. */
  ghost predicate SerialLaw(list: seq<TxMsg>, gone: seq<int>, serials: nat) {
    forall x {:trigger Count(gone, x)} ::
      Count(SerialsOf(list), x) + Count(gone, x) == if 0 <= x < serials then 1 else 0
  }

  /** The list holds what the ring holds and what is in hand, nothing else. */
  ghost predicate ListLaw(list: seq<TxMsg>, device: seq<TxMsg>, used: seq<TxMsg>, pc: XmitPc) {
    && |list| == |device| + |used| + HandSize(pc)
    && forall m {:trigger Count(list, m)} ::
         Count(list, m) == Count(device, m) + Count(used, m) + InHand(pc, m)
  }

  ghost predicate FlowLaw(c: Config, s: State) {
    && !s.crashed
    && s.inflight == |s.list| + |s.hist.lost|
    && s.inflight <= TxLimit(c)
    && (s.xmit == Admitted ==> s.inflight < TxLimit(c))
    && s.numFree + PerMessage(c) * OnRing(s) == c.ringSize
    && s.hist.added == s.hist.packets + s.hist.dropped + OnRing(s) + |s.hist.lost|
    && (!s.link.running ==> s.xmit == Idle && s.list == [] && !s.link.wakeDue)
    && (!s.link.up ==> s.xmit == Idle)
  }

  ghost predicate Inv(c: Config, s: State) {
    && SlotLaw(s.free, s.list, s.hist.lost)
    && SerialLaw(s.list, s.hist.gone, s.serials)
    && ListLaw(s.list, s.device, s.used, s.xmit)
    && FlowLaw(c, s)
  }

  lemma {:induction false} SlotsAppend(a: seq<TxMsg>, b: seq<TxMsg>)
    ensures SlotsOf(a + b) == SlotsOf(a) + SlotsOf(b)
  {
    if a == [] {
      assert a + b == b;
    } else {
      assert (a + b)[0] == a[0] && (a + b)[1..] == a[1..] + b;
      SlotsAppend(a[1..], b);
      assert SlotsOf(a + b) == [a[0].putidx] + (SlotsOf(a[1..]) + SlotsOf(b));
    }
  }

  lemma {:induction false} SerialsAppend(a: seq<TxMsg>, b: seq<TxMsg>)
    ensures SerialsOf(a + b) == SerialsOf(a) + SerialsOf(b)
  {
    if a == [] {
      assert a + b == b;
    } else {
      assert (a + b)[0] == a[0] && (a + b)[1..] == a[1..] + b;
      SerialsAppend(a[1..], b);
      assert SerialsOf(a + b) == [a[0].serial] + (SerialsOf(a[1..]) + SerialsOf(b));
    }
  }

  lemma {:induction false} WithoutCounts(list: seq<TxMsg>, m: TxMsg, n: TxMsg, x: int)
    requires m in list
    ensures |Without(list, m)| == |list| - 1
    ensures Count(list, n) == Count(Without(list, m), n) + if m == n then 1 else 0
    ensures Count(SlotsOf(list), x) == Count(SlotsOf(Without(list, m)), x) + if m.putidx == x then 1 else 0
    ensures Count(SerialsOf(list), x) == Count(SerialsOf(Without(list, m)), x) + if m.serial == x then 1 else 0
  {
    if list[0] != m {
      WithoutCounts(list[1..], m, n, x);
      assert Without(list, m)[1..] == Without(list[1..], m);
    }
  }

  // Each law, one change at a time.

  lemma TakeSlot(free: seq<int>, list: seq<TxMsg>, lost: seq<TxMsg>, m: TxMsg)
    requires SlotLaw(free, list, lost) && free != [] && m.putidx == free[0]
    ensures 0 <= free[0] < ECHO_SKB_MAX
    ensures SlotLaw(free[1..], list + [m], lost)
  {
    assert Count(free, free[0]) > 0;
    SlotsAppend(list, [m]);
    forall x ensures Count(free[1..], x) + Count(SlotsOf(list + [m]), x) + Count(SlotsOf(lost), x)
                     == if 0 <= x < ECHO_SKB_MAX then 1 else 0
    {
      CountAppend(SlotsOf(list), SlotsOf([m]), x);
      assert Count(free, x) == Count(free[1..], x) + if x == free[0] then 1 else 0;
    }
  }

  lemma GiveSlotBack(free: seq<int>, list: seq<TxMsg>, lost: seq<TxMsg>, m: TxMsg)
    requires SlotLaw(free, list, lost) && m in list
    ensures 0 <= m.putidx < ECHO_SKB_MAX
    ensures SlotLaw([m.putidx] + free, Without(list, m), lost)
  {
    WithoutCounts(list, m, m, m.putidx);
    assert Count(free, m.putidx) >= 0;
    forall x ensures Count([m.putidx] + free, x) + Count(SlotsOf(Without(list, m)), x) + Count(SlotsOf(lost), x)
                     == if 0 <= x < ECHO_SKB_MAX then 1 else 0
    {
      WithoutCounts(list, m, m, x);
      assert ([m.putidx] + free)[1..] == free;
      assert Count(free, x) >= 0;
    }
  }

  lemma EnterList(list: seq<TxMsg>, gone: seq<int>, serials: nat, m: TxMsg)
    requires SerialLaw(list, gone, serials) && m.serial == serials
    ensures SerialLaw(list + [m], gone, serials + 1)
  {
    SerialsAppend(list, [m]);
    forall x ensures Count(SerialsOf(list + [m]), x) + Count(gone, x) == if 0 <= x < serials + 1 then 1 else 0 {
      CountAppend(SerialsOf(list), SerialsOf([m]), x);
    }
  }

  lemma LeaveList(list: seq<TxMsg>, gone: seq<int>, serials: nat, m: TxMsg)
    requires SerialLaw(list, gone, serials) && m in list
    ensures SerialLaw(Without(list, m), gone + [m.serial], serials)
  {
    forall x ensures Count(SerialsOf(Without(list, m)), x) + Count(gone + [m.serial], x)
                     == if 0 <= x < serials then 1 else 0
    {
      WithoutCounts(list, m, m, x);
      CountAppend(gone, [m.serial], x);
    }
  }

  lemma ListGrows(list: seq<TxMsg>, device: seq<TxMsg>, used: seq<TxMsg>, m: TxMsg)
    requires ListLaw(list, device, used, Admitted)
    ensures ListLaw(list + [m], device, used, Reserved(m))
  {
    forall n ensures Count(list + [m], n) == Count(device, n) + Count(used, n) + InHand(Reserved(m), n) {
      CountAppend(list, [m], n);
    }
  }

  lemma HandToRing(list: seq<TxMsg>, device: seq<TxMsg>, used: seq<TxMsg>, m: TxMsg)
    requires ListLaw(list, device, used, Echoed(m))
    ensures ListLaw(list, device + [m], used, Idle)
  {
    forall n ensures Count(list, n) == Count(device + [m], n) + Count(used, n) {
      CountAppend(device, [m], n);
    }
  }

  lemma HandDropped(list: seq<TxMsg>, device: seq<TxMsg>, used: seq<TxMsg>, m: TxMsg)
    requires ListLaw(list, device, used, Echoed(m))
    ensures m in list && ListLaw(Without(list, m), device, used, MustStop)
  {
    CountedIffIn(list, m);
    forall n ensures Count(Without(list, m), n) == Count(device, n) + Count(used, n) {
      WithoutCounts(list, m, n, 0);
    }
    WithoutCounts(list, m, m, 0);
  }

  lemma RingToUsed(list: seq<TxMsg>, device: seq<TxMsg>, used: seq<TxMsg>, pc: XmitPc, which: nat)
    requires ListLaw(list, device, used, pc) && which < |device|
    ensures ListLaw(list, device[..which] + device[which + 1..], used + [device[which]], pc)
  {
    var rest := device[..which] + device[which + 1..];
    forall n ensures Count(list, n) == Count(rest, n) + Count(used + [device[which]], n) + InHand(pc, n) {
      CountSplit(device, which, n);
      CountAppend(used, [device[which]], n);
    }
  }

  lemma UsedReaped(list: seq<TxMsg>, device: seq<TxMsg>, used: seq<TxMsg>, pc: XmitPc)
    requires ListLaw(list, device, used, pc) && used != []
    ensures used[0] in list && ListLaw(Without(list, used[0]), device, used[1..], pc)
  {
    CountedIffIn(list, used[0]);
    forall n ensures Count(Without(list, used[0]), n) == Count(device, n) + Count(used[1..], n) + InHand(pc, n) {
      WithoutCounts(list, used[0], n, 0);
    }
    WithoutCounts(list, used[0], used[0], 0);
  }

  lemma AllLost(free: seq<int>, list: seq<TxMsg>, lost: seq<TxMsg>, gone: seq<int>, serials: nat)
    requires SlotLaw(free, list, lost) && SerialLaw(list, gone, serials)
    ensures SlotLaw(free, [], lost + list) && SerialLaw([], gone + SerialsOf(list), serials)
  {
    SlotsAppend(lost, list);
    forall x ensures Count(free, x) + Count(SlotsOf([]), x) + Count(SlotsOf(lost + list), x)
                     == if 0 <= x < ECHO_SKB_MAX then 1 else 0
    {
      CountAppend(SlotsOf(lost), SlotsOf(list), x);
    }
    forall x ensures Count(SerialsOf([]), x) + Count(gone + SerialsOf(list), x) == if 0 <= x < serials then 1 else 0 {
      CountAppend(gone, SerialsOf(list), x);
    }
  }

  // The invariant, one step at a time.

  lemma ReserveKeepsInv(c: Config, s: State)
    requires Inv(c, s) && s.xmit == Admitted
    ensures Inv(c, XmitReserve(s))
  {
    var m := TxMsg(s.serials, s.free[0]);
    TakeSlot(s.free, s.list, s.hist.lost, m);
    EnterList(s.list, s.hist.gone, s.serials, m);
    ListGrows(s.list, s.device, s.used, m);
  }

  lemma AddKeepsInv(c: Config, s: State, ringWorks: bool)
    requires Inv(c, s) && s.xmit.Echoed?
    ensures Inv(c, XmitAdd(c, s, ringWorks))
  {
    if ringWorks && RingHasRoom(c, s) {
      HandToRing(s.list, s.device, s.used, s.xmit.msg);
    } else {
      FailedAddKeepsInv(c, s);
    }
  }

  lemma FailedAddKeepsInv(c: Config, s: State)
    requires Inv(c, s) && s.xmit.Echoed?
    ensures Inv(c, FreeTxIdx(Refused(s), s.xmit.msg.putidx))
  {
    var m := s.xmit.msg;
    HandDropped(s.list, s.device, s.used, m);
    GiveSlotBack(s.free, s.list, s.hist.lost, m);
    LeaveList(s.list, s.hist.gone, s.serials, m);
  }

  lemma ReadKeepsInv(c: Config, s: State, inactive: bool)
    requires Inv(c, s) && s.used != [] && s.link.running
    ensures Inv(c, ReadTx(c, s, inactive))
  {
    UsedReaped(s.list, s.device, s.used, s.xmit);
    GiveSlotBack(s.free, s.list, s.hist.lost, s.used[0]);
    LeaveList(s.list, s.hist.gone, s.serials, s.used[0]);
  }

  lemma StepKeepsInv(c: Config, s: State, step: Step)
    requires Inv(c, s) && Enabled(s, step)
    ensures Inv(c, Next(c, s, step))
  {
    match step
    case DoReserve => ReserveKeepsInv(c, s);
    case DoAdd(ringWorks) => AddKeepsInv(c, s, ringWorks);
    case DoComplete(which) => RingToUsed(s.list, s.device, s.used, s.xmit, which);
    case DoRead => if s.used != [] { ReadKeepsInv(c, s, Inactive(s)); }
    case DoFreeze => AllLost(s.free, s.list, s.hist.lost, s.hist.gone, s.serials);
    case _ =>
  }

  lemma ProbedInv(c: Config)
    ensures Inv(c, Probed(c))
  {
    forall x ensures Count(Range(ECHO_SKB_MAX), x) == if 0 <= x < ECHO_SKB_MAX then 1 else 0 {
      CountRange(ECHO_SKB_MAX, x);
    }
  }

  lemma {:induction false} ExecutionKeepsInv(c: Config, states: seq<State>, steps: seq<Step>, n: nat)
    requires Execution(c, states, steps) && n < |states|
    ensures Inv(c, states[n])
  {
    if n > 0 {
      ExecutionKeepsInv(c, states, steps, n - 1);
      assert StepTaken(c, states, steps, n - 1);
      StepKeepsInv(c, states[n - 1], steps[n - 1]);
    } else {
      ProbedInv(c);
    }
  }

  // What the invariant promises in every interleaving.

  /** No index is owned twice, in-flight count and free list always add up, and no allocation
      or release hits a BUG_ON or an empty free list. */
  lemma SlotOwnership(c: Config, states: seq<State>, steps: seq<Step>, n: nat)
    requires Execution(c, states, steps) && n < |states|
    ensures var s := states[n];
            && !s.crashed
            && |s.free| + s.inflight == 128
            && s.inflight <= TxLimit(c)
            && (s.xmit == Admitted ==> s.free != [])
            && Distinct(s.free + SlotsOf(s.list) + SlotsOf(s.hist.lost))
            && forall i :: 0 <= i < 128 <==> i in s.free + SlotsOf(s.list) + SlotsOf(s.hist.lost)
  {
    ExecutionKeepsInv(c, states, steps, n);
    var s := states[n];
    var all := s.free + SlotsOf(s.list) + SlotsOf(s.hist.lost);
    forall x ensures Count(all, x) == if 0 <= x < ECHO_SKB_MAX then 1 else 0 {
      CountAppend(s.free + SlotsOf(s.list), SlotsOf(s.hist.lost), x);
      CountAppend(s.free, SlotsOf(s.list), x);
    }
    CountedOnce(all);
    forall i ensures 0 <= i < ECHO_SKB_MAX <==> i in all { CountedIffIn(all, i); }
  }

  /** The ring has room for every message that reaches it, so an add can only fail because the
      ring itself is broken. */
  lemma FlowControlSuffices(c: Config, states: seq<State>, steps: seq<Step>, n: nat)
    requires Execution(c, states, steps) && n < |states| && states[n].xmit.Echoed?
    ensures RingHasRoom(c, states[n])
    ensures XmitAdd(c, states[n], true).hist.added == states[n].hist.added + 1
  {
    ExecutionKeepsInv(c, states, steps, n);
    var s := states[n];
    assert OnRing(s) + 1 <= TxLimit(c);
    if !c.indirect { assert 2 * TxLimit(c) <= c.ringSize; }
  }

  /** Every message added to the ring is counted as sent, dropped as an echo, still on the ring or
      lost in a suspend; what the device hands back is always listed; every message allocated so far
      is listed or left the list, and did so once. */
  lemma NothingSentIsLost(c: Config, states: seq<State>, steps: seq<Step>, n: nat)
    requires Execution(c, states, steps) && n < |states|
    ensures var s := states[n];
            && s.hist.added == s.hist.packets + s.hist.dropped + OnRing(s) + |s.hist.lost|
            && (forall m :: m in s.device + s.used ==> m in s.list)
            && Distinct(SerialsOf(s.list) + s.hist.gone)
            && forall i :: 0 <= i < s.serials <==> i in SerialsOf(s.list) + s.hist.gone
  {
    ExecutionKeepsInv(c, states, steps, n);
    var s := states[n];
    forall m | m in s.device + s.used ensures m in s.list {
      CountedIffIn(s.device, m);
      CountedIffIn(s.used, m);
      CountedIffIn(s.list, m);
    }
    var all := SerialsOf(s.list) + s.hist.gone;
    forall x ensures Count(all, x) == if 0 <= x < s.serials then 1 else 0 {
      CountAppend(SerialsOf(s.list), s.hist.gone, x);
    }
    CountedOnce(all);
    forall i ensures 0 <= i < s.serials <==> i in all { CountedIffIn(all, i); }
  }

  // What single calls do.

  /** The checks in the allocator fire on exactly the calls they are meant for. */
  lemma BugOnsFire(s: State, idx: int)
    requires !s.crashed
    ensures AllocTxIdx(s).0.crashed <==> s.inflight >= 128
    ensures FreeTxIdx(s, idx).crashed <==> idx < 0 || idx >= 128 || s.inflight == 0
    ensures XmitReserve(s).crashed <==> s.inflight >= 128 || s.free == [] || s.free[0] < 0
  {
  }

  /** A completion gives its index back as the next to be taken, empties its echo slot, unlists its
      message, and counts it as sent if the controller was below bus-off, else as dropped. */
  lemma CompletionCounts(c: Config, s: State)
    requires Inv(c, s) && Enabled(s, DoRead) && s.used != []
    ensures var m, t := s.used[0], Next(c, s, DoRead);
            && t.used == s.used[1..] && t.free == [m.putidx] + s.free && t.inflight == s.inflight - 1
            && t.echo == s.echo - {m.putidx} && t.numFree == s.numFree + (if c.indirect then 1 else 2)
            && t.link == s.link.(wakeDue := true) && t.xmit == s.xmit && t.device == s.device
            && t.hist.packets == s.hist.packets + (if s.link.canState < 3 then 1 else 0)
            && t.hist.dropped == s.hist.dropped + (if s.link.canState < 3 then 0 else 1)
  {
    ReadKeepsInv(c, s, Inactive(s));
  }

  /** Runs leave nothing out: the device completes any of its messages, a frame may fail to be stored and
      the ring to take it, the controller turns off at any time, and the interface is opened and closed,
      suspended and resumed, between transmissions, whatever is on the ring. */
  lemma AnythingMayHappen(s: State, which: nat, works: bool)
    requires !s.crashed
    ensures Enabled(s, DoComplete(which)) <==> s.link.running && which < |s.device|
    ensures Enabled(s, DoEcho(works)) <==> s.xmit.Reserved?
    ensures Enabled(s, DoAdd(works)) <==> s.xmit.Echoed?
    ensures Enabled(s, DoCheck) <==> s.link.running && s.link.up && !s.link.stopped && s.xmit == Idle
    ensures Enabled(s, DoStop) <==> s.xmit == MustStop
    ensures Enabled(s, DoReserve) <==> s.xmit == Admitted
    ensures Enabled(s, DoBusOff) <==> s.link.running
    ensures Enabled(s, DoRead) || Enabled(s, DoWake) <==> s.link.running || s.link.wakeDue
    ensures s.link.running && s.xmit == Idle ==>
              (Enabled(s, DoClose) <==> s.link.up) && (Enabled(s, DoFreeze) <==> !s.link.wakeDue)
    ensures Enabled(s, DoOpen) <==> s.link.running && !s.link.up
    ensures Enabled(s, DoRestore) <==> !s.link.running
    ensures Enabled(s, DoRestart) <==> s.link.running && s.link.up && s.link.canState == 3
  {
  }

  /** What the calls from outside leave: controller state, interface and queue. */
  lemma InterfaceEffects(c: Config, s: State)
    ensures Opened(s).link == s.link.(canState := 0, up := true, stopped := false)
    ensures Closed(s).link == s.link.(canState := 4, up := false, stopped := true) && Closed(s).echo == map[]
    ensures Closed(s).list == s.list && Closed(s).free == s.free && Closed(s).device == s.device
    ensures Restarted(s).link == s.link.(canState := 0, stopped := false) && Restarted(s).echo == map[]
    ensures TurnedOff(s).link == s.link.(canState := if s.link.canState < 3 then 3 else s.link.canState)
    ensures Freeze(c, s).link == s.link.(canState := 5, running := false, stopped := s.link.up || s.link.stopped)
    ensures Freeze(c, s).free == s.free && Freeze(c, s).inflight == s.inflight && Freeze(c, s).echo == s.echo
    ensures Restore(s).link == s.link.(canState := 0, running := true, stopped := !s.link.up && s.link.stopped)
    ensures XmitStop(s).link == s.link.(stopped := true)
    ensures WakeCheck(s).link == s.link.(stopped := false, wakeDue := false)
  {
  }

  // Order.

  /** The device is offered messages in the order in which they were allocated. */
  ghost predicate OfferedInOrder(s: State) {
    && (forall i, j :: 0 <= i < j < |s.device| ==> s.device[i].serial < s.device[j].serial)
    && (forall i :: 0 <= i < |s.device| ==> s.device[i].serial < s.serials)
    && (s.xmit.Reserved? || s.xmit.Echoed? ==>
          s.xmit.msg.serial < s.serials && forall i :: 0 <= i < |s.device| ==> s.device[i].serial < s.xmit.msg.serial)
  }

  lemma StepKeepsOffer(c: Config, s: State, step: Step)
    requires OfferedInOrder(s) && Enabled(s, step)
    ensures OfferedInOrder(Next(c, s, step))
  {
    match step
    case DoAdd(ringWorks) => AddKeepsOffer(c, s, ringWorks);
    case DoRead => ReadKeepsOffer(c, s, Inactive(s));
    case DoComplete(which) => CompleteKeepsOffer(s, which);
    case _ =>
  }

  lemma AddKeepsOffer(c: Config, s: State, ringWorks: bool)
    requires OfferedInOrder(s) && s.xmit.Echoed?
    ensures OfferedInOrder(XmitAdd(c, s, ringWorks))
  {
  }

  lemma ReadKeepsOffer(c: Config, s: State, inactive: bool)
    requires OfferedInOrder(s)
    ensures OfferedInOrder(ReadTx(c, s, inactive))
  {
  }

  lemma CompleteKeepsOffer(s: State, which: nat)
    requires OfferedInOrder(s) && which < |s.device|
    ensures OfferedInOrder(DeviceComplete(s, which))
  {
    var t := DeviceComplete(s, which);
    assert forall i :: 0 <= i < |t.device| ==> t.device[i] == s.device[if i < which then i else i + 1];
  }

  lemma {:induction false} ExecutionKeepsOffer(c: Config, states: seq<State>, steps: seq<Step>, n: nat)
    requires Execution(c, states, steps) && n < |states|
    ensures OfferedInOrder(states[n])
  {
    if n > 0 {
      ExecutionKeepsOffer(c, states, steps, n - 1);
      assert StepTaken(c, states, steps, n - 1);
      StepKeepsOffer(c, states[n - 1], steps[n - 1]);
    }
  }

  /** The message the device completes in a step. */
  function Completed(s: State, step: Step): seq<TxMsg> {
    if step.DoComplete? && step.which < |s.device| then [s.device[step.which]] else []
  }

  /** The message the driver takes off the used ring in a step. */
  function Read(s: State, step: Step): seq<TxMsg> { if step.DoRead? && s.used != [] then [s.used[0]] else [] }

  /** The messages the device completed in the first n steps. */
  function Completions(states: seq<State>, steps: seq<Step>, n: nat): seq<TxMsg>
    requires n <= |steps| < |states|
  {
    if n == 0 then [] else Completions(states, steps, n - 1) + Completed(states[n - 1], steps[n - 1])
  }

  /** The messages the driver took off the used ring in the first n steps. */
  function Reads(states: seq<State>, steps: seq<Step>, n: nat): seq<TxMsg>
    requires n <= |steps| < |states|
  {
    if n == 0 then [] else Reads(states, steps, n - 1) + Read(states[n - 1], steps[n - 1])
  }

  /** Without a suspend, messages are read in the order in which the device completed them, each once. */
  lemma {:induction false} ReadInOrderOfCompletion(c: Config, states: seq<State>, steps: seq<Step>, n: nat)
    requires Execution(c, states, steps) && n < |states|
    requires forall i :: 0 <= i < n ==> steps[i] != DoFreeze
    ensures Completions(states, steps, n) == Reads(states, steps, n) + states[n].used
  {
    if n > 0 {
      ReadInOrderOfCompletion(c, states, steps, n - 1);
      UsedGrowsAndShrinks(c, states, steps, n - 1);
      QueueMoves(Completions(states, steps, n - 1), Reads(states, steps, n - 1), states[n - 1].used,
                 Completed(states[n - 1], steps[n - 1]), Read(states[n - 1], steps[n - 1]), states[n].used);
    }
  }

  lemma QueueMoves(all: seq<TxMsg>, taken: seq<TxMsg>, queue: seq<TxMsg>, added: seq<TxMsg>, removed: seq<TxMsg>,
                   left: seq<TxMsg>)
    requires all == taken + queue && queue + added == removed + left
    ensures all + added == taken + removed + left
  {
    Regroup(taken, queue, added);
    Regroup(taken, removed, left);
  }

  lemma UsedGrowsAndShrinks(c: Config, states: seq<State>, steps: seq<Step>, n: nat)
    requires Execution(c, states, steps) && n < |steps| && steps[n] != DoFreeze
    ensures states[n].used + Completed(states[n], steps[n]) == Read(states[n], steps[n]) + states[n + 1].used
  {
    assert StepTaken(c, states, steps, n);
  }

  // Suspending with messages in flight gives up their indices for good.

  /** What only grows in a step. */
  predicate Grows(s: State, t: State) {
    && s.hist.lost <= t.hist.lost && s.hist.failed <= t.hist.failed && s.serials <= t.serials
    && (t.xmit.Reserved? ==> t.xmit == s.xmit || t.xmit.msg.serial >= s.serials)
  }

  lemma StepOnlyGrows(c: Config, s: State, step: Step)
    requires Enabled(s, step)
    ensures Grows(s, Next(c, s, step))
  {
    match step
    case DoAdd(ringWorks) => AddOnlyGrows(c, s, ringWorks);
    case DoRead => ReadOnlyGrows(c, s, Inactive(s));
    case _ =>
  }

  lemma AddOnlyGrows(c: Config, s: State, ringWorks: bool)
    requires s.xmit.Echoed?
    ensures Grows(s, XmitAdd(c, s, ringWorks))
  {
  }

  lemma ReadOnlyGrows(c: Config, s: State, inactive: bool)
    ensures Grows(s, ReadTx(c, s, inactive))
  {
    if s.used != [] {
      TakenOnlyGrows(c, s, inactive);
      FreeOnlyGrows(Taken(c, s, inactive), s.used[0].putidx);
    }
  }

  lemma TakenOnlyGrows(c: Config, s: State, inactive: bool)
    requires s.used != []
    ensures Grows(s, Taken(c, s, inactive)) && Taken(c, s, inactive).xmit == s.xmit
  {
  }

  lemma FreeOnlyGrows(s: State, idx: int)
    ensures Grows(s, FreeTxIdx(s, idx)) && FreeTxIdx(s, idx).xmit == s.xmit
  {
  }

  lemma {:induction false} LostOnlyGrows(c: Config, states: seq<State>, steps: seq<Step>, n: nat, k: nat)
    requires Execution(c, states, steps) && n <= k < |states|
    ensures states[n].hist.lost <= states[k].hist.lost
  {
    if n < k {
      LostOnlyGrows(c, states, steps, n, k - 1);
      assert StepTaken(c, states, steps, k - 1);
      StepOnlyGrows(c, states[k - 1], steps[k - 1]);
    }
  }

  /** A transmission is admitted exactly when listed plus lost messages are below the limit, so
      each loss shrinks the window for the rest of the device's life. */
  lemma AdmittedIffBelowLimit(c: Config, states: seq<State>, steps: seq<Step>, n: nat)
    requires Execution(c, states, steps) && n < |states| && Enabled(states[n], DoCheck)
    ensures XmitCheck(c, states[n]).xmit == Admitted <==> |states[n].list| + |states[n].hist.lost| < TxLimit(c)
  {
    ExecutionKeepsInv(c, states, steps, n);
  }

  lemma ExhaustedStep(c: Config, s: State, step: Step)
    requires Inv(c, s) && |s.hist.lost| >= TxLimit(c) && Enabled(s, step)
    ensures Next(c, s, step).hist.added == s.hist.added
  {
    assert |s.list| == 0;
  }

  /** Once as many messages were lost as the limit allows, no frame is ever sent again. */
  lemma {:induction false} ExhaustedSendsNothing(c: Config, states: seq<State>, steps: seq<Step>, n: nat, k: nat)
    requires Execution(c, states, steps) && n <= k < |states|
    requires |states[n].hist.lost| >= TxLimit(c)
    ensures states[k].hist.added == states[n].hist.added
  {
    if n < k {
      ExhaustedSendsNothing(c, states, steps, n, k - 1);
      LimitStaysReached(c, states, steps, n, k - 1);
      ExhaustedAt(c, states, steps, k - 1);
    }
  }

  lemma ExhaustedAt(c: Config, states: seq<State>, steps: seq<Step>, n: nat)
    requires Execution(c, states, steps) && n < |steps|
    requires Inv(c, states[n]) && |states[n].hist.lost| >= TxLimit(c)
    ensures states[n + 1].hist.added == states[n].hist.added
  {
    assert StepTaken(c, states, steps, n);
    ExhaustedStep(c, states[n], steps[n]);
  }

  lemma LimitStaysReached(c: Config, states: seq<State>, steps: seq<Step>, n: nat, k: nat)
    requires Execution(c, states, steps) && n <= k < |states|
    requires |states[n].hist.lost| >= TxLimit(c)
    ensures |states[k].hist.lost| >= TxLimit(c) && Inv(c, states[k])
  {
    ExecutionKeepsInv(c, states, steps, k);
    LostOnlyGrows(c, states, steps, n, k);
  }

  // Local echo.

  predicate EchoOwn(s: State, m: TxMsg) { m.putidx in s.echo && s.echo[m.putidx] == m.serial }

  /** On the ring, or in its echo slot and about to be added. */
  predicate Held(s: State, m: TxMsg) { m in s.device || m in s.used || s.xmit == Echoed(m) }

  /** Steps that empty all echo slots. */
  predicate Flushes(step: Step) { step.DoClose? || step.DoRestart? }

  /** Whatever is in the echo slots is older than a message that is about to enter one. */
  ghost predicate SerialBound(s: State) {
    && EchoBelow(s.echo, s.serials)
    && (s.xmit.Reserved? || s.xmit.Echoed? ==> s.xmit.msg.serial < s.serials)
    && (s.xmit.Reserved? ==> EchoBelow(s.echo, s.xmit.msg.serial))
  }

  predicate EchoBelow(echo: map<int, int>, bound: int) { forall i :: i in echo ==> echo[i] < bound }

  lemma StepKeepsSerialBound(c: Config, s: State, step: Step)
    requires SerialBound(s) && Enabled(s, step)
    ensures SerialBound(Next(c, s, step))
  {
    match step
    case DoReserve => ReserveKeepsSerialBound(s);
    case DoEcho(stored) => EchoKeepsSerialBound(s, stored);
    case DoAdd(ringWorks) => AddKeepsSerialBound(c, s, ringWorks);
    case DoRead => ReadKeepsSerialBound(c, s, Inactive(s));
    case _ =>
  }

  lemma ReserveKeepsSerialBound(s: State)
    requires SerialBound(s)
    ensures SerialBound(XmitReserve(s))
  {
  }

  lemma EchoKeepsSerialBound(s: State, stored: bool)
    requires SerialBound(s) && s.xmit.Reserved?
    ensures SerialBound(XmitEcho(s, stored))
  {
  }

  lemma AddKeepsSerialBound(c: Config, s: State, ringWorks: bool)
    requires SerialBound(s) && s.xmit.Echoed?
    ensures SerialBound(XmitAdd(c, s, ringWorks))
  {
  }

  lemma ReadKeepsSerialBound(c: Config, s: State, inactive: bool)
    requires SerialBound(s)
    ensures SerialBound(ReadTx(c, s, inactive))
  {
    if s.used != [] { ReadEmptiesSlot(c, s, inactive); }
  }

  lemma {:induction false} ExecutionKeepsSerialBound(c: Config, states: seq<State>, steps: seq<Step>, n: nat)
    requires Execution(c, states, steps) && n < |states|
    ensures SerialBound(states[n])
  {
    if n > 0 {
      ExecutionKeepsSerialBound(c, states, steps, n - 1);
      assert StepTaken(c, states, steps, n - 1);
      StepKeepsSerialBound(c, states[n - 1], steps[n - 1]);
    }
  }

  lemma FreeIsNotListed(free: seq<int>, list: seq<TxMsg>, lost: seq<TxMsg>, m: TxMsg)
    requires SlotLaw(free, list, lost) && m in list
    ensures m.putidx !in free
  {
    WithoutCounts(list, m, m, m.putidx);
    CountedIffIn(free, m.putidx);
    assert Count(free, m.putidx) == 0;
  }

  lemma HeldIsListed(s: State, m: TxMsg)
    requires ListLaw(s.list, s.device, s.used, s.xmit) && Held(s, m)
    ensures m in s.list
  {
    CountedIffIn(s.device, m);
    CountedIffIn(s.used, m);
    CountedIffIn(s.list, m);
    assert Count(s.list, m) > 0;
  }

  /** A message on the ring and one that is about to enter its echo slot have different slots. */
  lemma HandOwnsItsSlot(c: Config, s: State, m: TxMsg)
    requires Inv(c, s) && s.xmit.Reserved? && Held(s, m)
    ensures s.xmit.msg.putidx != m.putidx
  {
    var h := s.xmit.msg;
    HeldIsListed(s, m);
    CountedIffIn(s.device, m);
    CountedIffIn(s.used, m);
    assert Count(s.list, h) == Count(s.device, h) + Count(s.used, h) + 1;
    WithoutCounts(s.list, m, h, h.putidx);
    CountedIffIn(Without(s.list, m), h);
    WithoutCounts(Without(s.list, m), h, h, h.putidx);
    assert Count(s.free, h.putidx) >= 0;
  }

  /** A message that is on the ring before and after a step keeps its echo, unless the step empties
      all slots; whatever adds have failed. */
  lemma HeldKeepsEcho(c: Config, s: State, step: Step, m: TxMsg)
    requires Inv(c, s) && Enabled(s, step) && Held(s, m) && Held(Next(c, s, step), m)
    ensures EchoOwn(Next(c, s, step), m) <==> EchoOwn(s, m) && !Flushes(step)
  {
    match step
    case DoEcho(_) => HandOwnsItsSlot(c, s, m);
    case DoRead => if s.used != [] { ReadKeepsEcho(c, s, Inactive(s), m); }
    case _ =>
  }

  lemma ReadKeepsEcho(c: Config, s: State, inactive: bool, m: TxMsg)
    requires Inv(c, s) && s.link.running && s.used != [] && Held(ReadTx(c, s, inactive), m)
    ensures EchoOwn(ReadTx(c, s, inactive), m) <==> EchoOwn(s, m)
  {
    var t := ReadTx(c, s, inactive);
    ReadKeepsInv(c, s, inactive);
    HeldIsListed(t, m);
    FreeIsNotListed(t.free, t.list, t.hist.lost, m);
    assert t.free[0] == s.used[0].putidx;
  }

  lemma HeldBefore(c: Config, s: State, step: Step, m: TxMsg)
    requires Enabled(s, step) && Held(Next(c, s, step), m)
    ensures Held(s, m) || (step.DoEcho? && s.xmit == Reserved(m))
  {
    match step
    case DoRead => ReadHeldBefore(c, s, Inactive(s), m);
    case DoComplete(which) => CompleteHeldBefore(s, which, m);
    case DoAdd(ringWorks) => AddHeldBefore(c, s, ringWorks, m);
    case _ =>
  }

  lemma ReadHeldBefore(c: Config, s: State, inactive: bool, m: TxMsg)
    requires Held(ReadTx(c, s, inactive), m)
    ensures Held(s, m)
  {
    if s.used != [] { assert m in s.used[1..] ==> m in s.used; }
  }

  lemma CompleteHeldBefore(s: State, which: nat, m: TxMsg)
    requires which < |s.device| && Held(DeviceComplete(s, which), m)
    ensures Held(s, m)
  {
  }

  lemma AddHeldBefore(c: Config, s: State, ringWorks: bool, m: TxMsg)
    requires s.xmit.Echoed? && Held(XmitAdd(c, s, ringWorks), m)
    ensures Held(s, m)
  {
  }

  /** At step p the frame of m is to be put into its echo slot. */
  ghost predicate PutAt(states: seq<State>, steps: seq<Step>, p: nat, m: TxMsg) {
    p < |steps| < |states| && steps[p].DoEcho? && states[p].xmit == Reserved(m)
  }

  ghost predicate FlushedBetween(steps: seq<Step>, p: nat, n: nat)
    requires n <= |steps|
  {
    exists r :: p < r < n && Flushes(steps[r])
  }

  lemma {:induction false} HeldWasPut(c: Config, states: seq<State>, steps: seq<Step>, n: nat, m: TxMsg)
    requires Execution(c, states, steps) && n < |states| && Held(states[n], m)
    ensures exists p: nat :: p < n && PutAt(states, steps, p, m)
  {
    if n > 0 {
      assert StepTaken(c, states, steps, n - 1);
      HeldBefore(c, states[n - 1], steps[n - 1], m);
      if Held(states[n - 1], m) {
        HeldWasPut(c, states, steps, n - 1, m);
      } else {
        assert PutAt(states, steps, n - 1, m);
      }
    }
  }

  /** A message is put once. */
  lemma {:induction false} PutOnce(c: Config, states: seq<State>, steps: seq<Step>, p: nat, n: nat, m: TxMsg)
    requires Execution(c, states, steps) && PutAt(states, steps, p, m) && p < n < |states|
    ensures m.serial < states[n].serials && states[n].xmit != Reserved(m)
  {
    assert StepTaken(c, states, steps, n - 1);
    if n == p + 1 {
      ExecutionKeepsSerialBound(c, states, steps, p);
    } else {
      PutOnce(c, states, steps, p, n - 1, m);
      StepOnlyGrows(c, states[n - 1], steps[n - 1]);
    }
  }

  /** The frame put into a slot is the one found there if and only if the slot was empty and the
      frame could be stored. */
  lemma EchoedIffSlotWasEmpty(c: Config, states: seq<State>, steps: seq<Step>, p: nat, m: TxMsg)
    requires Execution(c, states, steps) && PutAt(states, steps, p, m)
    ensures EchoOwn(states[p + 1], m) <==> steps[p].stored && m.putidx !in states[p].echo
  {
    assert StepTaken(c, states, steps, p);
    ExecutionKeepsSerialBound(c, states, steps, p);
  }

  lemma {:induction false} OwnSincePut(c: Config, states: seq<State>, steps: seq<Step>, p: nat, n: nat, m: TxMsg)
    requires Execution(c, states, steps) && PutAt(states, steps, p, m) && p < n < |states| && Held(states[n], m)
    ensures EchoOwn(states[n], m)
            <==> steps[p].stored && m.putidx !in states[p].echo && !FlushedBetween(steps, p, n)
  {
    if n == p + 1 {
      EchoedIffSlotWasEmpty(c, states, steps, p, m);
    } else {
      PutOnce(c, states, steps, p, n - 1, m);
      HeldKeepsEchoAt(c, states, steps, n - 1, m);
      OwnSincePut(c, states, steps, p, n - 1, m);
      FlushedLater(steps, p, n);
    }
  }

  lemma HeldKeepsEchoAt(c: Config, states: seq<State>, steps: seq<Step>, n: nat, m: TxMsg)
    requires Execution(c, states, steps) && n < |steps|
    requires Held(states[n + 1], m) && states[n].xmit != Reserved(m)
    ensures Held(states[n], m)
    ensures EchoOwn(states[n + 1], m) <==> EchoOwn(states[n], m) && !Flushes(steps[n])
  {
    ExecutionKeepsInv(c, states, steps, n);
    assert StepTaken(c, states, steps, n);
    HeldBefore(c, states[n], steps[n], m);
    HeldKeepsEcho(c, states[n], steps[n], m);
  }

  lemma FlushedLater(steps: seq<Step>, p: nat, n: nat)
    requires p + 1 < n <= |steps|
    ensures FlushedBetween(steps, p, n) <==> FlushedBetween(steps, p, n - 1) || Flushes(steps[n - 1])
  {
  }

  // Which slots are free and yet occupied.

  /** The failing add that gives index i back with a frame still in its echo slot. */
  predicate SpoilsSlot(c: Config, s: State, step: Step, i: int) {
    && step.DoAdd? && !(step.ringWorks && RingHasRoom(c, s))
    && s.xmit.Echoed? && s.xmit.msg.putidx == i && i in s.echo
  }

  predicate ClearsSlot(s: State, step: Step, i: int) {
    Flushes(step) || (step.DoRead? && s.used != [] && s.used[0].putidx == i)
  }

  /** An add failed on slot i, and the slot has not been emptied since. */
  ghost predicate LeftBehind(c: Config, states: seq<State>, steps: seq<Step>, n: nat, i: int)
    requires n <= |steps| < |states|
  {
    exists q :: && 0 <= q < n && SpoilsSlot(c, states[q], steps[q], i)
                && forall r :: q < r < n ==> !ClearsSlot(states[r], steps[r], i)
  }

  /** Index i is free, or just taken and nothing put into its slot yet. */
  predicate Unput(s: State, i: int) { i in s.free || (s.xmit.Reserved? && s.xmit.msg.putidx == i) }

  lemma LeftBehindLater(c: Config, states: seq<State>, steps: seq<Step>, n: nat, i: int)
    requires n < |steps| < |states|
    ensures LeftBehind(c, states, steps, n + 1, i)
            <==> || SpoilsSlot(c, states[n], steps[n], i)
                 || (LeftBehind(c, states, steps, n, i) && !ClearsSlot(states[n], steps[n], i))
  {
    if LeftBehind(c, states, steps, n, i) && !ClearsSlot(states[n], steps[n], i) {
      var q :| && 0 <= q < n && SpoilsSlot(c, states[q], steps[q], i)
               && forall r :: q < r < n ==> !ClearsSlot(states[r], steps[r], i);
      assert forall r :: q < r < n + 1 ==> !ClearsSlot(states[r], steps[r], i);
    }
  }

  lemma StepKeepsOccupied(c: Config, s: State, step: Step, i: int)
    requires Enabled(s, step) && i in s.echo && !ClearsSlot(s, step, i)
    ensures i in Next(c, s, step).echo
  {
  }

  lemma StepKeepsUnput(c: Config, s: State, step: Step, i: int)
    requires Inv(c, s) && Enabled(s, step)
    requires Unput(Next(c, s, step), i) && i in Next(c, s, step).echo
    ensures SpoilsSlot(c, s, step, i) || (Unput(s, i) && i in s.echo && !ClearsSlot(s, step, i))
  {
    match step
    case DoEcho(_) =>
      CountedIffIn(s.list, s.xmit.msg);
      FreeIsNotListed(s.free, s.list, s.hist.lost, s.xmit.msg);
    case DoAdd(ringWorks) => AddKeepsUnput(c, s, ringWorks, i);
    case DoRead => ReadKeepsUnput(c, s, Inactive(s), i);
    case _ =>
  }

  lemma AddKeepsUnput(c: Config, s: State, ringWorks: bool, i: int)
    requires s.xmit.Echoed? && Unput(XmitAdd(c, s, ringWorks), i) && i in XmitAdd(c, s, ringWorks).echo
    ensures SpoilsSlot(c, s, DoAdd(ringWorks), i) || (Unput(s, i) && i in s.echo)
  {
    if !(ringWorks && RingHasRoom(c, s)) { RefusalFreesSlot(s); }
  }

  lemma RefusalFreesSlot(s: State)
    requires s.xmit.Echoed?
    ensures var t := FreeTxIdx(Refused(s), s.xmit.msg.putidx);
            && t.echo == s.echo && t.xmit == MustStop
            && (t.free == s.free || t.free == [s.xmit.msg.putidx] + s.free)
  {
  }

  lemma ReadKeepsUnput(c: Config, s: State, inactive: bool, i: int)
    requires Unput(ReadTx(c, s, inactive), i) && i in ReadTx(c, s, inactive).echo
    ensures Unput(s, i) && i in s.echo && !ClearsSlot(s, DoRead, i)
  {
    if s.used != [] {
      ReadEmptiesSlot(c, s, inactive);
      assert i != s.used[0].putidx;
    }
  }

  lemma ReadEmptiesSlot(c: Config, s: State, inactive: bool)
    requires s.used != []
    ensures var t := ReadTx(c, s, inactive);
            && t.echo == s.echo - {s.used[0].putidx} && t.xmit == s.xmit
            && (t.free == s.free || t.free == [s.used[0].putidx] + s.free)
  {
  }

  /** The free indices with an occupied echo slot are exactly those left behind by a failed add. */
  lemma {:induction false} OccupiedIffLeftBehind(c: Config, states: seq<State>, steps: seq<Step>, n: nat, i: int)
    requires Execution(c, states, steps) && n < |states|
    ensures LeftBehind(c, states, steps, n, i) ==> i in states[n].echo
    ensures Unput(states[n], i) && i in states[n].echo ==> LeftBehind(c, states, steps, n, i)
  {
    if n > 0 {
      OccupiedIffLeftBehind(c, states, steps, n - 1, i);
      LeftBehindLater(c, states, steps, n - 1, i);
      OccupiedAt(c, states, steps, n - 1, i);
    }
  }

  lemma OccupiedAt(c: Config, states: seq<State>, steps: seq<Step>, n: nat, i: int)
    requires Execution(c, states, steps) && n < |steps|
    ensures SpoilsSlot(c, states[n], steps[n], i) ==> i in states[n + 1].echo
    ensures i in states[n].echo && !ClearsSlot(states[n], steps[n], i) ==> i in states[n + 1].echo
    ensures Unput(states[n + 1], i) && i in states[n + 1].echo ==>
              || SpoilsSlot(c, states[n], steps[n], i)
              || (Unput(states[n], i) && i in states[n].echo && !ClearsSlot(states[n], steps[n], i))
  {
    ExecutionKeepsInv(c, states, steps, n);
    assert StepTaken(c, states, steps, n);
    if i in states[n].echo && !ClearsSlot(states[n], steps[n], i) { StepKeepsOccupied(c, states[n], steps[n], i); }
    if Unput(states[n + 1], i) && i in states[n + 1].echo { StepKeepsUnput(c, states[n], steps[n], i); }
  }

  /** A completed message finds its own frame in its echo slot if and only if the frame could be
      stored, its slot was not left behind by a failed add then, and no slots were emptied since. */
  lemma CompletionEchoesOwnFrame(c: Config, states: seq<State>, steps: seq<Step>, n: nat, m: TxMsg)
    requires Execution(c, states, steps) && n < |states| && m in states[n].used
    ensures exists p: nat :: p < n && PutAt(states, steps, p, m)
    ensures forall p: nat :: p < n && PutAt(states, steps, p, m) ==>
              (EchoOwn(states[n], m)
               <==> && steps[p].stored && !LeftBehind(c, states, steps, p, m.putidx)
                    && !FlushedBetween(steps, p, n))
  {
    HeldWasPut(c, states, steps, n, m);
    forall p: nat | p < n && PutAt(states, steps, p, m)
      ensures EchoOwn(states[n], m)
              <==> steps[p].stored && !LeftBehind(c, states, steps, p, m.putidx) && !FlushedBetween(steps, p, n)
    {
      OwnSincePut(c, states, steps, p, n, m);
      OccupiedIffLeftBehind(c, states, steps, p, m.putidx);
    }
  }

  lemma {:induction false} FailuresOnlyGrow(c: Config, states: seq<State>, steps: seq<Step>, q: nat, n: nat)
    requires Execution(c, states, steps) && q <= n < |states|
    ensures states[q].hist.failed <= states[n].hist.failed
  {
    if q < n {
      FailuresOnlyGrow(c, states, steps, q, n - 1);
      assert StepTaken(c, states, steps, n - 1);
      StepOnlyGrows(c, states[n - 1], steps[n - 1]);
    }
  }

  /** So with all frames stored, no failed adds and no emptied slots every completed message finds
      its own frame. */
  lemma NoFailureNoForeignEcho(c: Config, states: seq<State>, steps: seq<Step>, n: nat)
    requires Execution(c, states, steps) && n < |states| && states[n].hist.failed == 0
    requires forall r :: 0 <= r < n ==> !Flushes(steps[r]) && (steps[r].DoEcho? ==> steps[r].stored)
    ensures forall m :: m in states[n].used ==> EchoOwn(states[n], m)
  {
    forall m | m in states[n].used ensures EchoOwn(states[n], m) {
      CompletionEchoesOwnFrame(c, states, steps, n, m);
      var p: nat :| p < n && PutAt(states, steps, p, m);
      if LeftBehind(c, states, steps, p, m.putidx) {
        var q: nat :| q < p && SpoilsSlot(c, states[q], steps[q], m.putidx);
        SpoiledByFailure(c, states, steps, q, m.putidx);
        FailuresOnlyGrow(c, states, steps, q + 1, n);
      }
    }
  }

  lemma SpoiledByFailure(c: Config, states: seq<State>, steps: seq<Step>, q: nat, i: int)
    requires Execution(c, states, steps) && q < |steps| && SpoilsSlot(c, states[q], steps[q], i)
    ensures states[q + 1].hist.failed > 0
  {
    assert StepTaken(c, states, steps, q);
  }

  /** The failed-add path returns the index but not the echo: its slot is free and still occupied. */
  lemma FailedAddSpoilsSlot(c: Config, s: State)
    requires Inv(c, s) && s.xmit.Echoed? && s.xmit.msg.putidx in s.echo
    ensures var t := XmitAdd(c, s, false);
            && !t.crashed && t.free != [] && t.free[0] == s.xmit.msg.putidx
            && t.free[0] in t.echo && t.echo == s.echo && t.hist.failed == s.hist.failed + 1
  {
    AddKeepsInv(c, s, false);
  }

  // What the code does not keep, and exactly when it does.

  ghost predicate Leads(c: Config, s: State, steps: seq<Step>, t: State)
    decreases |steps|
  {
    if steps == [] then s == t
    else Enabled(s, steps[0]) && Leads(c, Next(c, s, steps[0]), steps[1..], t)
  }

  lemma LeadsCons(c: Config, s: State, step: Step, rest: seq<Step>, t: State)
    requires Enabled(s, step) && Leads(c, Next(c, s, step), rest, t)
    ensures Leads(c, s, [step] + rest, t)
  {
    assert ([step] + rest)[1..] == rest;
  }

  lemma {:induction false} LeadsThen(c: Config, s: State, a: seq<Step>, u: State, b: seq<Step>, t: State)
    requires Leads(c, s, a, u) && Leads(c, u, b, t)
    ensures Leads(c, s, a + b, t)
    decreases |a|
  {
    if a == [] {
      assert a + b == b;
    } else {
      LeadsThen(c, Next(c, s, a[0]), a[1..], u, b, t);
      assert (a + b)[1..] == a[1..] + b;
    }
  }

  /** The queue is stopped and no completion is left that could wake it. */
  predicate Stalled(s: State) { s.link.stopped && s.xmit == Idle && OnRing(s) == 0 && !s.link.wakeDue }

  /** Steps from outside that start the queue: opening the interface, a restart after bus-off, and
      a resume. */
  predicate Starts(step: Step) { step.DoOpen? || step.DoRestart? || step.DoRestore? }

  predicate NoStart(steps: seq<Step>) { forall i :: 0 <= i < |steps| ==> !Starts(steps[i]) }

  /** Only those end a stall; until then nothing is sent. */
  lemma StallStays(c: Config, s: State, step: Step)
    requires Inv(c, s) && Stalled(s) && Enabled(s, step) && !Starts(step)
    ensures Stalled(Next(c, s, step)) && Next(c, s, step).hist.added == s.hist.added
  {
  }

  lemma {:induction false} StalledUntilStarted(c: Config, s: State, steps: seq<Step>, t: State)
    requires Inv(c, s) && Stalled(s) && Leads(c, s, steps, t) && NoStart(steps)
    ensures Stalled(t) && t.hist.added == s.hist.added
    decreases |steps|
  {
    if steps != [] {
      StallStays(c, s, steps[0]);
      StepKeepsInv(c, s, steps[0]);
      StalledUntilStarted(c, Next(c, s, steps[0]), steps[1..], t);
    }
  }

  /** And each of them does: a restart at once, which is possible exactly in bus-off, closing and
      opening, suspending and resuming. */
  lemma StallEnds(c: Config, s: State)
    requires Inv(c, s) && Stalled(s) && s.link.running && s.link.up
    ensures Enabled(s, DoRestart) <==> s.link.canState == 3
    ensures s.link.canState == 3 ==> !Next(c, s, DoRestart).link.stopped
    ensures exists t :: Leads(c, s, [DoClose, DoOpen], t) && t.link.up && !t.link.stopped
    ensures exists t :: Leads(c, s, [DoFreeze, DoRestore], t) && t.link.up && !t.link.stopped
  {
    LeadsTwo(c, s, DoClose, DoOpen);
    LeadsTwo(c, s, DoFreeze, DoRestore);
  }

  lemma LeadsTwo(c: Config, s: State, a: Step, b: Step)
    requires Enabled(s, a) && Enabled(Next(c, s, a), b)
    ensures Leads(c, s, [a, b], Next(c, Next(c, s, a), b))
  {
    var u := Next(c, s, a);
    LeadsCons(c, u, b, [], Next(c, u, b));
    LeadsCons(c, s, a, [b], Next(c, u, b));
  }

  /** A stopped queue starts again by itself, that is without an open, restart or resume, in some
      run if and only if it is not stalled. */
  lemma WokenIffNotStalled(c: Config, s: State)
    requires Inv(c, s) && s.link.stopped && s.xmit == Idle
    ensures !Stalled(s) <==> exists steps, t :: Leads(c, s, steps, t) && NoStart(steps) && !t.link.stopped
  {
    if Stalled(s) {
      forall steps, t | Leads(c, s, steps, t) && NoStart(steps) ensures t.link.stopped {
        StalledUntilStarted(c, s, steps, t);
      }
    } else {
      WokenByCompletion(c, s);
    }
  }

  lemma WokenByCompletion(c: Config, s: State)
    requires Inv(c, s) && s.link.stopped && s.xmit == Idle && !Stalled(s)
    ensures exists steps, t :: Leads(c, s, steps, t) && NoStart(steps) && !t.link.stopped
  {
    if s.link.wakeDue {
      WokenAtOnce(c, s);
    } else if s.used != [] {
      var _ := WokenByRead(c, s);
    } else {
      var u := Next(c, s, DoComplete(0));
      StepKeepsInv(c, s, DoComplete(0));
      var t := WokenByRead(c, u);
      LeadsCons(c, s, DoComplete(0), [DoRead, DoWake], t);
    }
  }

  lemma WokenByRead(c: Config, s: State) returns (t: State)
    requires Inv(c, s) && s.link.running && s.used != [] && !s.link.wakeDue
    ensures Leads(c, s, [DoRead, DoWake], t) && !t.link.stopped
  {
    var u := Next(c, s, DoRead);
    StepKeepsInv(c, s, DoRead);
    LeadsTwo(c, s, DoRead, DoWake);
    t := WakeCheck(u);
  }

  lemma WokenAtOnce(c: Config, s: State)
    requires !s.crashed && s.link.wakeDue
    ensures Leads(c, s, [DoWake], WakeCheck(s))
  {
    LeadsCons(c, s, DoWake, [], WakeCheck(s));
  }

  /** Steps that get on with what is on the ring. */
  predicate Progresses(s: State, step: Step) {
    step.DoComplete? || step.DoWake? || (step.DoRead? && s.used != [])
  }

  /** How many steps of a run get on. */
  function ProgressCount(c: Config, s: State, steps: seq<Step>): nat
    decreases |steps|
  {
    if steps == [] || !Enabled(s, steps[0]) then 0
    else (if Progresses(s, steps[0]) then 1 else 0) + ProgressCount(c, Next(c, s, steps[0]), steps[1..])
  }

  /** Neither started nor taken down from outside. */
  predicate LeftAlone(steps: seq<Step>) {
    forall i :: 0 <= i < |steps| ==> !Starts(steps[i]) && !steps[i].DoFreeze? && !steps[i].DoClose?
  }

  function Measure(s: State): nat { 3 * |s.device| + 2 * |s.used| + if s.link.wakeDue then 1 else 0 }

  /** A stopped queue that is not stalled can always get on. */
  lemma StoppedQueueIsNeverStuck(c: Config, s: State)
    requires Inv(c, s) && s.link.stopped && s.xmit == Idle && !Stalled(s)
    ensures exists step :: Enabled(s, step) && Progresses(s, step)
  {
    var step := if s.link.wakeDue then DoWake else if s.used != [] then DoRead else DoComplete(0);
    assert Enabled(s, step) && Progresses(s, step);
  }

  lemma ProgressLowersMeasure(c: Config, s: State, step: Step)
    requires s.link.stopped && s.xmit == Idle && !Stalled(s) && Enabled(s, step)
    requires LeftAlone([step]) && !step.DoWake?
    ensures var t := Next(c, s, step);
            && t.link.stopped && t.xmit == Idle && !Stalled(t)
            && Measure(t) + (if Progresses(s, step) then 1 else 0) <= Measure(s)
  {
    assert [step][0] == step;
  }

  /** Bounded response: a run that leaves a stopped queue alone wakes it before as many completions
      and reads have passed as the measure says, in whatever order they come. */
  lemma {:induction false} WokenWithinMeasure(c: Config, s: State, steps: seq<Step>, t: State)
    requires s.link.stopped && s.xmit == Idle && !Stalled(s)
    requires Leads(c, s, steps, t) && LeftAlone(steps) && ProgressCount(c, s, steps) >= Measure(s)
    ensures exists i :: 0 <= i < |steps| && steps[i] == DoWake
    decreases |steps|
  {
    assert Measure(s) > 0;
    if steps[0] != DoWake {
      ProgressLowersMeasure(c, s, steps[0]);
      WokenWithinMeasure(c, Next(c, s, steps[0]), steps[1..], t);
      var i :| 0 <= i < |steps[1..]| && steps[1..][i] == DoWake;
      assert steps[i + 1] == DoWake;
    }
  }

  /** The stop decision uses a count read earlier: it strands the queue if and only if the count has
      meanwhile fallen to the messages lost in suspends and no wake is due. */
  lemma StopStallsIffRingDrained(c: Config, s: State)
    requires Inv(c, s) && s.xmit == MustStop
    ensures Stalled(XmitStop(s)) <==> s.inflight == |s.hist.lost| && !s.link.wakeDue
  {
    assert |s.list| == OnRing(s);
  }

  /** And it can always happen: from any state about to stop the queue, some schedule completes
      everything first and then strands it. */
  lemma {:induction false} AnyStopCanStall(c: Config, s: State)
    requires Inv(c, s) && s.xmit == MustStop
    ensures exists steps, t :: Leads(c, s, steps, t) && NoStart(steps) && Stalled(t) && t.link.up
    decreases Measure(s)
  {
    var step :=
      if s.link.wakeDue then DoWake else if s.used != [] then DoRead
      else if s.device != [] then DoComplete(0) else DoStop;
    var u := Next(c, s, step);
    if step == DoStop {
      LeadsCons(c, s, step, [], u);
    } else {
      StepKeepsInv(c, s, step);
      AnyStopCanStall(c, u);
      var steps, t :| Leads(c, u, steps, t) && NoStart(steps) && Stalled(t) && t.link.up;
      LeadsCons(c, s, step, steps, t);
      assert NoStart([step] + steps);
    }
  }

  // Once the window is exhausted.

  lemma {:induction false} ExhaustedForever(c: Config, s: State, steps: seq<Step>, t: State)
    requires Inv(c, s) && |s.hist.lost| >= TxLimit(c) && Leads(c, s, steps, t)
    ensures t.hist.added == s.hist.added
    decreases |steps|
  {
    if steps != [] {
      var u := Next(c, s, steps[0]);
      ExhaustedStep(c, s, steps[0]);
      StepOnlyGrows(c, s, steps[0]);
      StepKeepsInv(c, s, steps[0]);
      ExhaustedForever(c, u, steps[1..], t);
    }
  }

  const SEND_STEPS: seq<Step> := [DoCheck, DoReserve, DoEcho(true), DoAdd(true)]

  /** With room in the window the next message goes out, under the index given back last. */
  lemma SendsNow(c: Config, s: State) returns (t: State)
    requires Inv(c, s) && s.link.running && s.link.up && !s.link.stopped && s.xmit == Idle && s.inflight < TxLimit(c)
    ensures Leads(c, s, SEND_STEPS, t) && Inv(c, t)
    ensures s.free != [] && t.device == s.device + [TxMsg(s.serials, s.free[0])] && t.free == s.free[1..]
    ensures t.inflight == s.inflight + 1 && t.used == s.used && t.link == s.link && t.xmit == Idle
    ensures t.hist == s.hist.(added := s.hist.added + 1)
  {
    var s1 := Next(c, s, DoCheck);
    StepKeepsInv(c, s, DoCheck);
    assert s1.xmit == Admitted && s.free != [];
    var s2 := Next(c, s1, DoReserve);
    StepKeepsInv(c, s1, DoReserve);
    t := AddsNow(c, s2);
    LeadsCons(c, s1, DoReserve, [DoEcho(true), DoAdd(true)], t);
    assert [DoReserve] + [DoEcho(true), DoAdd(true)] == [DoReserve, DoEcho(true), DoAdd(true)];
    LeadsCons(c, s, DoCheck, [DoReserve, DoEcho(true), DoAdd(true)], t);
    assert [DoCheck] + [DoReserve, DoEcho(true), DoAdd(true)] == SEND_STEPS;
  }

  lemma AddsNow(c: Config, s: State) returns (t: State)
    requires Inv(c, s) && s.xmit.Reserved?
    ensures Leads(c, s, [DoEcho(true), DoAdd(true)], t) && Inv(c, t)
    ensures t.device == s.device + [s.xmit.msg] && t.free == s.free && t.inflight == s.inflight
    ensures t.used == s.used && t.link == s.link && t.xmit == Idle && t.hist == s.hist.(added := s.hist.added + 1)
  {
    var u := Next(c, s, DoEcho(true));
    StepKeepsInv(c, s, DoEcho(true));
    assert OnRing(u) + 1 <= TxLimit(c) && RingHasRoom(c, u);
    t := Next(c, u, DoAdd(true));
    StepKeepsInv(c, u, DoAdd(true));
    LeadsTwo(c, s, DoEcho(true), DoAdd(true));
  }

  // The window.

  /** The limit is the largest number of messages that echo slots and ring have room for. */
  lemma LimitIsLargestWindow(c: Config)
    ensures var per := if c.indirect then 1 else 2;
            && TxLimit(c) <= 128 && TxLimit(c) * per <= c.ringSize
            && (TxLimit(c) == 128 || (TxLimit(c) + 1) * per > c.ringSize)
  {
  }

  /** From probe on, as many messages as that can be put on the ring one after the other. */
  lemma {:induction false} FillsWindow(c: Config, n: nat) returns (steps: seq<Step>, t: State)
    requires n <= TxLimit(c)
    ensures Leads(c, Probed(c), steps, t) && Inv(c, t)
    ensures t.inflight == |t.device| == n && t.used == [] && t.xmit == Idle && t.hist.lost == []
    ensures t.link.running && t.link.up && !t.link.stopped
  {
    if n == 0 {
      ProbedInv(c);
      t := Next(c, Probed(c), DoOpen);
      StepKeepsInv(c, Probed(c), DoOpen);
      LeadsCons(c, Probed(c), DoOpen, [], t);
      steps := [DoOpen] + [];
    } else {
      var before, u := FillsWindow(c, n - 1);
      t := SendsNow(c, u);
      LeadsThen(c, Probed(c), before, u, SEND_STEPS, t);
      steps := before + SEND_STEPS;
    }
  }

  /** And exactly then the check stops the queue. */
  lemma WindowIsFilled(c: Config, n: nat) returns (steps: seq<Step>, states: seq<State>)
    requires n <= 128 && n * (if c.indirect then 1 else 2) <= c.ringSize
    ensures Execution(c, states, steps) && |states[|steps|].device| == n && Enabled(states[|steps|], DoCheck)
    ensures XmitCheck(c, states[|steps|]).xmit == MustStop
            <==> n == 128 || (n + 1) * (if c.indirect then 1 else 2) > c.ringSize
  {
    LimitIsLargestWindow(c);
    var t;
    steps, t := FillsWindow(c, n);
    states := LeadsIsExecution(c, steps, t);
  }

  lemma {:induction false} SendsEventually(c: Config, s: State)
    requires Inv(c, s) && s.link.running && s.link.up && !s.link.stopped && s.xmit == Idle && |s.hist.lost| < TxLimit(c)
    ensures exists steps, t :: Leads(c, s, steps, t) && t.hist.added > s.hist.added
    decreases Measure(s)
  {
    if !s.link.wakeDue && OnRing(s) == 0 {
      var t := SendsNow(c, s);
    } else {
      var step := if s.link.wakeDue then DoWake else if s.used != [] then DoRead else DoComplete(0);
      StepKeepsInv(c, s, step);
      SendsEventually(c, Next(c, s, step));
      var steps, t :| Leads(c, Next(c, s, step), steps, t) && t.hist.added > s.hist.added;
      LeadsCons(c, s, step, steps, t);
    }
  }

  /** From an open, idle, started queue another message can be sent, by some schedule, if and only if
      fewer messages were lost in suspends than the limit allows in flight. */
  lemma SendsAgainIff(c: Config, s: State)
    requires Inv(c, s) && s.link.running && s.link.up && !s.link.stopped && s.xmit == Idle
    ensures (exists steps, t :: Leads(c, s, steps, t) && t.hist.added > s.hist.added) <==> |s.hist.lost| < TxLimit(c)
  {
    if |s.hist.lost| < TxLimit(c) {
      SendsEventually(c, s);
    } else {
      forall steps, t | Leads(c, s, steps, t) ensures t.hist.added == s.hist.added {
        ExhaustedForever(c, s, steps, t);
      }
    }
  }

  // What Leads reaches from a state of an execution belongs to an execution.

  lemma {:induction false} LeadsKeepsInv(c: Config, s: State, steps: seq<Step>, t: State)
    requires Inv(c, s) && Leads(c, s, steps, t)
    ensures Inv(c, t)
    decreases |steps|
  {
    if steps != [] {
      StepKeepsInv(c, s, steps[0]);
      LeadsKeepsInv(c, Next(c, s, steps[0]), steps[1..], t);
    }
  }

  lemma ExecutionStep(c: Config, states: seq<State>, steps: seq<Step>, step: Step)
    requires Execution(c, states, steps) && Enabled(states[|steps|], step)
    ensures Execution(c, states + [Next(c, states[|steps|], step)], steps + [step])
  {
    var more, longer := states + [Next(c, states[|steps|], step)], steps + [step];
    forall i | 0 <= i < |longer| ensures StepTaken(c, more, longer, i) {
      if i < |steps| { assert StepTaken(c, states, steps, i); }
    }
  }

  lemma {:induction false} LeadsExtendsExecution(c: Config, states: seq<State>, steps: seq<Step>,
    more: seq<Step>, t: State) returns (all: seq<State>)
    requires Execution(c, states, steps) && Leads(c, states[|steps|], more, t)
    ensures Execution(c, all, steps + more) && states <= all && all[|steps + more|] == t
    decreases |more|
  {
    if more == [] {
      all := states;
      assert steps + more == steps;
    } else {
      ExecutionStep(c, states, steps, more[0]);
      all := LeadsExtendsExecution(c, states + [Next(c, states[|steps|], more[0])], steps + [more[0]], more[1..], t);
      assert steps + [more[0]] + more[1..] == steps + more;
    }
  }

  /** In particular, every state that Leads reaches from probe ends an execution. */
  lemma LeadsIsExecution(c: Config, steps: seq<Step>, t: State) returns (states: seq<State>)
    requires Leads(c, Probed(c), steps, t)
    ensures Execution(c, states, steps) && states[|steps|] == t
  {
    states := LeadsExtendsExecution(c, [Probed(c)], [], steps, t);
    assert [] + steps == steps;
  }

  // Runs from probe that show it.

  const FIRST_STEPS: seq<Step> := [DoOpen, DoCheck, DoReserve, DoEcho(true)]

  /** After the first message was put into its echo slot. */
  function FirstPut(c: Config): State {
    var m := TxMsg(0, 0);
    Probed(c).(link := Link(ERROR_ACTIVE, true, false, false, true), inflight := 1,
               free := Range(ECHO_SKB_MAX)[1..], list := [m], serials := 1, xmit := Echoed(m), echo := map[0 := 0])
  }

  lemma FirstPutIsReachable(c: Config)
    requires TxLimit(c) > 0
    ensures Leads(c, Probed(c), FIRST_STEPS, FirstPut(c))
  {
    var s1 := Next(c, Probed(c), DoOpen);
    var s2 := Next(c, s1, DoCheck);
    var s3 := Next(c, s2, DoReserve);
    assert s3.xmit == Reserved(TxMsg(0, 0));
    assert Next(c, s3, DoEcho(true)) == FirstPut(c);
    LeadsTwo(c, s2, DoReserve, DoEcho(true));
    LeadsTwo(c, Probed(c), DoOpen, DoCheck);
    LeadsThen(c, Probed(c), [DoOpen, DoCheck], s2, [DoReserve, DoEcho(true)], FirstPut(c));
    assert [DoOpen, DoCheck] + [DoReserve, DoEcho(true)] == FIRST_STEPS;
  }

  /** States about to stop the queue occur: one message on a ring of one slot, and a second transmission. */
  lemma StopIsReachable()
    ensures exists steps, t :: Leads(Config(1, true), Probed(Config(1, true)), steps, t) && t.xmit == MustStop
  {
    var c := Config(1, true);
    var s := FirstPut(c);
    FirstPutIsReachable(c);
    LeadsTwo(c, s, DoAdd(true), DoCheck);
    LeadsThen(c, Probed(c), FIRST_STEPS, s, [DoAdd(true), DoCheck], Next(c, Next(c, s, DoAdd(true)), DoCheck));
  }

  /** A queue can be stranded: this run from probe on a ring of one slot ends in a stall. */
  lemma StallHappens() returns (steps: seq<Step>, states: seq<State>)
    ensures Execution(Config(1, true), states, steps) && Stalled(states[|steps|]) && states[|steps|].link.up
  {
    var c := Config(1, true);
    StopIsReachable();
    var first, s :| Leads(c, Probed(c), first, s) && s.xmit == MustStop;
    steps, states := StallAfter(c, first, s);
  }

  lemma StallAfter(c: Config, first: seq<Step>, s: State) returns (steps: seq<Step>, states: seq<State>)
    requires Leads(c, Probed(c), first, s) && s.xmit == MustStop
    ensures Execution(c, states, steps) && Stalled(states[|steps|]) && states[|steps|].link.up
  {
    states := LeadsIsExecution(c, first, s);
    steps, states := StallFurther(c, states, first);
  }

  /** Every execution that is about to stop the queue can go on to a stall. */
  lemma StallFurther(c: Config, states: seq<State>, steps: seq<Step>) returns (more: seq<Step>, all: seq<State>)
    requires Execution(c, states, steps) && states[|steps|].xmit == MustStop
    ensures Execution(c, all, more) && states <= all && Stalled(all[|more|]) && all[|more|].link.up
  {
    var s := states[|steps|];
    ExecutionKeepsInv(c, states, steps, |steps|);
    AnyStopCanStall(c, s);
    var next, t :| Leads(c, s, next, t) && NoStart(next) && Stalled(t) && t.link.up;
    all := LeadsExtendsExecution(c, states, steps, next, t);
    more := steps + next;
  }

  /** A frame that could not be stored is missing when its message completes. */
  lemma EchoCanBeMissing() returns (steps: seq<Step>, states: seq<State>)
    ensures Execution(Config(1, true), states, steps)
    ensures forall r :: 0 <= r < |steps| ==> !Flushes(steps[r])
    ensures var t := states[|steps|]; t.hist.failed == 0 && t.used != [] && t.used[0].putidx !in t.echo
  {
    var t;
    steps, t := MissingEcho(Config(1, true));
    states := LeadsIsExecution(Config(1, true), steps, t);
  }

  lemma MissingEcho(c: Config) returns (steps: seq<Step>, t: State)
    requires c == Config(1, true)
    ensures Leads(c, Probed(c), steps, t) && forall r :: 0 <= r < |steps| ==> !Flushes(steps[r])
    ensures t.hist.failed == 0 && t.used != [] && t.used[0].putidx !in t.echo
  {
    var s1 := Next(c, Next(c, Probed(c), DoOpen), DoCheck);
    var first := [DoOpen, DoCheck];
    var third;
    third, t := MissingEchoAdded(c, Next(c, s1, DoReserve));
    LeadsTwo(c, Probed(c), DoOpen, DoCheck);
    LeadsCons(c, s1, DoReserve, third, t);
    LeadsThen(c, Probed(c), first, s1, [DoReserve] + third, t);
    steps := first + ([DoReserve] + third);
  }

  lemma MissingEchoAdded(c: Config, s: State) returns (steps: seq<Step>, t: State)
    requires c == Config(1, true) && !s.crashed && s.link.running && s.xmit == Reserved(TxMsg(0, 0))
    requires s.echo == map[] && s.device == [] && s.used == [] && s.numFree == 1 && s.hist.failed == 0
    ensures Leads(c, s, steps, t) && forall r :: 0 <= r < |steps| ==> !Flushes(steps[r])
    ensures t.hist.failed == 0 && t.used == [TxMsg(0, 0)] && t.echo == map[]
  {
    var s1 := Next(c, s, DoEcho(false));
    var s2 := Next(c, s1, DoAdd(true));
    assert s2.device == [TxMsg(0, 0)];
    t := Next(c, s2, DoComplete(0));
    LeadsTwo(c, s1, DoAdd(true), DoComplete(0));
    LeadsCons(c, s, DoEcho(false), [DoAdd(true), DoComplete(0)], t);
    steps := [DoEcho(false)] + [DoAdd(true), DoComplete(0)];
  }

  /** A suspend and a resume start the queue and lose what is listed. */
  lemma SuspendAndResume(c: Config, s: State) returns (t: State)
    requires Enabled(s, DoFreeze) && s.link.up
    ensures Leads(c, s, [DoFreeze, DoRestore], t)
    ensures t.link.running && t.link.up && !t.link.stopped && t.hist.lost == s.hist.lost + s.list
  {
    t := Next(c, Next(c, s, DoFreeze), DoRestore);
    LeadsTwo(c, s, DoFreeze, DoRestore);
  }

  /** The window can be exhausted: one message on a ring of one slot, a suspend and a resume. */
  lemma ExhaustionIsReachable()
    ensures exists steps, t ::
              && Leads(Config(1, true), Probed(Config(1, true)), steps, t)
              && t.link.running && t.link.up && !t.link.stopped && |t.hist.lost| >= TxLimit(Config(1, true))
  {
    var c := Config(1, true);
    var s := FirstPut(c);
    FirstPutIsReachable(c);
    var t := SuspendAndResume(c, Next(c, s, DoAdd(true)));
    LeadsCons(c, s, DoAdd(true), [DoFreeze, DoRestore], t);
    LeadsThen(c, Probed(c), FIRST_STEPS, s, [DoAdd(true)] + [DoFreeze, DoRestore], t);
  }

  /** A foreign echo: in this run an add fails, a suspend and a resume start the queue again, the
      next message takes the index that was given back and completes with the first one's frame in
      its slot. */
  lemma ForeignEchoHappens() returns (steps: seq<Step>, states: seq<State>)
    ensures Execution(Config(2, true), states, steps)
    ensures var t := states[|steps|];
            t.used != [] && t.used[0].putidx in t.echo && !EchoOwn(t, t.used[0])
  {
    var c := Config(2, true);
    FirstPutIsReachable(c);
    var first, u := FailedAndResumed(c, FirstPut(c));
    var second, t := ForeignEcho(c, u);
    states := LeadsIsExecution(c, FIRST_STEPS, FirstPut(c));
    states := LeadsExtendsExecution(c, states, FIRST_STEPS, first, u);
    states := LeadsExtendsExecution(c, states, FIRST_STEPS + first, second, t);
    steps := FIRST_STEPS + first + second;
  }

  lemma FailedAndResumed(c: Config, s: State) returns (steps: seq<Step>, t: State)
    requires c == Config(2, true) && s == FirstPut(c)
    ensures Leads(c, s, steps, t)
    ensures Enabled(t, DoCheck) && t.inflight == 0 && t.numFree == 2
    ensures t.free != [] && t.free[0] == 0 && t.echo == map[0 := 0] && t.serials == 1 && t.device == [] && t.used == []
  {
    var u := Next(c, Next(c, s, DoAdd(false)), DoStop);
    t := Next(c, Next(c, u, DoFreeze), DoRestore);
    LeadsTwo(c, s, DoAdd(false), DoStop);
    LeadsTwo(c, u, DoFreeze, DoRestore);
    steps := [DoAdd(false), DoStop] + [DoFreeze, DoRestore];
    LeadsThen(c, s, [DoAdd(false), DoStop], u, [DoFreeze, DoRestore], t);
  }

  lemma ForeignEcho(c: Config, s: State) returns (steps: seq<Step>, t: State)
    requires c == Config(2, true) && Enabled(s, DoCheck) && s.inflight == 0 && s.numFree == 2
    requires s.free != [] && s.free[0] == 0 && s.echo == map[0 := 0] && s.serials == 1 && s.device == [] && s.used == []
    ensures Leads(c, s, steps, t)
    ensures t.used == [TxMsg(1, 0)] && t.echo == map[0 := 0]
  {
    var s2 := Next(c, Next(c, s, DoCheck), DoReserve);
    assert s2.xmit == Reserved(TxMsg(1, 0));
    var s3 := Next(c, s2, DoEcho(true));
    var s4 := Next(c, s3, DoAdd(true));
    assert s4.device == [TxMsg(1, 0)];
    t := Next(c, s4, DoComplete(0));
    LeadsTwo(c, s, DoCheck, DoReserve);
    LeadsTwo(c, s2, DoEcho(true), DoAdd(true));
    LeadsCons(c, s4, DoComplete(0), [], t);
    LeadsThen(c, s2, [DoEcho(true), DoAdd(true)], s4, [DoComplete(0)], t);
    steps := [DoCheck, DoReserve] + ([DoEcho(true), DoAdd(true)] + [DoComplete(0)]);
    LeadsThen(c, s, [DoCheck, DoReserve], s2, [DoEcho(true), DoAdd(true)] + [DoComplete(0)], t);
  }

  // The driver functions, each tied to its step.

  class TxPriv {
    const cfg: Config
    var inflight: int
    var free: seq<int>
    var list: seq<TxMsg>
    var echo: map<int, int>
    var xmit: XmitPc
    var canState: nat
    var up: bool
    var stopped: bool
    var wakeDue: bool
    var running: bool
    var crashed: bool
    var numFree: int
    var device: seq<TxMsg>
    var used: seq<TxMsg>
    var serials: nat
    ghost var hist: History

    ghost function View(): State reads this {
      State(inflight, free, list, echo, xmit, Link(canState, up, stopped, wakeDue, running), crashed,
            numFree, device, used, serials, hist)
    }

    /** virtio_can_probe, the part that sets up transmission: the free list is filled in a loop. */
    constructor (cfg: Config)
      ensures this.cfg == cfg && View() == Probed(cfg)
      ensures |free| == 128 && forall i :: 0 <= i < 128 ==> free[i] == i
      ensures inflight == serials == 0 && list == device == used == [] && echo == map[] && xmit == Idle
      ensures running && !up && !stopped && !wakeDue && !crashed && numFree == cfg.ringSize
    {
      this.cfg := cfg;
      inflight, list, echo, xmit := 0, [], map[], Idle;
      canState, up, stopped, wakeDue, running, crashed := STOPPED, false, false, false, true, false;
      numFree, device, used, serials := cfg.ringSize, [], [], 0;
      hist := History(0, 0, 0, 0, [], []);
      free := [];
      new;
      for idx := 0 to ECHO_SKB_MAX
        invariant free == Range(idx)
        invariant View() == Probed(cfg).(free := free)
      {
        free := free + [idx];
      }
    }

    method AllocIdx() returns (idx: int)
      modifies this`inflight, this`free, this`crashed
      ensures (View(), idx) == AllocTxIdx(old(View()))
    {
      if inflight >= ECHO_SKB_MAX {
        crashed := true;
        return -1;
      }
      inflight := inflight + 1;
      if free == [] {
        return -1;
      }
      idx := free[0];
      free := free[1..];
    }

    method FreeIdx(idx: int)
      modifies this`inflight, this`free, this`crashed
      ensures View() == FreeTxIdx(old(View()), idx)
    {
      if !(0 <= idx < ECHO_SKB_MAX) || inflight == 0 {
        crashed := true;
        return;
      }
      free := [idx] + free;
      inflight := inflight - 1;
    }

    /** list_del. */
    method Unlink(m: TxMsg)
      modifies this`list
      ensures list == Without(old(list), m)
    {
      var i := 0;
      while i < |list| && list[i] != m
        invariant i <= |list| && list == old(list)
        invariant Without(list, m) == list[..i] + Without(list[i..], m)
      {
        i := i + 1;
      }
      assert i < |list| ==> list[i..][1..] == list[i + 1..];
      if i < |list| {
        list := list[..i] + list[i + 1..];
      }
    }

    method CheckLimit()
      requires xmit == Idle
      modifies this`xmit
      ensures View() == XmitCheck(cfg, old(View()))
    {
      xmit := if inflight >= TxLimit(cfg) then MustStop else Admitted;
    }

    method Reserve()
      requires xmit == Admitted && !crashed
      modifies this
      ensures View() == XmitReserve(old(View()))
    {
      var idx := AllocIdx();
      if crashed {
        return;
      }
      var m := TxMsg(serials, idx);
      serials := serials + 1;
      list := list + [m];
      xmit := Reserved(m);
      crashed := idx < 0;
    }

    method PutEcho(stored: bool)
      requires xmit.Reserved?
      modifies this`xmit, this`echo
      ensures View() == XmitEcho(old(View()), stored)
    {
      var m := xmit.msg;
      if m.putidx !in echo && stored {
        echo := echo[m.putidx := m.serial];
      }
      xmit := Echoed(m);
    }

    method Refuse(m: TxMsg)
      requires xmit == Echoed(m)
      modifies this`list, this`xmit, this`hist
      ensures View() == Refused(old(View()))
    {
      hist, xmit := hist.(failed := hist.failed + 1, gone := hist.gone + [m.serial]), MustStop;
      Unlink(m);
    }

    method AddToRing(ringWorks: bool)
      requires xmit.Echoed? && !crashed
      modifies this
      ensures View() == XmitAdd(cfg, old(View()), ringWorks)
    {
      var m := xmit.msg;
      if ringWorks && numFree >= PerMessage(cfg) {
        numFree, device := numFree - PerMessage(cfg), device + [m];
        hist, xmit := hist.(added := hist.added + 1), Idle;
      } else {
        Refuse(m);
        FreeIdx(m.putidx);
      }
    }

    method TakeUsed(inactive: bool) returns (m: TxMsg)
      requires used != []
      modifies this`used, this`numFree, this`echo, this`hist, this`wakeDue, this`list
      ensures m == old(used)[0] && View() == Taken(cfg, old(View()), inactive)
    {
      m := GetBuf();
      Unlink(m);
      hist, wakeDue, echo := Reaped(hist, m, inactive), true, echo - {m.putidx};
    }

    /** virtqueue_get_buf. */
    method GetBuf() returns (m: TxMsg)
      requires used != []
      modifies this`used, this`numFree
      ensures m == old(used)[0] && used == old(used)[1..] && numFree == old(numFree) + PerMessage(cfg)
    {
      m := used[0];
      used, numFree := used[1..], numFree + PerMessage(cfg);
    }

    /** virtio_can_read_tx_queue up to its unlock; says whether a message was found. */
    method ReadQueue() returns (found: bool)
      requires !crashed && !wakeDue
      modifies this
      ensures View() == ReadTx(cfg, old(View()), Inactive(old(View()))) && found == (old(used) != [])
    {
      if used == [] {
        return false;
      }
      found := true;
      var m := TakeUsed(canState >= BUS_OFF);
      FreeIdx(m.putidx);
    }

    /** virtio_can_del_vq as virtio_can_freeze runs it: the list is emptied head first. */
    method Suspend()
      requires running && xmit == Idle
      modifies this`canState, this`stopped, this`running, this`device, this`used, this`numFree, this`list, this`hist
      ensures View() == Freeze(cfg, old(View()))
    {
      ResetDevice();
      EmptyList();
    }

    /** The device is silenced and its ring gone. */
    method ResetDevice()
      modifies this`canState, this`stopped, this`running, this`device, this`used, this`numFree
      ensures canState == SLEEPING && stopped == (up || old(stopped)) && !running
      ensures device == [] && used == [] && numFree == cfg.ringSize
    {
      if up { stopped := true; }
      canState, running := SLEEPING, false;
      device, used, numFree := [], [], cfg.ringSize;
    }

    /** virtio_can_restore. */
    method Resume()
      requires !running
      modifies this`canState, this`running, this`stopped
      ensures View() == Restore(old(View()))
    {
      canState, running := ERROR_ACTIVE, true;
      if up { stopped := false; }
    }

    /** virtio_can_open. */
    method Open()
      requires running && !up
      modifies this`canState, this`up, this`stopped
      ensures View() == Opened(old(View()))
    {
      canState, up, stopped := ERROR_ACTIVE, true, false;
    }

    /** virtio_can_close. */
    method Close()
      requires running && up && xmit == Idle
      modifies this`canState, this`up, this`stopped, this`echo
      ensures View() == Closed(old(View()))
    {
      stopped, canState := true, STOPPED;
      echo := map[];
      up := false;
    }

    /** virtio_can_set_mode with CAN_MODE_START, as the restart of the CAN core calls it. */
    method SetModeStart()
      requires running && up && canState == BUS_OFF
      modifies this`canState, this`stopped, this`echo
      ensures View() == Restarted(old(View()))
    {
      echo := map[];
      canState, stopped := ERROR_ACTIVE, false;
    }

    method EmptyList()
      modifies this`list, this`hist
      ensures list == []
      ensures hist == old(hist).(gone := old(hist).gone + SerialsOf(old(list)), lost := old(hist).lost + old(list))
    {
      while list != []
        invariant hist == old(hist).(gone := hist.gone, lost := hist.lost)
        invariant hist.gone + SerialsOf(list) == old(hist).gone + SerialsOf(old(list))
        invariant hist.lost + list == old(hist).lost + old(list)
        decreases |list|
      {
        hist := hist.(gone := hist.gone + [list[0].serial], lost := hist.lost + [list[0]]);
        list := list[1..];
      }
    }
  }
}
