/** The receive side of virtio_can.c: recycling of receive buffers, the poll loop, the event
    indication interrupt and the bus-off state it drives. Callbacks are atomic steps; the
    device may fill buffers and raise indications between any two of them. A poll is scheduled by a
    filled buffer, as NapiWakeup shows, by an indication that is taken up, and by late interrupts. */
module VirtioCanRx {
  import opened Counting
  import opened CanStates
  import opened Sequences
  import opened VirtioCanCodec
  import opened Words

  const RPKT_COUNT: nat := 128
  const EVENT_SIZE: nat := 2
  const BUSOFF_IND: U16 := 0x0301

  /** A filled receive buffer: which one, what the device wrote and claims, and how the stack will
      answer (is there a socket buffer, is it accepted). */
  datatype UsedRx = UsedRx(buf: int, len: nat, bytes: Bytes, skb: bool, accepted: bool)

  datatype Event = Event(len: nat, msgType: U16)

  datatype State = State(
    numFree: nat, avail: seq<int>, used: seq<UsedRx>,
    canState: int, pending: bool, scheduled: bool, busOffs: nat, indications: nat,
    delivered: seq<Frame>, rxPackets: nat, rxDropped: nat)

  function PostedCount(ring: nat): nat { if ring < RPKT_COUNT then ring else RPKT_COUNT }

  /** After virtio_can_populate_vqs in probe. */
  function Populated(ring: nat): State {
    State(ring - PostedCount(ring), Range(PostedCount(ring)), [], STOPPED, false, false, 0, 0, [], 0, 0)
  }

  // What one filled buffer contributes.

  predicate Filled(e: UsedRx) { |e.bytes| == RX_BUFFER_SIZE }

  function FrameOf(canState: int, feat: Features, e: UsedRx): seq<Frame>
    requires Filled(e)
  {
    if canState >= ERROR_PASSIVE then []
    else
      var d := Decode(e.bytes, e.len, feat);
      if d.Delivered? && e.skb then [d.frame] else []
  }

  predicate CountsAsDropped(canState: int, feat: Features, e: UsedRx)
    requires Filled(e)
  {
    && canState < ERROR_PASSIVE
    && var d := Decode(e.bytes, e.len, feat);
       d.Dropped? || (d.Delivered? && !e.skb)
  }

  predicate AllFilled(es: seq<UsedRx>) { forall e :: e in es ==> Filled(e) }

  function Frames(canState: int, feat: Features, es: seq<UsedRx>): seq<Frame>
    requires AllFilled(es)
  {
    if es == [] then [] else FrameOf(canState, feat, es[0]) + Frames(canState, feat, es[1..])
  }

  function Accepted(canState: int, feat: Features, es: seq<UsedRx>): nat
    requires AllFilled(es)
  {
    if es == [] then 0
    else (if es[0].accepted then |FrameOf(canState, feat, es[0])| else 0) + Accepted(canState, feat, es[1..])
  }

  function DroppedCount(canState: int, feat: Features, es: seq<UsedRx>): nat
    requires AllFilled(es)
  {
    if es == [] then 0
    else (if CountsAsDropped(canState, feat, es[0]) then 1 else 0) + DroppedCount(canState, feat, es[1..])
  }

  function BufsOf(es: seq<UsedRx>): seq<int> {
    if es == [] then [] else [es[0].buf] + BufsOf(es[1..])
  }

  // The callbacks.

  /** The error frame the stack is offered on bus-off: can one be allocated, is it accepted? */
  datatype Report = NoSkb | Refuse | Accept

  /** virtio_can_handle_busoff; its result is the work it counts. */
  function HandleBusoff(s: State, report: Report): (State, nat) {
    if !s.pending then (s, 0)
    else
      var off := if s.canState < BUS_OFF then s.(canState := BUS_OFF, busOffs := s.busOffs + 1) else s;
      if report.NoSkb? then (off, 0)
      else if report.Refuse? then (off.(rxPackets := off.rxPackets + 1), 1)
      else (off.(rxPackets := off.rxPackets + 1, pending := false, indications := off.indications + 1), 1)
  }

  function Min(a: nat, b: nat): nat { if a < b then a else b }

  /** How many buffers a poll reads when it has that much quota left. */
  function ReadCount(s: State, quota: nat, spent: nat): nat {
    Min(if quota < spent then 0 else quota - spent, |s.used|)
  }

  /** The outcome of reading the first k filled buffers and posting each of them again. */
  function Recycled(feat: Features, s: State, k: nat): State
    requires k <= |s.used| && AllFilled(s.used)
  {
    var es := s.used[..k];
    assert AllFilled(es);
    s.(used := s.used[k..], avail := s.avail + BufsOf(es),
       delivered := s.delivered + Frames(s.canState, feat, es),
       rxPackets := s.rxPackets + Accepted(s.canState, feat, es),
       rxDropped := s.rxDropped + DroppedCount(s.canState, feat, es))
  }

  /** How much work a poll reports. */
  function PollWork(s: State, quota: nat, report: Report): nat {
    var (off, spent) := HandleBusoff(s, report);
    spent + ReadCount(off, quota, spent)
  }

  /** virtio_can_rx_poll; with quota left NAPI is completed. */
  function Polled(feat: Features, s: State, quota: nat, report: Report): State
    requires AllFilled(s.used)
  {
    var (off, spent) := HandleBusoff(s, report);
    Completed(Recycled(feat, off, ReadCount(off, quota, spent)), PollWork(s, quota, report) < quota)
  }

  function Completed(s: State, quotaLeft: bool): State { if quotaLeft then s.(scheduled := false) else s }

  predicate IsBusoffEvent(e: Event) { e.len >= EVENT_SIZE && e.msgType == BUSOFF_IND }

  /** An indication is taken up unless one is pending or the bus is off. */
  predicate TakenUp(s: State, events: seq<Event>) {
    !s.pending && s.canState < BUS_OFF && exists i :: 0 <= i < |events| && IsBusoffEvent(events[i])
  }

  /** virtio_can_evind_intr over the indications the device has queued. */
  function Indicated(s: State, events: seq<Event>): State {
    if TakenUp(s, events) then s.(pending := true, scheduled := true) else s
  }

  function Started(s: State): State { s.(pending := false, canState := ERROR_ACTIVE) }

  function Closed(s: State): State { s.(pending := false, canState := STOPPED) }

  /** virtio_can_freeze; `up` tells whether the interface is running. */
  function Frozen(ring: nat, s: State, up: bool): State {
    (if up then Closed(s) else s).(canState := SLEEPING, scheduled := false, numFree := ring, avail := [], used := [])
  }

  /** virtio_can_restore. */
  function Restored(ring: nat, s: State, up: bool): State {
    var refilled := s.(numFree := ring - PostedCount(ring), avail := Range(PostedCount(ring)), used := [],
                    canState := ERROR_ACTIVE);
    if up then Started(refilled) else refilled
  }

  /** The device fills the posted buffer at position `which`. */
  function DeviceFilled(s: State, which: nat, e: UsedRx): State
    requires which < |s.avail|
  {
    s.(avail := s.avail[..which] + s.avail[which + 1..], used := s.used + [e.(buf := s.avail[which])],
       scheduled := true)
  }

  datatype Step =
    | DoFill(which: nat, e: UsedRx)
    | DoPoll(quota: nat, report: Report)
    | DoIndicate(events: seq<Event>)
    | DoInterrupt
    | DoStart
    | DoStop
    | DoFreeze(up: bool)
    | DoRestore(up: bool)

  predicate Enabled(s: State, step: Step) {
    match step
    case DoFill(which, e) => s.canState != SLEEPING && which < |s.avail| && Filled(e)
    case DoPoll(quota, _) => s.canState != SLEEPING && s.scheduled && quota > 0 && AllFilled(s.used)
    case DoRestore(_) => s.canState == SLEEPING
    case _ => s.canState != SLEEPING
  }

  function Next(ring: nat, feat: Features, s: State, step: Step): State
    requires Enabled(s, step)
  {
    match step
    case DoFill(which, e) => DeviceFilled(s, which, e)
    case DoPoll(quota, report) => Polled(feat, s, quota, report)
    case DoIndicate(events) => Indicated(s, events)
    case DoInterrupt => s.(scheduled := true)
    case DoStart => Started(s)
    case DoStop => Closed(s)
    case DoFreeze(up) => Frozen(ring, s, up)
    case DoRestore(up) => Restored(ring, s, up)
  }

  ghost predicate Takes(ring: nat, feat: Features, s: State, step: Step, t: State) {
    Enabled(s, step) && t == Next(ring, feat, s, step)
  }

  ghost predicate Execution(ring: nat, feat: Features, states: seq<State>, steps: seq<Step>) {
    && |states| == |steps| + 1
    && states[0] == Populated(ring)
    && forall i :: 0 <= i < |steps| ==> Takes(ring, feat, states[i], steps[i], states[i + 1])
  }

  // Buffer conservation.

  ghost predicate BufferLaw(posted: nat, avail: seq<int>, used: seq<UsedRx>) {
    && |avail| + |used| == posted
    && forall x {:trigger Count(avail, x)} ::
         Count(avail, x) + Count(BufsOf(used), x) == if 0 <= x < posted then 1 else 0
  }

  ghost predicate Inv(ring: nat, s: State) {
    && AllFilled(s.used)
    && if s.canState == SLEEPING then s.numFree == ring && s.avail == [] && s.used == []
       else s.numFree + PostedCount(ring) == ring && BufferLaw(PostedCount(ring), s.avail, s.used)
  }

  lemma {:induction false} BufsAppend(a: seq<UsedRx>, b: seq<UsedRx>)
    ensures BufsOf(a + b) == BufsOf(a) + BufsOf(b)
  {
    if a == [] {
      assert a + b == b;
    } else {
      BufsAppend(a[1..], b);
      assert (a + b)[0] == a[0] && (a + b)[1..] == a[1..] + b;
      Regroup([a[0].buf], BufsOf(a[1..]), BufsOf(b));
    }
  }

  lemma RecycleKeepsLaw(posted: nat, avail: seq<int>, used: seq<UsedRx>, k: nat)
    requires BufferLaw(posted, avail, used) && k <= |used|
    ensures BufferLaw(posted, avail + BufsOf(used[..k]), used[k..])
  {
    assert used == used[..k] + used[k..];
    BufsAppend(used[..k], used[k..]);
    forall x ensures Count(avail + BufsOf(used[..k]), x) + Count(BufsOf(used[k..]), x)
                     == if 0 <= x < posted then 1 else 0
    {
      CountAppend(avail, BufsOf(used[..k]), x);
      CountAppend(BufsOf(used[..k]), BufsOf(used[k..]), x);
    }
    BufsLength(used[..k]);
  }

  lemma {:induction false} BufsLength(es: seq<UsedRx>)
    ensures |BufsOf(es)| == |es|
  {
    if es != [] { BufsLength(es[1..]); }
  }

  lemma FillKeepsLaw(posted: nat, avail: seq<int>, used: seq<UsedRx>, which: nat, e: UsedRx)
    requires BufferLaw(posted, avail, used) && which < |avail| && e.buf == avail[which]
    ensures BufferLaw(posted, avail[..which] + avail[which + 1..], used + [e])
  {
    BufsAppend(used, [e]);
    assert BufsOf([e]) == [e.buf];
    var rest := avail[..which] + avail[which + 1..];
    forall x ensures Count(rest, x) + Count(BufsOf(used + [e]), x) == if 0 <= x < posted then 1 else 0 {
      CountSplit(avail, which, x);
      CountAppend(BufsOf(used), [e.buf], x);
    }
  }

  lemma FreshRingLaw(posted: nat)
    ensures BufferLaw(posted, Range(posted), [])
  {
    forall x ensures Count(Range(posted), x) == if 0 <= x < posted then 1 else 0 { CountRange(posted, x); }
  }

  lemma PollKeepsInv(ring: nat, feat: Features, s: State, quota: nat, report: Report)
    requires Inv(ring, s) && s.canState != SLEEPING
    ensures Inv(ring, Polled(feat, s, quota, report))
  {
    var (off, spent) := HandleBusoff(s, report);
    var k := ReadCount(off, quota, spent);
    RecycleKeepsLaw(PostedCount(ring), s.avail, s.used, k);
    assert AllFilled(s.used[k..]);
    assert Polled(feat, s, quota, report).used == s.used[k..];
  }

  lemma StepKeepsInv(ring: nat, feat: Features, s: State, step: Step)
    requires Inv(ring, s) && Enabled(s, step)
    ensures Inv(ring, Next(ring, feat, s, step))
  {
    match step
    case DoFill(which, e) => FillKeepsLaw(PostedCount(ring), s.avail, s.used, which, e.(buf := s.avail[which]));
    case DoPoll(quota, report) => PollKeepsInv(ring, feat, s, quota, report);
    case DoRestore(_) => FreshRingLaw(PostedCount(ring));
    case _ =>
  }

  lemma {:induction false} ExecutionKeepsInv(ring: nat, feat: Features, states: seq<State>, steps: seq<Step>, n: nat)
    requires Execution(ring, feat, states, steps) && n < |states|
    ensures Inv(ring, states[n])
  {
    if n > 0 {
      ExecutionKeepsInv(ring, feat, states, steps, n - 1);
      assert Takes(ring, feat, states[n - 1], steps[n - 1], states[n]);
      StepKeepsInv(ring, feat, states[n - 1], steps[n - 1]);
    } else {
      FreshRingLaw(PostedCount(ring));
    }
  }

  /** Whatever the device writes and however often it is polled, the ring holds exactly the
      min(128, ring size) receive buffers, each of them once. */
  lemma BuffersAreConserved(ring: nat, feat: Features, states: seq<State>, steps: seq<Step>, n: nat)
    requires Execution(ring, feat, states, steps) && n < |states| && states[n].canState != SLEEPING
    ensures var all, posted := states[n].avail + BufsOf(states[n].used), if ring < 128 then ring else 128;
            Distinct(all) && |all| == posted && forall x :: 0 <= x < posted <==> x in all
  {
    ExecutionKeepsInv(ring, feat, states, steps, n);
    var s := states[n];
    var all := s.avail + BufsOf(s.used);
    BufsLength(s.used);
    forall x ensures Count(all, x) == if 0 <= x < PostedCount(ring) then 1 else 0 {
      CountAppend(s.avail, BufsOf(s.used), x);
    }
    CountedOnce(all);
    forall x ensures 0 <= x < PostedCount(ring) <==> x in all { CountedIffIn(all, x); }
  }

  // Bus-off.

  /** Steps that put the controller into a new state on their own. */
  predicate Restarts(step: Step) { step.DoStart? || step.DoStop? || step.DoRestore? || step.DoFreeze? }

  ghost predicate Undisturbed(steps: seq<Step>, first: nat, last: nat)
    requires last <= |steps|
  {
    forall i :: first <= i < last ==> !Restarts(steps[i])
  }

  /** How many transitions to bus-off, and how many accepted reports, are still possible. */
  function TransitionsLeft(s: State): nat { if s.canState < BUS_OFF then 1 else 0 }
  function ReportsLeft(s: State): nat { if s.canState < BUS_OFF || s.pending then 1 else 0 }

  lemma StepSpendsBusoff(ring: nat, feat: Features, s: State, step: Step)
    requires Enabled(s, step) && !Restarts(step)
    ensures var t := Next(ring, feat, s, step);
            && s.busOffs <= t.busOffs && t.busOffs + TransitionsLeft(t) == s.busOffs + TransitionsLeft(s)
            && s.indications <= t.indications && t.indications + ReportsLeft(t) == s.indications + ReportsLeft(s)
            && (s.pending && t.indications == s.indications ==> t.pending)
            && (s.canState >= ERROR_PASSIVE ==> t.delivered == s.delivered && t.canState >= ERROR_PASSIVE)
  {
    match step
    case DoPoll(quota, report) => PollSpendsBusoff(feat, s, quota, report);
    case _ =>
  }

  lemma PollSpendsBusoff(feat: Features, s: State, quota: nat, report: Report)
    requires AllFilled(s.used)
    ensures var t := Polled(feat, s, quota, report);
            && s.busOffs <= t.busOffs && t.busOffs + TransitionsLeft(t) == s.busOffs + TransitionsLeft(s)
            && s.indications <= t.indications && t.indications + ReportsLeft(t) == s.indications + ReportsLeft(s)
            && (s.pending && t.indications == s.indications ==> t.pending)
            && (s.canState >= ERROR_PASSIVE ==> t.delivered == s.delivered && t.canState >= ERROR_PASSIVE)
  {
    var (off, spent) := HandleBusoff(s, report);
    if s.canState >= ERROR_PASSIVE {
      NothingDelivered(off.canState, feat, off.used[..ReadCount(off, quota, spent)]);
    }
  }

  lemma {:induction false} NothingDelivered(canState: int, feat: Features, es: seq<UsedRx>)
    requires AllFilled(es) && canState >= ERROR_PASSIVE
    ensures Frames(canState, feat, es) == []
  {
    if es != [] { NothingDelivered(canState, feat, es[1..]); }
  }

  /** Between two starts or stops the bus-off count rises at most once and at most one report is
      accepted; a pending bus-off stays pending until its report is accepted; and once the
      controller is off or passive no frame reaches the stack. */
  lemma {:induction false} BusoffOncePerStart(ring: nat, feat: Features, states: seq<State>, steps: seq<Step>,
    first: nat, last: nat)
    requires Execution(ring, feat, states, steps) && first <= last <= |steps|
    requires Undisturbed(steps, first, last)
    ensures var s, t := states[first], states[last];
            && s.busOffs <= t.busOffs <= s.busOffs + 1
            && s.indications <= t.indications <= s.indications + 1
            && (t.busOffs == s.busOffs + 1 <==> s.canState < BUS_OFF && t.canState >= BUS_OFF)
            && (s.pending && t.indications == s.indications ==> t.pending)
            && (s.canState >= ERROR_PASSIVE ==> t.delivered == s.delivered)
  {
    BusoffBudget(ring, feat, states, steps, first, last);
  }

  lemma {:induction false} BusoffBudget(ring: nat, feat: Features, states: seq<State>, steps: seq<Step>,
    first: nat, last: nat)
    requires Execution(ring, feat, states, steps) && first <= last <= |steps|
    requires Undisturbed(steps, first, last)
    ensures var s, t := states[first], states[last];
            && s.busOffs <= t.busOffs && t.busOffs + TransitionsLeft(t) == s.busOffs + TransitionsLeft(s)
            && s.indications <= t.indications && t.indications + ReportsLeft(t) == s.indications + ReportsLeft(s)
            && (s.pending && t.indications == s.indications ==> t.pending)
            && (s.canState >= ERROR_PASSIVE ==> t.delivered == s.delivered && t.canState >= ERROR_PASSIVE)
    decreases last - first
  {
    if first < last {
      BusoffBudget(ring, feat, states, steps, first, last - 1);
      assert Takes(ring, feat, states[last - 1], steps[last - 1], states[last]);
      StepSpendsBusoff(ring, feat, states[last - 1], steps[last - 1]);
    }
  }

  /** A poll with a bus-off pending turns the controller off, hands nothing to the stack, and reports
      unless no socket buffer is to be had. */
  lemma PollTurnsOff(feat: Features, s: State, quota: nat, report: Report)
    requires s.pending && s.canState < BUS_OFF && AllFilled(s.used)
    ensures var t := Polled(feat, s, quota, report);
            && t.canState == BUS_OFF && t.busOffs == s.busOffs + 1 && t.delivered == s.delivered
            && t.pending == !report.Accept?
            && t.indications == s.indications + if report.Accept? then 1 else 0
  {
    var (off, spent) := HandleBusoff(s, report);
    NothingDelivered(BUS_OFF, feat, off.used[..ReadCount(off, quota, spent)]);
  }

  predicate QuietStep(step: Step) { step.DoFill? || step.DoIndicate? || step.DoInterrupt? }

  lemma {:induction false} PendingStays(ring: nat, feat: Features, states: seq<State>, steps: seq<Step>,
    first: nat, last: nat)
    requires Execution(ring, feat, states, steps) && first <= last <= |steps|
    requires forall i :: first <= i < last ==> QuietStep(steps[i])
    requires states[first].pending
    ensures var s, t := states[first], states[last];
            && t.pending && t.canState == s.canState && t.busOffs == s.busOffs
            && t.indications == s.indications && t.delivered == s.delivered
    decreases last - first
  {
    if first < last {
      PendingStays(ring, feat, states, steps, first, last - 1);
      assert Takes(ring, feat, states[last - 1], steps[last - 1], states[last]);
    }
  }

  /** In every run, a bus-off indication while the bus is on is acted on by the first poll after it,
      unless the controller is started, stopped or suspended before: whatever the device fills and
      indicates in between, nothing reaches the stack, the controller is turned off, counted once,
      and the indication stays pending exactly if its report is not accepted. */
  lemma IndicationReachesPoll(ring: nat, feat: Features, states: seq<State>, steps: seq<Step>,
    first: nat, last: nat, i: nat)
    requires Execution(ring, feat, states, steps) && first < last < |steps|
    requires steps[first].DoIndicate? && i < |steps[first].events| && IsBusoffEvent(steps[first].events[i])
    requires states[first].canState < BUS_OFF && steps[last].DoPoll?
    requires forall k :: first < k < last ==> !Restarts(steps[k]) && !steps[k].DoPoll?
    ensures var s, t := states[first], states[last + 1];
            && t.canState == BUS_OFF && t.busOffs == s.busOffs + 1 && t.delivered == s.delivered
            && t.pending == !steps[last].report.Accept?
            && t.indications == s.indications + if steps[last].report.Accept? then 1 else 0
  {
    assert Takes(ring, feat, states[first], steps[first], states[first + 1]);
    assert states[first + 1].pending && states[first + 1].canState == states[first].canState;
    PendingStays(ring, feat, states, steps, first + 1, last);
    assert Takes(ring, feat, states[last], steps[last], states[last + 1]);
    PollTurnsOff(feat, states[last], steps[last].quota, steps[last].report);
  }

  // Whether a poll is under way for a pending bus-off.

  predicate Parked(s: State) { s.pending && !s.scheduled }

  /** A poll whose report is not accepted and that leaves quota, or a suspend of an interface that is
      down. */
  predicate Parks(s: State, step: Step) {
    || (step.DoPoll? && s.pending && !step.report.Accept? && PollWork(s, step.quota, step.report) < step.quota)
    || (step.DoFreeze? && !step.up && s.pending)
  }

  /** A filled buffer or a late interrupt schedules; a start or stop clears the pending bus-off. */
  predicate Revives(step: Step) {
    || step.DoFill? || step.DoInterrupt? || step.DoStart? || step.DoStop?
    || (step.DoFreeze? && step.up) || (step.DoRestore? && step.up)
  }

  lemma StepParks(ring: nat, feat: Features, s: State, step: Step)
    requires Enabled(s, step)
    ensures Parked(Next(ring, feat, s, step)) <==> Parks(s, step) || (Parked(s) && !Revives(step))
  {
  }

  ghost predicate ParkedBefore(states: seq<State>, steps: seq<Step>, n: nat)
    requires n <= |steps| < |states|
  {
    exists q :: 0 <= q < n && Parks(states[q], steps[q]) && forall r :: q < r < n ==> !Revives(steps[r])
  }

  lemma ParkedLater(states: seq<State>, steps: seq<Step>, n: nat)
    requires n < |steps| < |states|
    ensures ParkedBefore(states, steps, n + 1)
            <==> Parks(states[n], steps[n]) || (ParkedBefore(states, steps, n) && !Revives(steps[n]))
  {
    if ParkedBefore(states, steps, n) && !Revives(steps[n]) {
      var q :| 0 <= q < n && Parks(states[q], steps[q]) && forall r :: q < r < n ==> !Revives(steps[r]);
      assert forall r :: q < r < n + 1 ==> !Revives(steps[r]);
    }
  }

  /** In every run, a pending bus-off has no poll under way if and only if a poll whose report was not
      accepted left quota, or a suspend came with the interface down, and nothing was filled, no
      interrupt came, and the controller was not started or stopped since. */
  lemma {:induction false} ParkedIff(ring: nat, feat: Features, states: seq<State>, steps: seq<Step>, n: nat)
    requires Execution(ring, feat, states, steps) && n < |states|
    ensures Parked(states[n]) <==> ParkedBefore(states, steps, n)
  {
    if n > 0 {
      assert Takes(ring, feat, states[n - 1], steps[n - 1], states[n]);
      ParkedIff(ring, feat, states, steps, n - 1);
      StepParks(ring, feat, states[n - 1], steps[n - 1]);
      ParkedLater(states, steps, n - 1);
    }
  }

  /** While it is parked, further indications of the device change nothing. */
  lemma ParkedIgnoresIndications(s: State, events: seq<Event>)
    requires Parked(s)
    ensures Indicated(s, events) == s
  {
  }

  /** It happens: this run starts the controller, indicates bus-off and has its report refused. */
  lemma RefusedReportParks(ring: nat, feat: Features) returns (states: seq<State>, steps: seq<Step>)
    ensures Execution(ring, feat, states, steps) && Parked(states[|steps|])
  {
    var bus := Event(EVENT_SIZE, BUSOFF_IND);
    steps := [DoStart, DoIndicate([bus]), DoPoll(64, Refuse)];
    var s1 := Started(Populated(ring));
    assert IsBusoffEvent([bus][0]);
    var s2 := Indicated(s1, [bus]);
    states := [Populated(ring), s1, s2, Polled(feat, s2, 64, Refuse)];
    StepParks(ring, feat, s2, steps[2]);
    assert Takes(ring, feat, states[0], steps[0], states[1]);
    assert Takes(ring, feat, states[1], steps[1], states[2]);
    assert Takes(ring, feat, states[2], steps[2], states[3]);
  }

  // Delivered frames.

  lemma {:induction false} FramesAreValid(canState: int, feat: Features, es: seq<UsedRx>)
    requires AllFilled(es)
    ensures forall f :: f in Frames(canState, feat, es) ==> Valid(f, feat)
  {
    if es != [] {
      FramesAreValid(canState, feat, es[1..]);
      if FrameOf(canState, feat, es[0]) != [] { DeliveredIsValid(es[0].bytes, es[0].len, feat); }
    }
  }

  /** In every run, every frame handed to the stack respects the id, length and type limits of what
      was negotiated, whatever the device put into the buffers. */
  lemma {:induction false} OnlyValidFramesDelivered(ring: nat, feat: Features, states: seq<State>,
    steps: seq<Step>, n: nat)
    requires Execution(ring, feat, states, steps) && n < |states|
    ensures forall f :: f in states[n].delivered ==> Valid(f, feat)
  {
    if n > 0 {
      OnlyValidFramesDelivered(ring, feat, states, steps, n - 1);
      assert Takes(ring, feat, states[n - 1], steps[n - 1], states[n]);
      if steps[n - 1].DoPoll? {
        var (off, spent) := HandleBusoff(states[n - 1], steps[n - 1].report);
        FramesAreValid(off.canState, feat, off.used[..ReadCount(off, steps[n - 1].quota, spent)]);
      }
    }
  }

  // What reaches the stack.

  /** What one filled buffer comes to: a frame below error-passive that decodes and gets a socket buffer
      is handed up, and counted if it is accepted; one that is refused or gets none is dropped. */
  lemma BufferOutcome(feat: Features, s: State)
    requires s.used != [] && Filled(s.used[0])
    ensures var e, t := s.used[0], RecycledOne(feat, s);
            var d := Decode(e.bytes, e.len, feat);
            var up := s.canState < 2 && d.Delivered? && e.skb;
            && t.delivered == (if up then s.delivered + [d.frame] else s.delivered)
            && t.rxPackets == s.rxPackets + (if up && e.accepted then 1 else 0)
            && t.rxDropped == s.rxDropped
                              + (if s.canState < 2 && (d.Dropped? || (d.Delivered? && !e.skb)) then 1 else 0)
            && t.avail == s.avail + [e.buf] && t.used == s.used[1..]
            && t.canState == s.canState && t.pending == s.pending && t.numFree == s.numFree
  {
  }

  function AcceptedFlags(es: seq<UsedRx>): seq<bool> {
    if es == [] then [] else [es[0].accepted] + AcceptedFlags(es[1..])
  }

  /** The buffer decodes to that frame, and there is a socket buffer for it. */
  predicate Yields(feat: Features, e: UsedRx, f: Frame) {
    Filled(e) && e.skb && Decode(e.bytes, e.len, feat) == Delivered(f)
  }

  lemma {:induction false} AllDelivered(canState: int, feat: Features, es: seq<UsedRx>, frames: seq<Frame>)
    requires AllFilled(es) && canState < 2 && |frames| == |es|
    requires forall i :: 0 <= i < |es| ==> Yields(feat, es[i], frames[i])
    ensures Frames(canState, feat, es) == frames && DroppedCount(canState, feat, es) == 0
    ensures Accepted(canState, feat, es) == Count(AcceptedFlags(es), true)
    decreases |es|
  {
    if es != [] {
      AllDelivered(canState, feat, es[1..], frames[1..]);
      OneDelivered(canState, feat, es[0], frames[0]);
      assert frames == [frames[0]] + frames[1..];
      assert AcceptedFlags(es)[1..] == AcceptedFlags(es[1..]);
    }
  }

  lemma OneDelivered(canState: int, feat: Features, e: UsedRx, f: Frame)
    requires canState < 2 && Yields(feat, e, f)
    ensures FrameOf(canState, feat, e) == [f] && !CountsAsDropped(canState, feat, e)
  {
  }

  /** A poll hands up the frames of the filled buffers, in order and as many as its quota allows, and
      counts those accepted; it goes on being scheduled only if the quota was not enough. */
  lemma PollDeliversAll(feat: Features, s: State, quota: nat, report: Report, frames: seq<Frame>)
    requires AllFilled(s.used) && s.canState < 2 && !s.pending
    requires |frames| == if quota < |s.used| then quota else |s.used|
    requires forall i :: 0 <= i < |frames| ==>
               && s.used[i].skb && Filled(s.used[i])
               && Decode(s.used[i].bytes, s.used[i].len, feat) == Delivered(frames[i])
    ensures var t := Polled(feat, s, quota, report);
            && t.delivered == s.delivered + frames && t.used == s.used[|frames|..]
            && t.rxPackets == s.rxPackets + Count(AcceptedFlags(s.used[..|frames|]), true)
            && t.rxDropped == s.rxDropped && t.scheduled == (s.scheduled && quota == |frames|)
  {
    var es := s.used[..|frames|];
    assert AllFilled(es) && forall i :: 0 <= i < |frames| ==> Yields(feat, es[i], frames[i]);
    AllDelivered(s.canState, feat, es, frames);
    PollRecycles(feat, s, quota, report, |frames|);
  }

  lemma PollRecycles(feat: Features, s: State, quota: nat, report: Report, n: nat)
    requires AllFilled(s.used) && !s.pending && n == if quota < |s.used| then quota else |s.used|
    ensures Polled(feat, s, quota, report) == Completed(Recycled(feat, s, n), n < quota)
  {
  }

  /** A valid frame that comes back from the device, as the transmit side encodes it, reaches the stack
      under its own id, type and length, with its data unless it is a remote request. */
  lemma SentFrameIsReceived(feat: Features, s: State, which: nat, e: UsedRx, f: Frame, before: Bytes,
    quota: nat, report: Report) returns (g: Frame)
    requires s.canState < 2 && !s.pending && s.used == [] && which < |s.avail| && quota > 0
    requires Valid(f, feat) && |before| == 76
    requires e.bytes == AsReceived(Encode(f), before) && e.len == |Encode(f)| && e.skb
    ensures Enabled(s, DoFill(which, e)) && Enabled(DeviceFilled(s, which, e), DoPoll(quota, report))
    ensures var t := Polled(feat, DeviceFilled(s, which, e), quota, report);
            t.delivered == s.delivered + [g] && t.rxPackets == s.rxPackets + if e.accepted then 1 else 0
    ensures g.id == f.id && g.fd == f.fd && g.len == f.len <= |g.data|
    ensures f.id / 0x4000_0000 % 2 == 0 ==> g.data[..f.len] == f.data[..f.len]
  {
    RoundTrip(f, feat, before);
    var u := DeviceFilled(s, which, e);
    g := Decode(e.bytes, e.len, feat).frame;
    assert u.used == [e.(buf := s.avail[which])];
    PollDeliversAll(feat, u, quota, report, [g]);
    assert AcceptedFlags(u.used) == [e.accepted];
  }

  /** After a stop nothing reaches the stack before the next start or resume. */
  lemma NothingWhileStopped(ring: nat, feat: Features, states: seq<State>, steps: seq<Step>,
    first: nat, last: nat)
    requires Execution(ring, feat, states, steps) && first < last <= |steps|
    requires steps[first] == DoStop && Undisturbed(steps, first + 1, last)
    ensures states[last].delivered == states[first].delivered && states[last].canState >= 2
  {
    assert Takes(ring, feat, states[first], steps[first], states[first + 1]);
    BusoffBudget(ring, feat, states, steps, first + 1, last);
  }

  /** Runs leave nothing out: awake, the device fills any of the buffers it has with any bytes, sends any
      indications and interrupts, and the controller is started, stopped and suspended; a scheduled poll
      comes with any quota and any fate of its report. */
  lemma AnythingMayHappen(s: State, which: nat, e: UsedRx, quota: nat, report: Report, events: seq<Event>, up: bool)
    requires s.canState != 5
    ensures Enabled(s, DoFill(which, e)) <==> which < |s.avail| && |e.bytes| == 76
    ensures AllFilled(s.used) ==> (Enabled(s, DoPoll(quota, report)) <==> s.scheduled && quota > 0)
    ensures Enabled(s, DoIndicate(events)) && Enabled(s, DoInterrupt) && Enabled(s, DoStart) && Enabled(s, DoStop)
    ensures Enabled(s, DoFreeze(up)) && Enabled(Frozen(0, s, up), DoRestore(up))
  {
  }

  /** What the other callbacks leave of the controller. */
  lemma ControllerEffects(ring: nat, feat: Features, s: State, up: bool, report: Report)
    ensures Started(s) == s.(pending := false, canState := 0)
    ensures Closed(s) == s.(pending := false, canState := 4)
    ensures var t := Frozen(ring, s, up);
            t.canState == 5 && t.pending == (s.pending && !up) && t.avail == [] && t.used == [] && !t.scheduled
    ensures var t := Restored(ring, s, up); t.canState == 0 && t.pending == (s.pending && !up)
    ensures Populated(ring).canState == 4 && !Populated(ring).pending
    ensures var (t, work) := HandleBusoff(s, report);
            && work == (if s.pending && report != NoSkb then 1 else 0) && t.rxPackets == s.rxPackets + work
            && (t.canState == if s.pending && s.canState < 3 then 3 else s.canState)
  {
  }

  /** An indication is one of type 0x0301 with its two bytes, at any place among others. */
  lemma IndicationIs(s: State, before: seq<Event>, len: nat, msgType: U16, after: seq<Event>)
    ensures Indicated(s, []) == s
    ensures var counts := !s.pending && s.canState < 3 && len >= 2 && msgType == 0x0301;
            Indicated(s, before + [Event(len, msgType)] + after)
            == if counts then s.(pending := true, scheduled := true) else Indicated(s, before + after)
  {
    var all, rest, at := before + [Event(len, msgType)] + after, before + after, |before|;
    assert all[at] == Event(len, msgType);
    assert forall i :: 0 <= i < |rest| ==> rest[i] == all[if i < at then i else i + 1];
    assert forall i :: 0 <= i < |all| && i != at ==> all[i] == rest[if i < at then i else i - 1];
  }

  // The driver functions, each tied to its step.

  lemma {:induction false} FramesOneMore(canState: int, feat: Features, es: seq<UsedRx>, e: UsedRx)
    requires AllFilled(es + [e]) && AllFilled(es) && Filled(e)
    ensures Frames(canState, feat, es + [e]) == Frames(canState, feat, es) + FrameOf(canState, feat, e)
  {
    if es == [] {
      assert Frames(canState, feat, [e]) == FrameOf(canState, feat, e) + Frames(canState, feat, []);
      assert [] + [e] == [e];
    } else {
      FramesOneMore(canState, feat, es[1..], e);
      assert (es + [e])[1..] == es[1..] + [e];
    }
  }

  lemma {:induction false} AcceptedOneMore(canState: int, feat: Features, es: seq<UsedRx>, e: UsedRx)
    requires AllFilled(es + [e]) && AllFilled(es) && Filled(e)
    ensures Accepted(canState, feat, es + [e])
            == Accepted(canState, feat, es) + if e.accepted then |FrameOf(canState, feat, e)| else 0
  {
    if es != [] {
      AcceptedOneMore(canState, feat, es[1..], e);
      assert (es + [e])[1..] == es[1..] + [e];
    }
  }

  lemma {:induction false} DroppedOneMore(canState: int, feat: Features, es: seq<UsedRx>, e: UsedRx)
    requires AllFilled(es + [e]) && AllFilled(es) && Filled(e)
    ensures DroppedCount(canState, feat, es + [e])
            == DroppedCount(canState, feat, es) + if CountsAsDropped(canState, feat, e) then 1 else 0
  {
    if es != [] {
      DroppedOneMore(canState, feat, es[1..], e);
      assert (es + [e])[1..] == es[1..] + [e];
    }
  }

  /** Reading one filled buffer and posting it again. */
  function RecycledOne(feat: Features, s: State): State
    requires s.used != [] && Filled(s.used[0])
  {
    var e := s.used[0];
    s.(used := s.used[1..], avail := s.avail + [e.buf],
       delivered := s.delivered + FrameOf(s.canState, feat, e),
       rxPackets := s.rxPackets + (if e.accepted then |FrameOf(s.canState, feat, e)| else 0),
       rxDropped := s.rxDropped + (if CountsAsDropped(s.canState, feat, e) then 1 else 0))
  }

  lemma RecycledOneMore(feat: Features, s: State, k: nat)
    requires k < |s.used| && AllFilled(s.used)
    ensures RecycledOne(feat, Recycled(feat, s, k)) == Recycled(feat, s, k + 1)
  {
    var e := s.used[k];
    assert s.used[..k + 1] == s.used[..k] + [e];
    FramesOneMore(s.canState, feat, s.used[..k], e);
    AcceptedOneMore(s.canState, feat, s.used[..k], e);
    DroppedOneMore(s.canState, feat, s.used[..k], e);
    BufsAppend(s.used[..k], [e]);
    assert BufsOf([e]) == [e.buf];
    assert s.used[k..][0] == e && s.used[k..][1..] == s.used[k + 1..];
    assert s.avail + BufsOf(s.used[..k]) + [e.buf] == s.avail + BufsOf(s.used[..k + 1]);
  }

  class RxPriv {
    const ring: nat
    const feat: Features
    var numFree: nat
    var avail: seq<int>
    var used: seq<UsedRx>
    var canState: int
    var pending: bool
    var scheduled: bool
    var busOffs: nat
    ghost var indications: nat
    ghost var delivered: seq<Frame>
    var rxPackets: nat
    var rxDropped: nat

    ghost function View(): State reads this {
      State(numFree, avail, used, canState, pending, scheduled, busOffs, indications, delivered, rxPackets, rxDropped)
    }

    /** The receive part of virtio_can_populate_vqs: add buffers until the ring is full. */
    constructor (ring: nat, feat: Features)
      ensures this.ring == ring && this.feat == feat && View() == Populated(ring)
      ensures !scheduled && !pending && delivered == [] && used == [] && |avail| == if ring < 128 then ring else 128
      ensures busOffs == indications == rxPackets == rxDropped == 0
    {
      this.ring, this.feat := ring, feat;
      numFree, avail, used, canState, pending, scheduled := ring, [], [], STOPPED, false, false;
      busOffs, indications, delivered, rxPackets, rxDropped := 0, 0, [], 0, 0;
      new;
      var idx, ret := 0, 0;
      while idx < RPKT_COUNT && ret >= 0
        invariant idx <= RPKT_COUNT && avail == Range(Min(idx, ring)) && numFree == ring - |avail|
        invariant ret < 0 ==> numFree == 0 && idx <= RPKT_COUNT && |avail| == ring
        invariant ret >= 0 ==> |avail| == idx
        invariant View() == Populated(ring).(numFree := numFree, avail := avail)
        decreases RPKT_COUNT - idx, ret
      {
        ret := AddInbuf(idx);
        if ret >= 0 {
          idx := idx + 1;
        }
      }
    }

    /** virtio_can_add_inbuf; a full ring refuses. */
    method AddInbuf(buf: int) returns (ret: int)
      modifies this`numFree, this`avail
      ensures old(numFree) == 0 ==> ret < 0 && numFree == 0 && avail == old(avail)
      ensures old(numFree) > 0 ==> ret == numFree == old(numFree) - 1 && avail == old(avail) + [buf]
    {
      if numFree == 0 {
        return -28;
      }
      numFree, avail := numFree - 1, avail + [buf];
      ret := numFree;
    }

    /** virtio_can_read_rx_queue on one filled buffer, up to the put-back. */
    method Receive(e: UsedRx)
      requires Filled(e)
      modifies this`delivered, this`rxPackets, this`rxDropped
      ensures delivered == old(delivered) + FrameOf(canState, feat, e)
      ensures rxPackets == old(rxPackets) + if e.accepted then |FrameOf(canState, feat, e)| else 0
      ensures rxDropped == old(rxDropped) + if CountsAsDropped(canState, feat, e) then 1 else 0
    {
      if e.len < HEADER_SIZE || canState >= ERROR_PASSIVE {
        return;
      }
      var d := ParseRxMessage(e.bytes, e.len, feat);
      match d
      case TooSmall =>
      case UnknownType =>
      case Dropped => rxDropped := rxDropped + 1;
      case Delivered(frame) =>
        if !e.skb {
          rxDropped := rxDropped + 1;
          return;
        }
        delivered := delivered + [frame];
        if e.accepted {
          rxPackets := rxPackets + 1;
        }
    }

    /** virtio_can_read_rx_queue; posting the buffer again cannot fail. */
    method ReadQueue() returns (found: bool)
      requires AllFilled(used)
      modifies this`numFree, this`avail, this`used, this`delivered, this`rxPackets, this`rxDropped
      ensures found == (old(used) != [])
      ensures View() == if found then RecycledOne(feat, old(View())) else old(View())
    {
      if used == [] {
        return false;
      }
      found := true;
      var e := used[0];
      used, numFree := used[1..], numFree + 1;
      Receive(e);
      var ret := AddInbuf(e.buf);
      assert ret >= 0;
    }

    method HandleBusoffReport(report: Report) returns (spent: nat)
      modifies this`canState, this`busOffs, this`pending, this`indications, this`rxPackets
      ensures (View(), spent) == HandleBusoff(old(View()), report)
    {
      if !pending {
        return 0;
      }
      if canState < BUS_OFF {
        canState, busOffs := BUS_OFF, busOffs + 1;
      }
      if report.NoSkb? {
        return 0;
      }
      if report.Accept? {
        pending, indications := false, indications + 1;
      }
      rxPackets := rxPackets + 1;
      spent := 1;
    }

    /** The read loop of virtio_can_rx_poll, after so much work. */
    method ReadLoop(quota: nat, spent: nat, ghost off: State) returns (workDone: nat)
      requires View() == off && AllFilled(used)
      modifies this
      ensures View() == Recycled(feat, off, ReadCount(off, quota, spent))
      ensures workDone == spent + ReadCount(off, quota, spent)
    {
      workDone := spent;
      var more := true;
      ghost var k: nat, limit: nat := 0, ReadCount(off, quota, spent);
      RecycledNone(feat, off);
      while workDone < quota && more
        invariant workDone == spent + k && k <= limit <= |off.used| && (!more ==> k == limit)
        invariant k < limit ==> workDone < quota
        invariant k == limit ==> workDone >= quota || k == |off.used|
        invariant AllFilled(used) && View() == Recycled(feat, off, k)
        decreases quota - workDone, more
      {
        RecycledEnds(feat, off, k);
        more := ReadQueue();
        if more {
          RecycledOneMore(feat, off, k);
          workDone, k := workDone + 1, k + 1;
        }
      }
    }

    /** virtio_can_rx_poll up to the completion that NapiWakeup describes. */
    method RxPoll(quota: nat, report: Report) returns (workDone: nat)
      requires AllFilled(used)
      modifies this
      ensures View() == Polled(feat, old(View()), quota, report)
      ensures quota > 0 ==> workDone <= quota
      ensures 0 < quota && workDone < quota ==> used == []
    {
      var spent := HandleBusoffReport(report);
      ghost var off := View();
      workDone := ReadLoop(quota, spent, off);
      if workDone < quota { scheduled := false; }
      RecycledEnds(feat, off, ReadCount(off, quota, spent));
    }

    /** virtio_can_start, after its control message. */
    method StartController()
      modifies this`pending, this`canState
      ensures View() == Started(old(View()))
    {
      pending, canState := false, ERROR_ACTIVE;
    }

    /** virtio_can_stop, after its control message. */
    method StopController()
      modifies this`pending, this`canState
      ensures View() == Closed(old(View()))
    {
      pending, canState := false, STOPPED;
    }

    /** virtio_can_evind_intr */
    method EvindIntr(events: seq<Event>)
      modifies this`pending, this`scheduled
      ensures View() == Indicated(old(View()), events)
    {
      for i := 0 to |events|
        invariant View() == Indicated(old(View()), events[..i])
      {
        assert events[..i + 1] == events[..i] + [events[i]];
        if events[i].len >= EVENT_SIZE && events[i].msgType == BUSOFF_IND {
          assert IsBusoffEvent(events[..i + 1][i]);
          if !pending && canState < BUS_OFF {
            pending, scheduled := true, true;
          }
        }
      }
      assert events[..|events|] == events;
    }
  }

  lemma RecycledNone(feat: Features, s: State)
    requires AllFilled(s.used)
    ensures Recycled(feat, s, 0) == s
  {
    assert s.used[..0] == [] && s.used[0..] == s.used;
    assert s.avail + [] == s.avail && s.delivered + [] == s.delivered;
  }

  lemma RecycledEnds(feat: Features, s: State, k: nat)
    requires k <= |s.used| && AllFilled(s.used)
    ensures (Recycled(feat, s, k).used == []) <==> k == |s.used|
  {
  }
}
