/** The NAPI re-arm protocol of one virtqueue: device, interrupt handler and poll
    function as steps that may interleave in any order.

    The ring side is a split virtqueue without EVENT_IDX (section 2.7 of VIRTIO 1.2):
    the device publishes a used buffer and only afterwards looks at the callback flag.
    The kernel side follows virtqueue_napi_schedule, virtqueue_napi_complete, the poll
    functions and the interrupt callbacks of virtio_can.c, cut at every point where
    another processor can intervene. */
module NapiWakeup {

  /** What the owner of the NAPI SCHED bit is doing. */
  datatype PollPc =
    | NotScheduled
    | Listed                       // on a poll list, waiting to be polled
    | Reaping(left: nat)           // in the read loop, `left` of the quota remains
    | SawEmpty                     // the read loop found no used buffer
    | Prepared(token: nat)        // callbacks re-enabled, napi_complete_done not yet called
    | MustDisable                  // napi_complete_done refused: callbacks go off again
    | Rescheduling                 // the re-check won SCHED, callbacks go off next

  datatype IsrPc = IsrIdle | IsrEntered | IsrDisabled

  /** `used` and `reaped` count since the queue was set up; the ring shows them modulo 2^16. */
  datatype State = State(
    used: nat,
    reaped: nat,
    callbacks: bool,
    deviceMustLook: bool,          // a buffer was published, the flag not yet looked at
    irqPending: bool,
    isr: IsrPc,
    sched: bool,
    missed: bool,
    poll: PollPc,
    rechecks: seq<nat>)            // pollers between napi_complete_done and virtqueue_poll

  datatype Step =
    | DevicePublish
    | DeviceLook
    | OtherSchedule                // napi_schedule from the event indication callback
    | IrqEnter
    | IrqDisable
    | IrqSchedule
    | PollBegin(budget: nat)
    | PollReap
    | PollQuotaSpent
    | PollSawEmpty
    | PollPrepare
    | PollComplete
    | PollDisable
    | Recheck(which: nat)
    | RescheduleDisable

  const MAX_RING := 32768
  const IDX_WRAP := 65536

  function Initial(): State {
    State(0, 0, true, false, false, IsrIdle, false, false, NotScheduled, [])
  }

  /** The u16 comparison of virtqueue_poll: has the used index moved away from `token`? */
  predicate Moved(s: State, token: nat) {
    token % IDX_WRAP != s.used % IDX_WRAP
  }

  /** napi_schedule: take SCHED, or leave a MISSED mark for the one who holds it. */
  function NapiSchedule(s: State): State {
    if s.sched then s.(missed := true) else s.(sched := true, poll := Listed)
  }

  predicate Enabled(ring: nat, s: State, step: Step) {
    match step
    case DevicePublish => s.used < s.reaped + ring
    case DeviceLook => s.deviceMustLook
    case OtherSchedule => true
    case IrqEnter => s.irqPending && s.isr == IsrIdle
    case IrqDisable => s.isr == IsrEntered
    case IrqSchedule => s.isr == IsrDisabled
    case PollBegin(budget) => s.poll == Listed && budget > 0
    case PollReap => s.poll.Reaping? && s.poll.left > 0 && s.reaped < s.used
    case PollQuotaSpent => s.poll == Reaping(0)
    case PollSawEmpty => s.poll.Reaping? && s.poll.left > 0 && s.reaped == s.used
    case PollPrepare => s.poll == SawEmpty
    case PollComplete => s.poll.Prepared?
    case PollDisable => s.poll == MustDisable
    case Recheck(which) => which < |s.rechecks|
    case RescheduleDisable => s.poll == Rescheduling
  }

  function DeviceLooked(s: State): State {
    s.(deviceMustLook := false, irqPending := s.irqPending || s.callbacks)
  }

  /** The generic ring interrupt ignores the interrupt when nothing is used. */
  function IrqEntered(s: State): State {
    if s.reaped == s.used then s.(irqPending := false) else s.(irqPending := false, isr := IsrEntered)
  }

  /** virtqueue_get_buf, as far as the index goes. */
  function GotBuf(s: State): State
    requires s.poll.Reaping? && s.poll.left > 0
  {
    if s.reaped == s.used then s.(poll := SawEmpty)
    else s.(reaped := s.reaped + 1, poll := Reaping(s.poll.left - 1))
  }

  /** virtqueue_enable_cb_prepare. */
  function CallbacksPrepared(s: State): State { s.(callbacks := true, poll := Prepared(s.reaped)) }

  /** napi_complete_done. */
  function Completed(s: State): State
    requires s.poll.Prepared?
  {
    if s.missed then s.(missed := false, poll := MustDisable)
    else s.(sched := false, poll := NotScheduled, rechecks := s.rechecks + [s.poll.token])
  }

  /** virtqueue_poll on one token, and the napi_schedule_prep it leads to. */
  function Rechecked(s: State, which: nat): State
    requires which < |s.rechecks|
  {
    var rest := s.(rechecks := s.rechecks[..which] + s.rechecks[which + 1..]);
    if !Moved(s, s.rechecks[which]) then rest
    else if s.sched then rest.(missed := true)
    else rest.(sched := true, poll := Rescheduling)
  }

  /** virtqueue_disable_cb by the holder of SCHED, which then goes on the poll list. */
  function CallbacksDisabled(s: State): State { s.(callbacks := false, poll := Listed) }

  function Next(ring: nat, s: State, step: Step): State
    requires Enabled(ring, s, step)
  {
    match step
    case DevicePublish => s.(used := s.used + 1, deviceMustLook := true)
    case DeviceLook => DeviceLooked(s)
    case OtherSchedule => NapiSchedule(s)
    case IrqEnter => IrqEntered(s)
    case IrqDisable => s.(callbacks := false, isr := IsrDisabled)
    case IrqSchedule => NapiSchedule(s.(isr := IsrIdle))
    case PollBegin(budget) => s.(poll := Reaping(budget))
    case PollReap => GotBuf(s)
    case PollQuotaSpent => s.(poll := Listed)
    case PollSawEmpty => GotBuf(s)
    case PollPrepare => CallbacksPrepared(s)
    case PollComplete => Completed(s)
    case PollDisable => CallbacksDisabled(s)
    case Recheck(which) => Rechecked(s, which)
    case RescheduleDisable => CallbacksDisabled(s)
  }

  /** An interleaving: the states it passes through and the steps between them. */
  ghost predicate Execution(ring: nat, states: seq<State>, steps: seq<Step>) {
    && |states| == |steps| + 1
    && states[0] == Initial()
    && forall i :: 0 <= i < |steps| ==>
         Enabled(ring, states[i], steps[i]) && states[i + 1] == Next(ring, states[i], steps[i])
  }

  predicate Unreaped(s: State) { s.reaped < s.used }

  /** Somebody is bound to look at the ring again. */
  predicate WakeupUnderWay(s: State) {
    || s.sched
    || s.irqPending
    || s.isr != IsrIdle
    || (s.deviceMustLook && s.callbacks)
    || exists i :: 0 <= i < |s.rechecks| && Moved(s, s.rechecks[i])
  }

  predicate NoLostWakeup(s: State) {
    && (Unreaped(s) ==> WakeupUnderWay(s))
    && (!s.sched ==> s.callbacks || s.isr == IsrDisabled)
  }

  ghost predicate Inv(ring: nat, s: State) {
    && s.reaped <= s.used <= s.reaped + ring
    && (s.sched <==> s.poll != NotScheduled)
    && (s.missed ==> s.sched)
    && (s.poll.Prepared? ==>
          s.poll.token == s.reaped && (s.callbacks || s.isr == IsrDisabled || s.missed))
    && NoLostWakeup(s)
  }

  lemma RecheckKeepsInv(ring: nat, s: State, which: nat)
    requires ring <= MAX_RING && Inv(ring, s) && which < |s.rechecks|
    ensures Inv(ring, Next(ring, s, Recheck(which)))
  {
    var t := Next(ring, s, Recheck(which));
    if Unreaped(s) && !t.sched && !s.irqPending && s.isr == IsrIdle && !(s.deviceMustLook && s.callbacks) {
      var i :| 0 <= i < |s.rechecks| && Moved(s, s.rechecks[i]);
      assert i != which;
      assert t.rechecks[if i < which then i else i - 1] == s.rechecks[i];
    }
  }

  lemma CompleteKeepsInv(ring: nat, s: State)
    requires ring <= MAX_RING && Inv(ring, s) && s.poll.Prepared?
    ensures Inv(ring, Next(ring, s, PollComplete))
  {
    var t := Next(ring, s, PollComplete);
    if !s.missed && Unreaped(s) {
      assert t.rechecks[|s.rechecks|] == s.reaped;
      assert Moved(t, s.reaped);
    }
  }

  predicate DeviceOrInterrupt(step: Step) {
    step.DeviceLook? || step.OtherSchedule? || step.IrqEnter? || step.IrqDisable? || step.IrqSchedule?
  }

  lemma InterruptKeepsInv(ring: nat, s: State, step: Step)
    requires Inv(ring, s) && Enabled(ring, s, step) && DeviceOrInterrupt(step)
    ensures Inv(ring, Next(ring, s, step))
  {
    SameTokens(s, Next(ring, s, step));
  }

  lemma PollKeepsInv(ring: nat, s: State, step: Step)
    requires Inv(ring, s) && Enabled(ring, s, step)
    requires !DeviceOrInterrupt(step) && !step.DevicePublish? && !step.PollComplete? && !step.Recheck?
    ensures Inv(ring, Next(ring, s, step))
  {
    SameTokens(s, Next(ring, s, step));
  }

  lemma SameTokens(s: State, t: State)
    requires t.rechecks == s.rechecks && t.used == s.used
    ensures forall i :: 0 <= i < |s.rechecks| ==> Moved(t, s.rechecks[i]) == Moved(s, s.rechecks[i])
  {
  }

  lemma PublishKeepsInv(ring: nat, s: State)
    requires ring <= MAX_RING && Inv(ring, s) && Enabled(ring, s, DevicePublish)
    ensures Inv(ring, Next(ring, s, DevicePublish))
  {
  }

  lemma StepKeepsInv(ring: nat, s: State, step: Step)
    requires ring <= MAX_RING && Inv(ring, s) && Enabled(ring, s, step)
    ensures Inv(ring, Next(ring, s, step))
  {
    match step
    case Recheck(which) => RecheckKeepsInv(ring, s, which);
    case PollComplete => CompleteKeepsInv(ring, s);
    case DevicePublish => PublishKeepsInv(ring, s);
    case _ => if DeviceOrInterrupt(step) { InterruptKeepsInv(ring, s, step); } else { PollKeepsInv(ring, s, step); }
  }

  lemma {:induction false} ExecutionKeepsInv(ring: nat, states: seq<State>, steps: seq<Step>, n: nat)
    requires ring <= MAX_RING && Execution(ring, states, steps) && n < |states|
    ensures Inv(ring, states[n])
  {
    if n > 0 {
      ExecutionKeepsInv(ring, states, steps, n - 1);
      StepKeepsInv(ring, states[n - 1], steps[n - 1]);
    }
  }

  /** In every interleaving, a used buffer nobody has reaped is on its way to being noticed,
      and an idle NAPI context has callbacks on or is about to be scheduled by the handler
      that turned them off. */
  lemma NoWakeupIsLost(ring: nat, states: seq<State>, steps: seq<Step>)
    requires ring <= 32768 && Execution(ring, states, steps)
    ensures forall n :: 0 <= n < |states| ==> NoLostWakeup(states[n])
  {
    forall n | 0 <= n < |states| ensures NoLostWakeup(states[n]) {
      ExecutionKeepsInv(ring, states, steps, n);
    }
  }

  // Response: without new work, the wake-up under way reaches the read loop.

  /** Steps that bring in new work; every other step belongs to finishing the wake-up. */
  predicate BringsWork(step: Step) { step.DevicePublish? || step.OtherSchedule? }

  function PollDistance(p: PollPc): nat {
    match p
    case NotScheduled => 0
    case Listed => 1
    case Reaping(left) => if left == 0 then 2 else 0
    case SawEmpty => 7
    case Prepared(_) => 6
    case MustDisable => 2
    case Rescheduling => 2
  }

  /** How many steps can pass before a used buffer must be reaped. */
  function Distance(s: State): nat {
    (if s.deviceMustLook then 9 else 0) + (if s.irqPending then 8 else 0)
    + (match s.isr case IsrIdle => 0 case IsrEntered => 6 case IsrDisabled => 4)
    + 3 * |s.rechecks| + PollDistance(s.poll)
  }

  lemma StepApproaches(ring: nat, s: State, step: Step)
    requires Inv(ring, s) && Unreaped(s) && Enabled(ring, s, step)
    requires !BringsWork(step) && step != PollReap
    ensures Distance(Next(ring, s, step)) < Distance(s)
    ensures Unreaped(Next(ring, s, step))
  {
  }

  /** Never stuck: while a used buffer waits, some step of the device, the handler or the
      poller that finishes the wake-up can be taken. */
  lemma WaitingBufferIsNeverStuck(ring: nat, s: State)
    requires Inv(ring, s) && Unreaped(s)
    ensures exists step :: Enabled(ring, s, step) && !BringsWork(step)
  {
    var step :=
      if s.deviceMustLook then DeviceLook
      else if s.isr == IsrEntered then IrqDisable
      else if s.isr == IsrDisabled then IrqSchedule
      else if s.irqPending then IrqEnter
      else match s.poll
        case NotScheduled => Recheck(0)
        case Listed => PollBegin(1)
        case Reaping(left) => if left == 0 then PollQuotaSpent else PollReap
        case SawEmpty => PollPrepare
        case Prepared(_) => PollComplete
        case MustDisable => PollDisable
        case Rescheduling => RescheduleDisable;
    assert Enabled(ring, s, step) && !BringsWork(step);
  }

  /** Bounded response: in any stretch of an interleaving that starts with a buffer waiting
      and brings no new work, at most Distance steps pass before a buffer is reaped. */
  lemma {:induction false} WaitingBufferIsReaped(ring: nat, states: seq<State>, steps: seq<Step>, first: nat, last: nat)
    requires ring <= 32768 && Execution(ring, states, steps)
    requires first <= last <= |steps|
    requires Unreaped(states[first])
    requires forall i :: first <= i < last ==> !BringsWork(steps[i])
    requires last - first > Distance(states[first])
    ensures exists i :: first <= i < last && steps[i] == PollReap
    decreases last - first
  {
    if steps[first] != PollReap {
      ExecutionKeepsInv(ring, states, steps, first);
      StepApproaches(ring, states[first], steps[first]);
      WaitingBufferIsReaped(ring, states, steps, first + 1, last);
    }
  }

  // The driver functions themselves, run without interruption, are compositions of these steps.

  /** virtqueue_napi_complete run alone. */
  function CompleteAlone(s: State): State
    requires s.poll == SawEmpty
  {
    var completed := Completed(CallbacksPrepared(s));
    if s.missed then CallbacksDisabled(completed)
    else
      var checked := Rechecked(completed, |s.rechecks|);
      if checked.poll == Rescheduling then CallbacksDisabled(checked) else checked
  }

  /** The read loop of a poll function, then completion if the quota was not used up. */
  function PollAlone(s: State): State
    requires s.poll.Reaping?
    decreases s.poll.left
  {
    if s.poll.left == 0 then s.(poll := Listed)
    else
      var t := GotBuf(s);
      if t.poll == SawEmpty then CompleteAlone(t) else PollAlone(t)
  }

  /** A poll run alone takes min(quota, waiting) buffers; if that empties the queue it leaves
      NAPI idle with callbacks on, unless a schedule was missed meanwhile, in which case it
      stays listed. */
  lemma {:induction false} PollAloneOutcome(s: State)
    requires s.poll.Reaping? && s.reaped <= s.used && s.sched
    ensures var t := PollAlone(s);
            && t.used == s.used && t.rechecks == s.rechecks
            && t.reaped == (if s.used - s.reaped < s.poll.left then s.used else s.reaped + s.poll.left)
            && (if s.used - s.reaped >= s.poll.left then t == s.(reaped := t.reaped, poll := Listed)
                else if s.missed then t.sched && t.poll == Listed && !t.missed && !t.callbacks
                else !t.sched && t.poll == NotScheduled && t.callbacks)
    decreases s.poll.left
  {
    if s.poll.left > 0 && s.reaped < s.used {
      PollAloneOutcome(GotBuf(s));
    } else if s.poll.left > 0 && !s.missed {
      var c := Completed(CallbacksPrepared(GotBuf(s)));
      assert c.rechecks[..|s.rechecks|] + c.rechecks[|s.rechecks| + 1..] == s.rechecks;
    }
  }

  /** Completion is the steps from preparing the callbacks to the re-check, in the source's order: a
      missed schedule turns the callbacks off again, and a buffer used since the read loop saw the
      queue empty makes the re-check schedule and turn them off. */
  lemma CompleteAloneIsSteps(ring: nat, s: State)
    requires ring <= MAX_RING && Inv(ring, s) && s.poll == SawEmpty
    ensures Enabled(ring, s, PollPrepare) && Enabled(ring, Next(ring, s, PollPrepare), PollComplete)
    ensures var b := Next(ring, Next(ring, s, PollPrepare), PollComplete);
            if s.missed then Enabled(ring, b, PollDisable) && CompleteAlone(s) == Next(ring, b, PollDisable)
            else
              && |b.rechecks| > 0 && b.rechecks[|b.rechecks| - 1] == s.reaped
              && var c := Next(ring, b, Recheck(|b.rechecks| - 1));
                 if s.used == s.reaped then CompleteAlone(s) == c
                 else Enabled(ring, c, RescheduleDisable) && CompleteAlone(s) == Next(ring, c, RescheduleDisable)
  {
  }

  /** So it strands no buffer: one that arrived after the last read leaves NAPI listed again with
      callbacks off, and NAPI goes idle, with callbacks on, only when nothing waits. */
  lemma CompleteAloneLosesNothing(ring: nat, s: State)
    requires ring <= MAX_RING && Inv(ring, s) && s.poll == SawEmpty
    ensures var t := CompleteAlone(s);
            && Inv(ring, t) && t.used == s.used && t.reaped == s.reaped && t.rechecks == s.rechecks
            && (t.sched <==> s.missed || Unreaped(s))
            && (t.sched ==> t.poll == Listed && !t.callbacks)
            && (!t.sched ==> t.callbacks)
  {
    CompleteAloneIsSteps(ring, s);
    var a := Next(ring, s, PollPrepare);
    var b := Next(ring, a, PollComplete);
    StepKeepsInv(ring, s, PollPrepare);
    StepKeepsInv(ring, a, PollComplete);
    if s.missed {
      StepKeepsInv(ring, b, PollDisable);
    } else {
      var last := Recheck(|b.rechecks| - 1);
      StepKeepsInv(ring, b, last);
      if s.used != s.reaped { StepKeepsInv(ring, Next(ring, b, last), RescheduleDisable); }
      assert b.rechecks[..|s.rechecks|] + b.rechecks[|s.rechecks| + 1..] == s.rechecks;
    }
  }

  ghost predicate Leads(ring: nat, s: State, steps: seq<Step>, t: State)
    decreases |steps|
  {
    if steps == [] then s == t
    else Enabled(ring, s, steps[0]) && Leads(ring, Next(ring, s, steps[0]), steps[1..], t)
  }

  lemma LeadsCons(ring: nat, s: State, step: Step, rest: seq<Step>, t: State)
    requires Enabled(ring, s, step) && Leads(ring, Next(ring, s, step), rest, t)
    ensures Leads(ring, s, [step] + rest, t)
  {
    assert ([step] + rest)[1..] == rest;
  }

  lemma CompleteAloneIsRun(ring: nat, s: State) returns (steps: seq<Step>)
    requires ring <= MAX_RING && Inv(ring, s) && s.poll == SawEmpty
    ensures Leads(ring, s, steps, CompleteAlone(s))
  {
    CompleteAloneIsSteps(ring, s);
    var t, a := CompleteAlone(s), Next(ring, s, PollPrepare);
    var b := Next(ring, a, PollComplete);
    var end;
    if s.missed {
      end := [PollDisable] + [];
      LeadsCons(ring, b, PollDisable, [], t);
    } else {
      var last := Recheck(|b.rechecks| - 1);
      var c := Next(ring, b, last);
      end := [];
      if s.used != s.reaped {
        LeadsCons(ring, c, RescheduleDisable, [], t);
        end := [RescheduleDisable] + [];
      }
      LeadsCons(ring, b, last, end, t);
      end := [last] + end;
    }
    LeadsCons(ring, a, PollComplete, end, t);
    LeadsCons(ring, s, PollPrepare, [PollComplete] + end, t);
    steps := [PollPrepare] + ([PollComplete] + end);
  }

  /** A poll run alone, whatever arrived before it, is a run of the protocol's steps. */
  lemma {:induction false} PollAloneIsRun(ring: nat, s: State) returns (steps: seq<Step>)
    requires ring <= MAX_RING && Inv(ring, s) && s.poll.Reaping?
    ensures Leads(ring, s, steps, PollAlone(s))
    decreases s.poll.left
  {
    var t := PollAlone(s);
    if s.poll.left == 0 {
      LeadsCons(ring, s, PollQuotaSpent, [], t);
      steps := [PollQuotaSpent] + [];
    } else {
      var step := if s.reaped == s.used then PollSawEmpty else PollReap;
      StepKeepsInv(ring, s, step);
      if step == PollReap {
        steps := PollAloneIsRun(ring, GotBuf(s));
      } else {
        steps := CompleteAloneIsRun(ring, GotBuf(s));
      }
      LeadsCons(ring, s, step, steps, t);
      steps := [step] + steps;
    }
  }

  lemma {:induction false} LeadsKeepsInv(ring: nat, s: State, steps: seq<Step>, t: State)
    requires ring <= MAX_RING && Inv(ring, s) && Leads(ring, s, steps, t)
    ensures Inv(ring, t)
    decreases |steps|
  {
    if steps != [] {
      StepKeepsInv(ring, s, steps[0]);
      LeadsKeepsInv(ring, Next(ring, s, steps[0]), steps[1..], t);
    }
  }

  /** So a poll keeps the invariant, and leaves NAPI scheduled whenever it leaves a buffer. */
  lemma PollAloneLosesNothing(ring: nat, s: State)
    requires ring <= MAX_RING && Inv(ring, s) && s.poll.Reaping?
    ensures Inv(ring, PollAlone(s)) && (Unreaped(PollAlone(s)) ==> PollAlone(s).sched && PollAlone(s).poll == Listed)
  {
    var steps := PollAloneIsRun(ring, s);
    LeadsKeepsInv(ring, s, steps, PollAlone(s));
    PollAloneOutcome(s);
  }

  /** The ring interrupt and virtio_can_tx_intr or virtio_can_rx_intr run alone. */
  function InterruptAlone(s: State): State {
    var entered := IrqEntered(s);
    if s.reaped == s.used then entered else NapiSchedule(entered.(callbacks := false, isr := IsrIdle))
  }

  /** They are the handler's steps, callbacks off before the schedule; and leave NAPI scheduled if and
      only if it was or something is used. */
  lemma InterruptAloneIsSteps(ring: nat, s: State)
    requires s.irqPending && s.isr == IsrIdle
    ensures var a := Next(ring, s, IrqEnter);
            if s.reaped == s.used then InterruptAlone(s) == a
            else
              && Enabled(ring, a, IrqDisable) && Enabled(ring, Next(ring, a, IrqDisable), IrqSchedule)
              && InterruptAlone(s) == Next(ring, Next(ring, a, IrqDisable), IrqSchedule)
    ensures InterruptAlone(s).sched <==> s.sched || s.reaped != s.used
    ensures !InterruptAlone(s).irqPending && (s.reaped != s.used ==> !InterruptAlone(s).callbacks)
  {
  }

  /** Runs leave nothing out: the device publishes while it holds a buffer, somebody else schedules at
      any time, and a re-check under way is overtaken by anything. */
  lemma AnythingMayHappen(ring: nat, s: State, which: nat, budget: nat)
    ensures Enabled(ring, s, DevicePublish) <==> s.used < s.reaped + ring
    ensures Enabled(ring, s, DeviceLook) <==> s.deviceMustLook
    ensures Enabled(ring, s, OtherSchedule)
    ensures Enabled(ring, s, IrqEnter) <==> s.irqPending && s.isr == IsrIdle
    ensures Enabled(ring, s, PollBegin(budget)) <==> s.poll == Listed && budget > 0
    ensures Enabled(ring, s, Recheck(which)) <==> which < |s.rechecks|
  {
  }

  /** A re-check compares 16 bits of the used index, and schedules or marks if they differ. */
  lemma RecheckOutcome(ring: nat, s: State, which: nat)
    requires which < |s.rechecks|
    ensures var t, moved := Next(ring, s, Recheck(which)), s.rechecks[which] % 65536 != s.used % 65536;
            && (t.sched <==> s.sched || moved) && (t.missed <==> s.missed || (s.sched && moved))
            && t.rechecks == s.rechecks[..which] + s.rechecks[which + 1..]
            && t.used == s.used && t.reaped == s.reaped && t.callbacks == s.callbacks
  {
  }

  /** What the device does: it publishes one more used buffer and then has to look at the callbacks. */
  lemma DevicePublishes(ring: nat, s: State)
    requires Enabled(ring, s, DevicePublish)
    ensures Next(ring, s, DevicePublish) == s.(used := s.used + 1, deviceMustLook := true)
    ensures !Next(ring, Next(ring, s, DevicePublish), DeviceLook).deviceMustLook
  {
  }

  /** What the protocol is for: interrupts are raised with callbacks on only, are off once a handler or
      a poller has turned them off, and a schedule is marked as missed exactly if another holds it. */
  lemma CallbacksAreObeyed(ring: nat, s: State)
    ensures s.deviceMustLook ==>
              (Next(ring, s, DeviceLook).irqPending <==> s.irqPending || s.callbacks)
    ensures Enabled(ring, s, IrqDisable) ==> !Next(ring, s, IrqDisable).callbacks
    ensures Enabled(ring, s, PollDisable) ==> !Next(ring, s, PollDisable).callbacks
    ensures Enabled(ring, s, RescheduleDisable) ==> !Next(ring, s, RescheduleDisable).callbacks
    ensures Enabled(ring, s, PollPrepare) ==>
              Next(ring, s, PollPrepare).callbacks && Next(ring, s, PollPrepare).poll == Prepared(s.reaped)
    ensures var t := Next(ring, s, OtherSchedule);
            t.sched && t.callbacks == s.callbacks && (t.missed <==> s.missed || s.sched)
    ensures Enabled(ring, s, PollComplete) ==>
              (Next(ring, s, PollComplete).sched <==> s.sched && s.missed) && !Next(ring, s, PollComplete).missed
    ensures Enabled(ring, s, IrqEnter) ==>
              (Next(ring, s, IrqEnter).isr == IsrEntered <==> s.reaped != s.used)
  {
  }

  class NapiQueue {
    var used: nat
    var reaped: nat
    var callbacks: bool
    var deviceMustLook: bool
    var irqPending: bool
    var isr: IsrPc
    var sched: bool
    var missed: bool
    var poll: PollPc
    var rechecks: seq<nat>

    ghost function View(): State reads this {
      State(used, reaped, callbacks, deviceMustLook, irqPending, isr, sched, missed, poll, rechecks)
    }

    constructor ()
      ensures View() == Initial() && used == reaped == 0 && callbacks && !sched && poll == NotScheduled
    {
      used, reaped, callbacks, deviceMustLook, irqPending := 0, 0, true, false, false;
      isr, sched, missed, poll, rechecks := IsrIdle, false, false, NotScheduled, [];
    }

    method GetBuf() returns (found: bool)
      requires poll.Reaping? && poll.left > 0
      modifies this`reaped, this`poll
      ensures View() == GotBuf(old(View())) && found == (poll != SawEmpty)
    {
      found := reaped != used;
      if found {
        reaped, poll := reaped + 1, Reaping(poll.left - 1);
      } else {
        poll := SawEmpty;
      }
    }

    method EnableCbPrepare() returns (token: nat)
      requires poll == SawEmpty
      modifies this`callbacks, this`poll
      ensures View() == CallbacksPrepared(old(View())) && token == reaped
    {
      token := reaped;
      callbacks, poll := true, Prepared(token);
    }

    method CompleteDone() returns (done: bool)
      requires poll.Prepared?
      modifies this`sched, this`missed, this`poll, this`rechecks
      ensures View() == Completed(old(View())) && done == !old(missed)
    {
      done := !missed;
      if done {
        sched, poll, rechecks := false, NotScheduled, rechecks + [poll.token];
      } else {
        missed, poll := false, MustDisable;
      }
    }

    /** virtqueue_napi_schedule, on behalf of the poller that holds the last token. */
    method RecheckLast()
      requires rechecks != []
      modifies this
      ensures var checked := Rechecked(old(View()), |old(rechecks)| - 1);
              View() == if !old(sched) && checked.sched then CallbacksDisabled(checked) else checked
    {
      var last := |rechecks| - 1;
      var token := rechecks[last];
      assert rechecks[..last] + rechecks[last + 1..] == rechecks[..last];
      rechecks := rechecks[..last];
      if token % IDX_WRAP != used % IDX_WRAP {
        if sched {
          missed := true;
        } else {
          sched, poll := true, Rescheduling;
          callbacks, poll := false, Listed;
        }
      }
    }

    method NapiComplete()
      requires poll == SawEmpty
      modifies this
      ensures View() == CompleteAlone(old(View()))
    {
      var token := EnableCbPrepare();
      var done := CompleteDone();
      if done {
        RecheckLast();
      } else {
        callbacks, poll := false, Listed;
      }
    }

    /** virtio_can_tx_poll, and virtio_can_rx_poll after its bus-off report. */
    method Poll(quota: nat) returns (workDone: nat)
      requires quota > 0 && poll == Listed && reaped <= used
      modifies this
      ensures View() == PollAlone(old(View()).(poll := Reaping(quota)))
      ensures workDone == if old(used - reaped) < quota then old(used - reaped) else quota
    {
      poll, workDone := Reaping(quota), 0;
      ghost var begun := View();
      var more := true;
      while workDone < quota && more
        invariant workDone <= quota && used == old(used) && reaped == old(reaped) + workDone <= used
        invariant more ==> poll == Reaping(quota - workDone) && PollAlone(View()) == PollAlone(begun)
        invariant !more ==> poll == SawEmpty && workDone < quota && reaped == used
                            && CompleteAlone(View()) == PollAlone(begun)
        decreases quota - workDone, more
      {
        more := GetBuf();
        if more {
          workDone := workDone + 1;
        }
      }
      if workDone < quota {
        NapiComplete();
      } else {
        poll := Listed;
      }
    }

    /** virtio_can_tx_intr and virtio_can_rx_intr, as the ring interrupt calls them. */
    method Interrupt()
      requires irqPending && isr == IsrIdle
      modifies this
      ensures View() == InterruptAlone(old(View()))
    {
      irqPending := false;
      if reaped == used {
        return;
      }
      callbacks := false;
      if sched {
        missed := true;
      } else {
        sched, poll := true, Listed;
      }
    }
  }
}
