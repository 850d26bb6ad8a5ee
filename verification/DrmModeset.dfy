/** psplash-drm.c: a CRTC and two frame buffers for each connector.

    The kernel's part is given by what its calls return; an identifier that is still in use counts
    as a failed call, so any way of handing out unused identifiers is covered. */
module PsplashModeset {
  import opened Wrappers
  import opened Words
  import opened Counting

  // Choosing a CRTC.

  datatype Encoder = Encoder(crtcId: U32, possibleCrtcs: U32)

  /** A connector as read from the kernel; encoders that cannot be read are None, and so is the
      bound one of a connector without one. */
  datatype Connector = Connector(id: U32, connected: bool, hasMode: bool, bound: Option<Encoder>,
                                 encoders: seq<Option<Encoder>>)

  /** The CRTCs, from the j-th on, an encoder can be connected to. */
  function Compatible(enc: Encoder, crtcs: seq<U32>, j: nat): seq<U32>
    decreases |crtcs| - j
  {
    if j >= |crtcs| then []
    else (if BitAt(enc.possibleCrtcs, j) then [crtcs[j]] else []) + Compatible(enc, crtcs, j + 1)
  }

  function OfEncoders(encoders: seq<Option<Encoder>>, crtcs: seq<U32>): seq<U32> {
    if encoders == [] then []
    else
      (match encoders[0] case None => [] case Some(enc) => Compatible(enc, crtcs, 0))
      + OfEncoders(encoders[1..], crtcs)
  }

  /** The CRTCs to try for a connector, in order: the one it is bound to now, then those of its encoders. */
  function Candidates(conn: Connector, crtcs: seq<U32>): seq<U32> {
    (match conn.bound
     case None => []
     case Some(enc) => if enc.crtcId != 0 then [enc.crtcId] else [])
    + OfEncoders(conn.encoders, crtcs)
  }

  /** Not used by a device, and not negative once stored in an int. */
  predicate Free(crtc: U32, used: seq<U32>) { crtc < 0x8000_0000 && crtc !in used }

  function FirstFree(cs: seq<U32>, used: seq<U32>): Option<U32> {
    if cs == [] then None else if Free(cs[0], used) then Some(cs[0]) else FirstFree(cs[1..], used)
  }

  /** A connector can use a CRTC: it is bound to it now, or one of its encoders can reach it. */
  predicate Usable(conn: Connector, crtcs: seq<U32>, c: U32) {
    || (conn.bound.Some? && conn.bound.value.crtcId != 0 && c == conn.bound.value.crtcId)
    || exists i, j :: && 0 <= i < |conn.encoders| && 0 <= j < |crtcs|
                      && conn.encoders[i].Some? && crtcs[j] == c && BitAt(conn.encoders[i].value.possibleCrtcs, j)
  }

  lemma {:induction false} CompatibleIff(enc: Encoder, crtcs: seq<U32>, j: nat, c: U32)
    ensures c in Compatible(enc, crtcs, j)
            <==> exists m :: j <= m < |crtcs| && crtcs[m] == c && BitAt(enc.possibleCrtcs, m)
    decreases |crtcs| - j
  {
    if j < |crtcs| { CompatibleIff(enc, crtcs, j + 1, c); }
  }

  lemma {:induction false} OfEncodersIff(encoders: seq<Option<Encoder>>, crtcs: seq<U32>, c: U32)
    ensures c in OfEncoders(encoders, crtcs)
            <==> exists i :: 0 <= i < |encoders| && encoders[i].Some? && c in Compatible(encoders[i].value, crtcs, 0)
  {
    if encoders != [] { OfEncodersIff(encoders[1..], crtcs, c); }
  }

  lemma CandidatesAreUsable(conn: Connector, crtcs: seq<U32>, c: U32)
    ensures c in Candidates(conn, crtcs) <==> Usable(conn, crtcs, c)
  {
    OfEncodersIff(conn.encoders, crtcs, c);
    forall i | 0 <= i < |conn.encoders| && conn.encoders[i].Some?
      ensures c in Compatible(conn.encoders[i].value, crtcs, 0)
              <==> exists m :: 0 <= m < |crtcs| && crtcs[m] == c && BitAt(conn.encoders[i].value.possibleCrtcs, m)
    {
      CompatibleIff(conn.encoders[i].value, crtcs, 0, c);
    }
  }

  lemma {:induction false} FirstFreeIff(cs: seq<U32>, used: seq<U32>)
    ensures FirstFree(cs, used).Some? ==> FirstFree(cs, used).value in cs && Free(FirstFree(cs, used).value, used)
    ensures FirstFree(cs, used) == None <==> forall c :: c in cs ==> !Free(c, used)
  {
    if cs != [] { FirstFreeIff(cs[1..], used); }
  }

  /** First fit is sound and complete. */
  lemma FirstFit(conn: Connector, crtcs: seq<U32>, used: seq<U32>)
    ensures var r := FirstFree(Candidates(conn, crtcs), used);
            && (r.Some? ==> Usable(conn, crtcs, r.value) && Free(r.value, used))
            && (r == None <==> forall c :: Usable(conn, crtcs, c) ==> !Free(c, used))
  {
    FirstFreeIff(Candidates(conn, crtcs), used);
    forall c: U32 ensures c in Candidates(conn, crtcs) <==> Usable(conn, crtcs, c) {
      CandidatesAreUsable(conn, crtcs, c);
    }
  }

  // What is live in the kernel.

  datatype Live = Live(dumbs: set<nat>, fbs: set<nat>, maps: set<nat>)

  datatype Buf = Buf(handle: nat, size: nat, fb: nat, map_: nat)

  /** What the calls of one modeset_create_fb return: handle and size of the dumb buffer, the frame
      buffer, whether it can be prepared for mapping, and the mapping; None for a failed call. */
  datatype Outcome = Outcome(dumb: Option<(nat, nat)>, fb: Option<nat>, prepared: bool, mapped: Option<nat>)

  predicate Fresh(l: Live, b: Buf) { b.handle !in l.dumbs && b.fb !in l.fbs && b.map_ !in l.maps }

  function Plus(l: Live, b: Buf): Live { Live(l.dumbs + {b.handle}, l.fbs + {b.fb}, l.maps + {b.map_}) }

  function Minus(l: Live, b: Buf): Live { Live(l.dumbs - {b.handle}, l.fbs - {b.fb}, l.maps - {b.map_}) }

  /** The buffer that calls with this outcome create, if none fails. */
  function Created(l: Live, o: Outcome): (r: Option<Buf>)
    ensures r.Some? ==> Fresh(l, r.value)
  {
    if o.dumb.Some? && o.fb.Some? && o.prepared && o.mapped.Some? then
      var b := Buf(o.dumb.value.0, o.dumb.value.1, o.fb.value, o.mapped.value);
      if Fresh(l, b) then Some(b) else None
    else None
  }

  datatype Dev = Dev(conn: U32, crtc: U32, front: Buf, back: Buf)

  /** One connector with what its calls return; None for one that cannot be read. */
  datatype Plan = Plan(conn: Option<Connector>, first: Outcome, second: Outcome)

  /** The device list, newest first, and the buffers that no device owns any more. */
  datatype State = State(live: Live, list: seq<Dev>, leaked: seq<Buf>)

  function Crtcs(list: seq<Dev>): (r: seq<U32>)
    ensures |r| == |list|
  {
    if list == [] then [] else [list[0].crtc] + Crtcs(list[1..])
  }

  datatype Setup = Ready(dev: Dev) | NoEntry | Failed | Mismatch(first: Buf, second: Buf)

  /** What setting up a connector comes to. */
  function SetUp(live: Live, used: seq<U32>, crtcs: seq<U32>, conn: Connector, first: Outcome, second: Outcome): Setup {
    if !conn.connected then NoEntry
    else if !conn.hasMode then Failed
    else
      match FirstFree(Candidates(conn, crtcs), used)
      case None => NoEntry
      case Some(crtc) =>
        match Created(live, first)
        case None => Failed
        case Some(a) =>
          match Created(Plus(live, a), second)
          case None => Failed
          case Some(b) => if a.size == b.size then Ready(Dev(conn.id, crtc, a, b)) else Mismatch(a, b)
  }

  function Add(s: State, crtcs: seq<U32>, plan: Plan): State {
    match plan.conn
    case None => s
    case Some(conn) =>
      match SetUp(s.live, Crtcs(s.list), crtcs, conn, plan.first, plan.second)
      case Ready(dev) => State(Plus(Plus(s.live, dev.front), dev.back), [dev] + s.list, s.leaked)
      case Mismatch(a, b) => State(Plus(Plus(s.live, a), b), s.list, [b, a] + s.leaked)
      case _ => s
  }

  /** modeset_prepare as a function. */
  function Prepared(s: State, crtcs: seq<U32>, plans: seq<Plan>): State {
    if plans == [] then s
    else Add(Prepared(s, crtcs, plans[..|plans| - 1]), crtcs, plans[|plans| - 1])
  }

  /** psplash_drm_destroy as a function. */
  function Destroyed(live: Live, list: seq<Dev>): Live
    decreases |list|
  {
    if list == [] then live else Destroyed(Minus(Minus(live, list[0].back), list[0].front), list[1..])
  }

  // Over any number of connectors.

  /** No two devices ever share a CRTC. */
  lemma {:induction false} PreparedCrtcsAreDistinct(s: State, crtcs: seq<U32>, plans: seq<Plan>)
    requires Distinct(Crtcs(s.list))
    ensures Distinct(Crtcs(Prepared(s, crtcs, plans).list))
    decreases |plans|
  {
    if plans != [] {
      var before, plan := Prepared(s, crtcs, plans[..|plans| - 1]), plans[|plans| - 1];
      PreparedCrtcsAreDistinct(s, crtcs, plans[..|plans| - 1]);
      if plan.conn.Some? { FirstFit(plan.conn.value, crtcs, Crtcs(before.list)); }
    }
  }

  lemma {:induction false} CrtcAt(list: seq<Dev>, i: nat)
    requires i < |list|
    ensures Crtcs(list)[i] == list[i].crtc
  {
    if i > 0 { CrtcAt(list[1..], i - 1); }
  }

  /** What the buffers add to what was live before, each of them fresh when it came. */
  function Plusses(base: Live, bufs: seq<Buf>): Live {
    if bufs == [] then base else Plus(Plusses(base, bufs[1..]), bufs[0])
  }

  predicate AllFresh(base: Live, bufs: seq<Buf>) {
    bufs != [] ==> Fresh(Plusses(base, bufs[1..]), bufs[0]) && AllFresh(base, bufs[1..])
  }

  function BufsOf(list: seq<Dev>): seq<Buf> {
    if list == [] then [] else [list[0].back, list[0].front] + BufsOf(list[1..])
  }

  /** Live is exactly what was live at first, what leaked, and the buffers of the devices. */
  predicate Accounted(base: Live, s: State) {
    && AllFresh(base, s.leaked)
    && AllFresh(Plusses(base, s.leaked), BufsOf(s.list))
    && s.live == Plusses(Plusses(base, s.leaked), BufsOf(s.list))
  }

  lemma {:induction false} PlusUnder(base: Live, bufs: seq<Buf>, b: Buf)
    requires AllFresh(base, bufs) && Fresh(Plusses(base, bufs), b)
    ensures Fresh(base, b) && AllFresh(Plus(base, b), bufs)
    ensures Plusses(Plus(base, b), bufs) == Plus(Plusses(base, bufs), b)
  {
    if bufs != [] { PlusUnder(base, bufs[1..], b); }
  }

  lemma ReadyKeepsAccount(base: Live, s: State, dev: Dev)
    requires Accounted(base, s) && Fresh(s.live, dev.front) && Fresh(Plus(s.live, dev.front), dev.back)
    ensures Accounted(base, State(Plus(Plus(s.live, dev.front), dev.back), [dev] + s.list, s.leaked))
  {
    var bufs, list := BufsOf(s.list), [dev] + s.list;
    assert list[1..] == s.list;
    assert BufsOf(list) == [dev.back] + ([dev.front] + bufs);
    assert BufsOf(list)[1..] == [dev.front] + bufs && ([dev.front] + bufs)[1..] == bufs;
  }

  lemma MismatchKeepsAccount(base: Live, s: State, a: Buf, b: Buf)
    requires Accounted(base, s) && Fresh(s.live, a) && Fresh(Plus(s.live, a), b)
    ensures Accounted(base, State(Plus(Plus(s.live, a), b), s.list, [b, a] + s.leaked))
  {
    var under, bufs := Plusses(base, s.leaked), BufsOf(s.list);
    PlusUnder(under, bufs, a);
    PlusUnder(Plus(under, a), bufs, b);
    assert [b, a] + s.leaked == [b] + ([a] + s.leaked);
    assert ([b] + ([a] + s.leaked))[1..] == [a] + s.leaked && ([a] + s.leaked)[1..] == s.leaked;
  }

  lemma AddKeepsAccount(base: Live, s: State, crtcs: seq<U32>, plan: Plan)
    requires Accounted(base, s)
    ensures Accounted(base, Add(s, crtcs, plan))
  {
    if plan.conn.Some? {
      match SetUp(s.live, Crtcs(s.list), crtcs, plan.conn.value, plan.first, plan.second)
      case Ready(dev) => ReadyKeepsAccount(base, s, dev);
      case Mismatch(a, b) => MismatchKeepsAccount(base, s, a, b);
      case _ =>
    }
  }

  /** Over any connectors and any failures, every live buffer is a device's or was leaked by a size mismatch. */
  lemma {:induction false} PreparedIsAccounted(base: Live, s: State, crtcs: seq<U32>, plans: seq<Plan>)
    requires Accounted(base, s)
    ensures Accounted(base, Prepared(s, crtcs, plans))
    decreases |plans|
  {
    if plans != [] {
      PreparedIsAccounted(base, s, crtcs, plans[..|plans| - 1]);
      AddKeepsAccount(base, Prepared(s, crtcs, plans[..|plans| - 1]), crtcs, plans[|plans| - 1]);
    }
  }

  lemma {:induction false} DestroyedLeavesBase(base: Live, list: seq<Dev>)
    requires AllFresh(base, BufsOf(list))
    ensures Destroyed(Plusses(base, BufsOf(list)), list) == base
    decreases |list|
  {
    if list != [] {
      var bufs, rest := BufsOf(list), BufsOf(list[1..]);
      assert bufs == [list[0].back] + ([list[0].front] + rest);
      assert bufs[1..] == [list[0].front] + rest && bufs[1..][1..] == rest;
      DestroyedLeavesBase(base, list[1..]);
    }
  }

  lemma {:induction false} PlussesGrow(base: Live, bufs: seq<Buf>)
    requires AllFresh(base, bufs)
    ensures base.dumbs <= Plusses(base, bufs).dumbs
    ensures bufs != [] ==> Plusses(base, bufs) != base
  {
    if bufs != [] { PlussesGrow(base, bufs[1..]); }
  }

  /** Every call of one modeset_create_fb succeeds. */
  predicate Works(l: Live, o: Outcome) {
    && o.dumb.Some? && o.dumb.value.0 !in l.dumbs
    && o.fb.Some? && o.fb.value !in l.fbs
    && o.prepared
    && o.mapped.Some? && o.mapped.value !in l.maps
  }

  /** The branch that leaks: a connected connector with a mode and a usable CRTC that no device has,
      two buffers that can be created, and sizes that differ. */
  ghost predicate SizesDiffer(live: Live, used: seq<U32>, crtcs: seq<U32>, conn: Connector,
    first: Outcome, second: Outcome)
  {
    && conn.connected && conn.hasMode
    && (exists c :: Usable(conn, crtcs, c) && Free(c, used))
    && Works(live, first)
    && Works(Plus(live, Buf(first.dumb.value.0, first.dumb.value.1, first.fb.value, first.mapped.value)), second)
    && first.dumb.value.1 != second.dumb.value.1
  }

  lemma MismatchIffSizesDiffer(live: Live, used: seq<U32>, crtcs: seq<U32>, conn: Connector,
    first: Outcome, second: Outcome)
    ensures SetUp(live, used, crtcs, conn, first, second).Mismatch?
            <==> SizesDiffer(live, used, crtcs, conn, first, second)
  {
    FirstFit(conn, crtcs, used);
  }

  /** The k-th connector runs into that branch. */
  ghost predicate Mismatched(live: Live, crtcs: seq<U32>, plans: seq<Plan>, k: nat)
    requires k < |plans|
  {
    var s := Prepared(State(live, [], []), crtcs, plans[..k]);
    && plans[k].conn.Some?
    && SizesDiffer(s.live, Crtcs(s.list), crtcs, plans[k].conn.value, plans[k].first, plans[k].second)
  }

  lemma {:induction false} LeakedIffMismatched(live: Live, crtcs: seq<U32>, plans: seq<Plan>)
    ensures Prepared(State(live, [], []), crtcs, plans).leaked == []
            <==> forall k :: 0 <= k < |plans| ==> !Mismatched(live, crtcs, plans, k)
    decreases |plans|
  {
    if plans != [] {
      var init := plans[..|plans| - 1];
      LeakedIffMismatched(live, crtcs, init);
      assert forall k :: 0 <= k < |init| ==> init[..k] == plans[..k] && init[k] == plans[k];
      assert forall k :: 0 <= k < |init| ==> Mismatched(live, crtcs, init, k) == Mismatched(live, crtcs, plans, k);
      assert plans[..|init|] == init;
      var was, now := Prepared(State(live, [], []), crtcs, init), Prepared(State(live, [], []), crtcs, plans);
      var plan := plans[|init|];
      if plan.conn.Some? {
        MismatchIffSizesDiffer(was.live, Crtcs(was.list), crtcs, plan.conn.value, plan.first, plan.second);
      }
      assert Mismatched(live, crtcs, plans, |init|) <==> now.leaked != was.leaked;
      assert now.leaked == [] <==> was.leaked == [] && !Mismatched(live, crtcs, plans, |init|);
    }
  }

  /** Destroying what was prepared leaves live what was live before, exactly when no connector's
      buffers differed in size; otherwise just the leaked ones stay. */
  lemma DestroyUndoesPrepareIff(live: Live, crtcs: seq<U32>, plans: seq<Plan>)
    ensures var s := Prepared(State(live, [], []), crtcs, plans);
            && Destroyed(s.live, s.list) == Plusses(live, s.leaked)
            && (Destroyed(s.live, s.list) == live
                <==> forall k :: 0 <= k < |plans| ==> !Mismatched(live, crtcs, plans, k))
  {
    var s := Prepared(State(live, [], []), crtcs, plans);
    PreparedIsAccounted(live, State(live, [], []), crtcs, plans);
    DestroyedLeavesBase(Plusses(live, s.leaked), s.list);
    PlussesGrow(live, s.leaked);
    LeakedIffMismatched(live, crtcs, plans);
  }

  /** One connector whose buffers come out with 100 and 200 bytes leaves both live for good. */
  lemma SizeMismatchLeaks()
    ensures var conn := Connector(1, true, true, Some(Encoder(7, 0)), []);
            var plan := Plan(Some(conn), Outcome(Some((1, 100)), Some(1), true, Some(1)),
                             Outcome(Some((2, 200)), Some(2), true, Some(2)));
            var s := Prepared(State(Live({}, {}, {}), [], []), [7], [plan]);
            s.list == [] && Destroyed(s.live, s.list) == Live({1, 2}, {1, 2}, {1, 2})
  {
    var conn := Connector(1, true, true, Some(Encoder(7, 0)), []);
    var plan := Plan(Some(conn), Outcome(Some((1, 100)), Some(1), true, Some(1)),
                     Outcome(Some((2, 200)), Some(2), true, Some(2)));
    var s := State(Live({}, {}, {}), [], []);
    assert [plan][..0] == [];
    assert Candidates(conn, [7])[0] == 7;
    assert Prepared(s, [7], [plan]) == Add(Prepared(s, [7], []), [7], plan);
  }

  // The card.

  class Card {
    var live: Live
    /** modeset_list */
    var list: seq<Dev>
    ghost var leaked: seq<Buf>

    ghost function Now(): State
      reads this
    {
      State(live, list, leaked)
    }

    constructor (live: Live)
      ensures Now() == State(live, [], [])
    {
      this.live, this.list, this.leaked := live, [], [];
    }

    /** The loop over the device list: minus one when a device uses the CRTC, else its id as an int. */
    method Unused(id: U32) returns (crtc: int)
      ensures crtc >= 0 <==> Free(id, Crtcs(list))
      ensures crtc >= 0 ==> crtc == id
    {
      crtc := if id < 0x8000_0000 then id else id - 0x1_0000_0000;
      var i := 0;
      while i < |list|
        invariant 0 <= i <= |list| && id !in Crtcs(list)[..i]
      {
        CrtcAt(list, i);
        if list[i].crtc == id { return -1; }
        i := i + 1;
      }
      assert Crtcs(list)[..i] == Crtcs(list);
    }

    /** modeset_find_crtc; None for ENOENT. */
    method FindCrtc(conn: Connector, crtcs: seq<U32>) returns (r: Option<U32>)
      ensures r == FirstFree(Candidates(conn, crtcs), Crtcs(list))
    {
      ghost var used := Crtcs(list);
      if conn.bound.Some? && conn.bound.value.crtcId != 0 {
        var crtc := Unused(conn.bound.value.crtcId);
        if crtc >= 0 { return Some(crtc); }
      }
      ghost var all := OfEncoders(conn.encoders, crtcs);
      assert FirstFree(Candidates(conn, crtcs), used) == FirstFree(all, used) by {
        if !(conn.bound.Some? && conn.bound.value.crtcId != 0) { assert Candidates(conn, crtcs) == [] + all == all; }
        else { assert Candidates(conn, crtcs)[1..] == all; }
      }
      assert conn.encoders[0..] == conn.encoders;
      var i := 0;
      while i < |conn.encoders|
        invariant 0 <= i <= |conn.encoders|
        invariant FirstFree(all, used) == FirstFree(OfEncoders(conn.encoders[i..], crtcs), used)
      {
        if conn.encoders[i].Some? {
          r := TryEncoder(conn.encoders[i].value, crtcs);
          ghost var later := OfEncoders(conn.encoders[i + 1..], crtcs);
          FirstFreeAppend(Compatible(conn.encoders[i].value, crtcs, 0), later, used);
          if r.Some? { return; }
        } else {
          assert [] + OfEncoders(conn.encoders[i + 1..], crtcs) == OfEncoders(conn.encoders[i + 1..], crtcs);
        }
        assert conn.encoders[i..][1..] == conn.encoders[i + 1..];
        i := i + 1;
      }
      r := None;
    }

    /** The loop over all CRTCs for one encoder. */
    method TryEncoder(enc: Encoder, crtcs: seq<U32>) returns (r: Option<U32>)
      ensures r == FirstFree(Compatible(enc, crtcs, 0), Crtcs(list))
    {
      ghost var used := Crtcs(list);
      var j := 0;
      while j < |crtcs|
        invariant 0 <= j <= |crtcs|
        invariant FirstFree(Compatible(enc, crtcs, 0), used) == FirstFree(Compatible(enc, crtcs, j), used)
      {
        ghost var rest := Compatible(enc, crtcs, j + 1);
        assert ([crtcs[j]] + rest)[1..] == rest && [] + rest == rest;
        if BitAt(enc.possibleCrtcs, j) {
          var crtc := Unused(crtcs[j]);
          if crtc >= 0 { return Some(crtc); }
        }
        j := j + 1;
      }
      r := None;
    }

    // The ioctls; false or None for a failed one.

    method CreateDumb(dumb: Option<(nat, nat)>) returns (ok: bool)
      modifies this`live
      ensures ok == (dumb.Some? && dumb.value.0 !in old(live.dumbs))
      ensures live == if ok then old(live).(dumbs := old(live.dumbs) + {dumb.value.0}) else old(live)
    {
      ok := dumb.Some? && dumb.value.0 !in live.dumbs;
      if ok { live := live.(dumbs := live.dumbs + {dumb.value.0}); }
    }

    method AddFb(fb: Option<nat>) returns (ok: bool)
      modifies this`live
      ensures ok == (fb.Some? && fb.value !in old(live.fbs))
      ensures live == if ok then old(live).(fbs := old(live.fbs) + {fb.value}) else old(live)
    {
      ok := fb.Some? && fb.value !in live.fbs;
      if ok { live := live.(fbs := live.fbs + {fb.value}); }
    }

    method Map(at: Option<nat>) returns (ok: bool)
      modifies this`live
      ensures ok == (at.Some? && at.value !in old(live.maps))
      ensures live == if ok then old(live).(maps := old(live.maps) + {at.value}) else old(live)
    {
      ok := at.Some? && at.value !in live.maps;
      if ok { live := live.(maps := live.maps + {at.value}); }
    }

    method Unmap(at: nat)
      modifies this`live
      ensures live == old(live).(maps := old(live.maps) - {at})
    {
      live := live.(maps := live.maps - {at});
    }

    method RmFb(fb: nat)
      modifies this`live
      ensures live == old(live).(fbs := old(live.fbs) - {fb})
    {
      live := live.(fbs := live.fbs - {fb});
    }

    method DestroyDumb(handle: nat)
      modifies this`live
      ensures live == old(live).(dumbs := old(live.dumbs) - {handle})
    {
      live := live.(dumbs := live.dumbs - {handle});
    }

    /** modeset_create_fb: whichever call fails, nothing stays live that was not before. */
    method CreateFb(o: Outcome) returns (r: Option<Buf>)
      modifies this`live
      ensures r == Created(old(live), o)
      ensures live == if r.Some? then Plus(old(live), r.value) else old(live)
      ensures r.Some? ==> Fresh(old(live), r.value) && Minus(live, r.value) == old(live)
    {
      r := None;
      var ok := CreateDumb(o.dumb);
      if !ok { return; }
      var handle := o.dumb.value.0;
      ok := AddFb(o.fb);
      if !ok {
        DestroyDumb(handle);
        return;
      }
      ok := o.prepared;
      if ok { ok := Map(o.mapped); }
      if !ok {
        RmFb(o.fb.value);
        DestroyDumb(handle);
        return;
      }
      r := Some(Buf(handle, o.dumb.value.1, o.fb.value, o.mapped.value));
    }

    /** modeset_destroy_fb */
    method DestroyFb(b: Buf)
      modifies this`live
      ensures live == Minus(old(live), b)
    {
      Unmap(b.map_);
      RmFb(b.fb);
      DestroyDumb(b.handle);
    }

    /** modeset_setup_dev */
    method SetUpDev(conn: Connector, crtcs: seq<U32>, first: Outcome, second: Outcome) returns (r: Setup)
      modifies this`live
      ensures r == SetUp(old(live), Crtcs(list), crtcs, conn, first, second)
      ensures live == match r
                      case Ready(dev) => Plus(Plus(old(live), dev.front), dev.back)
                      case Mismatch(a, b) => Plus(Plus(old(live), a), b)
                      case _ => old(live)
    {
      if !conn.connected { return NoEntry; }
      if !conn.hasMode { return Failed; }
      var crtc := FindCrtc(conn, crtcs);
      if crtc == None { return NoEntry; }
      var a := CreateFb(first);
      if a == None { return Failed; }
      var b := CreateFb(second);
      if b == None {
        DestroyFb(a.value);
        return Failed;
      }
      if a.value.size != b.value.size { return Mismatch(a.value, b.value); }
      r := Ready(Dev(conn.id, crtc.value, a.value, b.value));
    }

    /** modeset_prepare */
    method Prepare(crtcs: seq<U32>, plans: seq<Plan>)
      modifies this
      ensures Now() == Prepared(old(Now()), crtcs, plans)
    {
      ghost var before := Now();
      var i := 0;
      while i < |plans|
        invariant 0 <= i <= |plans| && Now() == Prepared(before, crtcs, plans[..i])
      {
        assert plans[..i + 1][..i] == plans[..i];
        if plans[i].conn.Some? {
          var r := SetUpDev(plans[i].conn.value, crtcs, plans[i].first, plans[i].second);
          if r.Ready? { list := [r.dev] + list; }
          if r.Mismatch? { leaked := [r.second, r.first] + leaked; }
        }
        i := i + 1;
      }
      assert plans[..i] == plans;
    }

    /** psplash_drm_destroy */
    method Destroy()
      modifies this
      ensures list == [] && leaked == old(leaked) && live == Destroyed(old(live), old(list))
    {
      while list != []
        invariant leaked == old(leaked) && Destroyed(live, list) == Destroyed(old(live), old(list))
        decreases |list|
      {
        var iter := list[0];
        list := list[1..];
        DestroyFb(iter.back);
        DestroyFb(iter.front);
      }
    }
  }

  lemma {:induction false} FirstFreeAppend(a: seq<U32>, b: seq<U32>, used: seq<U32>)
    ensures FirstFree(a + b, used) == if FirstFree(a, used).Some? then FirstFree(a, used) else FirstFree(b, used)
  {
    if a == [] {
      assert a + b == b;
    } else {
      assert (a + b)[1..] == a[1..] + b;
      FirstFreeAppend(a[1..], b, used);
    }
  }
}
