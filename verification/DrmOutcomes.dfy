/** psplash-drm.c: which CRTC a connector gets, and what setting it up comes to. */
module PsplashOutcomes {
  import opened Wrappers
  import opened Words
  import opened PsplashModeset

  // The choice of a CRTC.

  /** Encoder i of the connector can be connected to the j-th CRTC. */
  predicate Reaches(encoders: seq<Option<Encoder>>, crtcs: seq<U32>, i: nat, j: nat) {
    i < |encoders| && j < |crtcs| && encoders[i].Some? && BitAt(encoders[i].value.possibleCrtcs, j)
  }

  /** It can, and no device has that CRTC yet. */
  predicate Takes(encoders: seq<Option<Encoder>>, crtcs: seq<U32>, used: seq<U32>, i: nat, j: nat) {
    Reaches(encoders, crtcs, i, j) && crtcs[j] < 0x8000_0000 && crtcs[j] !in used
  }

  lemma {:induction false} FirstCompatible(enc: Encoder, crtcs: seq<U32>, from: nat, used: seq<U32>) returns (j: nat)
    requires from <= |crtcs|
    ensures from <= j <= |crtcs|
    ensures forall m :: from <= m < j ==> !Takes([Some(enc)], crtcs, used, 0, m)
    ensures FirstFree(Compatible(enc, crtcs, from), used) == if j < |crtcs| then Some(crtcs[j]) else None
    ensures j < |crtcs| ==> Takes([Some(enc)], crtcs, used, 0, j)
    decreases |crtcs| - from
  {
    j := from;
    if from < |crtcs| && !Takes([Some(enc)], crtcs, used, 0, from) {
      j := FirstCompatible(enc, crtcs, from + 1, used);
      var rest := Compatible(enc, crtcs, from + 1);
      assert ([crtcs[from]] + rest)[1..] == rest && [] + rest == rest;
    }
  }

  /** The encoders are tried in order, and for each of them the CRTCs in order. */
  lemma {:induction false} FirstOfEncoders(encoders: seq<Option<Encoder>>, crtcs: seq<U32>, used: seq<U32>)
    returns (i: nat, j: nat)
    ensures i <= |encoders|
    ensures forall k: nat, m: nat :: k < i ==> !Takes(encoders, crtcs, used, k, m)
    ensures forall m: nat :: m < j ==> !Takes(encoders, crtcs, used, i, m)
    ensures i < |encoders| ==> Takes(encoders, crtcs, used, i, j)
    ensures FirstFree(OfEncoders(encoders, crtcs), used) == if i < |encoders| then Some(crtcs[j]) else None
    decreases |encoders|
  {
    i, j := 0, 0;
    if encoders != [] {
      if encoders[0].Some? { j := FirstCompatible(encoders[0].value, crtcs, 0, used); }
      assert forall m: nat :: encoders[0].Some? ==>
               Takes(encoders, crtcs, used, 0, m) == Takes([encoders[0]], crtcs, used, 0, m);
      var own := if encoders[0].Some? then Compatible(encoders[0].value, crtcs, 0) else [];
      FirstFreeAppend(own, OfEncoders(encoders[1..], crtcs), used);
      if encoders[0] == None || j == |crtcs| {
        assert forall m: nat :: !Takes(encoders, crtcs, used, 0, m);
        var k;
        k, j := FirstOfEncoders(encoders[1..], crtcs, used);
        i := k + 1;
        forall h: nat, m: nat | h < i || (h == i && m < j) ensures !Takes(encoders, crtcs, used, h, m) {
          if h > 0 { assert Takes(encoders, crtcs, used, h, m) == Takes(encoders[1..], crtcs, used, h - 1, m); }
        }
      }
    }
  }

  /** A connector keeps the CRTC it is bound to unless a device has that. Otherwise it gets the first free
      CRTC of its first encoder that reaches a free one. */
  lemma BoundCrtcFirst(conn: Connector, crtcs: seq<U32>, used: seq<U32>) returns (i: nat, j: nat)
    ensures var r := FirstFree(Candidates(conn, crtcs), used);
            if conn.bound.Some? && 0 < conn.bound.value.crtcId < 0x8000_0000 && conn.bound.value.crtcId !in used then
              r == Some(conn.bound.value.crtcId)
            else
              && (forall k: nat, m: nat :: k < i || (k == i && m < j) ==> !Takes(conn.encoders, crtcs, used, k, m))
              && (if i < |conn.encoders| then Takes(conn.encoders, crtcs, used, i, j) && r == Some(crtcs[j])
                  else r == None)
  {
    i, j := FirstOfEncoders(conn.encoders, crtcs, used);
    var bound := if conn.bound.Some? && conn.bound.value.crtcId != 0 then [conn.bound.value.crtcId] else [];
    FirstFreeAppend(bound, OfEncoders(conn.encoders, crtcs), used);
    assert bound != [] ==> bound[1..] == [];
  }

  // Setting up.

  function BufOf(o: Outcome): Buf
    requires o.dumb.Some? && o.fb.Some? && o.mapped.Some?
  {
    Buf(o.dumb.value.0, o.dumb.value.1, o.fb.value, o.mapped.value)
  }

  /** A buffer holds what the four calls returned, and there is one if all of them succeeded. */
  lemma CreatedIff(live: Live, o: Outcome)
    ensures Created(live, o) == if Works(live, o) then Some(BufOf(o)) else None
  {
  }

  /** Both buffers can be created, the second besides the first. */
  predicate BothWork(live: Live, first: Outcome, second: Outcome) {
    Works(live, first) && Works(Plus(live, BufOf(first)), second)
  }

  /** A connector is passed over if it is not connected or, having a mode, has no CRTC to use; it fails if
      it has no mode or a buffer cannot be created; otherwise it is ready with that CRTC and both
      buffers, or its buffers differ in size. */
  lemma SetUpOutcome(live: Live, used: seq<U32>, crtcs: seq<U32>, conn: Connector, first: Outcome, second: Outcome)
    ensures var crtc := FirstFree(Candidates(conn, crtcs), used);
            var r := SetUp(live, used, crtcs, conn, first, second);
            && (r == NoEntry <==> !conn.connected || (conn.hasMode && crtc == None))
            && (r == Failed <==> conn.connected && (!conn.hasMode || (crtc.Some? && !BothWork(live, first, second))))
            && (r.Ready? ==> first.dumb.value.1 == second.dumb.value.1)
            && (r.Ready? || r.Mismatch? ==> crtc.Some? && BothWork(live, first, second))
            && (r.Ready? ==> r.dev == Dev(conn.id, crtc.value, BufOf(first), BufOf(second)))
            && (r.Mismatch? ==> r == Mismatch(BufOf(first), BufOf(second)))
            && (r.Mismatch? ==> first.dumb.value.1 != second.dumb.value.1)
  {
    CreatedIff(live, first);
    if Works(live, first) { CreatedIff(Plus(live, BufOf(first)), second); }
  }

  /** A device that is ready becomes the first of the list; nothing else changes the list. */
  lemma DeviceIsAddedInFront(s: State, crtcs: seq<U32>, plans: seq<Plan>, plan: Plan)
    ensures var t, was := Prepared(s, crtcs, plans + [plan]), Prepared(s, crtcs, plans);
            match plan.conn
            case None => t == was
            case Some(conn) =>
              var r := SetUp(was.live, Crtcs(was.list), crtcs, conn, plan.first, plan.second);
              && t.list == (if r.Ready? then [r.dev] else []) + was.list
              && t.leaked == (if r.Mismatch? then [r.second, r.first] else []) + was.leaked
              && (!r.Ready? && !r.Mismatch? ==> t == was)
  {
    assert (plans + [plan])[..|plans|] == plans;
    var was := Prepared(s, crtcs, plans);
    assert [] + was.list == was.list && [] + was.leaked == was.leaked;
  }
}
