/** psplash-drm.c: double buffering. The canvas draws into the buffer that the CRTC does not scan
    out; a flip exchanges the two. */
module PsplashDrmFlip {
  import opened Wrappers
  import opened Words
  import opened PsplashCanvas
  import opened PsplashPainting
  import opened PsplashDrawing
  import opened PsplashLayout
  import opened PsplashText

  // The two buffers as values.

  /** The contents of front and back buffer, and whether the CRTC scans out the front one; it does
      not before the first drmModeSetCrtc that succeeds. */
  datatype View = View(front: Bytes, back: Bytes, live: bool)

  datatype Step = Draw(after: Bytes) | Flip(ok: bool, sync: bool)

  function Next(v: View, s: Step): View {
    match s
    case Draw(after) => v.(back := after)
    case Flip(ok, sync) => if ok then View(v.back, if sync then v.back else v.front, true) else v
  }

  function Run(v: View, steps: seq<Step>): View {
    if steps == [] then v else Next(Run(v, steps[..|steps| - 1]), steps[|steps| - 1])
  }

  /** What is on the screen, if it is one of the two buffers. */
  function Screen(v: View): Option<Bytes> { if v.live then Some(v.front) else None }

  /** Step i is the last flip that succeeded. */
  predicate LastFlip(steps: seq<Step>, i: nat) {
    && i < |steps| && steps[i].Flip? && steps[i].ok
    && forall j :: i < j < |steps| ==> !(steps[j].Flip? && steps[j].ok)
  }

  /** No tearing: the screen holds the canvas as it was at the last successful flip, whatever was
      drawn and whatever failed since. */
  lemma {:induction false} ScreenIsLastFlippedCanvas(v: View, steps: seq<Step>, i: nat)
    requires LastFlip(steps, i)
    ensures Screen(Run(v, steps)) == Some(Run(v, steps[..i]).back)
    ensures i == |steps| - 1 && steps[i].sync ==> Run(v, steps).front == Run(v, steps).back
    decreases |steps|
  {
    if i < |steps| - 1 {
      var init := steps[..|steps| - 1];
      assert init[..i] == steps[..i];
      ScreenIsLastFlippedCanvas(v, init, i);
    }
  }

  lemma {:induction false} ScreenUnchangedWithoutFlip(v: View, steps: seq<Step>)
    requires forall i :: 0 <= i < |steps| ==> !(steps[i].Flip? && steps[i].ok)
    ensures Screen(Run(v, steps)) == Screen(v)
    decreases |steps|
  {
    if steps != [] { ScreenUnchangedWithoutFlip(v, steps[..|steps| - 1]); }
  }

  /** Commands that each repaint part of the canvas and flip, synchronising or not. */
  function Commands(v: View, commands: seq<Bytes -> Bytes>, syncs: seq<bool>): View
    requires |syncs| == |commands|
  {
    if commands == [] then v
    else
      var k := |commands| - 1;
      var before := Commands(v, commands[..k], syncs[..k]);
      Next(Next(before, Draw(commands[k](before.back))), Flip(true, syncs[k]))
  }

  /** All commands. */
  function Every(b: Bytes, commands: seq<Bytes -> Bytes>): Bytes {
    if commands == [] then b else commands[|commands| - 1](Every(b, commands[..|commands| - 1]))
  }

  /** Every other command, the last one included. */
  function EveryOther(b: Bytes, commands: seq<Bytes -> Bytes>): Bytes {
    if commands == [] then b
    else if |commands| == 1 then commands[0](b)
    else commands[|commands| - 1](EveryOther(b, commands[..|commands| - 2]))
  }

  predicate AllSynced(syncs: seq<bool>) { forall i :: 0 <= i < |syncs| ==> syncs[i] }

  /** From a synchronised start and with flips that synchronise, all commands are on the screen. */
  lemma {:induction false} SyncedCommandsAllShow(v: View, commands: seq<Bytes -> Bytes>, syncs: seq<bool>)
    requires v.front == v.back && |syncs| == |commands| && AllSynced(syncs)
    ensures var t := Commands(v, commands, syncs); t.front == t.back == Every(v.front, commands)
    decreases |commands|
  {
    if commands != [] { SyncedCommandsAllShow(v, commands[..|commands| - 1], syncs[..|commands| - 1]); }
  }

  /** With flips that do not, as the command reader asks for them, only every other command is on
      the screen, and the others are in the back buffer. */
  lemma {:induction false} EveryOtherCommandShows(v: View, commands: seq<Bytes -> Bytes>, syncs: seq<bool>)
    requires v.front == v.back && |syncs| == |commands| && forall i :: 0 <= i < |syncs| ==> !syncs[i]
    ensures var t := Commands(v, commands, syncs);
            && t.front == EveryOther(v.front, commands)
            && t.back == if commands == [] then v.front else EveryOther(v.front, commands[..|commands| - 1])
    decreases |commands|
  {
    if commands != [] {
      var k := |commands| - 1;
      EveryOtherCommandShows(v, commands[..k], syncs[..k]);
      if k > 0 { assert commands[..k][..k - 1] == commands[..k - 1]; }
    }
  }

  /** From a synchronised start all commands show, whatever they are, if and only if every flip
      before the last one synchronises. */
  lemma AllCommandsShowIff(v: View, syncs: seq<bool>)
    requires v.front == v.back && syncs != []
    ensures (forall commands :: |commands| == |syncs| ==>
               Commands(v, commands, syncs).front == Every(v.front, commands))
            <==> AllSynced(syncs[..|syncs| - 1])
  {
    if AllSynced(syncs[..|syncs| - 1]) {
      forall commands | |commands| == |syncs|
        ensures Commands(v, commands, syncs).front == Every(v.front, commands)
      {
        SyncedBeforeLastShows(v, commands, syncs);
      }
    } else {
      var commands := SomeCommandIsLost(v, syncs);
    }
  }

  lemma SyncedBeforeLastShows(v: View, commands: seq<Bytes -> Bytes>, syncs: seq<bool>)
    requires v.front == v.back && syncs != [] && |commands| == |syncs| && AllSynced(syncs[..|syncs| - 1])
    ensures Commands(v, commands, syncs).front == Every(v.front, commands)
  {
    SyncedCommandsAllShow(v, commands[..|commands| - 1], syncs[..|commands| - 1]);
  }

  lemma SomeCommandIsLost(v: View, syncs: seq<bool>) returns (commands: seq<Bytes -> Bytes>)
    requires v.front == v.back && syncs != [] && !AllSynced(syncs[..|syncs| - 1])
    ensures |commands| == |syncs| && Commands(v, commands, syncs).front != Every(v.front, commands)
  {
    var before := syncs[..|syncs| - 1];
    var i := LastUnsynced(before);
    commands := Marking(i, |syncs|);
    assert forall j :: i < j < |syncs| - 1 ==> before[j] == syncs[j];
    MarkIsLost(v, syncs, i, |syncs|);
    MarkIsDue(v.front, i, |syncs|);
    assert syncs[..|syncs|] == syncs && |v.front + [1]| != |v.front|;
  }

  lemma {:induction false} LastUnsynced(syncs: seq<bool>) returns (i: nat)
    requires !AllSynced(syncs)
    ensures i < |syncs| && !syncs[i] && forall j :: i < j < |syncs| ==> syncs[j]
    decreases |syncs|
  {
    i := |syncs| - 1;
    if syncs[i] { i := LastUnsynced(syncs[..i]); }
  }

  /** Command i leaves a mark, the others nothing. */
  function Marking(i: nat, n: nat): (r: seq<Bytes -> Bytes>)
    ensures |r| == n
  {
    if n == 0 then [] else Marking(i, n - 1) + [(b: Bytes) => if n - 1 == i then b + [1] else b]
  }

  lemma {:induction false} MarkIsDue(b: Bytes, i: nat, n: nat)
    ensures Every(b, Marking(i, n)) == if i < n then b + [1] else b
  {
    if n > 0 {
      assert Marking(i, n)[..n - 1] == Marking(i, n - 1);
      MarkIsDue(b, i, n - 1);
    }
  }

  /** The mark left before an unsynchronised flip is off the screen from the next flip on, if those
      after it, but for the last, synchronise. */
  lemma {:induction false} MarkIsLost(v: View, syncs: seq<bool>, i: nat, n: nat)
    requires v.front == v.back && i + 1 < |syncs| && n <= |syncs| && !syncs[i]
    requires forall j :: i < j < |syncs| - 1 ==> syncs[j]
    ensures var t := Commands(v, Marking(i, n), syncs[..n]);
            if n == i + 1 then t.front == v.front + [1] && t.back == v.front
            else t.front == v.front && (n < |syncs| ==> t.back == v.front)
  {
    if n > 0 {
      assert Marking(i, n)[..n - 1] == Marking(i, n - 1) && syncs[..n][..n - 1] == syncs[..n - 1];
      MarkIsLost(v, syncs, i, n - 1);
    }
  }

  /** For instance, of two marks only the second is on the screen. */
  lemma FirstOfTwoIsLost()
    ensures var marks: seq<Bytes -> Bytes> := [b => b + [1], b => b + [2]];
            EveryOther([], marks) == [2] && Every([], marks) == [1, 2]
  {
    var marks: seq<Bytes -> Bytes> := [b => b + [1], b => b + [2]];
    assert marks[..1] == [marks[0]] && marks[..0] == [] && marks[..1][..0] == [];
    assert Every([], marks[..1]) == [1];
  }

  // The device.

  class Drm {
    const canvas: Canvas
    const first: array<Byte>
    const second: array<Byte>
    var frontBuf: nat
    /** The buffer drmModeSetCrtc handed to the CRTC last. */
    var scanout: array?<Byte>

    function Buffer(i: nat): array<Byte> { if i == 0 then first else second }

    ghost predicate Valid()
      reads this, canvas, first, second
    {
      && first != second && first.Length == second.Length
      && frontBuf < 2
      && canvas.data == Buffer(1 - frontBuf)
      && (scanout == null || scanout == Buffer(frontBuf))
    }

    ghost function State(): View
      requires Valid()
      reads this, canvas, first, second
    {
      View(Buffer(frontBuf)[..], canvas.data[..], scanout != null)
    }

    /** psplash_drm_new, from the two mapped buffers on; ok tells whether the CRTC could be set. */
    constructor (shape: Shape, first: array<Byte>, second: array<Byte>, ok: bool)
      requires first != second && first.Length == second.Length
      ensures Valid() && fresh(canvas) && canvas.shape == shape && this.first == first && this.second == second
      ensures State() == View(first[..], second[..], ok)
    {
      this.first, this.second := first, second;
      this.frontBuf := 0;
      this.scanout := if ok then first else null;
      this.canvas := new Canvas(shape, second);
    }

    /** psplash_drm_flip; ok is the outcome of drmModeSetCrtc. */
    method FlipBuffers(sync: bool, ok: bool)
      requires Valid()
      modifies this, canvas, first, second
      ensures Valid() && State() == Next(old(State()), Flip(ok, sync))
      ensures scanout != null ==> canvas.data != scanout
      ensures ok ==> scanout == old(canvas.data)
      ensures unchanged(Buffer(frontBuf))
      ensures !ok ==> unchanged(this, canvas, first, second)
      ensures old(canvas.Valid()) ==> canvas.Valid()
    {
      var buf := Buffer(1 - frontBuf);
      if !ok { return; }
      scanout := buf;
      frontBuf := 1 - frontBuf;
      canvas.data := Buffer(1 - frontBuf);
      if sync {
        var src, dst := Buffer(frontBuf), Buffer(1 - frontBuf);
        forall i | 0 <= i < first.Length { dst[i] := src[i]; }
        assert dst[..] == src[..];
      }
    }

    /** Drawing on the canvas does not reach the screen. A canvas is Valid exactly if it fits its raster
        and the buffer backs the raster; a flip keeps that. */
    method DrawRect(x: int, y: int, width: int, height: int, c: Rgb)
      requires Valid() && canvas.Valid()
      modifies canvas.data
      ensures Valid() && State() == Next(old(State()), Draw(canvas.data[..]))
      ensures Shows(canvas.shape, old(canvas.data[..]), canvas.data[..], RectWant(x, y, width, height, c))
    {
      canvas.DrawRect(x, y, width, height, c);
    }

    method DrawImage(img: Image, x: int, y: int)
      requires Valid() && canvas.Valid() && img.Valid() && img.Decoded().Some?
      modifies canvas.data
      ensures Valid() && State() == Next(old(State()), Draw(canvas.data[..]))
      ensures Shows(canvas.shape, old(canvas.data[..]), canvas.data[..], ImageWant(img, x, y, img.Decoded().value))
    {
      canvas.DrawImage(img, x, y);
    }

    method WriteText(font: Font, text: seq<nat>, x: int, y: int, c: Rgb)
      requires Valid() && canvas.Valid() && Drawable(font, text)
      modifies canvas.data
      ensures Valid() && State() == Next(old(State()), Draw(canvas.data[..]))
      ensures Shows(canvas.shape, old(canvas.data[..]), canvas.data[..], TextWant(StyleOf(font), text, x, y, c))
    {
      DrawText(canvas, font, text, x, y, c);
    }
  }
}
