/** The tester's script: four classifiers registered in a fixed order, a
    frame loop that draws every classifier's live label, counts the frame
    and adds each classifier's detected rectangles to its counter, and a
    final report of one line per classifier. Capture, drawing, display and
    the detector itself are outside the model: a frame is represented by the
    number of rectangles each classifier's detector returned for it. */
module Tester {
  import opened PyText
  import opened Numerals
  import opened Classifiers

  /** The registered classifiers' names, in registration order. */
  const Names: seq<string> := ["Default", "Alt", "Alt2", "AltTree"]

  /** Hits per classifier for one frame, in registration order. */
  type FrameHits = seq<nat>

  /** The number of rectangles classifier `i` reported in one frame. */
  function HitsOf(frame: FrameHits, i: nat): nat
  {
    if i < |frame| then frame[i] else 0
  }

  /** The total number of rectangles classifier `i` reported over `frames`. */
  function HitTotal(frames: seq<FrameHits>, i: nat): nat
  {
    if frames == [] then 0
    else HitTotal(frames[..|frames| - 1], i) + HitsOf(frames[|frames| - 1], i)
  }

  /** Totals over consecutive runs of frames add up. */
  lemma {:induction false} HitTotalAppend(a: seq<FrameHits>, b: seq<FrameHits>, i: nat)
    ensures HitTotal(a + b, i) == HitTotal(a, i) + HitTotal(b, i)
  {
    if b != [] {
      var b' := b[..|b| - 1];
      assert (a + b)[..|a + b| - 1] == a + b';
      HitTotalAppend(a, b', i);
    } else {
      assert a + b == a;
    }
  }

  /** Counts never go down: the total over the first `j` frames is at most
      the total over all of them. */
  lemma HitTotalMonotone(frames: seq<FrameHits>, j: nat, i: nat)
    requires j <= |frames|
    ensures HitTotal(frames[..j], i) <= HitTotal(frames, i)
  {
    assert frames == frames[..j] + frames[j..];
    HitTotalAppend(frames[..j], frames[j..], i);
  }

  /** The classifiers are distinct objects, so counting for one leaves the
      others alone. */
  predicate Distinct(cs: seq<Classifier>)
  {
    forall a, b :: 0 <= a < b < |cs| ==> cs[a] != cs[b]
  }

  ghost predicate AllValid(cs: seq<Classifier>)
  {
    forall i :: 0 <= i < |cs| ==> cs[i].Valid()
  }

  /** The live labels drawn on one frame, in registration order. */
  method DrawLabels(cs: seq<Classifier>) returns (labels: seq<Option<string>>)
    requires AllValid(cs)
    ensures |labels| == |cs|
    ensures forall i :: 0 <= i < |cs| ==> labels[i] == cs[i].NameWithCounts()
  {
    labels := [];
    for i := 0 to |cs|
      invariant |labels| == i
      invariant forall j :: 0 <= j < i ==> labels[j] == cs[j].NameWithCounts()
    {
      labels := labels + [cs[i].NameWithCounts()];
    }
  }

  /** The classifiers' names, in registration order. */
  function NamesOf(cs: seq<Classifier>): (names: seq<string>)
    ensures |names| == |cs|
    ensures forall i :: 0 <= i < |cs| ==> names[i] == cs[i].name
  {
    if cs == [] then [] else NamesOf(cs[..|cs| - 1]) + [cs[|cs| - 1].name]
  }

  /** The classifiers' counters, in registration order. */
  ghost function CountersOf(cs: seq<Classifier>): (counts: seq<nat>)
    reads cs
    ensures |counts| == |cs|
    ensures forall i :: 0 <= i < |cs| ==> counts[i] == cs[i].counter
  {
    if cs == [] then [] else CountersOf(cs[..|cs| - 1]) + [cs[|cs| - 1].counter]
  }

  /** The counters after one frame: each grows by its classifier's hits. */
  function AddHits(counts: seq<nat>, frame: FrameHits): seq<nat>
  {
    seq(|counts|, i requires 0 <= i < |counts| => counts[i] + HitsOf(frame, i))
  }

  /** The counters after `frames`, starting from `start`. */
  function Totals(start: seq<nat>, frames: seq<FrameHits>): (counts: seq<nat>)
    ensures |counts| == |start|
  {
    if frames == [] then start
    else AddHits(Totals(start, frames[..|frames| - 1]), frames[|frames| - 1])
  }

  /** The counters after `frames` are the starting counts plus each
      classifier's total hits. */
  lemma {:induction false} TotalsAreHitTotals(start: seq<nat>, frames: seq<FrameHits>)
    ensures forall i :: 0 <= i < |start| ==> Totals(start, frames)[i] == start[i] + HitTotal(frames, i)
  {
    if frames != [] {
      TotalsAreHitTotals(start, frames[..|frames| - 1]);
    }
  }

  /** The labels drawn on one frame for classifiers called `names` at
      counts `counts`. */
  function FrameLabels(names: seq<string>, counts: seq<nat>): seq<Option<string>>
    requires |counts| == |names|
  {
    seq(|names|, i requires 0 <= i < |names| => Label(names[i], counts[i]))
  }

  /** The labels drawn on every frame of `frames`, starting from the counts
      `start`: frame `k` shows the counts reached after the frames before it. */
  function Overlays(names: seq<string>, start: seq<nat>, frames: seq<FrameHits>): (shown: seq<seq<Option<string>>>)
    requires |start| == |names|
    ensures |shown| == |frames|
  {
    if frames == [] then []
    else
      var earlier := frames[..|frames| - 1];
      Overlays(names, start, earlier) + [FrameLabels(names, Totals(start, earlier))]
  }

  /** Frame `k` of the overlays shows the counts after the first `k` frames. */
  lemma {:induction false} OverlayOfFrame(names: seq<string>, start: seq<nat>, frames: seq<FrameHits>, k: nat)
    requires |start| == |names| && k < |frames|
    ensures Overlays(names, start, frames)[k] == FrameLabels(names, Totals(start, frames[..k]))
  {
    var earlier := frames[..|frames| - 1];
    if k < |earlier| {
      OverlayOfFrame(names, start, earlier, k);
      assert earlier[..k] == frames[..k];
    } else {
      assert earlier == frames[..k];
    }
  }

  /** The overlays show running counts: on frame `k`, classifier `i` shows
      its starting count plus its hits over the frames before `k`, as the
      label `name + " " + str(count)` when its name holds no brace. */
  lemma OverlaysShowRunningCounts(names: seq<string>, start: seq<nat>, frames: seq<FrameHits>, k: nat, i: nat)
    requires |start| == |names| && k < |frames| && i < |names|
    ensures |Overlays(names, start, frames)[k]| == |names|
    ensures Overlays(names, start, frames)[k][i] == Label(names[i], start[i] + HitTotal(frames[..k], i))
    ensures NoBraces(names[i]) ==>
      Overlays(names, start, frames)[k][i] == LiveLabel(names[i], start[i] + HitTotal(frames[..k], i))
  {
    OverlayOfFrame(names, start, frames, k);
    TotalsAreHitTotals(start, frames[..k]);
  }

  /** One pass of the frame loop: draw the labels (showing the counts
      before this frame), count the frame, then for each classifier in turn
      increment its counter once per rectangle its detector returned.
      `counts` names the counters as they are on entry. */
  method ProcessFrame(cs: seq<Classifier>, frameCount: nat, hits: FrameHits, ghost counts: seq<nat>)
    returns (labels: seq<Option<string>>, newFrameCount: nat)
    requires Distinct(cs) && AllValid(cs) && |hits| == |cs| && |counts| == |cs|
    requires forall i :: 0 <= i < |cs| ==> cs[i].counter == counts[i]
    modifies cs
    ensures newFrameCount == frameCount + 1
    ensures labels == FrameLabels(NamesOf(cs), counts)
    ensures forall i :: 0 <= i < |cs| ==> cs[i].counter == AddHits(counts, hits)[i]
  {
    labels := DrawLabels(cs);
    assert labels == FrameLabels(NamesOf(cs), counts);
    newFrameCount := frameCount + 1;
    for i := 0 to |cs|
      invariant forall j :: 0 <= j < |cs| ==>
        cs[j].counter == counts[j] + (if j < i then hits[j] else 0)
    {
      var found := 0;
      while found < hits[i]
        invariant found <= hits[i]
        invariant forall j :: 0 <= j < |cs| ==>
          cs[j].counter == counts[j] + (if j < i then hits[j] else if j == i then found else 0)
      {
        cs[i].IncrementCounter();
        found := found + 1;
      }
    }
  }

  /** The final report: one line per classifier, in registration order. */
  method Report(cs: seq<Classifier>, frameCount: nat) returns (lines: seq<string>)
    requires frameCount > 0
    ensures |lines| == |cs|
    ensures forall i :: 0 <= i < |cs| ==>
      lines[i] == ExpectedLine(cs[i].name, cs[i].counter, frameCount)
  {
    lines := [];
    for i := 0 to |cs|
      invariant |lines| == i
      invariant forall j :: 0 <= j < i ==>
        lines[j] == ExpectedLine(cs[j].name, cs[j].counter, frameCount)
    {
      lines := lines + [cs[i].NameWithPercentage(frameCount)];
    }
  }

  /** No registered name holds a brace, so every live label formats. */
  lemma NamesHaveNoBraces()
    ensures forall i :: 0 <= i < |Names| ==> NoBraces(Names[i])
  {
    assert NoBraces(Names[0]);
    assert NoBraces(Names[1]);
    assert NoBraces(Names[2]);
    assert NoBraces(Names[3]);
  }

  /** Registration of the four classifiers (display name, BGR colour, label
      position, cascade definition file), in this order. */
  const Colors: seq<Color> := [Bgr(255, 0, 0), Bgr(255, 255, 0), Bgr(0, 255, 0), Bgr(0, 0, 255)]
  const Origins: seq<Point> := [Point(0, 20), Point(0, 50), Point(0, 80), Point(0, 110)]
  const CascadeFiles: seq<string> := [
    ".\\haarcascade_frontalface_default.xml", ".\\haarcascade_frontalface_alt.xml",
    ".\\haarcascade_frontalface_alt2.xml", ".\\haarcascade_frontalface_alt_tree.xml"]

  /** Builds the classifier list: four new classifiers, in registration
      order, each with its own fields and a zero count. */
  method RegisterClassifiers() returns (cs: seq<Classifier>)
    ensures |cs| == |Names| && Distinct(cs) && AllValid(cs)
    ensures forall i :: 0 <= i < |cs| ==> fresh(cs[i])
    ensures forall i :: 0 <= i < |cs| ==>
      && cs[i].name == Names[i] && cs[i].color == Colors[i] && cs[i].org == Origins[i]
      && cs[i].cascade == Cascade(CascadeFiles[i]) && cs[i].counter == 0
  {
    var default := new Classifier(Names[0], Colors[0], Origins[0], Cascade(CascadeFiles[0]));
    var alt := new Classifier(Names[1], Colors[1], Origins[1], Cascade(CascadeFiles[1]));
    var alt2 := new Classifier(Names[2], Colors[2], Origins[2], Cascade(CascadeFiles[2]));
    var altTree := new Classifier(Names[3], Colors[3], Origins[3], Cascade(CascadeFiles[3]));
    cs := [default, alt, alt2, altTree];
  }

  /** The frame loop. `frames` holds, for every captured frame up to and
      including the one after which the quit key was seen, the number of
      rectangles each classifier's detector returned. Afterwards the frame
      count is the number of frames, each counter has grown by its
      classifier's total, and the labels drawn on frame `k` showed the
      counts reached after the first `k` frames. */
  method CaptureLoop(cs: seq<Classifier>, frames: seq<FrameHits>)
    returns (overlays: seq<seq<Option<string>>>, frameCount: nat)
    requires Distinct(cs) && AllValid(cs)
    requires forall k :: 0 <= k < |frames| ==> |frames[k]| == |cs|
    modifies cs
    ensures frameCount == |frames|
    ensures CountersOf(cs) == Totals(old(CountersOf(cs)), frames)
    ensures overlays == Overlays(NamesOf(cs), old(CountersOf(cs)), frames)
  {
    ghost var names := NamesOf(cs);
    ghost var start := CountersOf(cs);
    ghost var counts := start;
    frameCount := 0;
    overlays := [];
    while frameCount < |frames|
      invariant frameCount <= |frames| && |counts| == |cs|
      invariant forall i :: 0 <= i < |cs| ==> cs[i].counter == counts[i]
      invariant counts == Totals(start, frames[..frameCount])
      invariant overlays == Overlays(names, start, frames[..frameCount])
    {
      var labels, next := ProcessFrame(cs, frameCount, frames[frameCount], counts);
      assert frames[..frameCount + 1][..frameCount] == frames[..frameCount];
      overlays := overlays + [labels];
      counts := AddHits(counts, frames[frameCount]);
      frameCount := next;
    }
    assert frames[..frameCount] == frames;
  }

  /** The labels of a session that starts from zero counts: frame `k`
      shows each registered name followed by its hits over the frames
      before `k`. */
  lemma SessionLabels(frames: seq<FrameHits>, start: seq<nat>, overlays: seq<seq<Option<string>>>)
    requires |start| == |Names| && forall i :: 0 <= i < |start| ==> start[i] == 0
    requires overlays == Overlays(Names, start, frames)
    ensures forall k :: 0 <= k < |frames| ==> |overlays[k]| == |Names|
    ensures forall k, i :: 0 <= k < |frames| && 0 <= i < |Names| ==>
      overlays[k][i] == LiveLabel(Names[i], HitTotal(frames[..k], i))
  {
    forall k | 0 <= k < |frames|
      ensures |overlays[k]| == |Names|
    {
      OverlaysShowRunningCounts(Names, start, frames, k, 0);
    }
    forall k, i | 0 <= k < |frames| && 0 <= i < |Names|
      ensures overlays[k][i] == LiveLabel(Names[i], HitTotal(frames[..k], i))
    {
      NamesHaveNoBraces();
      assert NoBraces(Names[i]) && start[i] == 0;
      OverlaysShowRunningCounts(Names, start, frames, k, i);
    }
  }

  /** The frame loop and the report over freshly registered classifiers:
      the overlays show the running totals, and report line `i` is the
      expected line for classifier `i`'s total hits over the frame count.
      A session has at least one frame, because the `while True` loop cannot
      reach its `break` before finishing a frame, so the report never divides
      by zero. */
  method RunSession(cs: seq<Classifier>, frames: seq<FrameHits>)
    returns (overlays: seq<seq<Option<string>>>, report: seq<string>)
    requires Distinct(cs) && AllValid(cs) && NamesOf(cs) == Names
    requires forall i :: 0 <= i < |cs| ==> cs[i].counter == 0
    requires |frames| >= 1
    requires forall k :: 0 <= k < |frames| ==> |frames[k]| == |Names|
    modifies cs
    ensures |overlays| == |frames|
    ensures forall k :: 0 <= k < |frames| ==> |overlays[k]| == |Names|
    ensures forall k, i :: 0 <= k < |frames| && 0 <= i < |Names| ==>
      overlays[k][i] == LiveLabel(Names[i], HitTotal(frames[..k], i))
    ensures |report| == |Names|
    ensures forall i :: 0 <= i < |Names| ==>
      report[i] == ExpectedLine(Names[i], HitTotal(frames, i), |frames|)
  {
    ghost var start := CountersOf(cs);
    var frameCount;
    overlays, frameCount := CaptureLoop(cs, frames);
    assert forall i :: 0 <= i < |cs| ==>
      cs[i].name == Names[i] && cs[i].counter == HitTotal(frames, i) by {
      TotalsAreHitTotals(start, frames);
    }
    SessionLabels(frames, start, overlays);
    report := Report(cs, frameCount);
  }

  /** A whole session: register the classifiers, run the frame loop over
      `frames`, print the report. Returned are the labels drawn on every
      frame and the report lines. */
  method RunTester(frames: seq<FrameHits>)
    returns (overlays: seq<seq<Option<string>>>, report: seq<string>)
    requires |frames| >= 1
    requires forall k :: 0 <= k < |frames| ==> |frames[k]| == |Names|
    ensures |overlays| == |frames|
    ensures forall k :: 0 <= k < |frames| ==> |overlays[k]| == |Names|
    ensures forall k, i :: 0 <= k < |frames| && 0 <= i < |Names| ==>
      overlays[k][i] == LiveLabel(Names[i], HitTotal(frames[..k], i))
    ensures |report| == |Names|
    ensures forall i :: 0 <= i < |Names| ==>
      report[i] == ExpectedLine(Names[i], HitTotal(frames, i), |frames|)
  {
    var classifiers := RegisterClassifiers();
    assert NamesOf(classifiers) == Names;
    overlays, report := RunSession(classifiers, frames);
  }
}
