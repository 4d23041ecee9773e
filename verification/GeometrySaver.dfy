/**
 The debounced saver of the window geometry: the event thread observes and
 flushes, a background thread coalesces nudges into writes. The threads share
 only `last`, the nudge channel and the state file, so a run is an interleaving
 of the atomic steps below. A write is two of them (the file is truncated when
 it is opened, the text lands later), so two saves can overlap.
 */
module GeometrySaver {
  import opened Outcomes
  import opened WindowFrame

  /** The JSON form of a geometry, as the serializer writes it and the parser reads
      it, and the geometries it has a text for: a number of the program has one, not
      every real number does. */
  datatype Json = Json(text: WindowGeometry -> string, parse: string -> Option<WindowGeometry>,
                       writable: WindowGeometry -> bool)

  /** What can be written reads back; setting the flag of it, or reading a file,
      gives what can be written. */
  ghost predicate RoundTrips(json: Json) {
    && (forall g | json.writable(g) :: json.parse(json.text(g)) == Some(g))
    && (forall g | json.writable(g) :: json.writable(g.(maximized := true)))
    && (forall t | json.parse(t).Some? :: json.writable(Usable(json.parse(t).value)))
  }

  function Usable(g: WindowGeometry): WindowGeometry {
    if g.scale > 0.0 then g else g.(scale := 1.0)
  }

  /** A scale that cannot divide is read as 1, and nothing else is changed. */
  lemma UsableScale(g: WindowGeometry)
    ensures Usable(g) == g.(scale := if g.scale > 0.0 then g.scale else 1.0)
  {
  }

  function UsableIfAny(g: Option<WindowGeometry>): Option<WindowGeometry> {
    match g
    case None => None
    case Some(g) => Some(Usable(g))
  }

  function LoadFrom(json: Json, file: Option<string>): Option<WindowGeometry> {
    match file
    case None => None
    case Some(text) => UsableIfAny(json.parse(text))
  }

  /** Bytes written at the start of a file replace what they cover. */
  function Overlay(file: Option<string>, text: string): Option<string> {
    match file
    case Some(was) => if |was| > |text| then Some(text + was[|text|..]) else Some(text)
    case None => Some(text)
  }

  /** The text, and behind it what the file was longer by. */
  lemma OverlayCovers(was: string, text: string)
    ensures Overlay(None, text) == Some(text)
    ensures var now := Overlay(Some(was), text);
            && now.Some? && text <= now.value && |now.value| == (if |was| > |text| then |was| else |text|)
            && forall k | |text| <= k < |was| :: now.value[k] == was[k]
  {
  }

  // ----- threads and steps -----

  /** A save in progress: the snapshot is taken, then the file is open and empty. */
  datatype Save = Took(seen: Option<WindowGeometry>) | Opened(g: WindowGeometry)

  datatype EventThread = Idle | Owing | Flushing(save: Save)

  datatype Writer = Parked | Draining | Settled | Writing(save: Save)

  /** `failed`: some save has failed since the file was last opened for writing. */
  datatype World = World(last: Option<WindowGeometry>, nudges: nat, file: Option<string>,
                         event: EventThread, writer: Writer, failed: bool)

  datatype Step =
    | ObserveFrame(g: WindowGeometry)
    | ObserveMaximized
    | Nudge
    | Flush
    | FlushSaves(ok: bool)
    | Receive
    | Drain
    | Settle
    | Snapshot
    | WriterSaves(ok: bool)

  function Flagged(last: Option<WindowGeometry>): Option<WindowGeometry> {
    match last
    case None => None
    case Some(g) => Some(g.(maximized := true))
  }

  /** One step of a save: what the file becomes, what is left to do, and whether a
      save has now failed. */
  function Saved(json: Json, file: Option<string>, failed: bool, save: Save, ok: bool)
    : (Option<string>, Option<Save>, bool)
  {
    match save
    case Took(None) => (file, None, failed)
    case Took(Some(g)) => if ok then (Some(""), Some(Opened(g)), false) else (file, None, true)
    case Opened(g) => if ok then (Overlay(file, json.text(g)), None, failed) else (file, None, true)
  }

  predicate Enabled(json: Json, w: World, step: Step) {
    match step
    case ObserveFrame(g) => w.event.Idle? && json.writable(g)
    case ObserveMaximized => w.event.Idle?
    case Nudge => w.event.Owing?
    case Flush => w.event.Idle?
    case FlushSaves(_) => w.event.Flushing?
    case Receive => w.writer.Parked? && w.nudges > 0
    case Drain => w.writer.Draining? && w.nudges > 0
    case Settle => w.writer.Draining? && w.nudges == 0
    case Snapshot => w.writer.Settled?
    case WriterSaves(_) => w.writer.Writing?
  }

  function Next(json: Json, w: World, step: Step): World
    requires Enabled(json, w, step)
  {
    match step
    case ObserveFrame(g) => w.(last := Some(g), event := Owing)
    case ObserveMaximized => w.(last := Flagged(w.last), event := Owing)
    case Nudge => w.(nudges := w.nudges + 1, event := Idle)
    case Flush => w.(event := Flushing(Took(w.last)))
    case FlushSaves(ok) =>
      var (file, left, failed) := Saved(json, w.file, w.failed, w.event.save, ok);
      w.(file := file, event := if left.Some? then Flushing(left.value) else Idle, failed := failed)
    case Receive => w.(nudges := w.nudges - 1, writer := Draining)
    case Drain => w.(nudges := w.nudges - 1)
    case Settle => w.(writer := Settled)
    case Snapshot => w.(writer := Writing(Took(w.last)))
    case WriterSaves(ok) =>
      var (file, left, failed) := Saved(json, w.file, w.failed, w.writer.save, ok);
      w.(file := file, writer := if left.Some? then Writing(left.value) else Parked, failed := failed)
  }

  function Spawned(json: Json, file: Option<string>): World {
    World(LoadFrom(json, file), 0, file, Idle, Parked, false)
  }

  /** The world after a run, or `None` if some step could not be taken. */
  function Run(json: Json, w: World, steps: seq<Step>): Option<World>
    decreases |steps|
  {
    if steps == [] then Some(w)
    else if !Enabled(json, w, steps[0]) then None
    else Run(json, Next(json, w, steps[0]), steps[1..])
  }

  // ----- safety -----

  /** Nothing is on its way to the file: no nudge waits, the writer is parked and
      the event thread is between calls. */
  predicate Quiet(w: World) {
    w.nudges == 0 && w.writer.Parked? && w.event.Idle?
  }

  /** A later snapshot by the writer is certain. */
  predicate Pending(w: World) {
    w.nudges > 0 || w.event.Owing? || w.writer.Draining? || w.writer.Settled?
  }

  predicate Carries(save: Save, last: Option<WindowGeometry>) {
    match save
    case Took(seen) => seen == last
    case Opened(g) => last == Some(g)
  }

  /** An open file in which the current text, once written, is all there is. */
  predicate NoLongerThan(json: Json, file: Option<string>, last: Option<WindowGeometry>) {
    file.Some? && last.Some? && |file.value| <= |json.text(last.value)|
  }

  predicate WritableSave(json: Json, save: Save) {
    match save
    case Took(seen) => seen.Some? ==> json.writable(seen.value)
    case Opened(g) => json.writable(g)
  }

  predicate Inv(json: Json, w: World) {
    && (w.last.Some? ==> json.writable(w.last.value))
    && (w.writer.Writing? ==> WritableSave(json, w.writer.save))
    && (w.event.Flushing? ==> Carries(w.event.save, w.last))
    && (w.last.None? ==> LoadFrom(json, w.file).None? && (w.writer.Writing? ==> Carries(w.writer.save, None)))
    && (!Pending(w) && w.writer.Writing? ==> Carries(w.writer.save, w.last))
    && (!Pending(w) && !w.failed ==>
          match w.writer
          case Writing(save) => save.Opened? ==> NoLongerThan(json, w.file, w.last)
          case _ =>
            if w.event.Flushing? && w.event.save.Opened? then NoLongerThan(json, w.file, w.last)
            else LoadFrom(json, w.file) == UsableIfAny(w.last))
  }

  lemma StepKeepsInv(json: Json, w: World, step: Step)
    requires RoundTrips(json)
    requires Inv(json, w) && Enabled(json, w, step)
    ensures Inv(json, Next(json, w, step))
  {
  }

  lemma {:induction false} RunKeepsInv(json: Json, w: World, steps: seq<Step>)
    requires RoundTrips(json)
    requires Inv(json, w)
    requires Run(json, w, steps).Some?
    ensures Inv(json, Run(json, w, steps).value)
    decreases |steps|
  {
    hide Inv;
    if steps != [] {
      StepKeepsInv(json, w, steps[0]);
      RunKeepsInv(json, Next(json, w, steps[0]), steps[1..]);
    }
  }

  /** In every interleaving, a quiet world's file reads back as the last observation
      (an unusable scale as 1) unless a save has failed since it was last opened. */
  lemma QuietFileIsCurrent(json: Json, file: Option<string>, steps: seq<Step>)
    requires RoundTrips(json)
    requires Run(json, Spawned(json, file), steps).Some?
    ensures var w := Run(json, Spawned(json, file), steps).value;
            Quiet(w) && !w.failed ==>
              && LoadFrom(json, w.file) == UsableIfAny(w.last)
              && (LoadFrom(json, w.file) == w.last <==> (w.last.Some? ==> w.last.value.scale > 0.0))
  {
    RunKeepsInv(json, Spawned(json, file), steps);
  }

  // ----- progress -----

  /** What the writer does next when the event thread leaves it alone. */
  function WriterStep(json: Json, w: World): Step
    requires w.event.Idle? && !Quiet(w)
    ensures Enabled(json, w, WriterStep(json, w))
  {
    match w.writer
    case Parked => Receive
    case Draining => if w.nudges > 0 then Drain else Settle
    case Settled => Snapshot
    case Writing(_) => WriterSaves(true)
  }

  function Phases(writer: Writer): nat {
    match writer
    case Parked => 0
    case Writing(Opened(_)) => 1
    case Writing(Took(_)) => 2
    case Settled => 3
    case Draining => 4
  }

  /** The writer is sure to open the file: a nudge, or a snapshot to write, is there. */
  predicate CanOpen(w: World) {
    w.last.Some? && (Pending(w) || (w.writer.Writing? && w.writer.save.Took? && w.writer.save.seen.Some?))
  }

  /** The writer left to itself, its saves succeeding. */
  function CaughtUp(json: Json, w: World): (steps: seq<Step>)
    requires w.event.Idle?
    ensures Run(json, w, steps).Some?
    ensures var w' := Run(json, w, steps).value;
            Quiet(w') && w'.last == w.last && (!w.failed || CanOpen(w) ==> !w'.failed)
    decreases 5 * w.nudges + Phases(w.writer)
  {
    if Quiet(w) then []
    else
      var step := WriterStep(json, w);
      var rest := CaughtUp(json, Next(json, w, step));
      assert ([step] + rest)[1..] == rest;
      [step] + rest
  }

  /** Once the event thread stops, the writer always comes to rest, and then the
      file holds the last observation, whatever failed before the writer's last save. */
  lemma WriterCatchesUp(json: Json, file: Option<string>, steps: seq<Step>)
    requires RoundTrips(json)
    requires Run(json, Spawned(json, file), steps).Some?
    ensures var w := Run(json, Spawned(json, file), steps).value;
            w.event.Idle? && (!w.failed || CanOpen(w)) ==>
              var rest := Run(json, w, CaughtUp(json, w));
              rest.Some? && Quiet(rest.value) && LoadFrom(json, rest.value.file) == UsableIfAny(w.last)
  {
    RunKeepsInv(json, Spawned(json, file), steps);
    var w := Run(json, Spawned(json, file), steps).value;
    if w.event.Idle? {
      RunKeepsInv(json, w, CaughtUp(json, w));
    }
  }

  // ----- what is kept -----

  /** The observation a run ends with: its latest normal frame, flagged if the
      window was seen maximized since. */
  function LatestFrame(before: Option<WindowGeometry>, steps: seq<Step>): Option<WindowGeometry> {
    if steps == [] then before
    else if steps[|steps| - 1].ObserveFrame? then Some(steps[|steps| - 1].g)
    else LatestFrame(before, steps[..|steps| - 1])
  }

  predicate SameFrame(a: Option<WindowGeometry>, b: Option<WindowGeometry>) {
    if a.Some? && b.Some? then a.value.(maximized := b.value.maximized) == b.value else a == b
  }

  lemma {:induction false} LatestFrameTail(before: Option<WindowGeometry>, steps: seq<Step>)
    requires steps != []
    ensures LatestFrame(before, steps)
         == LatestFrame(if steps[0].ObserveFrame? then Some(steps[0].g) else before, steps[1..])
  {
    var n := |steps| - 1;
    if n > 0 {
      assert steps[1..][..n - 1] == steps[..n][1..];
      LatestFrameTail(before, steps[..n]);
    }
  }

  lemma {:induction false} LatestFrameSame(a: Option<WindowGeometry>, b: Option<WindowGeometry>, steps: seq<Step>)
    requires SameFrame(a, b)
    ensures SameFrame(LatestFrame(a, steps), LatestFrame(b, steps))
  {
    if steps != [] {
      LatestFrameSame(a, b, steps[..|steps| - 1]);
    }
  }

  /** No run changes the normal frame but through a normal reading: maximized
      observations, flushes and the writer leave it alone. */
  lemma {:induction false} FrameIsLatestNormal(json: Json, w: World, steps: seq<Step>)
    requires Run(json, w, steps).Some?
    ensures SameFrame(Run(json, w, steps).value.last, LatestFrame(w.last, steps))
    decreases |steps|
  {
    if steps != [] {
      var w' := Next(json, w, steps[0]);
      FrameIsLatestNormal(json, w', steps[1..]);
      LatestFrameTail(w.last, steps);
      LatestFrameSame(w'.last, if steps[0].ObserveFrame? then Some(steps[0].g) else w.last, steps[1..]);
    }
  }

  /** Whether the window counts as maximized: as its latest normal reading says, unless
      it was seen maximized since. */
  function LatestFlag(before: bool, steps: seq<Step>): bool {
    if steps == [] then before
    else
      match steps[|steps| - 1]
      case ObserveFrame(g) => g.maximized
      case ObserveMaximized => true
      case _ => LatestFlag(before, steps[..|steps| - 1])
  }

  lemma {:induction false} LatestFlagTail(before: bool, steps: seq<Step>)
    requires steps != []
    ensures LatestFlag(before, steps)
         == LatestFlag(match steps[0]
                       case ObserveFrame(g) => g.maximized
                       case ObserveMaximized => true
                       case _ => before, steps[1..])
  {
    var n := |steps| - 1;
    if n > 0 {
      assert steps[1..][..n - 1] == steps[..n][1..];
      LatestFlagTail(before, steps[..n]);
    }
  }

  /** Without a normal reading, a run that begins with nothing observed ends so. */
  lemma {:induction false} FlagMatters(a: bool, b: bool, steps: seq<Step>)
    requires LatestFrame(None, steps).Some?
    ensures LatestFlag(a, steps) == LatestFlag(b, steps)
  {
    if !steps[|steps| - 1].ObserveFrame? {
      FlagMatters(a, b, steps[..|steps| - 1]);
    }
  }

  function FlagOf(last: Option<WindowGeometry>): bool {
    last.Some? && last.value.maximized
  }

  /** What a run ends with, flag and all: the latest normal reading, or what was there
      before, marked maximized if the window was seen so since. */
  lemma {:induction false} LastIsLatest(json: Json, w: World, steps: seq<Step>)
    requires Run(json, w, steps).Some?
    ensures Run(json, w, steps).value.last
         == match LatestFrame(w.last, steps)
            case None => None
            case Some(g) => Some(g.(maximized := LatestFlag(FlagOf(w.last), steps)))
    decreases |steps|
  {
    if steps != [] {
      var w' := Next(json, w, steps[0]);
      LastIsLatest(json, w', steps[1..]);
      LatestFrameTail(w.last, steps);
      LatestFlagTail(FlagOf(w.last), steps);
      LatestFrameSame(w'.last, if steps[0].ObserveFrame? then Some(steps[0].g) else w.last, steps[1..]);
      if w.last.None? && steps[0].ObserveMaximized? && LatestFrame(None, steps[1..]).Some? {
        FlagMatters(false, true, steps[1..]);
      }
    }
  }

  // ----- the flush at exit -----

  const FLUSH: seq<Step> := [Flush, FlushSaves(true), FlushSaves(true)]

  /** A flush that finds the writer outside a save repairs any file, whatever
      happened to it or to earlier saves. */
  lemma FlushRepairs(json: Json, w: World)
    requires RoundTrips(json)
    requires w.event.Idle? && w.last.Some? && json.writable(w.last.value) && !w.writer.Writing?
    ensures var w' := Run(json, w, FLUSH);
            && w'.Some? && w'.value.event.Idle? && w'.value.writer == w.writer
            && LoadFrom(json, w'.value.file) == UsableIfAny(w.last)
  {
    var w1 := Next(json, w, Flush);
    var w2 := Next(json, w1, FlushSaves(true));
    RunThree(json, w, Flush, FlushSaves(true), FlushSaves(true));
    assert Overlay(Some(""), json.text(w.last.value)) == Some(json.text(w.last.value));
  }

  lemma RunThree(json: Json, w: World, a: Step, b: Step, c: Step)
    requires Enabled(json, w, a) && Enabled(json, Next(json, w, a), b)
    requires Enabled(json, Next(json, Next(json, w, a), b), c)
    ensures Run(json, w, [a, b, c]) == Some(Next(json, Next(json, Next(json, w, a), b), c))
  {
    var w1 := Next(json, w, a);
    var w2 := Next(json, w1, b);
    var w3 := Next(json, w2, c);
    assert [a, b, c][1..] == [b, c] && [b, c][1..] == [c] && [c][1..] == [];
    assert Run(json, w3, []) == Some(w3);
    assert Run(json, w2, [c]) == Some(w3);
    assert Run(json, w1, [b, c]) == Some(w3);
  }

  /** A writer that had taken its snapshot before the flush and writes after it has
      the last word: the file is current exactly when that snapshot still was. */
  lemma LateWriteWins(json: Json, w: World, stale: WindowGeometry)
    requires RoundTrips(json)
    requires w.event.Idle? && w.last.Some? && w.writer == Writing(Took(Some(stale)))
    requires json.writable(w.last.value) && json.writable(stale)
    ensures var late := [WriterSaves(true), WriterSaves(true)];
            var flushed := Run(json, w, FLUSH);
            && flushed.Some? && LoadFrom(json, flushed.value.file) == UsableIfAny(w.last)
            && var done := Run(json, flushed.value, late);
               && done.Some? && done.value.event.Idle? && done.value.writer.Parked?
               && (LoadFrom(json, done.value.file) == UsableIfAny(w.last) <==> Usable(stale) == Usable(w.last.value))
  {
    RunThree(json, w, Flush, FlushSaves(true), FlushSaves(true));
    var flushed := Run(json, w, FLUSH).value;
    var emptied := Next(json, flushed, WriterSaves(true));
    var done := Next(json, emptied, WriterSaves(true));
    var late := [WriterSaves(true), WriterSaves(true)];
    assert late[1..] == [WriterSaves(true)] && late[1..][1..] == [];
    assert Run(json, done, []) == Some(done);
    assert Run(json, emptied, late[1..]) == Some(done);
  }

  // ----- whether the flush has the last word -----

  /** The serializer's text reads back; nothing reads as nothing; and a text with
      something behind it reads as before or, unless that is blank, not at all. */
  ghost predicate LikeJson(json: Json) {
    && RoundTrips(json) && json.parse("").None?
    && forall g, tail | json.writable(g) :: json.parse(json.text(g) + tail) in {None, Some(g)}
  }

  predicate WriterMoves(step: Step) {
    step.Receive? || step.Drain? || step.Settle? || step.Snapshot? || step.WriterSaves?
  }

  /** What happens while a program quits: the event thread only flushes, and its
      writes succeed; the writer goes on in between, before and after. */
  predicate Quitting(step: Step) {
    WriterMoves(step) || step.Flush? || step == FlushSaves(true)
  }

  /** A run that could be a program's last: at least one flush, carried through. */
  ghost predicate LastRun(json: Json, w: World, steps: seq<Step>) {
    && (forall i | 0 <= i < |steps| :: Quitting(steps[i])) && Flush in steps
    && Run(json, w, steps).Some? && Run(json, w, steps).value.event.Idle?
  }

  predicate ReadsBack(json: Json, w: World) {
    LoadFrom(json, w.file) == UsableIfAny(w.last)
  }

  /** What is on file when one text is written over another. */
  function Mixed(json: Json, under: WindowGeometry, over: WindowGeometry): (mixed: string)
    ensures json.text(over) <= mixed
  {
    Overlay(Some(json.text(under)), json.text(over)).value
  }

  /** Two geometries that read the same, in whichever order their texts are
      written over one another. */
  predicate Blend(json: Json, a: WindowGeometry, b: WindowGeometry) {
    Usable(a) == Usable(b) && json.parse(Mixed(json, a, b)).Some? && json.parse(Mixed(json, b, a)).Some?
  }

  /** Asked before the flush: the writer will not open the file again, and what it
      may be holding open to write is as good as the last observation. */
  predicate FlushIsLast(json: Json, w: World) {
    w.last.None? || (w.nudges == 0 &&
      match w.writer
      case Parked => true
      case Writing(Took(seen)) => seen.None?
      case Writing(Opened(g)) => Blend(json, g, w.last.value)
      case _ => false)
  }

  lemma MixedReads(json: Json, under: WindowGeometry, over: WindowGeometry)
    requires LikeJson(json) && json.writable(over)
    ensures json.parse(Mixed(json, under, over)) in {None, Some(over)}
    ensures under == over ==> json.parse(Mixed(json, under, over)) == Some(over)
  {
    var mixed, t := Mixed(json, under, over), json.text(over);
    assert mixed == t + mixed[|t|..];
    assert json.parse(t + mixed[|t|..]) in {None, Some(over)};
  }

  /** With usable scales, as observed ones are, that means the same geometry. */
  lemma BlendExactly(json: Json, a: WindowGeometry, b: WindowGeometry)
    requires LikeJson(json) && json.writable(a) && json.writable(b) && a.scale > 0.0 && b.scale > 0.0
    ensures Blend(json, a, b) <==> a == b
  {
    MixedReads(json, a, b);
    MixedReads(json, b, a);
  }

  lemma {:induction false} RunConcat(json: Json, w: World, a: seq<Step>, b: seq<Step>)
    requires Run(json, w, a).Some?
    ensures Run(json, w, a + b) == Run(json, Run(json, w, a).value, b)
    decreases |a|
  {
    if a == [] {
      assert a + b == b;
    } else {
      assert (a + b)[1..] == a[1..] + b;
      RunConcat(json, Next(json, w, a[0]), a[1..], b);
    }
  }

  // If the condition holds, every last run leaves the file current.

  /** The two texts in play: the last observation's and, under a flush that
      overlaps a write, the one the writer has the file open for. */
  ghost predicate Closing(json: Json, held: WindowGeometry, last: WindowGeometry, w: World, begun: bool) {
    && w.last == Some(last) && w.nudges == 0 && Blend(json, held, last)
    && w.writer in {Parked, Writing(Took(None)), Writing(Opened(held))}
    && w.event in {Idle, Flushing(Took(Some(last))), Flushing(Opened(last))}
    && (w.event == Flushing(Opened(last)) ==>
          w.file == Some("") || (w.file == Some(json.text(held)) && w.writer != Writing(Opened(held))))
    && (begun && w.event.Idle? ==>
          || w.file == Some(json.text(last))
          || (w.writer != Writing(Opened(held))
              && w.file in {Some(Mixed(json, held, last)), Some(Mixed(json, last, held))}))
  }

  lemma ClosingStep(json: Json, held: WindowGeometry, last: WindowGeometry, w: World, begun: bool, step: Step)
    requires Closing(json, held, last, w, begun) && Enabled(json, w, step) && Quitting(step)
    ensures Closing(json, held, last, Next(json, w, step), begun || step.Flush?)
  {
    hide Blend;
  }

  lemma {:induction false} ClosingRun(json: Json, held: WindowGeometry, last: WindowGeometry, w: World, begun: bool,
                                      steps: seq<Step>)
    requires Closing(json, held, last, w, begun) && Run(json, w, steps).Some?
    requires forall i | 0 <= i < |steps| :: Quitting(steps[i])
    ensures Closing(json, held, last, Run(json, w, steps).value, begun || Flush in steps)
    decreases |steps|
  {
    hide Closing, Quitting, Next;
    if steps != [] {
      ClosingStep(json, held, last, w, begun, steps[0]);
      ClosingRun(json, held, last, Next(json, w, steps[0]), begun || steps[0].Flush?, steps[1..]);
      assert Flush in steps <==> steps[0].Flush? || Flush in steps[1..];
    }
  }

  lemma ClosingReadsBack(json: Json, held: WindowGeometry, last: WindowGeometry, w: World)
    requires LikeJson(json) && Closing(json, held, last, w, true) && w.event.Idle?
    requires json.writable(held) && json.writable(last)
    ensures ReadsBack(json, w)
  {
    MixedReads(json, held, last);
    MixedReads(json, last, held);
  }

  lemma {:induction false} NothingSeenNothingWritten(json: Json, w: World, steps: seq<Step>)
    requires Inv(json, w) && RoundTrips(json) && w.last.None? && Run(json, w, steps).Some?
    requires forall i | 0 <= i < |steps| :: Quitting(steps[i])
    ensures ReadsBack(json, Run(json, w, steps).value)
    decreases |steps|
  {
    if steps != [] {
      StepKeepsInv(json, w, steps[0]);
      NothingSeenNothingWritten(json, Next(json, w, steps[0]), steps[1..]);
    }
  }

  lemma LastRunReadsBack(json: Json, w: World, steps: seq<Step>)
    requires LikeJson(json) && Inv(json, w) && w.event.Idle?
    requires FlushIsLast(json, w) && LastRun(json, w, steps)
    ensures ReadsBack(json, Run(json, w, steps).value)
  {
    if w.last.None? {
      NothingSeenNothingWritten(json, w, steps);
    } else {
      var last := w.last.value;
      var held := if w.writer.Writing? && w.writer.save.Opened? then w.writer.save.g else last;
      MixedReads(json, last, last);
      ClosingRun(json, held, last, w, false, steps);
      ClosingReadsBack(json, held, last, Run(json, w, steps).value);
    }
  }

  // If it fails, some last run does not.

  /** Steps by which the writer comes to hold a snapshot it has yet to open the file for. */
  function TowardsOpening(json: Json, w: World): (steps: seq<Step>)
    requires w.event.Idle? && CanOpen(w)
    ensures Run(json, w, steps).Some? && forall i | 0 <= i < |steps| :: WriterMoves(steps[i])
    ensures var w' := Run(json, w, steps).value;
            && w'.event.Idle? && w'.last == w.last
            && w'.writer.Writing? && w'.writer.save.Took? && w'.writer.save.seen.Some?
    decreases 5 * w.nudges + Phases(w.writer)
  {
    if w.writer.Writing? && w.writer.save.Took? && w.writer.save.seen.Some? then []
    else
      var step := WriterStep(json, w);
      var rest := TowardsOpening(json, Next(json, w, step));
      assert ([step] + rest)[1..] == rest;
      [step] + rest
  }

  lemma FlushRuns(json: Json, w: World)
    requires w.event.Idle? && w.last.Some?
    ensures Run(json, w, FLUSH)
         == Some(w.(file := Overlay(Some(""), json.text(w.last.value)), failed := false))
  {
    RunThree(json, w, Flush, FlushSaves(true), FlushSaves(true));
  }

  /** The program ends between the writer's opening the file and its writing. */
  lemma EmptiedAfterFlush(json: Json, w: World) returns (steps: seq<Step>)
    requires LikeJson(json) && w.event.Idle? && CanOpen(w)
    ensures LastRun(json, w, steps) && Run(json, w, steps).value.file == Some("")
    ensures !ReadsBack(json, Run(json, w, steps).value)
  {
    var towards := TowardsOpening(json, w);
    var holding := Run(json, w, towards).value;
    FlushRuns(json, holding);
    var flushed := Run(json, holding, FLUSH).value;
    RunOne(json, flushed, WriterSaves(true));
    RunConcat(json, holding, FLUSH, [WriterSaves(true)]);
    RunConcat(json, w, towards, FLUSH + [WriterSaves(true)]);
    steps := towards + (FLUSH + [WriterSaves(true)]);
    assert FLUSH[0] == Flush && steps[|towards|] == Flush;
  }

  lemma RunOne(json: Json, w: World, step: Step)
    requires Enabled(json, w, step)
    ensures Run(json, w, [step]) == Some(Next(json, w, step))
  {
    assert Run(json, Next(json, w, step), []) == Some(Next(json, w, step));
  }

  /** The program ends after the writer has written over the flush, or the flush
      over the writer. */
  lemma OverwrittenFlush(json: Json, w: World, held: WindowGeometry) returns (steps: seq<Step>)
    requires LikeJson(json) && w.event.Idle? && w.last.Some? && w.writer == Writing(Opened(held))
    requires json.writable(held) && json.writable(w.last.value) && !Blend(json, held, w.last.value)
    ensures LastRun(json, w, steps) && !ReadsBack(json, Run(json, w, steps).value)
  {
    var last := w.last.value;
    assert Overlay(Some(""), json.text(last)) == Some(json.text(last));
    assert Overlay(Some(""), json.text(held)) == Some(json.text(held));
    MixedReads(json, last, held);
    MixedReads(json, held, last);
    if json.parse(Mixed(json, held, last)).Some? {
      FlushRuns(json, w);
      RunOne(json, Run(json, w, FLUSH).value, WriterSaves(true));
      RunConcat(json, w, FLUSH, [WriterSaves(true)]);
      steps := FLUSH + [WriterSaves(true)];
      assert steps[0] == Flush;
    } else {
      var begin, end := [Flush, FlushSaves(true)], [WriterSaves(true), FlushSaves(true)];
      RunTwo(json, w, Flush, FlushSaves(true));
      RunTwo(json, Run(json, w, begin).value, WriterSaves(true), FlushSaves(true));
      RunConcat(json, w, begin, end);
      steps := begin + end;
      assert steps[0] == Flush;
    }
  }

  /** Quitting cannot outrun the settle window exactly when, as the flush begins, no
      nudge waits and the writer is at rest, has nothing to write, or has the file
      open for what reads as the last observation. */
  lemma FlushIsLastExactly(json: Json, w: World)
    requires LikeJson(json) && Inv(json, w) && w.event.Idle?
    ensures (forall steps | LastRun(json, w, steps) :: ReadsBack(json, Run(json, w, steps).value))
       <==> FlushIsLast(json, w)
  {
    hide Blend;
    if FlushIsLast(json, w) {
      forall steps | LastRun(json, w, steps)
        ensures ReadsBack(json, Run(json, w, steps).value)
      {
        LastRunReadsBack(json, w, steps);
      }
    } else if CanOpen(w) {
      var steps := EmptiedAfterFlush(json, w);
    } else {
      var steps := OverwrittenFlush(json, w, w.writer.save.g);
    }
  }

  /** From any file, one drag and a quit at the wrong moment: the last observation
      was made, nudged and flushed, and the file ends up empty. */
  lemma QuitLosesFile(json: Json, file: Option<string>, a: WindowGeometry)
    requires LikeJson(json) && json.writable(a)
    ensures var steps := [ObserveFrame(a), Nudge] + [Receive, Settle, Snapshot] + FLUSH + [WriterSaves(true)];
            var end := Run(json, Spawned(json, file), steps);
            && end.Some? && Quitting(steps[|steps| - 1]) && end.value.event.Idle?
            && end.value.last == Some(a) && end.value.file == Some("") && LoadFrom(json, end.value.file).None?
  {
    var start := Spawned(json, file);
    var drag, take := [ObserveFrame(a), Nudge], [Receive, Settle, Snapshot];
    RunTwo(json, start, ObserveFrame(a), Nudge);
    var nudged := Run(json, start, drag).value;
    RunThree(json, nudged, Receive, Settle, Snapshot);
    var holding := Run(json, nudged, take).value;
    FlushRuns(json, holding);
    var flushed := Run(json, holding, FLUSH).value;
    RunOne(json, flushed, WriterSaves(true));
    RunConcat(json, start, drag, take);
    RunConcat(json, start, drag + take, FLUSH);
    RunConcat(json, start, drag + take + FLUSH, [WriterSaves(true)]);
  }

  /** The stale snapshot of `LateWriteWins` is one a run reaches: the window moves on
      to `b` after the writer has taken `a`. */
  lemma StaleSnapshotReachable(json: Json, file: Option<string>, a: WindowGeometry, b: WindowGeometry)
    requires json.writable(a) && json.writable(b)
    ensures var steps := [ObserveFrame(a), Nudge] + [Receive, Settle, Snapshot] + [ObserveFrame(b), Nudge];
            var w := Run(json, Spawned(json, file), steps);
            && w.Some? && w.value.event.Idle? && w.value.last == Some(b)
            && w.value.writer == Writing(Took(Some(a))) && !FlushIsLast(json, w.value)
  {
    var start := Spawned(json, file);
    var drag, take := [ObserveFrame(a), Nudge], [Receive, Settle, Snapshot];
    RunTwo(json, start, ObserveFrame(a), Nudge);
    var nudged := Run(json, start, drag).value;
    RunThree(json, nudged, Receive, Settle, Snapshot);
    RunConcat(json, start, drag, take);
    RunTwo(json, Run(json, nudged, take).value, ObserveFrame(b), Nudge);
    RunConcat(json, start, drag + take, [ObserveFrame(b), Nudge]);
  }

  // ----- the saver itself -----

  /** The saver as its two threads run it, each call to its end. */
  /** What a save nobody interrupts leaves on file, whatever fails of it. */
  function AfterSave(json: Json, file: Option<string>, g: WindowGeometry, opens: bool, writes: bool): Option<string> {
    if !opens then file else if !writes then Some("") else Some(json.text(g))
  }

  /** The flush as steps: one for taking the snapshot, one for opening the file if
      there is something to write, one for writing if it opened. */
  function FlushSteps(known: bool, opens: bool, writes: bool): seq<Step> {
    if known && opens then [Flush, FlushSaves(true), FlushSaves(writes)] else [Flush, FlushSaves(opens)]
  }

  class Saver {
    const json: Json
    var last: Option<WindowGeometry>
    var nudges: nat
    var file: Option<string>
    ghost var failed: bool

    ghost function Contents(): World
      reads this
    {
      World(last, nudges, file, Idle, Parked, failed)
    }

    /** A saver starts at rest, knowing what the file holds and owing it nothing. */
    constructor Spawn(json: Json, file: Option<string>)
      requires RoundTrips(json)
      ensures this.json == json
      ensures Contents() == Spawned(json, file)
      ensures Inv(json, Contents()) && Quiet(Contents()) && LoadFrom(json, this.file) == last
    {
      this.json := json;
      this.file := file;
      last, nudges, failed := LoadFrom(json, file), 0, false;
    }

    method Observe(g: WindowGeometry)
      requires json.writable(g)
      modifies this
      ensures last == Some(g) && nudges == old(nudges) + 1 && file == old(file)
      ensures Some(Contents()) == Run(json, old(Contents()), [ObserveFrame(g), Nudge])
    {
      RunTwo(json, Contents(), ObserveFrame(g), Nudge);
      last := Some(g);
      nudges := nudges + 1;
    }

    method SeenMaximized()
      modifies this
      ensures last == if old(last).Some? then Some(old(last.value).(maximized := true)) else None
      ensures nudges == old(nudges) + 1 && file == old(file)
      ensures Some(Contents()) == Run(json, old(Contents()), [ObserveMaximized, Nudge])
    {
      RunTwo(json, Contents(), ObserveMaximized, Nudge);
      if last.Some? {
        last := Some(last.value.(maximized := true));
      }
      nudges := nudges + 1;
    }

    /** Best effort: opening the file or writing it may fail, and nobody is told. */
    method SaveTo(g: WindowGeometry, opens: bool, writes: bool)
      modifies this
      ensures last == old(last) && nudges == old(nudges) && failed == !(opens && writes)
      ensures file == if !opens then old(file) else if !writes then Some("") else Some(json.text(g))
    {
      failed := !opens;
      if opens {
        file := Some("");
        failed := !writes;
        if writes {
          file := Overlay(file, json.text(g));
        }
      }
    }

    method SaveNow(opens: bool, writes: bool)
      requires RoundTrips(json) && (last.Some? ==> json.writable(last.value))
      modifies this
      ensures Some(Contents()) == Run(json, old(Contents()), FlushSteps(last.Some?, opens, writes))
      ensures last == old(last) && (opens && writes && last.Some? ==> LoadFrom(json, file) == UsableIfAny(last))
    {
      if last.Some? && opens {
        RunThree(json, Contents(), Flush, FlushSaves(true), FlushSaves(writes));
      } else {
        RunTwo(json, Contents(), Flush, FlushSaves(opens));
      }
      if last.Some? {
        SaveTo(last.value, opens, writes);
      }
    }

    /** The writer's loop up to the point where it would block: all nudges are
        taken and, if there was one, the last observation is saved, once. */
    method WriteAfterSettle(opens: bool, writes: bool)
      requires RoundTrips(json)
      requires Inv(json, Contents())
      modifies this
      ensures Inv(json, Contents()) && Quiet(Contents()) && last == old(last)
      ensures !failed ==> LoadFrom(json, file) == UsableIfAny(last)
      ensures if old(nudges) == 0 || last.None? then file == old(file) && failed == old(failed)
              else file == AfterSave(json, old(file), last.value, opens, writes) && failed == !(opens && writes)
    {
      while nudges > 0
        invariant last == old(last) && Inv(json, Contents())
        invariant if nudges == old(nudges) then Contents() == old(Contents())
                  else && nudges == 0
                       && if last.None? then file == old(file) && failed == old(failed)
                          else && file == AfterSave(json, old(file), last.value, opens, writes)
                               && failed == !(opens && writes)
      {
        nudges := nudges - 1;
        while nudges > 0
          invariant nudges < old(nudges) && file == old(file) && failed == old(failed)
          invariant last == old(last) && (last.None? ==> LoadFrom(json, file).None?)
        {
          nudges := nudges - 1;
        }
        if last.Some? {
          SaveTo(last.value, opens, writes);
        }
      }
    }
  }

  lemma RunTwo(json: Json, w: World, a: Step, b: Step)
    requires Enabled(json, w, a) && Enabled(json, Next(json, w, a), b)
    ensures Run(json, w, [a, b]) == Some(Next(json, Next(json, w, a), b))
  {
    var w1 := Next(json, w, a);
    var w2 := Next(json, w1, b);
    assert [a, b][1..] == [b] && [b][1..] == [];
    assert Run(json, w2, []) == Some(w2);
    assert Run(json, w1, [b]) == Some(w2);
  }
}
