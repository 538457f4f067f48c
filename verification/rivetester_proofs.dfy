/**
 * Properties of the tester's state machine: what each gesture does, the
 * drop rule for `MouseRelease`, the spring-back, and the invariant that the
 * cached input values mirror the engine's.
 */
module TesterProofs {
  import opened Wrappers
  import opened Engine
  import opened FileUpload
  import opened RiveTester
  import Zoom
  import SpringBack

  predicate IsRelease(e: Event) {
    e == MouseUp || e == MouseLeave || e == TouchEnd
  }

  /** Every input of the selected state machine has its own value in the cache. */
  predicate Mirrored(s: Tester) {
    match SelectedInputs(s)
    case None => true
    case Some(ins) =>
      forall i :: 0 <= i < |ins| ==> ins[i].name in s.inputValues && s.inputValues[ins[i].name] == ins[i].value
  }

  /**
   * The invariant kept by every modelled event. Writes the model leaves out
   * (the engine's own changes, the speed slider, the fallback switch, the
   * runtime reset, a change of playing machine) can break the mirror part.
   */
  predicate Inv(s: Tester) {
    && s.position.x == 0.0
    && s.position.y >= 0.0
    && Zoom.InRange(s.zoom)
    && (s.rive.Some? ==> WellFormed(s.rive.value))
    && Mirrored(s)
  }

  // ---------------------------------------------------------------------
  // Pointer gestures

  /** Only the primary button starts a drag; the origin is the pointer minus the current offset. */
  lemma MouseDownNeedsPrimaryButton(s: Tester, button: int, x: real, y: real)
    ensures var t := Step(s, MouseDown(button, x, y));
      && (button != 0 ==> t == s)
      && (button == 0 ==> t.isDragging && t.dragStart.x + s.position.x == x && t.dragStart.y + s.position.y == y)
      && t == s.(isDragging := t.isDragging, dragStart := t.dragStart)
  {
  }

  /** A single touch starts a drag exactly as a primary-button press would; any other touch count does nothing. */
  lemma TouchStartIsPrimaryPress(s: Tester, touches: seq<Point>)
    ensures |touches| == 1 ==> Step(s, TouchStart(touches)) == Step(s, MouseDown(0, touches[0].x, touches[0].y))
    ensures |touches| != 1 ==> Step(s, TouchStart(touches)) == s
  {
  }

  /** A move is ignored unless dragging; otherwise x is 0 and y is the pointer's travel, floored at 0. */
  lemma MoveFollowsPointer(s: Tester, x: real, y: real)
    ensures var t := Step(s, MouseMove(x, y));
      && (!s.isDragging ==> t == s)
      && (s.isDragging ==>
            && t.position.x == 0.0
            && t.position.y >= 0.0
            && t.position.y >= y - s.dragStart.y
            && (t.position.y == 0.0 || t.position.y == y - s.dragStart.y)
            && t == s.(position := t.position))
  {
  }

  /** A touch move acts as a mouse move of its one touch, and is ignored with any other touch count. */
  lemma TouchMoveIsMouseMove(s: Tester, touches: seq<Point>)
    ensures s.isDragging && |touches| == 1 ==>
      Step(s, TouchMove(touches)) == Step(s, MouseMove(touches[0].x, touches[0].y))
    ensures !(s.isDragging && |touches| == 1) ==> Step(s, TouchMove(touches)) == s
  {
  }

  /** Pressing and then moving back to the same pointer height leaves the offset where it was. */
  lemma PressThenMoveInPlace(s: Tester, x: real, y: real, x2: real)
    requires s.position.x == 0.0 && s.position.y >= 0.0
    ensures Step(Step(s, MouseDown(0, x, y)), MouseMove(x2, y)).position == s.position
  {
  }

  // ---------------------------------------------------------------------
  // The drop rule

  /** The engine's MouseRelease value after a toggle: the negation, when the input exists. */
  function Toggled(v: Option<Value>): Option<Value> {
    match v
    case None => None
    case Some(x) => Some(Not(x))
  }

  lemma EngineValueIgnoresGestureFields(s: Tester, t: Tester, name: string)
    requires t.rive == s.rive && t.selectedMachine == s.selectedMachine
    ensures EngineValue(t, name) == EngineValue(s, name)
  {
  }

  /** Mouse-up, mouse-leave and touch-end all run the one release handler. */
  lemma ReleaseEventsShareHandler(s: Tester, e: Event)
    requires IsRelease(e)
    ensures Step(s, e) == HandleRelease(s)
  {
  }

  /**
   * A release (mouse-up, mouse-leave or touch-end) ends the drag, records
   * the drop height, toggles MouseRelease exactly when the drop rule says so
   * and the input exists, and starts the spring-back unless already at 0.
   */
  lemma ReleaseFollowsDropRule(s: Tester)
    ensures var t := HandleRelease(s);
      && !t.isDragging
      && t.lastDrop == Point(0.0, s.position.y)
      && t.position == s.position && t.zoom == s.zoom && t.dragStart == s.dragStart
      && t.selectedMachine == s.selectedMachine && t.fileUrl == s.fileUrl
      && (ReleaseFlips(s) ==> EngineValue(t, MouseRelease) == Toggled(EngineValue(s, MouseRelease)))
      && (ReleaseFlips(s) && EngineValue(s, MouseRelease).Some? ==>
            CachedMouseRelease(t) == Not(EngineValue(s, MouseRelease).value)
            && t.inputValues == s.inputValues[MouseRelease := Not(EngineValue(s, MouseRelease).value)])
      && (!ReleaseFlips(s) || EngineValue(s, MouseRelease).None? ==>
            t.rive == s.rive && t.inputValues == s.inputValues)
      && OnlyInputChanged(s, t, MouseRelease)
      && (s.position.y == 0.0 ==> t.tween == s.tween && t.isAnimating == s.isAnimating)
      && (s.position.y != 0.0 ==> t.tween == Some(s.position.y) && t.isAnimating)
  {
    var dropY := s.position.y;
    var released := s.(isDragging := false, lastDrop := Point(0.0, dropY));
    EngineValueIgnoresGestureFields(s, released, MouseRelease);
    assert CachedMouseRelease(released) == CachedMouseRelease(s);
    if ReleaseFlips(s) {
      var written := TriggerMouseRelease(released);
      assert HandleRelease(s) == AnimateToCenter(written);
      EngineValueIgnoresGestureFields(written, AnimateToCenter(written), MouseRelease);
    }
  }

  /**
   * The mirror property: when the cache agreed with the engine before a
   * release, they agree afterwards, and both hold the rule's outcome —
   * false after a truthy value, otherwise true exactly for a drop of 100 or more.
   */
  lemma ReleaseKeepsCache(s: Tester)
    requires EngineValue(s, MouseRelease).Some?
    requires CachedMouseRelease(s) == EngineValue(s, MouseRelease).value
    ensures var t := HandleRelease(s); var before := EngineValue(s, MouseRelease).value;
      && EngineValue(t, MouseRelease).Some?
      && CachedMouseRelease(t) == EngineValue(t, MouseRelease).value
      && (Truthy(before) ==> EngineValue(t, MouseRelease) == Some(Bool(false)))
      && (!Truthy(before) && s.position.y >= DropThreshold ==> EngineValue(t, MouseRelease) == Some(Bool(true)))
      && (!Truthy(before) && s.position.y < DropThreshold ==> EngineValue(t, MouseRelease) == Some(before))
      && (Truthy(EngineValue(t, MouseRelease).value) <==> !Truthy(before) && s.position.y >= DropThreshold)
  {
    ReleaseFollowsDropRule(s);
  }

  /** With no instance, no selected machine or no MouseRelease input, a release writes nothing. */
  lemma ReleaseWithoutInputWritesNothing(s: Tester)
    requires EngineValue(s, MouseRelease).None?
    ensures HandleRelease(s).rive == s.rive && HandleRelease(s).inputValues == s.inputValues
  {
    ReleaseFollowsDropRule(s);
  }

  /**
   * Release does not check `isDragging`, and mouse-leave shares its handler:
   * leaving the canvas without any drag still switches a true MouseRelease off.
   */
  lemma LeaveWithoutDragFlips(s: Tester)
    requires !s.isDragging
    requires EngineValue(s, MouseRelease) == Some(Bool(true))
    requires CachedMouseRelease(s) == Bool(true)
    ensures EngineValue(Step(s, MouseLeave), MouseRelease) == Some(Bool(false))
    ensures CachedMouseRelease(Step(s, MouseLeave)) == Bool(false)
  {
    ReleaseEventsShareHandler(s, MouseLeave);
    ReleaseKeepsCache(s);
  }

  // ---------------------------------------------------------------------
  // Spring-back frames

  /** A primary-button press runs the drag start. */
  lemma PressRunsBeginDrag(s: Tester, x: real, y: real)
    ensures Step(s, MouseDown(0, x, y)) == BeginDrag(s, Point(x, y))
  {
  }

  /** While dragging, a mouse move runs the drag move. */
  lemma MoveRunsDragTo(s: Tester, x: real, y: real)
    requires s.isDragging
    ensures Step(s, MouseMove(x, y)) == DragTo(s, y)
  {
  }

  /** A frame event runs the frame handler. */
  lemma FrameRunsHandler(s: Tester, elapsed: real)
    ensures Step(s, Frame(elapsed)) == HandleFrame(s, elapsed)
  {
  }

  /** Frames do nothing when no spring-back is running. */
  lemma FrameWithoutTween(s: Tester, elapsed: real)
    requires s.tween.None?
    ensures Step(s, Frame(elapsed)) == s
  {
  }

  /**
   * A frame keeps the offset between 0 and the drop height; at 300 or more
   * it snaps to exactly 0 and ends the tween, before that the tween goes on.
   */
  lemma FrameBounded(s: Tester, elapsed: real)
    requires s.tween.Some? && s.tween.value >= 0.0 && elapsed >= 0.0
    ensures var t := Step(s, Frame(elapsed));
      && t.position.x == 0.0
      && 0.0 <= t.position.y <= s.tween.value
      && (elapsed >= SpringBack.Duration ==> t.position == Origin && !t.isAnimating && t.tween.None?)
      && (elapsed < SpringBack.Duration ==> t.tween == s.tween && t.isAnimating == s.isAnimating)
  {
    SpringBack.SpringBounded(s.tween.value, elapsed);
    SpringBack.MoreFramesBeforeDuration(elapsed);
  }

  /** A spring-back started from a drop first sits at the drop offset and rests at (0, 0) from 300 on. */
  lemma SpringBackStartsAndEnds(s: Tester, elapsed: real)
    requires s.position.x == 0.0 && s.position.y > 0.0 && elapsed >= SpringBack.Duration
    ensures HandleFrame(AnimateToCenter(s), 0.0).position == s.position
    ensures HandleFrame(AnimateToCenter(s), elapsed).position == Origin
  {
    SpringBack.SpringStartsAtDrop(s.position.y);
  }

  /** Successive frames never raise the offset. */
  lemma FramesNonIncreasing(s: Tester, e1: real, e2: real)
    requires s.tween.Some? && s.tween.value >= 0.0 && 0.0 <= e1 <= e2
    ensures Step(Step(s, Frame(e1)), Frame(e2)).position.y <= Step(s, Frame(e1)).position.y
  {
    var t := Step(s, Frame(e1));
    FrameBounded(s, e1);
    if t.tween.Some? {
      FrameBounded(t, e2);
      SpringBack.MoreFramesBeforeDuration(e2);
      if SpringBack.MoreFrames(e2) {
        SpringBack.SpringMonotone(s.tween.value, e1, e2);
      }
    }
  }

  // ---------------------------------------------------------------------
  // View commands and file selection

  /** Zoom commands change the zoom only, and keep it within [0.6, 1.4]. */
  lemma ZoomEventsOnlyChangeZoom(s: Tester, e: Event)
    requires e.WheelTurn? || e == ZoomInClick || e == ZoomOutClick
    ensures Step(s, e) == s.(zoom := Step(s, e).zoom)
    ensures Zoom.InRange(s.zoom) ==> Zoom.InRange(Step(s, e).zoom)
    ensures Zoom.InRange(s.zoom) && e == ZoomInClick ==> Step(s, e).zoom == Zoom.ZoomIn(s.zoom)
    ensures Zoom.InRange(s.zoom) && e == ZoomOutClick ==> Step(s, e).zoom == Zoom.ZoomOut(s.zoom)
  {
    if Zoom.InRange(s.zoom) {
      Zoom.ButtonsAgreeWithClamp(s.zoom);
    }
  }

  /** Reset (button or double-click) restores the default view, touches nothing else, and is idempotent. */
  lemma ResetViewIdempotent(s: Tester)
    ensures var t := Step(s, ResetClick);
      && t.position == Origin && t.zoom == 1.0 && t.lastDrop == Origin
      && t == s.(position := t.position, zoom := t.zoom, lastDrop := t.lastDrop)
      && Step(t, ResetClick) == t
      && Step(s, DoubleClick) == t
  {
  }

  /**
   * Choosing a file resets the view and clears the inputs and the cache; with
   * no machine selected afterwards, MouseRelease writes are skipped. The drag
   * flag and a running spring-back are left as they were.
   */
  lemma NewFileResets(s: Tester, f: File, url: string)
    ensures var t := Step(s, FileChosen(Some(f), url));
      && t.fileUrl == Some(url) && t.selectedFile == Some(f)
      && t.position == Origin && t.zoom == 1.0 && t.lastDrop == Origin
      && t.inputValues == map[] && t.listedInputs == [] && t.animations == [] && t.stateMachines == []
      && t.selectedMachine.None? && !Ready(t) && EngineValue(t, MouseRelease).None?
      && TriggerMouseRelease(t) == t
      && t.rive == s.rive && t.isDragging == s.isDragging && t.tween == s.tween
  {
  }

  /** A null file clears only the file and its URL. */
  lemma NullFileClearsOnlyFile(s: Tester, url: string)
    ensures Step(s, FileChosen(None, url)) == s.(fileUrl := None, selectedFile := None)
  {
  }

  /** A drop the upload card turns away leaves the tester untouched. */
  lemma RejectedDropChangesNothing(s: Tester, files: seq<File>, url: string)
    requires !(|files| > 0 && EndsWith(files[0].name, RivExtension))
    ensures Deliver(s, HandleDrop(files).forward, url) == s
  {
  }

  /** An accepted drop loads the first dropped file. */
  lemma AcceptedDropLoadsFirstFile(s: Tester, files: seq<File>, url: string)
    requires |files| > 0 && EndsWith(files[0].name, RivExtension)
    ensures Deliver(s, HandleDrop(files).forward, url) == Step(s, FileChosen(Some(files[0]), url))
  {
  }

  /** Removing the file reaches the tester as the null-file case. */
  lemma RemoveFileClearsFile(s: Tester, url: string)
    ensures Deliver(s, RemoveFile(), url) == s.(fileUrl := None, selectedFile := None)
  {
  }

  // ---------------------------------------------------------------------
  // The invariant

  /** Under the invariant the cached MouseRelease equals the engine's. */
  lemma MirroredCache(s: Tester)
    requires Inv(s)
    requires EngineValue(s, MouseRelease).Some?
    ensures CachedMouseRelease(s) == EngineValue(s, MouseRelease).value
  {
    var ins := SelectedInputs(s).value;
    var i := FindInput(ins, MouseRelease).value;
    assert ins[i].name == MouseRelease;
  }

  /** A mirrored write keeps every other input's cache entry, since names are unique. */
  lemma StoreKeepsInv(s: Tester, name: string, v: Value)
    requires Inv(s)
    ensures Inv(Store(s, name, v))
  {
    var r := Store(s, name, v);
    if EngineValue(s, name).Some? {
      var m := s.selectedMachine.value;
      var ins := SelectedInputs(s).value;
      var i := FindInput(ins, name).value;
      var ins' := SetValue(ins, i, v);
      assert UniqueNames(ins) by {
        assert m in s.rive.value.machines;
      }
      SetValueKeepsNames(ins, i, v);
      assert r.rive == Some(Rive(s.rive.value.machines[m := ins']));
      assert SelectedInputs(r) == Some(ins');
      assert WellFormed(r.rive.value);
      forall j | 0 <= j < |ins'|
        ensures ins'[j].name in r.inputValues && r.inputValues[ins'[j].name] == ins'[j].value
      {
        if j != i {
          assert ins[j].name != ins[i].name;
        }
      }
    }
  }

  /**
   * Refreshing repairs the mirror from any cache, however stale: with unique
   * input names, afterwards every input of the selected machine has its own
   * value in the cache.
   */
  lemma RefreshRepairsMirror(s: Tester)
    requires s.rive.Some? ==> WellFormed(s.rive.value)
    ensures Mirrored(RefreshInputs(s))
  {
    var r := RefreshInputs(s);
    assert SelectedInputs(r) == SelectedInputs(s);
    match SelectedInputs(s)
    case None =>
    case Some(ins) =>
      assert UniqueNames(ins) by {
        assert s.selectedMachine.value in s.rive.value.machines;
      }
      ValueRecordUnique(ins);
  }

  /** Refreshing keeps the invariant. */
  lemma RefreshKeepsInv(s: Tester)
    requires Inv(s)
    ensures Inv(RefreshInputs(s))
  {
    RefreshRepairsMirror(s);
  }

  lemma ReleaseKeepsInv(s: Tester)
    requires Inv(s)
    ensures Inv(HandleRelease(s))
  {
    var released := s.(isDragging := false, lastDrop := Point(0.0, s.position.y));
    assert Inv(released) by {
      assert SelectedInputs(released) == SelectedInputs(s);
    }
    if ReleaseFlips(s) {
      assert CachedMouseRelease(released) == CachedMouseRelease(s);
      var written := TriggerMouseRelease(released);
      match EngineValue(released, MouseRelease)
      case None =>
      case Some(v) => StoreKeepsInv(released, MouseRelease, Not(v));
      assert Inv(written);
      assert SelectedInputs(AnimateToCenter(written)) == SelectedInputs(written);
    } else {
      assert SelectedInputs(AnimateToCenter(released)) == SelectedInputs(released);
    }
  }

  /** A change that leaves the instance, the selection and the cache alone keeps the mirror. */
  lemma ViewChangeKeepsInv(s: Tester, t: Tester)
    requires Inv(s)
    requires t.rive == s.rive && t.selectedMachine == s.selectedMachine && t.inputValues == s.inputValues
    requires t.position.x == 0.0 && t.position.y >= 0.0 && Zoom.InRange(t.zoom)
    ensures Inv(t)
  {
    assert SelectedInputs(t) == SelectedInputs(s);
  }

  lemma FrameKeepsInv(s: Tester, elapsed: real)
    requires Inv(s)
    ensures Inv(Step(s, Frame(elapsed)))
  {
    ViewChangeKeepsInv(s, Step(s, Frame(elapsed)));
  }

  lemma FileChosenKeepsInv(s: Tester, file: Option<File>, url: string)
    requires Inv(s)
    ensures Inv(Step(s, FileChosen(file, url)))
  {
    var t := Step(s, FileChosen(file, url));
    if file.None? {
      ViewChangeKeepsInv(s, t);
    } else {
      assert SelectedInputs(t).None?;
    }
  }

  /** Pointer, zoom and reset events touch only the view, and keep the invariant. */
  lemma GestureKeepsInv(s: Tester, e: Event)
    requires Inv(s)
    requires !IsRelease(e) && !e.InputChanged? && !e.RefreshClick? && !e.Frame? && !e.FileChosen?
    ensures Inv(Step(s, e))
  {
    var t := Step(s, e);
    match e
    case MouseDown(b, x, y) =>
      assert t == (if b == 0 then BeginDrag(s, Point(x, y)) else s);
      ViewChangeKeepsInv(s, t);
    case MouseMove(_, y) =>
      assert t == (if s.isDragging then DragTo(s, y) else s);
      ViewChangeKeepsInv(s, t);
    case TouchStart(touches) =>
      assert t == (if |touches| == 1 then BeginDrag(s, touches[0]) else s);
      ViewChangeKeepsInv(s, t);
    case TouchMove(touches) =>
      assert t == (if s.isDragging && |touches| == 1 then DragTo(s, touches[0].y) else s);
      ViewChangeKeepsInv(s, t);
    case WheelTurn(deltaY) =>
      assert t == s.(zoom := Zoom.Wheel(s.zoom, deltaY));
      ViewChangeKeepsInv(s, t);
    case ZoomInClick =>
      assert t == s.(zoom := Zoom.ZoomInButton(s.zoom));
      ViewChangeKeepsInv(s, t);
    case ZoomOutClick =>
      assert t == s.(zoom := Zoom.ZoomOutButton(s.zoom));
      ViewChangeKeepsInv(s, t);
    case ResetClick =>
      assert t == ResetView(s);
      ViewChangeKeepsInv(s, t);
    case DoubleClick =>
      assert t == ResetView(s);
      ViewChangeKeepsInv(s, t);
  }

  /** Every event keeps the invariant. */
  lemma StepKeepsInv(s: Tester, e: Event)
    requires Inv(s)
    ensures Inv(Step(s, e))
  {
    match e
    case MouseUp => ReleaseKeepsInv(s);
    case MouseLeave => ReleaseKeepsInv(s);
    case TouchEnd => ReleaseKeepsInv(s);
    case InputChanged(name, v) => StoreKeepsInv(s, name, v);
    case RefreshClick => RefreshKeepsInv(s);
    case Frame(elapsed) => FrameKeepsInv(s, elapsed);
    case FileChosen(file, url) => FileChosenKeepsInv(s, file, url);
    case _ => GestureKeepsInv(s, e);
  }

  /** Any sequence of events keeps the invariant. */
  lemma {:induction false} RunKeepsInv(s: Tester, events: seq<Event>)
    requires Inv(s)
    ensures Inv(Run(s, events))
    decreases |events|
  {
    if |events| > 0 {
      StepKeepsInv(s, events[0]);
      RunKeepsInv(Step(s, events[0]), events[1..]);
    }
  }

  lemma InitialInv()
    ensures Inv(Initial())
  {
  }

  /**
   * The payoff of the invariant: after any history, a release leaves cache
   * and engine equal and holding the drop rule's outcome.
   */
  lemma ReleaseAfterAnyHistory(s: Tester, events: seq<Event>, e: Event)
    requires Inv(s) && IsRelease(e)
    requires EngineValue(Run(s, events), MouseRelease).Some?
    ensures var u := Run(s, events); var t := Step(u, e); var before := EngineValue(u, MouseRelease).value;
      && EngineValue(t, MouseRelease).Some?
      && CachedMouseRelease(t) == EngineValue(t, MouseRelease).value
      && (Truthy(EngineValue(t, MouseRelease).value) <==> !Truthy(before) && u.position.y >= DropThreshold)
  {
    RunKeepsInv(s, events);
    MirroredCache(Run(s, events));
    ReleaseEventsShareHandler(Run(s, events), e);
    ReleaseKeepsCache(Run(s, events));
  }

  // ---------------------------------------------------------------------
  // Worked scenarios

  /** A tester with one state machine whose MouseRelease holds `on`, cache in agreement. */
  function OneMachine(on: bool): Tester {
    Initial().(rive := Some(Rive(map["State Machine 1" := [Input(MouseRelease, BooleanInput, Bool(on))]])),
               selectedMachine := Some("State Machine 1"),
               inputValues := map[MouseRelease := Bool(on)])
  }

  lemma RunThree(s: Tester, a: Event, b: Event, c: Event)
    ensures Run(s, [a, b, c]) == Step(Step(Step(s, a), b), c)
  {
    assert [a, b, c][0] == a && [a, b, c][1..] == [b, c];
    assert Run(s, [a, b, c]) == Run(Step(s, a), [b, c]);
    assert [b, c][0] == b && [b, c][1..] == [c];
    assert Run(Step(s, a), [b, c]) == Run(Step(Step(s, a), b), [c]);
    assert [c][0] == c && [c][1..] == [];
    assert Run(Step(Step(s, a), b), [c]) == Run(Step(Step(Step(s, a), b), c), []);
  }

  lemma OneMachineReads(on: bool, t: Tester)
    requires t.rive == OneMachine(on).rive && t.selectedMachine == OneMachine(on).selectedMachine
    ensures EngineValue(t, MouseRelease) == Some(Bool(on))
  {
    var ins := [Input(MouseRelease, BooleanInput, Bool(on))];
    assert SelectedInputs(t) == Some(ins);
    FindInputFirstMatch(ins, MouseRelease, 0);
  }

  /** From rest at the origin, a press at (0, 0) and a move to (0, y) with y >= 0 leave the canvas at (0, y) and touch only the view. */
  lemma PressAndDrag(s: Tester, y: real)
    requires s.position == Origin && y >= 0.0
    ensures var s2 := Step(Step(s, MouseDown(0, 0.0, 0.0)), MouseMove(0.0, y));
      && s2.position == Point(0.0, y)
      && s2.rive == s.rive && s2.selectedMachine == s.selectedMachine
      && s2.inputValues == s.inputValues
  {
    PressRunsBeginDrag(s, 0.0, 0.0);
    var s1 := Step(s, MouseDown(0, 0.0, 0.0));
    assert s1.isDragging && s1.dragStart.y == 0.0;
    MoveRunsDragTo(s1, 0.0, y);
  }

  /** The drag half of the scenario below: a press at (0, 0) and a move to (0, 150) touch only the view. */
  lemma PressAndDragTo150(on: bool)
    ensures var s2 := Step(Step(OneMachine(on), MouseDown(0, 0.0, 0.0)), MouseMove(0.0, 150.0));
      && s2.position == Point(0.0, 150.0)
      && s2.rive == OneMachine(on).rive && s2.selectedMachine == OneMachine(on).selectedMachine
      && s2.inputValues == OneMachine(on).inputValues
  {
    assert OneMachine(on).position == Origin;
    PressAndDrag(OneMachine(on), 150.0);
  }

  /** The release half of the scenario below: a drop at 150 from a mirrored MouseRelease holding `on`. */
  lemma ReleaseAt150(on: bool, s: Tester)
    requires EngineValue(s, MouseRelease) == Some(Bool(on)) && CachedMouseRelease(s) == Bool(on)
    requires s.position == Point(0.0, 150.0)
    ensures var t := HandleRelease(s);
      && EngineValue(t, MouseRelease) == Some(Bool(!on))
      && CachedMouseRelease(t) == Bool(!on)
      && t.lastDrop == Point(0.0, 150.0)
      && t.tween == Some(150.0)
      && HandleFrame(t, SpringBack.Duration).position == Origin
  {
    ReleaseKeepsCache(s);
    ReleaseFollowsDropRule(s);
    FrameRunsHandler(HandleRelease(s), SpringBack.Duration);
    FrameBounded(HandleRelease(s), SpringBack.Duration);
  }

  /**
   * Press at (0, 0), drag to (0, 150), release: the input ends up as the
   * opposite of where it started when it was true, and true when it was
   * false; the drop is recorded at 150 and the frame at 300 returns to 0.
   */
  lemma ScenarioDropAt150(on: bool)
    ensures var t := Run(OneMachine(on), [MouseDown(0, 0.0, 0.0), MouseMove(0.0, 150.0), MouseUp]);
      && EngineValue(t, MouseRelease) == Some(Bool(!on))
      && CachedMouseRelease(t) == Bool(!on)
      && t.lastDrop == Point(0.0, 150.0)
      && t.tween == Some(150.0)
      && Step(t, Frame(SpringBack.Duration)).position == Origin
  {
    var s := OneMachine(on);
    var s2 := Step(Step(s, MouseDown(0, 0.0, 0.0)), MouseMove(0.0, 150.0));
    PressAndDragTo150(on);
    OneMachineReads(on, s2);
    assert CachedMouseRelease(s2) == Bool(on);
    ReleaseAt150(on, s2);
    ReleaseEventsShareHandler(s2, MouseUp);
    FrameRunsHandler(HandleRelease(s2), SpringBack.Duration);
    RunThree(s, MouseDown(0, 0.0, 0.0), MouseMove(0.0, 150.0), MouseUp);
  }

  /** From false, a mouse-up at height `y` leaves the input true exactly when `y` is at least 100. */
  lemma ReleaseFromFalseAt(y: real)
    ensures EngineValue(Step(OneMachine(false).(position := Point(0.0, y)), MouseUp), MouseRelease)
            == Some(Bool(y >= DropThreshold))
  {
    var s := OneMachine(false).(position := Point(0.0, y));
    var t := HandleRelease(s);
    assert Step(s, MouseUp) == t;
    OneMachineReads(false, s);
    assert CachedMouseRelease(s) == Bool(false);
    if !ReleaseFlips(s) {
      EngineValueIgnoresGestureFields(s, t, MouseRelease);
    }
  }

  /** The threshold is inclusive: from false, a drop at 99 leaves the input false and one at 100 sets it true. */
  lemma ScenarioThresholdBoundary()
    ensures EngineValue(Step(OneMachine(false).(position := Point(0.0, 99.0)), MouseUp), MouseRelease) == Some(Bool(false))
    ensures EngineValue(Step(OneMachine(false).(position := Point(0.0, 100.0)), MouseUp), MouseRelease) == Some(Bool(true))
  {
    ReleaseFromFalseAt(99.0);
    ReleaseFromFalseAt(100.0);
  }
}
