/**
 * The drag / drop / zoom controller of the Rive tester page, as a pure
 * state machine: `Step(state, event)` is what one handler call does to the
 * component state and to the Rive instance it writes to.
 */
module RiveTester {
  import opened Reals
  import opened Wrappers
  import opened Engine
  import opened FileUpload
  import Zoom
  import SpringBack

  datatype Point = Point(x: real, y: real)

  const Origin: Point := Point(0.0, 0.0)

  /** The boolean state-machine input the drop gesture drives. */
  const MouseRelease: string := "MouseRelease"

  /** A drop at least this far down switches a false `MouseRelease` on. */
  const DropThreshold: real := 100.0

  const DefaultFileUrl: string := "/default.riv"

  /**
   * The component state. `tween` holds the start offset of the running
   * spring-back, if any; `rive` is the loaded Rive instance, whose inputs
   * the handlers write.
   */
  datatype Tester = Tester(
    selectedFile: Option<File>,
    fileUrl: Option<string>,
    animations: seq<string>,
    stateMachines: seq<string>,
    listedInputs: seq<Input>,
    selectedMachine: Option<string>,
    inputValues: map<string, Value>,
    testToggle: bool,
    isDragging: bool,
    position: Point,
    zoom: real,
    dragStart: Point,
    isAnimating: bool,
    lastDrop: Point,
    tween: Option<real>,
    rive: Option<Rive>)

  /** The state on first render, before any Rive instance exists. */
  function Initial(): Tester {
    Tester(None, Some(DefaultFileUrl), [], [], [], None, map[], false,
           false, Origin, 1.0, Origin, false, Origin, None, None)
  }

  datatype Event =
    | MouseDown(button: int, clientX: real, clientY: real)
    | MouseMove(clientX: real, clientY: real)
    | MouseUp
    | MouseLeave
    | TouchStart(touches: seq<Point>)
    | TouchMove(touches: seq<Point>)
    | TouchEnd
    | WheelTurn(deltaY: real)
    | ZoomInClick
    | ZoomOutClick
    | ResetClick
    | DoubleClick
    | FileChosen(file: Option<File>, url: string)
    | InputChanged(name: string, value: Value)
    | RefreshClick
    | Frame(elapsed: real)

  // ---------------------------------------------------------------------
  // The Rive instance as the handlers reach it

  /** `rive && selectedStateMachine`: an instance exists and a non-empty machine name is selected. */
  predicate Ready(s: Tester) {
    s.rive.Some? && s.selectedMachine.Some? && s.selectedMachine.value != ""
  }

  /** The input list of the selected state machine, when the handlers can reach one. */
  function SelectedInputs(s: Tester): Option<seq<Input>> {
    if Ready(s) then MachineInputs(s.rive.value, s.selectedMachine.value) else None
  }

  /** The engine's own value of the named input of the selected machine, found as `find` finds it. */
  function EngineValue(s: Tester, name: string): Option<Value> {
    match SelectedInputs(s)
    case None => None
    case Some(ins) =>
      match FindInput(ins, name)
      case None => None
      case Some(i) => Some(ins[i].value)
  }

  /** `inputValues.MouseRelease`: a missing entry reads as `undefined`. */
  function CachedMouseRelease(s: Tester): Value {
    if MouseRelease in s.inputValues then s.inputValues[MouseRelease] else Undefined
  }

  /**
   * `r` holds the engine of `s` with at most the named input of the selected
   * machine rewritten: every other name reads the same value, every machine
   * keeps its inputs' names and kinds, and machines other than the selected
   * one are unchanged.
   */
  ghost predicate OnlyInputChanged(s: Tester, r: Tester, name: string) {
    && r.selectedMachine == s.selectedMachine
    && r.rive.Some? == s.rive.Some?
    && (forall n :: n != name ==> EngineValue(r, n) == EngineValue(s, n))
    && (s.rive.Some? ==> r.rive.value.machines.Keys == s.rive.value.machines.Keys)
    && (s.rive.Some? ==> forall m :: m in s.rive.value.machines ==>
          SameShape(s.rive.value.machines[m], r.rive.value.machines[m])
          && (Some(m) != s.selectedMachine ==> r.rive.value.machines[m] == s.rive.value.machines[m]))
  }

  lemma OnlyInputChangedReflexive(s: Tester, name: string)
    ensures OnlyInputChanged(s, s, name)
  {
    if s.rive.Some? {
      forall m | m in s.rive.value.machines
        ensures SameShape(s.rive.value.machines[m], s.rive.value.machines[m])
      {
      }
    }
  }

  /** The engine frame ignores every field but the instance and the selection. */
  lemma OnlyInputChangedTransfer(s: Tester, s2: Tester, r: Tester, r2: Tester, name: string)
    requires s2.rive == s.rive && s2.selectedMachine == s.selectedMachine
    requires r2.rive == r.rive && r2.selectedMachine == r.selectedMachine
    requires OnlyInputChanged(s2, r, name)
    ensures OnlyInputChanged(s, r2, name)
  {
    assert SelectedInputs(s2) == SelectedInputs(s);
    assert SelectedInputs(r2) == SelectedInputs(r);
    forall n | n != name
      ensures EngineValue(r2, n) == EngineValue(s, n)
    {
      assert EngineValue(r2, n) == EngineValue(r, n);
      assert EngineValue(s2, n) == EngineValue(s, n);
    }
  }

  /**
   * Writes `v` to the named input of the selected machine and the same value
   * into the cache; does nothing when there is no instance, no selected
   * machine or no such input. Every other input, of this machine or of any
   * other, keeps its value.
   */
  function Store(s: Tester, name: string, v: Value): (r: Tester)
    ensures EngineValue(s, name).Some? ==> EngineValue(r, name) == Some(v) && r.inputValues == s.inputValues[name := v]
    ensures EngineValue(s, name).None? ==> r == s
    ensures OnlyInputChanged(s, r, name)
    ensures Ready(r) == Ready(s)
    ensures r == s.(rive := r.rive, inputValues := r.inputValues)
  {
    match SelectedInputs(s)
    case None => s
    case Some(ins) =>
      match FindInput(ins, name)
      case None => s
      case Some(i) =>
        var m := s.selectedMachine.value;
        var ins' := SetValue(ins, i, v);
        var r := s.(rive := Some(Rive(s.rive.value.machines[m := ins'])),
                    inputValues := s.inputValues[name := v]);
        assert SelectedInputs(r) == Some(ins');
        assert FindInput(ins', name) == Some(i) by {
          assert forall j :: 0 <= j < i ==> ins'[j].name == ins[j].name;
          FindInputFirstMatch(ins', name, i);
        }
        SetValueKeepsOtherLookups(ins, i, v);
        r
  }

  /** `triggerMouseRelease`: writes `!value` to the engine's MouseRelease and mirrors it in the cache. */
  function TriggerMouseRelease(s: Tester): (r: Tester)
    ensures EngineValue(s, MouseRelease).Some? ==>
              var before := EngineValue(s, MouseRelease).value;
              && EngineValue(r, MouseRelease) == Some(Bool(!Truthy(before)))
              && r.inputValues == s.inputValues[MouseRelease := Bool(!Truthy(before))]
    ensures EngineValue(s, MouseRelease).None? ==> r == s
    ensures OnlyInputChanged(s, r, MouseRelease)
    ensures r == s.(rive := r.rive, inputValues := r.inputValues)
  {
    match EngineValue(s, MouseRelease)
    case None => s
    case Some(v) => Store(s, MouseRelease, Not(v))
  }

  /** `updateInputValue`: the switch and slider path, writing one value to engine and cache. */
  function UpdateInputValue(s: Tester, name: string, v: Value): Tester {
    Store(s, name, v)
  }

  /** `refreshInputs`: re-reads the selected machine's inputs into the list and the cache. */
  function RefreshInputs(s: Tester): (r: Tester)
    ensures !Ready(s) ==> r == s
    ensures SelectedInputs(s).Some? ==>
              var ins := SelectedInputs(s).value;
              && r.listedInputs == ins
              && (forall i :: 0 <= i < |ins| ==> ins[i].name in r.inputValues)
              && (forall n :: n in r.inputValues ==> FindInput(ins, n).Some?)
    ensures Ready(s) && SelectedInputs(s).None? ==> r.listedInputs == [] && r.inputValues == map[]
    ensures r == s.(listedInputs := r.listedInputs, inputValues := r.inputValues)
  {
    if !Ready(s) then s
    else
      match SelectedInputs(s)
      case Some(ins) =>
        ValueRecordKeys(ins);
        if |ins| > 0 then s.(listedInputs := ins, inputValues := ValueRecord(ins))
        else s.(listedInputs := [], inputValues := map[])
      case None => s.(listedInputs := [], inputValues := map[])
  }

  // ---------------------------------------------------------------------
  // Pointer and touch handlers

  /** Starts a drag, remembering the pointer relative to the current offset. */
  function BeginDrag(s: Tester, pointer: Point): (r: Tester)
    ensures r.isDragging
    ensures r.dragStart.x + s.position.x == pointer.x && r.dragStart.y + s.position.y == pointer.y
    ensures r == s.(isDragging := true, dragStart := r.dragStart)
  {
    s.(isDragging := true,
       dragStart := Point(pointer.x - s.position.x, pointer.y - s.position.y))
  }

  /** Moves the canvas: x is locked to 0, y follows the pointer but never goes above 0. */
  function DragTo(s: Tester, clientY: real): (r: Tester)
    ensures r.position.x == 0.0 && r.position.y >= 0.0
    ensures r.position.y >= clientY - s.dragStart.y
    ensures r.position.y == 0.0 || r.position.y == clientY - s.dragStart.y
    ensures r == s.(position := r.position)
  {
    s.(position := Point(0.0, Max(0.0, clientY - s.dragStart.y)))
  }

  /** `animateToCenter`: starts the spring-back unless the offset is already 0. */
  function AnimateToCenter(s: Tester): (r: Tester)
    ensures s.position.y == 0.0 ==> r == s
    ensures s.position.y != 0.0 ==> r.isAnimating && r.tween == Some(s.position.y)
    ensures r == s.(isAnimating := r.isAnimating, tween := r.tween)
  {
    if s.position.y == 0.0 then s
    else s.(isAnimating := true, tween := Some(s.position.y))
  }

  /** Whether a release toggles `MouseRelease`: always when the cache holds a truthy value, else only for a drop of 100 or more. */
  predicate ReleaseFlips(s: Tester) {
    Truthy(CachedMouseRelease(s)) || s.position.y >= DropThreshold
  }

  /** `handleMouseUp` / `handleTouchEnd`; mouse-leave is wired to the same handler. */
  function HandleRelease(s: Tester): (r: Tester)
    ensures !r.isDragging && r.lastDrop == Point(0.0, s.position.y)
    ensures ReleaseFlips(s) && EngineValue(s, MouseRelease).Some? ==>
              var before := EngineValue(s, MouseRelease).value;
              && EngineValue(r, MouseRelease) == Some(Bool(!Truthy(before)))
              && r.inputValues == s.inputValues[MouseRelease := Bool(!Truthy(before))]
    ensures !ReleaseFlips(s) || EngineValue(s, MouseRelease).None? ==> r.rive == s.rive && r.inputValues == s.inputValues
    ensures OnlyInputChanged(s, r, MouseRelease)
    ensures s.position.y != 0.0 ==> r.isAnimating && r.tween == Some(s.position.y)
    ensures s.position.y == 0.0 ==> r.isAnimating == s.isAnimating && r.tween == s.tween
    ensures r == s.(isDragging := false, lastDrop := r.lastDrop, rive := r.rive, inputValues := r.inputValues,
                    isAnimating := r.isAnimating, tween := r.tween)
  {
    var dropY := s.position.y;
    var released := s.(isDragging := false, lastDrop := Point(0.0, dropY));
    assert EngineValue(released, MouseRelease) == EngineValue(s, MouseRelease);
    assert CachedMouseRelease(released) == CachedMouseRelease(s);
    var written :=
      if Truthy(CachedMouseRelease(released)) then TriggerMouseRelease(released)
      else if dropY >= DropThreshold then TriggerMouseRelease(released)
      else released;
    OnlyInputChangedReflexive(released, MouseRelease);
    OnlyInputChangedTransfer(s, released, written, AnimateToCenter(written), MouseRelease);
    AnimateToCenter(written)
  }

  /** One spring-back frame, `elapsed` time units after the tween started. */
  function HandleFrame(s: Tester, elapsed: real): (r: Tester)
    ensures s.tween.None? ==> r == s
    ensures s.tween.Some? ==> r.position.x == 0.0 && r.position.y >= 0.0
    ensures s.tween.Some? && elapsed < SpringBack.Duration ==>
              r.position.y == SpringBack.SpringY(s.tween.value, elapsed) && r.tween == s.tween && r.isAnimating == s.isAnimating
    ensures s.tween.Some? && elapsed >= SpringBack.Duration ==> r.position == Origin && !r.isAnimating && r.tween.None?
    ensures r == s.(position := r.position, isAnimating := r.isAnimating, tween := r.tween)
  {
    match s.tween
    case None => s
    case Some(startY) =>
      if SpringBack.MoreFrames(elapsed) then
        s.(position := Point(0.0, SpringBack.SpringY(startY, elapsed)))
      else
        s.(position := Origin, isAnimating := false, tween := None)
  }

  /** `resetView`: offset, zoom and last drop back to their defaults. */
  function ResetView(s: Tester): (r: Tester)
    ensures r.position == Origin && r.zoom == 1.0 && r.lastDrop == Origin
    ensures Zoom.InRange(r.zoom)
    ensures r == s.(position := r.position, zoom := r.zoom, lastDrop := r.lastDrop)
  {
    s.(position := Origin, zoom := 1.0, lastDrop := Origin)
  }

  /** `handleFileSelect`; `url` stands for the object URL the browser creates for the file. */
  function HandleFileSelect(s: Tester, file: Option<File>, url: string): (r: Tester)
    ensures r.selectedFile == file
    ensures file.Some? ==>
              && r.fileUrl == Some(url)
              && r.animations == [] && r.stateMachines == [] && r.listedInputs == [] && r.inputValues == map[]
              && !r.testToggle && r.position == Origin && r.zoom == 1.0 && r.lastDrop == Origin
              && r.selectedMachine.None? && !Ready(r) && EngineValue(r, MouseRelease).None?
              && r.rive == s.rive && r.isDragging == s.isDragging && r.dragStart == s.dragStart
              && r.isAnimating == s.isAnimating && r.tween == s.tween
    ensures file.None? ==> r.fileUrl.None? && r == s.(fileUrl := r.fileUrl, selectedFile := r.selectedFile)
  {
    match file
    case Some(f) =>
      s.(fileUrl := Some(url), selectedFile := Some(f),
         animations := [], stateMachines := [], listedInputs := [],
         selectedMachine := None, inputValues := map[], testToggle := false,
         position := Origin, zoom := 1.0, lastDrop := Origin)
    case None =>
      s.(fileUrl := None, selectedFile := None)
  }

  /** The tester's `onFileSelect` callback as driven by the upload card. */
  function Deliver(s: Tester, forward: Forward, url: string): Tester {
    match forward
    case NoCall => s
    case Select(file) => HandleFileSelect(s, file, url)
  }

  /** What one event does to the tester. */
  function Step(s: Tester, e: Event): Tester {
    match e
    case MouseDown(button, x, y) => if button == 0 then BeginDrag(s, Point(x, y)) else s
    case MouseMove(_, y) => if s.isDragging then DragTo(s, y) else s
    case MouseUp => HandleRelease(s)
    case MouseLeave => HandleRelease(s)
    case TouchStart(touches) => if |touches| == 1 then BeginDrag(s, touches[0]) else s
    case TouchMove(touches) => if s.isDragging && |touches| == 1 then DragTo(s, touches[0].y) else s
    case TouchEnd => HandleRelease(s)
    case WheelTurn(deltaY) => s.(zoom := Zoom.Wheel(s.zoom, deltaY))
    case ZoomInClick => s.(zoom := Zoom.ZoomInButton(s.zoom))
    case ZoomOutClick => s.(zoom := Zoom.ZoomOutButton(s.zoom))
    case ResetClick => ResetView(s)
    case DoubleClick => ResetView(s)
    case FileChosen(file, url) => HandleFileSelect(s, file, url)
    case InputChanged(name, v) => UpdateInputValue(s, name, v)
    case RefreshClick => RefreshInputs(s)
    case Frame(elapsed) => HandleFrame(s, elapsed)
  }

  /** A sequence of events, applied in order. */
  function Run(s: Tester, events: seq<Event>): Tester
    decreases |events|
  {
    if |events| == 0 then s else Run(Step(s, events[0]), events[1..])
  }
}
