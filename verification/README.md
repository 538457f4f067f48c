# Rive tester drag / drop / zoom controller — a Dafny model

This project models the interaction core of a browser demo for testing Rive
animation files. On the tester page the user drags the animation canvas
downwards. The drop drives the boolean state-machine input `MouseRelease`
under an asymmetric rule: a drop switches a true value off whatever its
height, and switches a false value on only from 100 units down. A cubic
ease-out spring-back then returns the canvas to the top. A clamped zoom, a
reset command and file loading complete the controller. Two smaller pieces
sit beside it: the upload card's `.riv` drop filter and its highlight flag,
and the landing page's "Return to Top" scroll with its project lookup.

The Rive runtime appears only as data (`Engine.Rive`). Each state machine is
an ordered list of named inputs holding values, with JavaScript truthiness.
The component is one immutable record (`RiveTester.Tester`), and every
handler is a pure function that `RiveTester.Step(state, event)` dispatches
to. That includes mouse, touch, wheel, buttons, file choice, input switches,
refresh and animation frames. A frame carries the time elapsed since its
tween started. Numbers are exact reals.

Modules: `Wrappers` (Option), `Seqs` (the first-match search behind
`Array.prototype.find`), `Engine`, `Zoom`, `SpringBack`, `RiveTester`,
`TesterProofs` (the properties of the tester and its invariant),
`FileUpload`, `Index`.

The central result is `TesterProofs.StepKeepsInv` / `RunKeepsInv`: every
event keeps an invariant. Under it, the offset has x = 0 and y ≥ 0, the zoom
lies in [0.6, 1.4], input names are unique, and the cached `inputValues`
mirror the selected machine's inputs. `ReleaseAfterAnyHistory` builds on it:
after any history, a release leaves cache and engine equal, both holding the
drop rule's outcome.

In these details the model follows the code:
- `resetView` resets the zoom to 1.
- Mouse-leave runs the mouse-up handler, so it can toggle `MouseRelease` without a drag.
- A new drag does not cancel a running spring-back. Its frames keep setting the offset.
- Loading a file does not clear `isDragging` or a running spring-back.
- The release rule reads the cached value, not the engine's. The engine write is a negation of the engine's own value.

## Model

| member | source | states |
|---|---|---|
| Engine.FindInput | src/components/RiveTester.tsx:122-124 | the index `find` returns holds the name and no earlier input does; none is returned exactly when no input has the name |
| Seqs.FindFirst | src/components/RiveTester.tsx:122-124 | the index `find` stops at satisfies the test and no earlier element does; there is none exactly when no element satisfies it (also behind src/pages/Index.tsx:27) |
| Engine.FindInputFirstMatch | src/components/RiveTester.tsx:428-430 | conversely, the first input carrying the name is the one found |
| Engine.FindInputSameShape | src/components/RiveTester.tsx:428-430 | `find` by name gives the same index on two lists with the same names in the same order, whatever their values |
| Engine.SetValue | src/components/RiveTester.tsx:432 | `input.value = value` replaces that input's value, keeps its name and kind, and leaves every other input as it was |
| Engine.SetValueKeepsNames | src/components/RiveTester.tsx:432 | a value write keeps all names, so unique names stay unique |
| Engine.SetValueKeepsOtherLookups | src/components/RiveTester.tsx:428-432 | after writing input i, every lookup of another name finds the same index as before, and that index is not i |
| Engine.FindInputUnique | src/components/RiveTester.tsx:428-430 | with unique names, `find` returns an index exactly when that input has the name |
| Engine.NotFlipsTruthiness | src/components/RiveTester.tsx:126-128 | `!value` is a boolean of opposite truthiness, and negating twice gives the value's truthiness |
| Engine.ValueRecord | src/components/RiveTester.tsx:476-480 | the record built by `forEach` has every input name as a key, and an input no later input shadows keeps its own value |
| Engine.ValueRecordKeys | src/components/RiveTester.tsx:476-480 | the record built by `forEach` has no keys besides the input names |
| Engine.ValueRecordUnique | src/components/RiveTester.tsx:476-480 | with unique names, the record holds every input's own value |
| Engine.DuplicateNamesDisagree | src/components/RiveTester.tsx:476-480 | with a repeated name, `find` sees the first input while the record keeps the last one's value, so the mirror needs unique names |
| RiveTester.Store | src/components/RiveTester.tsx:425-444 | when the input exists, the engine then reads the written value and the cache gains exactly that entry; otherwise nothing changes; every other input name reads the same engine value as before; every machine keeps its names and kinds, and machines other than the selected one are unchanged; no other field is touched |
| RiveTester.TriggerMouseRelease | src/components/RiveTester.tsx:119-138 | when the selected machine has a MouseRelease input, engine and cache both end up holding the boolean opposite of the engine's previous value; otherwise nothing changes; every other input reads as before, every machine keeps its input names and kinds, and machines other than the selected one are unchanged |
| RiveTester.HandleRelease | src/components/RiveTester.tsx:140-161 | release clears dragging and records (0, dropY); when the cache is truthy or dropY ≥ 100 and the input exists, engine and cache get the negation of the engine's value, else neither is written; no other input or machine of the engine changes; the spring-back starts from dropY unless dropY is 0 |
| RiveTester.AnimateToCenter | src/components/RiveTester.tsx:88-94 | at offset 0 nothing happens; otherwise the animating flag is set and a tween starts from the current offset; nothing else changes |
| RiveTester.HandleFrame | src/components/RiveTester.tsx:96-112 | without a tween nothing changes; with one, x = 0 and y ≥ 0; before 300 the offset follows the spring curve and the tween goes on; from 300 on the offset is (0, 0) and the tween ends |
| RiveTester.HandleFileSelect | src/components/RiveTester.tsx:44-64 | a file resets view, lists and cache and sets the selected machine to none, so no MouseRelease input is reachable, and keeps the instance, drag and tween; null clears only file and URL |
| RiveTester.RefreshInputs | src/components/RiveTester.tsx:461-496 | without an instance or a selected machine nothing changes; otherwise the list becomes the machine's inputs and the cache has exactly the input names as keys, or both are emptied when the machine is unknown |
| RiveTester.BeginDrag | src/components/RiveTester.tsx:67-75 | a press starts dragging with origin + offset = pointer, changing nothing else |
| RiveTester.DragTo | src/components/RiveTester.tsx:77-85 | a drag move sets x = 0 and y = max(0, pointerY − origin.y), changing nothing else |
| RiveTester.ResetView | src/components/RiveTester.tsx:219-223 | reset puts offset and last drop at (0, 0) and zoom at 1, inside the zoom range, and changes nothing else |
| TesterProofs.MouseDownNeedsPrimaryButton | src/components/RiveTester.tsx:67-75 | only button 0 starts a drag, with origin = pointer − offset; other buttons change nothing |
| TesterProofs.TouchStartIsPrimaryPress | src/components/RiveTester.tsx:164-173 | exactly one touch starts a drag as a primary press would; any other count changes nothing |
| TesterProofs.MoveFollowsPointer | src/components/RiveTester.tsx:77-85 | moves apply only while dragging; then x = 0 and y = max(0, pointerY − origin.y) ≥ 0, nothing else changes |
| TesterProofs.TouchMoveIsMouseMove | src/components/RiveTester.tsx:175-185 | a touch move acts as a mouse move only while dragging with exactly one touch, else changes nothing |
| TesterProofs.PressThenMoveInPlace | src/components/RiveTester.tsx:67-85 | pressing and moving back to the same pointer height leaves the offset unchanged |
| TesterProofs.ReleaseEventsShareHandler | src/components/RiveTester.tsx:621-628 | mouse-up, mouse-leave and touch-end all run the one release handler |
| TesterProofs.PressRunsBeginDrag | src/components/RiveTester.tsx:67-75 | a primary-button press at (x, y) is the drag start with pointer (x, y) |
| TesterProofs.MoveRunsDragTo | src/components/RiveTester.tsx:77-85 | while dragging, a mouse move is the drag move to the pointer height |
| TesterProofs.PressAndDrag | src/components/RiveTester.tsx:67-85 | from rest at the origin, a press at (0, 0) and a move to height y ≥ 0 put the canvas at (0, y) and leave instance, selection and cache as they were |
| TesterProofs.ReleaseFollowsDropRule | src/components/RiveTester.tsx:140-161 | release clears dragging and records (0, dropY); it toggles engine and cache exactly when the cache is truthy or dropY ≥ 100 and the input exists, else writes nothing; no other input or machine of the engine changes; it starts the spring-back only when dropY ≠ 0 |
| TesterProofs.ReleaseKeepsCache | src/components/RiveTester.tsx:119-161 | if cache = engine before a release, they are equal after it, and the value is false after a truthy one, true after a falsy one for dropY ≥ 100, unchanged otherwise |
| TesterProofs.ReleaseWithoutInputWritesNothing | src/components/RiveTester.tsx:119-138 | with no instance, no selected machine or no MouseRelease input, a release leaves engine and cache untouched |
| TesterProofs.LeaveWithoutDragFlips | src/components/RiveTester.tsx:140-161 | mouse-leave shares the release handler (wired at line 624) and ignores `isDragging`, so leaving with MouseRelease true switches it off without any drag |
| TesterProofs.ScenarioDropAt150 | src/components/RiveTester.tsx:67-161 | press at 0, drag to 150 and release: the input becomes true from false and false from true, the drop is recorded at 150, and the frame at 300 returns to 0 |
| TesterProofs.PressAndDragTo150 | src/components/RiveTester.tsx:67-85 | pressing at 0 and dragging to 150 puts the canvas at (0, 150) and leaves the machine and cache untouched |
| TesterProofs.ReleaseAt150 | src/components/RiveTester.tsx:140-161 | releasing at 150 with MouseRelease holding a value in engine and cache flips it in both, records the drop at 150, starts the tween from 150, and its frame at 300 rests at (0, 0) |
| TesterProofs.ScenarioThresholdBoundary | src/components/RiveTester.tsx:153-156 | from false, a drop at 99 leaves the input false and one at 100 sets it true: the threshold is inclusive |
| TesterProofs.ReleaseFromFalseAt | src/components/RiveTester.tsx:146-156 | from false, a mouse-up at height y leaves the input true exactly when y ≥ 100 |
| TesterProofs.FrameWithoutTween | src/components/RiveTester.tsx:88-89 | with no spring-back running (the offset was 0 at release), frames change nothing |
| TesterProofs.FrameRunsHandler | src/components/RiveTester.tsx:96-112 | a frame event is the frame callback of the running tween |
| TesterProofs.SpringBackStartsAndEnds | src/components/RiveTester.tsx:88-112 | the tween started from a drop at y > 0 first sets the offset back to the drop position and from elapsed 300 on rests at (0, 0) |
| TesterProofs.FrameBounded | src/components/RiveTester.tsx:96-112 | for elapsed ≥ 0 a frame keeps x = 0 and y within [0, startY]; at 300 or later y snaps to exactly 0 and `isAnimating` clears, before that the tween continues |
| TesterProofs.FramesNonIncreasing | src/components/RiveTester.tsx:96-108 | a later frame never raises the offset set by an earlier one |
| TesterProofs.ZoomEventsOnlyChangeZoom | src/components/RiveTester.tsx:210-231 | wheel and zoom buttons change only the zoom, keep it within [0.6, 1.4], and the buttons act as the clamped step |
| TesterProofs.ResetViewIdempotent | src/components/RiveTester.tsx:219-235 | reset sets offset (0,0), zoom 1 and last drop (0,0), changes nothing else, is idempotent, and double-click does the same |
| TesterProofs.NewFileResets | src/components/RiveTester.tsx:44-59 | a new file resets view and last drop, clears lists and cache and deselects the machine, so MouseRelease writes are skipped; the drag flag and spring-back stay |
| TesterProofs.NullFileClearsOnlyFile | src/components/RiveTester.tsx:60-63 | a null file clears only the file URL and the selected file |
| TesterProofs.RejectedDropChangesNothing | src/components/FileUpload.tsx:30-35 | a drop the upload card refuses leaves the tester state unchanged |
| TesterProofs.AcceptedDropLoadsFirstFile | src/components/FileUpload.tsx:30-34 | an accepted drop loads the first dropped file into the tester |
| TesterProofs.RemoveFileClearsFile | src/components/FileUpload.tsx:44-46 | removing the file reaches the tester as the null-file case |
| TesterProofs.MirroredCache | src/components/RiveTester.tsx:146-147 | under the invariant, the cached MouseRelease read by the release rule equals the engine's value |
| TesterProofs.StoreKeepsInv | src/components/RiveTester.tsx:425-444 | a mirrored input write keeps the invariant: every other input's cache entry is left correct |
| TesterProofs.ViewChangeKeepsInv | src/components/RiveTester.tsx:67-112 | a change that keeps the instance, selection and cache, with x = 0, y ≥ 0 and the zoom in range, keeps the invariant |
| TesterProofs.GestureKeepsInv | src/components/RiveTester.tsx:67-235 | pointer, touch, wheel, zoom-button and reset events keep the invariant |
| TesterProofs.FrameKeepsInv | src/components/RiveTester.tsx:96-112 | a spring-back frame keeps the invariant |
| TesterProofs.FileChosenKeepsInv | src/components/RiveTester.tsx:44-64 | choosing a file, or none, keeps the invariant |
| TesterProofs.RefreshRepairsMirror | src/components/RiveTester.tsx:461-496 | from any cache, however stale, a refresh with unique input names leaves every input of the selected machine with its own value in the cache |
| TesterProofs.RefreshKeepsInv | src/components/RiveTester.tsx:461-496 | refreshing the inputs keeps the invariant |
| TesterProofs.ReleaseKeepsInv | src/components/RiveTester.tsx:140-161 | a release, with or without the toggle, keeps the invariant |
| TesterProofs.StepKeepsInv | src/components/RiveTester.tsx:44-235 | every handler keeps x = 0, y ≥ 0, the zoom in range, unique input names and the cache mirror |
| TesterProofs.RunKeepsInv | src/components/RiveTester.tsx:44-235 | any sequence of events keeps the invariant |
| TesterProofs.InitialInv | src/components/RiveTester.tsx:23-40 | the first-render state satisfies the invariant |
| TesterProofs.ReleaseAfterAnyHistory | src/components/RiveTester.tsx:119-161 | after any history from an invariant state, a release leaves cache = engine, true exactly when it was falsy and dropY ≥ 100 |
| Zoom.ZoomIn | src/components/RiveTester.tsx:225-227 | zoom-in never exceeds 1.4, never lowers a zoom at or below 1.4, keeps the range, and reaches 1.4 exactly when the step would reach or pass it |
| Zoom.ZoomOut | src/components/RiveTester.tsx:229-231 | zoom-out never goes below 0.6, never raises a zoom at or above 0.6, keeps the range, and reaches 0.6 exactly when the step would reach or pass it |
| Zoom.Wheel | src/components/RiveTester.tsx:210-217 | a positive deltaY zooms out, any other deltaY (zero included) zooms in, and the range is kept |
| Zoom.ZoomInButton | src/components/RiveTester.tsx:658-666 | a click changes the zoom exactly when it is below 1.4 (the button is disabled from 1.4 on); it then rises or stops at 1.4, never passes it, and keeps the range |
| Zoom.ZoomOutButton | src/components/RiveTester.tsx:669-677 | a click changes the zoom exactly when it is above 0.6 (the button is disabled from 0.6 down); it then falls or stops at 0.6, never passes it, and keeps the range |
| Zoom.ButtonsAgreeWithClamp | src/components/RiveTester.tsx:658-674 | within the range, disabling the buttons at the bounds gives the same zoom as the clamp |
| Zoom.ZoomInTimesClamps | src/components/RiveTester.tsx:225-227 | n zoom-ins from z ≤ 1.4 give min(1.4, z + 0.1·n) |
| Zoom.ZoomOutTimesClamps | src/components/RiveTester.tsx:229-231 | n zoom-outs from z ≥ 0.6 give max(0.6, z − 0.1·n) |
| Zoom.ClicksFromOne | src/components/RiveTester.tsx:225-231 | from 1.0, any number of clicks either way stays inside [0.6, 1.4], and the zoom sits at 1.4 (or 0.6) exactly when at least four clicks were made |
| SpringBack.Progress | src/components/RiveTester.tsx:97-98 | progress is at most 1, non-negative for elapsed ≥ 0, and equals 1 exactly from elapsed 300 on |
| SpringBack.SpringY | src/components/RiveTester.tsx:96-105 | the frame offset is never negative, equals the drop offset at elapsed 0, and is 0 from elapsed 300 on |
| SpringBack.SpringYIsScaledCube | src/components/RiveTester.tsx:98-105 | the offset is max(0, startY·(1 − p)³): the ease-out leaves the cube of the remaining progress |
| SpringBack.SpringStartsAtDrop | src/components/RiveTester.tsx:96-105 | at elapsed 0 the tween sits at the drop offset |
| SpringBack.SpringEndsAtZero | src/components/RiveTester.tsx:103-112 | from elapsed 300 on the offset is exactly 0 and no further frame is requested |
| SpringBack.MoreFramesBeforeDuration | src/components/RiveTester.tsx:107-108 | another frame is requested exactly while elapsed < 300 |
| SpringBack.SpringBounded | src/components/RiveTester.tsx:98-105 | for elapsed ≥ 0 the offset max(0, startY·(1−p)³) lies within [0, startY] |
| SpringBack.SpringMonotone | src/components/RiveTester.tsx:98-105 | the offset is non-increasing in elapsed time |
| SpringBack.SpringStrictlyDecreasing | src/components/RiveTester.tsx:98-105 | for a positive drop, the offset strictly decreases over [0, 300] |
| SpringBack.SpringOvershootsBeforeStart | src/components/RiveTester.tsx:97-105 | a frame time before the start time (negative elapsed) puts the offset above the drop height; the code only guards the lower bound |
| FileUpload.EndsWithMeansSplit | src/components/FileUpload.tsx:32 | `endsWith(suffix)` holds exactly when the name is some prefix followed by the suffix |
| FileUpload.HandleDrag | src/components/FileUpload.tsx:15-23 | dragenter and dragover set the highlight, dragleave clears it, any other event type leaves it |
| FileUpload.DragFoldUndecided | src/components/FileUpload.tsx:15-23 | a run of drag events with no dragenter, dragover or dragleave leaves the highlight where it was |
| FileUpload.DragFoldLastDecides | src/components/FileUpload.tsx:15-23 | after any run of drag events the last dragenter, dragover or dragleave decides the highlight (on, on, off), whatever came before |
| FileUpload.HandleDrop | src/components/FileUpload.tsx:25-36 | a drop always clears the highlight and forwards a file exactly when the first file's name ends in ".riv", that file |
| FileUpload.DropLooksOnlyAtFirst | src/components/FileUpload.tsx:30-31 | drops that agree on the first file behave identically |
| FileUpload.HandleFileInput | src/components/FileUpload.tsx:38-42 | the picker forwards its first file when there is one, with no extension check, and nothing otherwise |
| FileUpload.PickerAcceptsWhatDropAccepts | src/components/FileUpload.tsx:25-42 | whenever the drop zone forwards a file, the picker given the same files forwards the same file |
| FileUpload.PickerSkipsExtensionCheck | src/components/FileUpload.tsx:30-42 | a `.txt` file is refused by the drop zone but forwarded by the picker |
| FileUpload.RemoveFile | src/components/FileUpload.tsx:44-46 | removing the file calls the callback with null |
| Index.CurrentProject | src/pages/Index.tsx:27 | the result is in the list; it is the first project whose id matches when one does, and the first project otherwise |
| Index.PageProjects | src/pages/Index.tsx:10-27 | on the page's list each id selects its own project and an unknown id falls back to the tester |
| Index.EaseInOut | src/pages/Index.tsx:96-100 | the curve starts at 0, passes 0.5 at t = 0.5 and ends at 1 |
| Index.EaseInOutEndpoints | src/pages/Index.tsx:96-100 | easeInOut(0) = 0 and easeInOut(1) = 1 |
| Index.EaseInOutContinuous | src/pages/Index.tsx:97-99 | both branches give 0.5 at t = 0.5, so the curve has no jump |
| Index.EaseOutHalfMirrorsIn | src/pages/Index.tsx:97-99 | the second branch is 1 − 2(1 − t)², the mirror image of the first |
| Index.EaseInOutSymmetric | src/pages/Index.tsx:96-100 | on [0, 1] the curve is point-symmetric about (0.5, 0.5) |
| Index.EaseInOutBounded | src/pages/Index.tsx:96-100 | on [0, 1] the curve stays within [0, 1] |
| Index.EaseInOutMonotone | src/pages/Index.tsx:96-100 | on [0, 1] the curve is non-decreasing |
| Index.ScrollProgress | src/pages/Index.tsx:102-103 | progress is at most 1, non-negative for elapsed ≥ 0, and equals 1 exactly from elapsed 200 on |
| Index.AnimateScroll | src/pages/Index.tsx:101-109 | a frame is requested exactly while elapsed < 200; the first frame scrolls to the start position and from 200 on the target is 0 |
| Index.ScrollFrameBounded | src/pages/Index.tsx:101-108 | for start, elapsed ≥ 0 the target lies within [0, start]; a frame is requested exactly while elapsed < 200, and the last one targets 0 |
| Index.ScrollNonIncreasing | src/pages/Index.tsx:101-105 | later frames never scroll further from the top |

## Left out

- The Rive runtime beyond named input lists. Not modelled: `useRive`, play/pause/reset, `fire()` on triggers, and the content-extraction effects with their 100/200/1000 ms delays (src/components/RiveTester.tsx:237-423). These are foreign library calls. The Rive instance and the selected machine are state fields that those effects set.
- Changes the animation engine makes to its own inputs. The mirror invariant assumes that only the tester writes them.
- What `stateMachineInputs` does for an unknown machine name. The model treats it as "no input list": writes are skipped, as the caught exception would skip them, and a refresh clears the lists.
- `requestAnimationFrame`, `setTimeout` and `performance.now`. A frame is an explicit elapsed-time argument. A second release while a tween runs starts a second frame loop in the code, and the older loop keeps running. The model keeps only the latest tween.
- React's batching and stale closures. Events are applied one at a time to the latest state.
- IEEE-754 arithmetic. Values are exact reals, so repeated ±0.1 steps land exactly on 1.4 and 0.6, and `Zoom.ClicksFromOne` is a statement about exact reals. In doubles four zoom-ins from 1.0 still reach 1.4 through the clamp, but four zoom-outs give 0.6000000000000001, where the zoom-out button (`zoom <= 0.6`, src/components/RiveTester.tsx:672) stays enabled; the floor is reached on the fifth click. NaN truthiness and `Math.pow` rounding are out as well.
- `URL.createObjectURL`. The URL is an argument of the file event.
- Rendering: JSX, CSS transforms, debug readouts, console logging, sliders and number widgets, `preventDefault` / `stopPropagation`, and the `??` display fallback in `renderInputControl`.
- The speed effect (src/components/RiveTester.tsx:572-583). It writes the first machine's `Speed` input from the slider without touching the cache, so it can break the mirror for that input.
- The reset button's `rive.reset()` (src/components/RiveTester.tsx:396-400). It re-creates the runtime's state, inputs included, without re-reading the cache, so it can break the mirror.
- The fallback MouseRelease switch (src/components/RiveTester.tsx:911-924). It writes the engine's MouseRelease and never updates the cache, so it can break the mirror that the release rule reads.
- `playStateMachine` (src/components/RiveTester.tsx:413-418). It switches the selected machine while the cache still holds the old machine's values, until the delayed re-read (src/components/RiveTester.tsx:345-367) replaces it. No modelled event selects a machine, so the invariant does not cover this window.
- Loading the Rive instance. No modelled event sets `rive`, so `TesterProofs.ReleaseAfterAnyHistory` applies to start states in which the runtime has already supplied an instance and a selection satisfying the invariant.
- Input names are assumed unique within each state machine (`Engine.WellFormed`, part of the invariant). The code does not check this, and `Engine.DuplicateNamesDisagree` shows that the mirror fails without it.
- The sign-up demo page (src/pages/CreateAccount.tsx), the menu-button wrapper (src/components/AnimatedMenuButton.tsx) and the navigation and presentation components. They are presentation, a one-field form, or a thin wrapper over a Rive input.
