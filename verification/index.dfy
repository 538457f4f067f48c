/**
 * The landing page: the project lookup behind the displayed content, and
 * the 200 ms "Return to Top" scroll with its ease-in-out curve.
 */
module Index {
  import opened Reals
  import opened Wrappers
  import opened Seqs

  // ---------------------------------------------------------------------
  // Active project

  datatype Project = Project(id: string, title: string, description: string)

  /** The page's fixed project list. */
  const Projects: seq<Project> := [
    Project("rive-tester", "Rive Asset Tester",
            "Test your Rive animations and state machine interactions with various triggers and controls."),
    Project("font-color-samples", "Font & Color Samples",
            "View the style guide for typography and color usage.")
  ]

  /** `projects.find(p => p.id === active) || projects[0]`. */
  function CurrentProject(projects: seq<Project>, active: string): (r: Project)
    requires |projects| > 0
    ensures r in projects
    ensures (exists i :: 0 <= i < |projects| && projects[i].id == active) ==> r.id == active
    ensures (forall i :: 0 <= i < |projects| ==> projects[i].id != active) ==> r == projects[0]
    ensures forall i :: 0 <= i < |projects| && projects[i].id == active ==>
              exists k :: 0 <= k <= i && projects[k] == r && forall j :: 0 <= j < k ==> projects[j].id != active
  {
    match FindFirst(projects, (p: Project) => p.id == active)
    case Some(i) => projects[i]
    case None => projects[0]
  }

  /** On this page: each id selects its own project, and an unknown id falls back to the first. */
  lemma PageProjects(unknown: string)
    requires unknown != "rive-tester" && unknown != "font-color-samples"
    ensures CurrentProject(Projects, Projects[0].id) == Projects[0]
    ensures CurrentProject(Projects, "font-color-samples") == Projects[1]
    ensures CurrentProject(Projects, unknown) == Projects[0]
  {
    assert Projects[0].id != "font-color-samples" by {
      assert Projects[0].id[0] == 'r';
    }
  }

  // ---------------------------------------------------------------------
  // Return to Top

  const ScrollDuration: real := 200.0

  /** The curve's first half, `2t²`. */
  function EaseInHalf(t: real): real {
    2.0 * t * t
  }

  /** The curve's second half, `-1 + (4 - 2t)t`. */
  function EaseOutHalf(t: real): real {
    -1.0 + (4.0 - 2.0 * t) * t
  }

  /** `easeInOut`. */
  function EaseInOut(t: real): (r: real)
    ensures t == 0.0 ==> r == 0.0
    ensures t == 0.5 ==> r == 0.5
    ensures t == 1.0 ==> r == 1.0
  {
    if t < 0.5 then EaseInHalf(t) else EaseOutHalf(t)
  }

  lemma EaseInOutEndpoints()
    ensures EaseInOut(0.0) == 0.0
    ensures EaseInOut(1.0) == 1.0
  {
  }

  /** Both halves meet at t = 0.5 with value 0.5, so the curve has no jump there. */
  lemma EaseInOutContinuous()
    ensures EaseInHalf(0.5) == 0.5 && EaseOutHalf(0.5) == 0.5
    ensures EaseInOut(0.5) == 0.5
  {
  }

  /** The second half mirrors the first: `1 - 2(1 - t)²`. */
  lemma EaseOutHalfMirrorsIn(t: real)
    ensures EaseOutHalf(t) == 1.0 - EaseInHalf(1.0 - t)
  {
  }

  /** The curve is point-symmetric about (0.5, 0.5). */
  lemma EaseInOutSymmetric(t: real)
    requires 0.0 <= t <= 1.0
    ensures EaseInOut(1.0 - t) == 1.0 - EaseInOut(t)
  {
    EaseOutHalfMirrorsIn(t);
    EaseOutHalfMirrorsIn(1.0 - t);
  }

  lemma SquareMonotone(a: real, b: real)
    requires 0.0 <= a <= b
    ensures a * a <= b * b
  {
    assert 0.0 <= a * (b - a);
    assert 0.0 <= b * (b - a);
  }

  /** On [0, 1] the curve stays in [0, 1]. */
  lemma EaseInOutBounded(t: real)
    requires 0.0 <= t <= 1.0
    ensures 0.0 <= EaseInOut(t) <= 1.0
  {
    if t < 0.5 {
      SquareMonotone(t, 0.5);
      assert 0.0 <= t * t;
    } else {
      EaseOutHalfMirrorsIn(t);
      SquareMonotone(1.0 - t, 0.5);
      assert 0.0 <= (1.0 - t) * (1.0 - t);
    }
  }

  /** On [0, 1] the curve never decreases. */
  lemma EaseInOutMonotone(t1: real, t2: real)
    requires 0.0 <= t1 <= t2 <= 1.0
    ensures EaseInOut(t1) <= EaseInOut(t2)
  {
    EaseOutHalfMirrorsIn(t1);
    EaseOutHalfMirrorsIn(t2);
    if t2 < 0.5 {
      SquareMonotone(t1, t2);
    } else if t1 >= 0.5 {
      SquareMonotone(1.0 - t2, 1.0 - t1);
    } else {
      SquareMonotone(t1, 0.5);
      SquareMonotone(1.0 - t2, 0.5);
    }
  }

  /** What one scroll frame does: where it scrolls to and whether it asks for another frame. */
  datatype ScrollFrame = ScrollFrame(target: real, requestNext: bool)

  /** `Math.min(elapsed / 200, 1)`. */
  function ScrollProgress(elapsed: real): (p: real)
    ensures p <= 1.0
    ensures elapsed >= 0.0 ==> 0.0 <= p
    ensures p == 1.0 <==> elapsed >= ScrollDuration
  {
    Min(elapsed / ScrollDuration, 1.0)
  }

  /** The position a frame scrolls to: `start * (1 - easeInOut(progress))`. */
  function ScrollTarget(start: real, elapsed: real): real {
    start * (1.0 - EaseInOut(ScrollProgress(elapsed)))
  }

  /** `animateScroll`, `elapsed` time units after the click, from scroll position `start`. */
  function AnimateScroll(start: real, elapsed: real): (f: ScrollFrame)
    ensures f.requestNext <==> elapsed < ScrollDuration
    ensures elapsed == 0.0 ==> f.target == start
    ensures elapsed >= ScrollDuration ==> f.target == 0.0
  {
    ScrollFrame(ScrollTarget(start, elapsed), ScrollProgress(elapsed) < 1.0)
  }

  /**
   * Every frame scrolls within [0, start]; frames are requested exactly
   * while less than 200 have elapsed, and the last one lands on 0.
   */
  lemma ScrollFrameBounded(start: real, elapsed: real)
    requires start >= 0.0 && elapsed >= 0.0
    ensures var f := AnimateScroll(start, elapsed);
      && 0.0 <= f.target <= start
      && (f.requestNext <==> elapsed < ScrollDuration)
      && (!f.requestNext ==> f.target == 0.0)
  {
    var e := EaseInOut(ScrollProgress(elapsed));
    EaseInOutBounded(ScrollProgress(elapsed));
    assert 0.0 <= 1.0 - e <= 1.0;
    assert start * (1.0 - e) <= start * 1.0;
    assert 0.0 <= start * (1.0 - e);
  }

  /** Later frames never scroll back down. */
  lemma ScrollNonIncreasing(start: real, e1: real, e2: real)
    requires start >= 0.0 && 0.0 <= e1 <= e2
    ensures AnimateScroll(start, e2).target <= AnimateScroll(start, e1).target
  {
    var p1, p2 := ScrollProgress(e1), ScrollProgress(e2);
    EaseInOutMonotone(p1, p2);
    ScaleMonotone(start, 1.0 - EaseInOut(p2), 1.0 - EaseInOut(p1));
    assert ScrollTarget(start, e2) <= ScrollTarget(start, e1);
  }
}
