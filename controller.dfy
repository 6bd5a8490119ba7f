/**
 * The edge-triggered decisions of Update (MapToDesigner.cs lines 72-158):
 * which actions one frame performs, and in which order, given the three
 * polled flags, their values on the previous frame, AutosaveMap and whether
 * a live backdrop exists. The class in Designer carries the actions out.
 */
module Controller {

  /** What one frame can do. */
  datatype Action =
    | LoadSettings      // LoadMtdSettings
    | ShowButtons       // ButtonsParent active
    | ShowBackdrop      // backdrop, sky and water copies active
    | SetCameraFarClip  // every camera's far clip plane := BackdropRenderDistance
    | ApplyTransform    // backdrop at -offset, -angles; water at (0, -offset.y, 0)
    | HideBackdrop      // backdrop, sky and water copies inactive
    | HideButtons       // ButtonsParent inactive
    | SaveMap           // capture a new backdrop
    | SaveSettings      // SaveMtdSettings

  /** The actions that can throw and end the frame early. */
  predicate CanFail(a: Action)
  {
    a in {LoadSettings, ShowBackdrop, ApplyTransform, HideBackdrop, SaveMap, SaveSettings}
  }

  /** IsInLevel, IsInDesigner and IsPaused, as polled or as remembered. */
  datatype Flags = Flags(inLevel: bool, inDesigner: bool, paused: bool)

  /** Lines 77-81: entering a level loads settings. */
  function EntryPlan(prev: Flags, cur: Flags): seq<Action>
  {
    if !prev.inLevel && cur.inLevel then [LoadSettings] else []
  }

  /** Lines 85-114: in the designer. */
  function DesignerPlan(prev: Flags, hasBackdrop: bool): seq<Action>
  {
    (if !prev.inDesigner then [LoadSettings, ShowButtons] + (if hasBackdrop then [ShowBackdrop] else []) else [])
    + [SetCameraFarClip]
    + (if hasBackdrop then [ApplyTransform] else [])
  }

  /** Line 132: autosave is on and the game has just become paused. */
  predicate PauseStarts(prev: Flags, cur: Flags, autosave: bool)
  {
    autosave && !prev.paused && cur.paused
  }

  /** Lines 115-138: in the sandbox. */
  function SandboxPlan(prev: Flags, cur: Flags, autosave: bool, hasBackdrop: bool): seq<Action>
  {
    (if prev.inDesigner then (if hasBackdrop then [HideBackdrop] else []) + [HideButtons] else [])
    + (if PauseStarts(prev, cur, autosave) then [SaveMap] else [])
  }

  /** Lines 141-154: leaving a level saves settings and hides everything. */
  function ExitPlan(prev: Flags, cur: Flags, hasBackdrop: bool): seq<Action>
  {
    if prev.inLevel && !cur.inLevel then [SaveSettings] + (if hasBackdrop then [HideBackdrop] else []) + [HideButtons]
    else []
  }

  /** Everything one frame does when nothing throws. */
  function Plan(prev: Flags, cur: Flags, autosave: bool, hasBackdrop: bool): seq<Action>
  {
    EntryPlan(prev, cur)
    + (if cur.inLevel then (if cur.inDesigner then DesignerPlan(prev, hasBackdrop) else SandboxPlan(prev, cur, autosave, hasBackdrop))
       else [])
    + ExitPlan(prev, cur, hasBackdrop)
  }

  /**
   * Lines 137, 156-157: what the next frame compares against. The paused
   * flag is only remembered in the sandbox.
   */
  function Next(prev: Flags, cur: Flags): (r: Flags)
    ensures r.inLevel == cur.inLevel && r.inDesigner == cur.inDesigner
    ensures r.paused == if cur.inLevel && !cur.inDesigner then cur.paused else prev.paused
  {
    Flags(cur.inLevel, cur.inDesigner, if cur.inLevel && !cur.inDesigner then cur.paused else prev.paused)
  }

  // ---------------------------------------------------------------- lemmas

  /**
   * Settings are loaded exactly on entering a level and on entering the
   * designer in a level, the first of these before anything else; entering
   * both on one frame loads twice.
   */
  lemma LoadsOnEntry(prev: Flags, cur: Flags, autosave: bool, hasBackdrop: bool)
    ensures var p := Plan(prev, cur, autosave, hasBackdrop);
      && (LoadSettings in p <==> (!prev.inLevel && cur.inLevel) || (cur.inLevel && cur.inDesigner && !prev.inDesigner))
      && (!prev.inLevel && cur.inLevel ==> p[0] == LoadSettings)
      && (!prev.inLevel && cur.inLevel && cur.inDesigner && !prev.inDesigner ==> p[..2] == [LoadSettings, LoadSettings])
  {
  }

  /**
   * Leaving a level saves the settings, then hides the backdrop when there
   * is one, then hides the buttons, and does nothing else.
   */
  lemma SavesOnExit(prev: Flags, cur: Flags, autosave: bool, hasBackdrop: bool)
    ensures var p := Plan(prev, cur, autosave, hasBackdrop);
      && (SaveSettings in p <==> prev.inLevel && !cur.inLevel)
      && (prev.inLevel && !cur.inLevel ==>
            p == [SaveSettings] + (if hasBackdrop then [HideBackdrop] else []) + [HideButtons])
  {
  }

  /** The far clip planes are set on exactly the frames in a level and in the designer. */
  lemma CamerasInDesigner(prev: Flags, cur: Flags, autosave: bool, hasBackdrop: bool)
    ensures var p := Plan(prev, cur, autosave, hasBackdrop);
      && (SetCameraFarClip in p <==> cur.inLevel && cur.inDesigner)
      && (ApplyTransform in p <==> cur.inLevel && cur.inDesigner && hasBackdrop)
  {
  }

  /**
   * A capture happens only in the sandbox of a level, with autosave on, on
   * the frame the game becomes paused.
   */
  lemma AutosaveGate(prev: Flags, cur: Flags, autosave: bool, hasBackdrop: bool)
    ensures SaveMap in Plan(prev, cur, autosave, hasBackdrop) <==>
      cur.inLevel && !cur.inDesigner && autosave && !prev.paused && cur.paused
  {
  }

  /**
   * The backdrop is shown on entering the designer and hidden on leaving it
   * or the level, and only when it exists; never both on one frame.
   */
  lemma VisibilityGuarded(prev: Flags, cur: Flags, autosave: bool, hasBackdrop: bool)
    ensures var p := Plan(prev, cur, autosave, hasBackdrop);
      && (ShowBackdrop in p <==> hasBackdrop && cur.inLevel && cur.inDesigner && !prev.inDesigner)
      && (HideBackdrop in p <==>
            hasBackdrop && ((cur.inLevel && !cur.inDesigner && prev.inDesigner) || (prev.inLevel && !cur.inLevel)))
      && !(ShowBackdrop in p && HideBackdrop in p)
      && !(ShowButtons in p && HideButtons in p)
  {
    if cur.inLevel && cur.inDesigner {
      PlanInDesigner(prev, cur, autosave, hasBackdrop);
    } else if cur.inLevel {
      PlanInSandbox(prev, cur, autosave, hasBackdrop);
    } else {
      PlanOutside(prev, cur, autosave, hasBackdrop);
    }
  }

  /**
   * A frame whose flags match the remembered ones does nothing but, in the
   * designer, set the cameras and pose the backdrop.
   */
  lemma SteadyStateQuiet(prev: Flags, cur: Flags, autosave: bool, hasBackdrop: bool)
    requires prev == cur
    ensures Plan(prev, cur, autosave, hasBackdrop) ==
      if cur.inLevel && cur.inDesigner then [SetCameraFarClip] + (if hasBackdrop then [ApplyTransform] else [])
      else []
  {
  }

  /** The plan of a frame in the designer of a level. */
  lemma PlanInDesigner(prev: Flags, cur: Flags, autosave: bool, hasBackdrop: bool)
    requires cur.inLevel && cur.inDesigner
    ensures Plan(prev, cur, autosave, hasBackdrop) == EntryPlan(prev, cur) + DesignerPlan(prev, hasBackdrop)
  {
    assert ExitPlan(prev, cur, hasBackdrop) == [];
    assert EntryPlan(prev, cur) + DesignerPlan(prev, hasBackdrop) + [] == EntryPlan(prev, cur) + DesignerPlan(prev, hasBackdrop);
  }

  /** The plan of a frame in the sandbox of a level. */
  lemma PlanInSandbox(prev: Flags, cur: Flags, autosave: bool, hasBackdrop: bool)
    requires cur.inLevel && !cur.inDesigner
    ensures Plan(prev, cur, autosave, hasBackdrop) == EntryPlan(prev, cur) + SandboxPlan(prev, cur, autosave, hasBackdrop)
  {
    assert ExitPlan(prev, cur, hasBackdrop) == [];
    assert EntryPlan(prev, cur) + SandboxPlan(prev, cur, autosave, hasBackdrop) + []
        == EntryPlan(prev, cur) + SandboxPlan(prev, cur, autosave, hasBackdrop);
  }

  /** The plan of a frame outside a level. */
  lemma PlanOutside(prev: Flags, cur: Flags, autosave: bool, hasBackdrop: bool)
    requires !cur.inLevel
    ensures Plan(prev, cur, autosave, hasBackdrop) == ExitPlan(prev, cur, hasBackdrop)
  {
    assert EntryPlan(prev, cur) == [];
    assert [] + [] + ExitPlan(prev, cur, hasBackdrop) == ExitPlan(prev, cur, hasBackdrop);
  }

  /**
   * What a frame carried out against its plan: all of it, in order, when it
   * finished; otherwise the plan's first actions, in order, up to an action
   * that can throw and did.
   */
  predicate Reached(plan: seq<Action>, trace: seq<Action>, ok: bool)
  {
    if ok then trace == plan else |trace| < |plan| && trace == plan[..|trace|] && CanFail(plan[|trace|])
  }

  /** Finishing one part of a plan and then carrying out some of the next. */
  lemma ReachedAfter(first: seq<Action>, rest: seq<Action>, trace: seq<Action>, ok: bool)
    requires Reached(rest, trace, ok)
    ensures Reached(first + rest, first + trace, ok)
  {
    if !ok {
      assert (first + rest)[..|first + trace|] == first + rest[..|trace|];
      assert (first + rest)[|first| + |trace|] == rest[|trace|];
    }
  }

  /** A throw in one part of a plan ends the frame there. */
  lemma ThrewBefore(first: seq<Action>, rest: seq<Action>, trace: seq<Action>)
    requires Reached(first, trace, false)
    ensures Reached(first + rest, trace, false)
  {
    assert (first + rest)[..|trace|] == first[..|trace|];
    assert (first + rest)[|trace|] == first[|trace|];
  }

  /** The plans of a run of frames in which nothing throws. */
  function Run(prev: Flags, frames: seq<Flags>, autosave: bool, hasBackdrop: bool): (r: seq<seq<Action>>)
    ensures |r| == |frames|
    decreases |frames|
  {
    if frames == [] then []
    else [Plan(prev, frames[0], autosave, hasBackdrop)] + Run(Next(prev, frames[0]), frames[1..], autosave, hasBackdrop)
  }

  /**
   * Level flags F,T,T,T,F with designer flags F,F,T,F,F and no backdrop:
   * nothing, load, designer entry, designer exit, level exit.
   */
  lemma {:induction false} TransitionSequence()
    ensures Run(Flags(false, false, false),
                [Flags(false, false, false), Flags(true, false, false), Flags(true, true, false),
                 Flags(true, false, false), Flags(false, false, false)], true, false)
         == [[], [LoadSettings], [LoadSettings, ShowButtons, SetCameraFarClip], [HideButtons], [SaveSettings, HideButtons]]
  {
    var off, level, designer := Flags(false, false, false), Flags(true, false, false), Flags(true, true, false);
    var frames := [off, level, designer, level, off];
    assert Run(level, frames[4..], true, false) == [Plan(level, off, true, false)] + Run(off, [], true, false);
    assert Run(designer, frames[3..], true, false) == [Plan(designer, level, true, false)] + Run(level, frames[4..], true, false);
    assert Run(level, frames[2..], true, false) == [Plan(level, designer, true, false)] + Run(designer, frames[3..], true, false);
    assert Run(off, frames[1..], true, false) == [Plan(off, level, true, false)] + Run(level, frames[2..], true, false);
    assert Run(off, frames, true, false) == [Plan(off, off, true, false)] + Run(off, frames[1..], true, false);
    assert Plan(off, off, true, false) == [];
    assert Plan(off, level, true, false) == [LoadSettings];
    assert Plan(level, designer, true, false) == [LoadSettings, ShowButtons, SetCameraFarClip];
    assert Plan(designer, level, true, false) == [HideButtons];
    assert Plan(level, off, true, false) == [SaveSettings, HideButtons];
  }
}
