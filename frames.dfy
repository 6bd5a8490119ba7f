/**
 * Update (MapToDesigner.cs lines 72-158), one frame, stated on the values
 * of module Behaviour: each part of the frame gives the State it leaves,
 * the actions of Controller.Plan it carried out, in order, and whether it
 * finished. A part that throws ends the frame, so the later parts and
 * the bookkeeping of lines 137 and 156-157 do not run.
 *
 * Setting the cameras' far clip planes (lines 101-104) is counted as an
 * action here; the cameras themselves belong to the class in Designer.
 */
module Frames {
  import opened Maybe
  import opened Codec
  import opened Scene
  import opened Store
  import opened Behaviour
  import Controller

  /**
   * The state a part of a frame leaves, the actions it carried out, in
   * order, and whether it finished.
   */
  datatype Outcome = Outcome(state: State, trace: seq<Controller.Action>, ok: bool)

  /** The actions HideAll carries out when nothing throws. */
  function HidePlan(hasBackdrop: bool): seq<Controller.Action>
  {
    (if hasBackdrop then [Controller.HideBackdrop] else []) + [Controller.HideButtons]
  }

  /** Lines 88-99: entering the designer loads the settings and shows the buttons and the backdrop. */
  function EnterDesigner(m: State): Outcome
  {
    var (m1, loaded) := LoadMtdSettings(m);
    if !loaded then Outcome(m1, [], false)
    else
      var m2 := m1.(buttonsActive := true);
      var done := [Controller.LoadSettings, Controller.ShowButtons];
      if !Alive(m2, m2.backdrop) then Outcome(m2, done, true)
      else
        var (m3, shown) := SetBackdropActive(m2, true);
        Outcome(m3, done + (if shown then [Controller.ShowBackdrop] else []), shown)
  }

  /** Lines 87-99: the designer is entered only when it was not on the previous frame. */
  function DesignerEntry(m: State): Outcome
  {
    if !m.previous.inDesigner then EnterDesigner(m) else Outcome(m, [], true)
  }

  /** Lines 85-113: a frame in the designer. */
  function DesignerStep(m: State): Outcome
  {
    var entry := DesignerEntry(m);
    if !entry.ok then entry
    else
      var m1 := entry.state;
      var done := entry.trace + [Controller.SetCameraFarClip];
      if !Alive(m1, m1.backdrop) then Outcome(m1, done, true)
      else
        var (m2, posed) := Behaviour.ApplyTransform(m1);
        Outcome(m2, done + (if posed then [Controller.ApplyTransform] else []), posed)
  }

  /** Lines 121-129 and 145-152: the backdrop, when there is one, then the buttons are hidden. */
  function HideAll(m: State): Outcome
  {
    if !Alive(m, m.backdrop) then Outcome(m.(buttonsActive := false), [Controller.HideButtons], true)
    else
      var (m1, hidden) := SetBackdropActive(m, false);
      if !hidden then Outcome(m1, [], false)
      else Outcome(m1.(buttonsActive := false), [Controller.HideBackdrop, Controller.HideButtons], true)
  }

  /** Lines 132-135: a capture when autosave is on and the game has just been paused. */
  function AutosaveStep(m: State, view: SceneView): Outcome
  {
    if Controller.PauseStarts(m.previous, m.current, m.autosaveMap) then
      var (m1, saved) := Behaviour.SaveMap(m, view);
      Outcome(m1, if saved then [Controller.SaveMap] else [], saved)
    else Outcome(m, [], true)
  }

  /** Lines 119-137: a frame in the sandbox, after PausedCurrent was polled. */
  function SandboxStep(m: State, view: SceneView): Outcome
  {
    var exit := if m.previous.inDesigner then HideAll(m) else Outcome(m, [], true);
    if !exit.ok then exit
    else
      var save := AutosaveStep(exit.state, view);
      var s := save.state;
      if !save.ok then Outcome(s, exit.trace, false)
      else Outcome(s.(previous := s.previous.(paused := s.current.paused)), exit.trace + save.trace, true)
  }

  /** Lines 141-154: leaving a level saves the settings and hides everything. */
  function ExitStep(m: State): Outcome
  {
    var (m1, saved) := SaveMtdSettings(m);
    if !saved then Outcome(m1, [], false)
    else
      var hidden := HideAll(m1);
      Outcome(hidden.state, [Controller.SaveSettings] + hidden.trace, hidden.ok)
  }

  /** Lines 77-81: entering a level loads the settings. */
  function LevelEntry(m: State): Outcome
  {
    if !m.previous.inLevel && m.current.inLevel then
      var (m1, loaded) := LoadMtdSettings(m);
      Outcome(m1, if loaded then [Controller.LoadSettings] else [], loaded)
    else Outcome(m, [], true)
  }

  /** Lines 83-139: the designer or the sandbox; only the sandbox polls IsPaused. */
  function InLevel(m: State, paused: bool, view: SceneView): Outcome
  {
    if !m.current.inLevel then Outcome(m, [], true)
    else if m.current.inDesigner then DesignerStep(m)
    else SandboxStep(m.(current := m.current.(paused := paused)), view)
  }

  /** Lines 141-154, when the level has just been left. */
  function LevelExit(m: State): Outcome
  {
    if m.previous.inLevel && !m.current.inLevel then ExitStep(m) else Outcome(m, [], true)
  }

  /** Lines 77-139: entering the level, then the designer or the sandbox. */
  function Play(m: State, paused: bool, view: SceneView): Outcome
  {
    var a := LevelEntry(m);
    Then(a, InLevel(a.state, paused, view))
  }

  /**
   * Update (lines 72-158) with the polled IsInLevel, IsInDesigner and
   * IsPaused, and what the engine reports should a capture run.
   */
  function Update(m: State, polled: Controller.Flags, view: SceneView): Outcome
  {
    Commit(Run(m.(current := m.current.(inLevel := polled.inLevel, inDesigner := polled.inDesigner)), polled.paused, view))
  }

  /** Lines 77-154: what a frame does before it records the flags it polled. */
  function Run(m: State, paused: bool, view: SceneView): Outcome
  {
    var b := Play(m, paused, view);
    Then(b, LevelExit(b.state))
  }

  /** Lines 156-157: a frame that finished remembers the level and designer flags it polled. */
  function Commit(c: Outcome): (r: Outcome)
    ensures r.trace == c.trace && r.ok == c.ok
    ensures r.state == c.state.(previous := r.state.previous)
    ensures r.state.previous == if c.ok then c.state.current.(paused := c.state.previous.paused) else c.state.previous
  {
    var s := c.state;
    if c.ok then Outcome(s.(previous := s.previous.(inLevel := s.current.inLevel, inDesigner := s.current.inDesigner)), c.trace, true)
    else c
  }

  /** Whether a frame reaches the loop over the cameras (lines 101-104). */
  predicate ReachesCameras(m: State, polled: Controller.Flags)
  {
    var a := LevelEntry(m.(current := m.current.(inLevel := polled.inLevel, inDesigner := polled.inDesigner)));
    polled.inLevel && polled.inDesigner && a.ok && DesignerEntry(a.state).ok
  }

  /**
   * One part of a frame followed by the next, which is computed from the
   * state the first leaves: a throw in the first ends the frame there.
   */
  function Then(first: Outcome, next: Outcome): (r: Outcome)
    ensures !first.ok ==> r == first
    ensures first.ok ==> r.state == next.state && r.trace == first.trace + next.trace && r.ok == next.ok
  {
    if first.ok then Outcome(next.state, first.trace + next.trace, next.ok) else first
  }

  /** Running two parts in turn carries out their plans one after the other. */
  lemma ReachedThen(firstPlan: seq<Controller.Action>, nextPlan: seq<Controller.Action>, first: Outcome, next: Outcome)
    requires Controller.Reached(firstPlan, first.trace, first.ok)
    requires first.ok ==> Controller.Reached(nextPlan, next.trace, next.ok)
    ensures Controller.Reached(firstPlan + nextPlan, Then(first, next).trace, Then(first, next).ok)
  {
    if first.ok {
      Controller.ReachedAfter(firstPlan, nextPlan, next.trace, next.ok);
    } else {
      Controller.ThrewBefore(firstPlan, nextPlan, first.trace);
    }
  }

  // ---------------------------------------------------------------- the parts

  /** The settings file of the map a state is on decodes to the state's settings, or is missing and they are the defaults. */
  predicate LoadedFrom(m: State, r: State)
  {
    LoadResult(m.disk.files, SettingsPath(m.dataPath, m.mapName)) == Ok(CurrentSettings(r))
  }

  /**
   * Entering the designer carries out its actions up to the first throw;
   * when it finishes, the settings are the ones on disk, the buttons are
   * shown and so is a backdrop that exists.
   */
  lemma EnterDesignerShows(m: State)
    ensures var o := EnterDesigner(m);
      var r := o.state;
      && Controller.Reached([Controller.LoadSettings, Controller.ShowButtons]
                            + (if Alive(m, m.backdrop) then [Controller.ShowBackdrop] else []), o.trace, o.ok)
      && (o.ok ==> r.buttonsActive && LoadedFrom(m, r))
      && (o.ok && Alive(m, m.backdrop) ==> ShownAs(r, true))
  {
    LoadMatchesDecode(m);
    var m2 := LoadMtdSettings(m).0.(buttonsActive := true);
    if Alive(m2, m2.backdrop) {
      SetBackdropActiveShows(m2, true);
      SetBackdropActiveOnly(m2, true);
    }
  }

  /**
   * Entering the designer changes only the settings, the buttons and the
   * objects' own active flags.
   */
  lemma EnterDesignerOnly(m: State)
    ensures var r := EnterDesigner(m).state;
      && r == m.(offset := r.offset, angles := r.angles, renderDistance := r.renderDistance,
                 buttonsActive := r.buttonsActive, copies := r.copies)
      && r.copies.Keys == m.copies.Keys
      && FlagsOnly(m, r)
  {
    LoadMatchesDecode(m);
    FlagsOnlyRefl(m);
    var m2 := LoadMtdSettings(m).0.(buttonsActive := true);
    if Alive(m2, m2.backdrop) {
      SetBackdropActiveOnly(m2, true);
      SetBackdropActiveFlagsOnly(m2, true);
      FlagsOnlyTrans(m, m2, SetBackdropActive(m2, true).0);
    }
  }

  /**
   * A frame in the designer carries out DesignerPlan up to the first
   * throw; when it finishes, a backdrop that exists is posed, and on
   * entering the designer the settings are the ones on disk and the
   * buttons and the backdrop are shown. Staying in the designer neither
   * loads nor touches the buttons.
   */
  lemma DesignerStepPoses(m: State)
    ensures var o := DesignerStep(m);
      var r := o.state;
      && Controller.Reached(Controller.DesignerPlan(m.previous, Alive(m, m.backdrop)), o.trace, o.ok)
      && (o.ok && Alive(m, m.backdrop) ==> Posed(r))
      && (o.ok && !m.previous.inDesigner ==> r.buttonsActive && LoadedFrom(m, r))
      && (o.ok && !m.previous.inDesigner && Alive(m, m.backdrop) ==> ShownAs(r, true))
      && (m.previous.inDesigner ==> CurrentSettings(r) == CurrentSettings(m) && r.buttonsActive == m.buttonsActive)
  {
    var hasBackdrop := Alive(m, m.backdrop);
    var entryPlan := if !m.previous.inDesigner then [Controller.LoadSettings, Controller.ShowButtons]
      + (if hasBackdrop then [Controller.ShowBackdrop] else []) else [];
    var rest := [Controller.SetCameraFarClip] + (if hasBackdrop then [Controller.ApplyTransform] else []);
    assert Controller.DesignerPlan(m.previous, hasBackdrop) == entryPlan + rest;
    var entry := DesignerEntry(m);
    if !m.previous.inDesigner {
      EnterDesignerShows(m);
      EnterDesignerOnly(m);
    }
    if !entry.ok {
      Controller.ThrewBefore(entryPlan, rest, entry.trace);
    } else {
      var m1 := entry.state;
      var o := DesignerStep(m);
      if Alive(m1, m1.backdrop) {
        ApplyTransformPoses(m1);
        if Behaviour.ApplyTransform(m1).1 {
          assert ShownAs(m1, true) ==> ShownAs(o.state, true);
        }
      }
      var after := o.trace[|entry.trace|..];
      assert o.trace == entry.trace + after;
      Controller.ReachedAfter(entryPlan, rest, after, o.ok);
    }
  }

  /** A frame in the designer changes only the settings, the buttons and the objects' contents. */
  lemma DesignerStepOnly(m: State)
    ensures var r := DesignerStep(m).state;
      && r == m.(offset := r.offset, angles := r.angles, renderDistance := r.renderDistance,
                 buttonsActive := r.buttonsActive, copies := r.copies)
      && r.copies.Keys == m.copies.Keys
  {
    EnterDesignerOnly(m);
    var entry := DesignerEntry(m);
    if entry.ok && Alive(entry.state, entry.state.backdrop) {
      ApplyTransformPoses(entry.state);
    }
  }

  /**
   * Hiding carries out HidePlan up to the first throw; when it finishes,
   * the buttons and a backdrop that exists are hidden. It changes only the
   * buttons and the objects' flags.
   */
  lemma HideAllHides(m: State)
    ensures var o := HideAll(m);
      var r := o.state;
      && Controller.Reached(HidePlan(Alive(m, m.backdrop)), o.trace, o.ok)
      && (o.ok ==> !r.buttonsActive)
      && (o.ok && Alive(m, m.backdrop) ==> ShownAs(r, false))
      && r == m.(buttonsActive := r.buttonsActive, copies := r.copies)
      && r.copies.Keys == m.copies.Keys
  {
    if Alive(m, m.backdrop) {
      SetBackdropActiveShows(m, false);
      SetBackdropActiveOnly(m, false);
    }
  }

  /** A frame in the sandbox carries out SandboxPlan up to the first throw. */
  lemma SandboxStepReached(m: State, view: SceneView)
    ensures var o := SandboxStep(m, view);
      Controller.Reached(Controller.SandboxPlan(m.previous, m.current, m.autosaveMap, Alive(m, m.backdrop)), o.trace, o.ok)
  {
    var hasBackdrop := Alive(m, m.backdrop);
    var exitPlan := if m.previous.inDesigner then HidePlan(hasBackdrop) else [];
    var savePlan := if Controller.PauseStarts(m.previous, m.current, m.autosaveMap) then [Controller.SaveMap] else [];
    assert Controller.SandboxPlan(m.previous, m.current, m.autosaveMap, hasBackdrop) == exitPlan + savePlan;
    var exit := if m.previous.inDesigner then HideAll(m) else Outcome(m, [], true);
    HideAllHides(m);
    if !exit.ok {
      Controller.ThrewBefore(exitPlan, savePlan, exit.trace);
    } else {
      assert exit.state.previous == m.previous && exit.state.current == m.current && exit.state.autosaveMap == m.autosaveMap;
      var save := AutosaveStep(exit.state, view);
      assert Controller.Reached(savePlan, save.trace, save.ok);
      assert SandboxStep(m, view).trace == exit.trace + save.trace;
      Controller.ReachedAfter(exitPlan, savePlan, save.trace, save.ok);
    }
  }

  /**
   * A frame in the sandbox remembers the polled pause flag only when it
   * finishes, and changes only the buttons, the container, the object
   * fields and the map name besides; without a capture, only the buttons
   * and the objects' flags.
   */
  lemma SandboxStepOnly(m: State, view: SceneView)
    ensures var o := SandboxStep(m, view);
      var r := o.state;
      && r.previous == (if o.ok then m.previous.(paused := m.current.paused) else m.previous)
      && r == m.(buttonsActive := r.buttonsActive, children := r.children, copies := r.copies,
                 nextHandle := r.nextHandle, backdrop := r.backdrop, water := r.water, sky := r.sky,
                 mapName := r.mapName, previous := r.previous)
      && (!Controller.PauseStarts(m.previous, m.current, m.autosaveMap) ==>
            r == m.(buttonsActive := r.buttonsActive, copies := r.copies, previous := r.previous)
            && r.copies.Keys == m.copies.Keys)
  {
    HideAllHides(m);
    var exit := if m.previous.inDesigner then HideAll(m) else Outcome(m, [], true);
    if exit.ok && Controller.PauseStarts(m.previous, m.current, m.autosaveMap) {
      SaveMapOnly(exit.state, view);
    }
  }

  /** A frame in the sandbox keeps the container invariant. */
  lemma SandboxStepValid(m: State, view: SceneView)
    requires Valid(m)
    ensures Valid(SandboxStep(m, view).state)
  {
    HideAllHides(m);
    var exit := if m.previous.inDesigner then HideAll(m) else Outcome(m, [], true);
    ValidWhenKeysKept(m, exit.state);
    if exit.ok && Controller.PauseStarts(m.previous, m.current, m.autosaveMap) {
      SaveMapKeeps(exit.state, view);
    }
  }

  /**
   * Leaving the designer for the sandbox hides the buttons, and the
   * backdrop when it exists and no capture replaces it.
   */
  lemma SandboxStepHides(m: State, view: SceneView)
    ensures var o := SandboxStep(m, view);
      var r := o.state;
      && (o.ok && m.previous.inDesigner ==> !r.buttonsActive)
      && (o.ok && m.previous.inDesigner && Alive(m, m.backdrop) && !Controller.PauseStarts(m.previous, m.current, m.autosaveMap) ==>
            ShownAs(r, false))
  {
    HideAllHides(m);
    var exit := if m.previous.inDesigner then HideAll(m) else Outcome(m, [], true);
    if exit.ok && Controller.PauseStarts(m.previous, m.current, m.autosaveMap) {
      SaveMapOnly(exit.state, view);
    }
  }

  /** A capture on the frame a pause starts in the sandbox leaves what Captured describes. */
  lemma SandboxStepCaptures(m: State, view: SceneView)
    requires Valid(m)
    ensures var o := SandboxStep(m, view);
      o.ok && Controller.PauseStarts(m.previous, m.current, m.autosaveMap) ==> Captured(o.state, view, m.water, m.sky)
  {
    HideAllHides(m);
    var exit := if m.previous.inDesigner then HideAll(m) else Outcome(m, [], true);
    if exit.ok && Controller.PauseStarts(m.previous, m.current, m.autosaveMap) && view.mapRoot.Some? {
      ValidWhenKeysKept(m, exit.state);
      SaveMapCaptures(exit.state, view);
    }
  }

  /**
   * Leaving a level carries out the save and HidePlan up to the first
   * throw; when it finishes, the map's file holds the settings and the
   * buttons and a backdrop that exists are hidden. It changes only the
   * disk, the buttons and the objects' flags.
   */
  lemma ExitStepSaves(m: State)
    ensures var o := ExitStep(m);
      var r := o.state;
      && Controller.Reached([Controller.SaveSettings] + HidePlan(Alive(m, m.backdrop)), o.trace, o.ok)
      && (o.ok ==> LoadResult(r.disk.files, SettingsPath(m.dataPath, m.mapName)) == Ok(CurrentSettings(m)))
      && (o.ok ==> !r.buttonsActive)
      && (o.ok && Alive(m, m.backdrop) ==> ShownAs(r, false))
      && r == m.(disk := r.disk, buttonsActive := r.buttonsActive, copies := r.copies)
      && r.copies.Keys == m.copies.Keys
  {
    SaveWritesSettings(m);
    var (m1, saved) := SaveMtdSettings(m);
    if saved {
      HideAllHides(m1);
      var h := HideAll(m1);
      Controller.ReachedAfter([Controller.SaveSettings], HidePlan(Alive(m, m.backdrop)), h.trace, h.ok);
    }
  }

  /**
   * Entering a level carries out EntryPlan and leaves the settings on disk;
   * otherwise it does nothing. It changes only the settings.
   */
  lemma LevelEntryLoads(m: State)
    ensures var o := LevelEntry(m);
      var r := o.state;
      && Controller.Reached(Controller.EntryPlan(m.previous, m.current), o.trace, o.ok)
      && (o.ok && !m.previous.inLevel && m.current.inLevel ==> LoadedFrom(m, r))
      && (!(!m.previous.inLevel && m.current.inLevel) ==> r == m)
      && r == m.(offset := r.offset, angles := r.angles, renderDistance := r.renderDistance)
  {
    LoadMatchesDecode(m);
  }

  // ---------------------------------------------------------------- one frame

  /** The middle of Controller.Plan: the actions of a frame in the designer or the sandbox. */
  function InLevelPlan(prev: Controller.Flags, cur: Controller.Flags, autosave: bool, hasBackdrop: bool): seq<Controller.Action>
  {
    if !cur.inLevel then []
    else if cur.inDesigner then Controller.DesignerPlan(prev, hasBackdrop)
    else Controller.SandboxPlan(prev, cur, autosave, hasBackdrop)
  }

  /** Controller.Plan is the entry plan, then InLevelPlan, then the exit plan. */
  lemma PlanSplits(prev: Controller.Flags, cur: Controller.Flags, autosave: bool, hasBackdrop: bool)
    ensures Controller.Plan(prev, cur, autosave, hasBackdrop)
         == Controller.EntryPlan(prev, cur) + InLevelPlan(prev, cur, autosave, hasBackdrop) + Controller.ExitPlan(prev, cur, hasBackdrop)
  {
  }

  /** The designer or sandbox part of a frame carries out InLevelPlan up to the first throw. */
  lemma InLevelReached(m: State, paused: bool, view: SceneView)
    ensures var o := InLevel(m, paused, view);
      Controller.Reached(InLevelPlan(m.previous, m.current.(paused := paused), m.autosaveMap, Alive(m, m.backdrop)), o.trace, o.ok)
  {
    if m.current.inLevel && m.current.inDesigner {
      DesignerStepPoses(m);
    } else if m.current.inLevel {
      SandboxStepReached(m.(current := m.current.(paused := paused)), view);
    }
  }

  /**
   * The designer or sandbox part of a frame changes neither level flag,
   * and outside a level it does nothing.
   */
  lemma InLevelKeepsLevel(m: State, paused: bool, view: SceneView)
    ensures var r := InLevel(m, paused, view).state;
      && r.previous.inLevel == m.previous.inLevel && r.previous.inDesigner == m.previous.inDesigner
      && r.current.inLevel == m.current.inLevel && r.current.inDesigner == m.current.inDesigner
      && (!m.current.inLevel ==> InLevel(m, paused, view) == Outcome(m, [], true))
  {
    if m.current.inLevel && m.current.inDesigner {
      DesignerStepOnly(m);
    } else if m.current.inLevel {
      SandboxStepOnly(m.(current := m.current.(paused := paused)), view);
    }
  }

  /**
   * The designer or sandbox part of a frame: the sandbox records the polled
   * pause flag, and remembers it when it finishes; neither part touches
   * the data path, the container's parent, AutosaveMap or the disk.
   */
  lemma InLevelOnly(m: State, paused: bool, view: SceneView)
    ensures var o := InLevel(m, paused, view);
      var r := o.state;
      var sandbox := m.current.inLevel && !m.current.inDesigner;
      && r.current == (if sandbox then m.current.(paused := paused) else m.current)
      && r.previous == (if sandbox && o.ok then m.previous.(paused := paused) else m.previous)
      && r.dataPath == m.dataPath && r.containerActive == m.containerActive
      && r.autosaveMap == m.autosaveMap && r.disk == m.disk
  {
    if m.current.inLevel && m.current.inDesigner {
      DesignerStepOnly(m);
    } else if m.current.inLevel {
      SandboxStepOnly(m.(current := m.current.(paused := paused)), view);
    }
  }

  /**
   * Only entering the designer loads settings in the designer or sandbox
   * part of a frame, and the sandbox changes neither the settings nor,
   * without a capture, the container's children or the object fields.
   */
  lemma InLevelSettings(m: State, paused: bool, view: SceneView)
    ensures var o := InLevel(m, paused, view);
      var r := o.state;
      var enters := m.current.inLevel && m.current.inDesigner && !m.previous.inDesigner;
      && (!enters ==> CurrentSettings(r) == CurrentSettings(m))
      && (enters && o.ok ==> LoadedFrom(m, r))
      && (!(m.current.inLevel && !m.current.inDesigner && Controller.PauseStarts(m.previous, m.current.(paused := paused), m.autosaveMap)) ==>
            && r.children == m.children && r.nextHandle == m.nextHandle && r.copies.Keys == m.copies.Keys
            && r.backdrop == m.backdrop && r.water == m.water && r.sky == m.sky && r.mapName == m.mapName)
  {
    if m.current.inLevel && m.current.inDesigner {
      DesignerStepOnly(m);
      DesignerStepPoses(m);
    } else if m.current.inLevel {
      SandboxStepOnly(m.(current := m.current.(paused := paused)), view);
    }
  }

  /** The designer or sandbox part of a frame keeps the container invariant. */
  lemma InLevelValid(m: State, paused: bool, view: SceneView)
    requires Valid(m)
    ensures Valid(InLevel(m, paused, view).state)
  {
    if m.current.inLevel && m.current.inDesigner {
      DesignerStepOnly(m);
      ValidWhenKeysKept(m, DesignerStep(m).state);
    } else if m.current.inLevel {
      var s1 := m.(current := m.current.(paused := paused));
      ValidWhenKeysKept(m, s1);
      SandboxStepValid(s1, view);
    }
  }

  /**
   * The exit part of a frame changes only the disk, the buttons and the
   * objects' own active flags.
   */
  lemma LevelExitOnly(m: State)
    ensures var r := LevelExit(m).state;
      && r == m.(disk := r.disk, buttonsActive := r.buttonsActive, copies := r.copies)
      && r.copies.Keys == m.copies.Keys
      && FlagsOnly(m, r)
  {
    FlagsOnlyRefl(m);
    if m.previous.inLevel && !m.current.inLevel {
      ExitStepSaves(m);
      var m1 := SaveMtdSettings(m).0;
      SaveWritesSettings(m);
      if SaveMtdSettings(m).1 && Alive(m1, m1.backdrop) {
        SetBackdropActiveFlagsOnly(m1, false);
        FlagsOnlyTrans(m, m1, SetBackdropActive(m1, false).0);
      }
    }
  }

  /** The exit part of a frame carries out Controller.ExitPlan up to the first throw. */
  lemma LevelExitReached(m: State)
    ensures var o := LevelExit(m);
      Controller.Reached(Controller.ExitPlan(m.previous, m.current, Alive(m, m.backdrop)), o.trace, o.ok)
  {
    if m.previous.inLevel && !m.current.inLevel {
      ExitStepSaves(m);
    }
  }

  /** The part of a frame before the commit is Play, then the exit part. */
  lemma RunOfParts(m: State, paused: bool, view: SceneView, b: Outcome, c: Outcome)
    requires b == Play(m, paused, view)
    requires b.ok ==> c == LevelExit(b.state)
    ensures Run(m, paused, view) == Then(b, c)
    ensures b.state.current.inLevel == m.current.inLevel
  {
    LevelEntryLoads(m);
    InLevelKeepsLevel(LevelEntry(m).state, paused, view);
  }

  /** A frame carries out the actions Controller.Plan lists for it, up to the first that throws. */
  lemma UpdateFollowsPlan(m: State, polled: Controller.Flags, view: SceneView)
    ensures var o := Update(m, polled, view);
      Controller.Reached(Controller.Plan(m.previous, polled, m.autosaveMap, Alive(m, m.backdrop)), o.trace, o.ok)
  {
    var hasBackdrop := Alive(m, m.backdrop);
    var m0 := m.(current := m.current.(inLevel := polled.inLevel, inDesigner := polled.inDesigner));
    var entryPlan := Controller.EntryPlan(m.previous, polled);
    var midPlan := InLevelPlan(m.previous, polled, m.autosaveMap, hasBackdrop);
    var exitPlan := Controller.ExitPlan(m.previous, polled, hasBackdrop);
    PlanSplits(m.previous, polled, m.autosaveMap, hasBackdrop);
    var a := LevelEntry(m0);
    LevelEntryLoads(m0);
    var b0 := InLevel(a.state, polled.paused, view);
    InLevelReached(a.state, polled.paused, view);
    InLevelKeepsLevel(a.state, polled.paused, view);
    assert a.state.current.(paused := polled.paused) == polled;
    ReachedThen(entryPlan, midPlan, a, b0);
    var b := Then(a, b0);
    var c0 := LevelExit(b.state);
    LevelExitReached(b.state);
    assert Controller.ExitPlan(b.state.previous, b.state.current, Alive(b.state, b.state.backdrop)) == exitPlan;
    ReachedThen(entryPlan + midPlan, exitPlan, b, c0);
  }

  /**
   * A frame that finishes remembers the polled flags as Controller.Next
   * says; one that throws remembers nothing. The polled level and designer
   * flags are recorded either way, and the data path, the container's
   * parent and AutosaveMap never change.
   */
  lemma UpdateRemembers(m: State, polled: Controller.Flags, view: SceneView)
    ensures var o := Update(m, polled, view);
      var r := o.state;
      && r.previous == (if o.ok then Controller.Next(m.previous, polled) else m.previous)
      && r.current.inLevel == polled.inLevel && r.current.inDesigner == polled.inDesigner
      && r.dataPath == m.dataPath && r.containerActive == m.containerActive && r.autosaveMap == m.autosaveMap
  {
    var m0 := m.(current := m.current.(inLevel := polled.inLevel, inDesigner := polled.inDesigner));
    var a := LevelEntry(m0);
    LevelEntryLoads(m0);
    InLevelOnly(a.state, polled.paused, view);
    var b := Then(a, InLevel(a.state, polled.paused, view));
    if b.ok && m.previous.inLevel && !polled.inLevel {
      ExitStepSaves(b.state);
    }
  }

  /** Every frame keeps the container invariant. */
  lemma UpdateKeepsValid(m: State, polled: Controller.Flags, view: SceneView)
    requires Valid(m)
    ensures Valid(Update(m, polled, view).state)
  {
    var m0 := m.(current := m.current.(inLevel := polled.inLevel, inDesigner := polled.inDesigner));
    var a := LevelEntry(m0);
    LevelEntryLoads(m0);
    ValidWhenKeysKept(m, a.state);
    InLevelValid(a.state, polled.paused, view);
    var b := Then(a, InLevel(a.state, polled.paused, view));
    var c0 := LevelExit(b.state);
    LevelExitOnly(b.state);
    ValidWhenKeysKept(b.state, c0.state);
    var c := Then(b, c0);
    assert Valid(c.state);
  }

  /**
   * A frame in the designer that finishes leaves a backdrop that exists
   * posed; on entering the designer it also leaves the settings on disk
   * and the buttons and the backdrop shown. Staying in the designer of the
   * same level neither loads nor touches the buttons.
   */
  lemma UpdateInDesigner(m: State, polled: Controller.Flags, view: SceneView)
    requires polled.inLevel && polled.inDesigner
    ensures var o := Update(m, polled, view);
      var r := o.state;
      && (o.ok && Alive(m, m.backdrop) ==> Posed(r))
      && (o.ok && !m.previous.inDesigner ==> r.buttonsActive && LoadedFrom(m, r))
      && (o.ok && !m.previous.inDesigner && Alive(m, m.backdrop) ==> ShownAs(r, true))
      && (m.previous.inLevel && m.previous.inDesigner ==>
            CurrentSettings(r) == CurrentSettings(m) && r.buttonsActive == m.buttonsActive)
  {
    var m0 := m.(current := m.current.(inLevel := polled.inLevel, inDesigner := polled.inDesigner));
    var a := LevelEntry(m0);
    LevelEntryLoads(m0);
    DesignerStepPoses(a.state);
    InLevelKeepsLevel(a.state, polled.paused, view);
  }

  /**
   * Settings change only on a frame that enters a level or, in a level,
   * the designer; when such a frame finishes they are the ones on disk.
   */
  lemma UpdateSettings(m: State, polled: Controller.Flags, view: SceneView)
    ensures var o := Update(m, polled, view);
      var loads := polled.inLevel && (!m.previous.inLevel || (polled.inDesigner && !m.previous.inDesigner));
      && (!loads ==> CurrentSettings(o.state) == CurrentSettings(m))
      && (loads && o.ok ==> LoadedFrom(m, o.state))
  {
    var m0 := m.(current := m.current.(inLevel := polled.inLevel, inDesigner := polled.inDesigner));
    var a := LevelEntry(m0);
    LevelEntryLoads(m0);
    InLevelSettings(a.state, polled.paused, view);
    var b := Then(a, InLevel(a.state, polled.paused, view));
    LevelExitOnly(b.state);
  }

  /**
   * A frame that leaves a level and finishes has written the settings to
   * the map's file; no other frame touches the disk.
   */
  lemma UpdateDisk(m: State, polled: Controller.Flags, view: SceneView)
    ensures var o := Update(m, polled, view);
      var leaving := m.previous.inLevel && !polled.inLevel;
      && (leaving && o.ok ==> LoadResult(o.state.disk.files, SettingsPath(m.dataPath, m.mapName)) == Ok(CurrentSettings(m)))
      && (!leaving ==> o.state.disk == m.disk)
  {
    var m0 := m.(current := m.current.(inLevel := polled.inLevel, inDesigner := polled.inDesigner));
    var a := LevelEntry(m0);
    LevelEntryLoads(m0);
    InLevelOnly(a.state, polled.paused, view);
    InLevelKeepsLevel(a.state, polled.paused, view);
    var b := Then(a, InLevel(a.state, polled.paused, view));
    if m.previous.inLevel && !polled.inLevel {
      ExitStepSaves(b.state);
    }
  }

  /**
   * A frame that leaves the level, or the designer for the sandbox, and
   * finishes hides the buttons, and the backdrop when it exists and no
   * capture replaces it.
   */
  lemma UpdateHides(m: State, polled: Controller.Flags, view: SceneView)
    ensures var o := Update(m, polled, view);
      var leaving := m.previous.inLevel && !polled.inLevel;
      var toSandbox := polled.inLevel && !polled.inDesigner && m.previous.inDesigner;
      var capture := Controller.PauseStarts(m.previous, polled, m.autosaveMap);
      && (o.ok && (leaving || toSandbox) ==> !o.state.buttonsActive)
      && (o.ok && Alive(m, m.backdrop) && (leaving || (toSandbox && !capture)) ==> ShownAs(o.state, false))
  {
    var m0 := m.(current := m.current.(inLevel := polled.inLevel, inDesigner := polled.inDesigner));
    var a := LevelEntry(m0);
    LevelEntryLoads(m0);
    InLevelKeepsLevel(a.state, polled.paused, view);
    if polled.inLevel && !polled.inDesigner {
      var s1 := a.state.(current := a.state.current.(paused := polled.paused));
      assert s1.current == polled;
      SandboxStepHides(s1, view);
    }
    var b := Then(a, InLevel(a.state, polled.paused, view));
    if m.previous.inLevel && !polled.inLevel {
      ExitStepSaves(b.state);
    }
  }

  /**
   * A frame in the sandbox on which autosave is on and a pause starts
   * leaves, when it finishes, what Captured describes.
   */
  lemma UpdateAutosave(m: State, polled: Controller.Flags, view: SceneView)
    requires Valid(m)
    ensures var o := Update(m, polled, view);
      o.ok && polled.inLevel && !polled.inDesigner && Controller.PauseStarts(m.previous, polled, m.autosaveMap) ==>
        Captured(o.state, view, m.water, m.sky)
  {
    var m0 := m.(current := m.current.(inLevel := polled.inLevel, inDesigner := polled.inDesigner));
    var a := LevelEntry(m0);
    LevelEntryLoads(m0);
    InLevelKeepsLevel(a.state, polled.paused, view);
    if polled.inLevel && !polled.inDesigner {
      var s1 := a.state.(current := a.state.current.(paused := polled.paused));
      assert s1.current == polled;
      ValidWhenKeysKept(m, s1);
      SandboxStepCaptures(s1, view);
    }
  }

  /**
   * Without a capture, a frame leaves the container's children, the
   * object fields and the map name as they were.
   */
  lemma UpdateKeepsObjects(m: State, polled: Controller.Flags, view: SceneView)
    ensures var o := Update(m, polled, view);
      var r := o.state;
      !(polled.inLevel && !polled.inDesigner && Controller.PauseStarts(m.previous, polled, m.autosaveMap)) ==>
        && r.children == m.children && r.nextHandle == m.nextHandle && r.copies.Keys == m.copies.Keys
        && r.backdrop == m.backdrop && r.water == m.water && r.sky == m.sky && r.mapName == m.mapName
  {
    var m0 := m.(current := m.current.(inLevel := polled.inLevel, inDesigner := polled.inDesigner));
    var a := LevelEntry(m0);
    LevelEntryLoads(m0);
    InLevelSettings(a.state, polled.paused, view);
    var b := Then(a, InLevel(a.state, polled.paused, view));
    LevelExitOnly(b.state);
  }
  /**
   * On a map without a Map root (lines 203-212: the error is logged but
   * SaveMap goes on and dereferences the missing root), a frame in the
   * sandbox of the level it was already in, on which autosave is on and a
   * pause starts, empties the container and throws before anything is
   * remembered; the next frame with the same flags therefore does exactly
   * the same again.
   */
  lemma CaptureWithoutRootRepeats(m: State, polled: Controller.Flags, view: SceneView)
    requires Valid(m) && view.mapRoot.None?
    requires m.previous.inLevel && !m.previous.inDesigner && polled.inLevel && !polled.inDesigner
    requires Controller.PauseStarts(m.previous, polled, m.autosaveMap)
    ensures var o := Update(m, polled, view);
      && o == Outcome(m.(current := polled, children := [], copies := map[]), [], false)
      && Update(o.state, polled, view) == o
  {
    ThrowsWithoutRoot(m, polled, view);
    var r := m.(current := polled, children := [], copies := map[]);
    assert Valid(r);
    ThrowsWithoutRoot(r, polled, view);
    assert r.(current := polled, children := [], copies := map[]) == r;
  }

  lemma ThrowsWithoutRoot(m: State, polled: Controller.Flags, view: SceneView)
    requires Valid(m) && view.mapRoot.None?
    requires m.previous.inLevel && !m.previous.inDesigner && polled.inLevel && !polled.inDesigner
    requires Controller.PauseStarts(m.previous, polled, m.autosaveMap)
    ensures Update(m, polled, view) == Outcome(m.(current := polled, children := [], copies := map[]), [], false)
  {
    var s1 := m.(current := polled);
    ValidWhenKeysKept(m, s1);
    DestroyChildObjectsEmpties(s1);
    assert SandboxStep(s1, view) == Outcome(DestroyChildObjects(s1), [], false);
    assert LevelEntry(m.(current := m.current.(inLevel := polled.inLevel, inDesigner := polled.inDesigner))).state.current.(paused := polled.paused) == polled;
  }
}
