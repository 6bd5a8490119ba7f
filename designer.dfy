/**
 * The MapToDesigner component itself (MapToDesigner.cs): its fields, and
 * the methods Unity and the developer console call, written as the source
 * writes them. Each method is proved to leave the fields and the disk as
 * the function of the same name in Behaviour or Frames says; what those
 * functions guarantee is proved there.
 */
module Designer {
  import opened Maybe
  import opened Codec
  import opened Scene
  import opened Store
  import opened Behaviour
  import Controller
  import Frames

  /** The far clip plane of every camera (lines 101-104). */
  method SetFarClipPlanes(cameras: array<F32>, distance: F32)
    modifies cameras
    ensures forall i :: 0 <= i < cameras.Length ==> cameras[i] == distance
  {
    for i := 0 to cameras.Length
      invariant forall j :: 0 <= j < i ==> cameras[j] == distance
    {
      cameras[i] := distance;
    }
  }

  class MapToDesigner {
    /** Application.persistentDataPath. */
    const dataPath: Path
    const fs: FileSystem
    /** Whether CopiedObjectParent is active in the hierarchy. */
    const containerActive: bool

    /** CopiedObjectParent's children, and the objects that are alive. */
    var children: seq<Handle>
    var copies: map<Handle, Subtree>
    var nextHandle: nat
    /** ButtonsParent's own active flag. */
    var buttonsActive: bool

    var backdropObject: Option<Handle>
    var backdropWaterObject: Option<Handle>
    var backdropSkyObject: Option<Handle>
    var backdropMapName: Option<string>

    var backdropOffset: Vec3
    var backdropAngles: Vec3
    var backdropRenderDistance: F32

    var inLevelPrevious: bool
    var inLevelCurrent: bool
    var inDesignerPrevious: bool
    var inDesignerCurrent: bool
    var pausedPrevious: bool
    var pausedCurrent: bool

    var autosaveMap: bool

    /** The fields and the disk, as a value. */
    function Model(): State
      reads this, fs
    {
      State(dataPath, containerActive, children, copies, nextHandle, buttonsActive,
            backdropObject, backdropWaterObject, backdropSkyObject, backdropMapName,
            backdropOffset, backdropAngles, backdropRenderDistance,
            Controller.Flags(inLevelPrevious, inDesignerPrevious, pausedPrevious),
            Controller.Flags(inLevelCurrent, inDesignerCurrent, pausedCurrent),
            autosaveMap, fs.disk)
    }

    ghost predicate Valid()
      reads this, fs
    {
      Behaviour.Valid(Model())
    }

    /** The field initialisers (lines 12-39), with an empty container. */
    constructor (dataPath: Path, fs: FileSystem, containerActive: bool, buttonsActive: bool)
      ensures Valid()
      ensures Model() == State(dataPath, containerActive, [], map[], 0, buttonsActive, None, None, None, None,
                               ZeroVec, ZeroVec, DefaultRenderDistance,
                               Controller.Flags(false, false, false), Controller.Flags(false, false, false),
                               true, fs.disk)
    {
      this.dataPath := dataPath;
      this.fs := fs;
      this.containerActive := containerActive;
      children := [];
      copies := map[];
      nextHandle := 0;
      this.buttonsActive := buttonsActive;
      backdropObject := None;
      backdropWaterObject := None;
      backdropSkyObject := None;
      backdropMapName := None;
      backdropOffset := ZeroVec;
      backdropAngles := ZeroVec;
      backdropRenderDistance := DefaultRenderDistance;
      inLevelPrevious := false;
      inLevelCurrent := false;
      inDesignerPrevious := false;
      inDesignerCurrent := false;
      pausedPrevious := false;
      pausedCurrent := false;
      autosaveMap := true;
    }

    // ------------------------------------------------------------ settings

    /** Awake (lines 41-70): the mod's folders and AutosaveMap. */
    method Awake() returns (ok: bool)
      requires Valid()
      modifies this, fs
      ensures (Model(), ok) == Behaviour.Awake(old(Model()))
      ensures Valid()
    {
      Behaviour.AwakeSettles(Model());
      var nachSave, mapToDes, autosave := PathNachSave(dataPath), PathMapToDes(dataPath), PathAutosave(dataPath);
      ok := fs.CreateDirectory(nachSave);
      if !ok {
        return;
      }
      if mapToDes in fs.disk.dirs {
        if autosave in fs.disk.files {
          autosaveMap := true;
        } else {
          autosaveMap := false;
        }
      } else {
        ok := fs.CreateDirectory(mapToDes);
        if !ok {
          return;
        }
        ok := fs.CreateFile(mapToDes, "AUTOSAVE", []);
        if !ok {
          return;
        }
        autosaveMap := true;
      }
    }

    /** LoadMtdSettings (lines 160-181): each vector is stored as soon as it is read. */
    method LoadMtdSettings() returns (ok: bool)
      modifies this
      ensures (Model(), ok) == Behaviour.LoadMtdSettings(old(Model()))
    {
      var path := SettingsPath(dataPath, backdropMapName);
      if path in fs.disk.files {
        var data := fs.disk.files[path];
        var offset := ReadOffset(data);
        if offset.Err? {
          return false;
        }
        backdropOffset := offset.value.0;
        var angles := ReadVec3(data, offset.value.1);
        if angles.Err? {
          return false;
        }
        backdropAngles := angles.value.0;
        var distance := ReadSingle(data, angles.value.1);
        if distance.Err? {
          return false;
        }
        backdropRenderDistance := distance.value.0;
        ok := true;
      } else {
        backdropOffset := ZeroVec;
        backdropAngles := ZeroVec;
        backdropRenderDistance := DefaultRenderDistance;
        ok := true;
      }
    }

    /** SaveMtdSettings (lines 183-199). */
    method SaveMtdSettings() returns (ok: bool)
      modifies fs
      ensures (Model(), ok) == Behaviour.SaveMtdSettings(old(Model()))
    {
      var name := (if backdropMapName.Some? then backdropMapName.value else "") + ".MTD";
      ok := fs.CreateFile(PathMapToDes(dataPath), name, Encode(MtdHeaderBytes(), CurrentSettings(Model())));
    }

    // ------------------------------------------------------------ objects

    /** Instantiate(original, CopiedObjectParent). */
    method Instantiate(original: Subtree) returns (h: Handle)
      modifies this
      ensures (Model(), h) == Behaviour.Instantiate(old(Model()), original)
    {
      h := nextHandle;
      nextHandle := nextHandle + 1;
      copies := copies[h := original];
      children := children + [h];
    }

    /** Destroy(gameObject) on a child of the container. */
    method Destroy(h: Handle)
      modifies this
      ensures Model() == Behaviour.Destroy(old(Model()), h)
    {
      copies := copies - {h};
      children := Without(children, h);
    }

    /** SetActive on a live copy's own object. */
    method SetActive(h: Handle, value: bool)
      requires h in copies
      modifies this
      ensures Model() == Behaviour.SetActive(old(Model()), h, value)
    {
      copies := copies[h := WithActive(copies[h], value)];
    }

    /**
     * DestroyChildObjects(CopiedObjectParent) (lines 261-277): the children
     * are copied into an array first, then each is destroyed.
     */
    method DestroyChildObjects()
      modifies this
      ensures Model() == Behaviour.DestroyChildObjects(old(Model()))
    {
      if |children| == 0 {
        return;
      }
      var childTransforms := new Handle[|children|];
      for i := 0 to childTransforms.Length
        invariant Model() == old(Model())
        invariant forall j :: 0 <= j < i ==> childTransforms[j] == children[j]
      {
        childTransforms[i] := children[i];
      }
      assert childTransforms[..] == old(children);
      for i := 0 to childTransforms.Length
        invariant childTransforms[..] == old(children)
        invariant Model() == DestroyEach(old(Model()), childTransforms[..i])
      {
        assert childTransforms[..i + 1][..i] == childTransforms[..i];
        Destroy(childTransforms[i]);
      }
      assert childTransforms[..childTransforms.Length] == childTransforms[..];
    }

    /**
     * SetActive on the backdrop, then the sky copy, then the water copy
     * (lines 93-98, 122-127, 146-151); a dead sky or water copy throws.
     */
    method SetBackdropActive(value: bool) returns (ok: bool)
      requires Alive(Model(), backdropObject)
      modifies this
      ensures (Model(), ok) == Behaviour.SetBackdropActive(old(Model()), value)
    {
      SetActive(backdropObject.value, value);
      if !Alive(Model(), backdropSkyObject) {
        return false;
      }
      SetActive(backdropSkyObject.value, value);
      if !Alive(Model(), backdropWaterObject) {
        return false;
      }
      SetActive(backdropWaterObject.value, value);
      ok := true;
    }

    /** Lines 107-113: the backdrop, then the water, are posed; a dead water copy throws. */
    method ApplyTransform() returns (ok: bool)
      requires Alive(Model(), backdropObject)
      modifies this
      ensures (Model(), ok) == Behaviour.ApplyTransform(old(Model()))
    {
      var b := backdropObject.value;
      copies := copies[b := Placed(copies[b], NegVec(backdropOffset), NegVec(backdropAngles))];
      if !Alive(Model(), backdropWaterObject) {
        return false;
      }
      var w := backdropWaterObject.value;
      copies := copies[w := Moved(copies[w], WaterPosition(backdropOffset))];
      ok := true;
    }

    /**
     * Lines 213-231: the map root is copied into the container, moved to
     * the Terrain layer, cleaned of the Map marker and user scripts, and
     * hidden.
     */
    method CaptureRoot(root: Subtree)
      modifies this
      ensures Model() == Behaviour.CaptureRoot(old(Model()), root)
    {
      var b := Instantiate(root);
      backdropObject := Some(b);
      var t := RelabelLayers(copies[b], containerActive);
      t := WithoutRootMap(t);
      t := StripUserScripts(t);
      t := WithActive(t, false);
      copies := copies[b := t];
    }

    /** Instantiate(holder, CopiedObjectParent) followed by SetActive(false) on the copy. */
    method CopyHidden(holder: Subtree) returns (h: Handle)
      modifies this
      ensures (Model(), h) == Behaviour.CopyHidden(old(Model()), holder)
    {
      h := Instantiate(holder);
      SetActive(h, false);
    }

    /** One turn of the copy loop (lines 237-247). */
    method CopyIfMatch(f: Found)
      modifies this
      ensures Model() == Behaviour.CopyIfMatch(old(Model()), f)
    {
      var cTypeName := f.comp.typeName;
      if cTypeName == WaterTypeName {
        var w := CopyHidden(f.holder);
        backdropWaterObject := Some(w);
      } else if cTypeName == SkyTypeName {
        var s := CopyHidden(f.holder);
        backdropSkyObject := Some(s);
      }
    }

    /** Lines 234-248: the loop over every component found in the scene. */
    method CopyWaterAndSky(found: seq<Found>)
      modifies this
      ensures Model() == Behaviour.CopyWaterAndSky(old(Model()), found)
    {
      for i := 0 to |found|
        invariant Model() == Behaviour.CopyWaterAndSky(old(Model()), found[..i])
      {
        assert found[..i + 1][..i] == found[..i];
        CopyIfMatch(found[i]);
      }
      assert found[..|found|] == found;
    }

    /** SaveMap (lines 201-254). */
    method SaveMap(view: SceneView) returns (ok: bool)
      requires Valid()
      modifies this
      ensures (Model(), ok) == Behaviour.SaveMap(old(Model()), view)
      ensures Valid()
    {
      Behaviour.SaveMapKeeps(Model(), view);
      var mapRoot := view.mapRoot;
      DestroyChildObjects();
      if mapRoot.None? {
        return false;
      }
      CaptureRoot(mapRoot.value);
      CopyWaterAndSky(view.components);
      backdropMapName := Some(view.mapName);
      ok := true;
    }

    /** ToggleButtons (lines 256-259). */
    method ToggleButtons(ancestorsActive: bool)
      requires Valid()
      modifies this
      ensures Model() == Behaviour.ToggleButtons(old(Model()), ancestorsActive)
      ensures Valid()
    {
      buttonsActive := !(buttonsActive && ancestorsActive);
    }

    // ------------------------------------------------------------ Update

    /** Lines 87-99. */
    method EnterDesigner() returns (trace: seq<Controller.Action>, ok: bool)
      modifies this
      ensures Frames.Outcome(Model(), trace, ok) == Frames.EnterDesigner(old(Model()))
    {
      var loaded := LoadMtdSettings();
      if !loaded {
        return [], false;
      }
      buttonsActive := true;
      trace := [Controller.LoadSettings, Controller.ShowButtons];
      if !Alive(Model(), backdropObject) {
        return trace, true;
      }
      ok := SetBackdropActive(true);
      if ok {
        trace := trace + [Controller.ShowBackdrop];
      }
    }

    /**
     * Lines 85-113: a frame in the designer. The cameras are set when the
     * designer was entered without a throw.
     */
    method DesignerStep(cameras: array<F32>) returns (trace: seq<Controller.Action>, ok: bool)
      modifies this, cameras
      ensures Frames.Outcome(Model(), trace, ok) == Frames.DesignerStep(old(Model()))
      ensures Frames.DesignerEntry(old(Model())).ok ==>
        forall i :: 0 <= i < cameras.Length ==> cameras[i] == backdropRenderDistance
      ensures !Frames.DesignerEntry(old(Model())).ok ==> cameras[..] == old(cameras[..])
    {
      var entryOk := true;
      trace := [];
      if !inDesignerPrevious {
        trace, entryOk := EnterDesigner();
        if !entryOk {
          return trace, false;
        }
      }
      SetFarClipPlanes(cameras, backdropRenderDistance);
      trace := trace + [Controller.SetCameraFarClip];
      if !Alive(Model(), backdropObject) {
        return trace, true;
      }
      ok := ApplyTransform();
      if ok {
        trace := trace + [Controller.ApplyTransform];
      }
    }

    /** Lines 121-129 and 145-152. */
    method HideAll() returns (trace: seq<Controller.Action>, ok: bool)
      modifies this
      ensures Frames.Outcome(Model(), trace, ok) == Frames.HideAll(old(Model()))
    {
      if !Alive(Model(), backdropObject) {
        buttonsActive := false;
        return [Controller.HideButtons], true;
      }
      var hidden := SetBackdropActive(false);
      if !hidden {
        return [], false;
      }
      buttonsActive := false;
      trace, ok := [Controller.HideBackdrop, Controller.HideButtons], true;
    }

    /** Lines 132-135. */
    method AutosaveStep(view: SceneView) returns (trace: seq<Controller.Action>, ok: bool)
      requires Valid()
      modifies this
      ensures Frames.Outcome(Model(), trace, ok) == Frames.AutosaveStep(old(Model()), view)
    {
      if autosaveMap && !pausedPrevious && pausedCurrent {
        var saved := SaveMap(view);
        return if saved then [Controller.SaveMap] else [], saved;
      }
      trace, ok := [], true;
    }

    /** Lines 119-137, after PausedCurrent was polled. */
    method SandboxStep(view: SceneView) returns (trace: seq<Controller.Action>, ok: bool)
      requires Valid()
      modifies this
      ensures Frames.Outcome(Model(), trace, ok) == Frames.SandboxStep(old(Model()), view)
    {
      ghost var m0 := Model();
      Frames.HideAllHides(m0);
      var exitOk := true;
      trace := [];
      if inDesignerPrevious {
        trace, exitOk := HideAll();
        if !exitOk {
          return trace, false;
        }
        Behaviour.ValidWhenKeysKept(m0, Model());
      }
      var saved, saveOk := AutosaveStep(view);
      if !saveOk {
        return trace, false;
      }
      pausedPrevious := pausedCurrent;
      trace, ok := trace + saved, true;
    }

    /** Lines 141-154. */
    method ExitStep() returns (trace: seq<Controller.Action>, ok: bool)
      modifies this, fs
      ensures Frames.Outcome(Model(), trace, ok) == Frames.ExitStep(old(Model()))
    {
      var saved := SaveMtdSettings();
      if !saved {
        return [], false;
      }
      var hidden, hiddenOk := HideAll();
      trace, ok := [Controller.SaveSettings] + hidden, hiddenOk;
    }

    /** Lines 77-81. */
    method LevelEntry() returns (trace: seq<Controller.Action>, ok: bool)
      modifies this
      ensures Frames.Outcome(Model(), trace, ok) == Frames.LevelEntry(old(Model()))
    {
      if !inLevelPrevious && inLevelCurrent {
        var loaded := LoadMtdSettings();
        return if loaded then [Controller.LoadSettings] else [], loaded;
      }
      trace, ok := [], true;
    }

    /** Lines 83-139, with the polled IsPaused. */
    method InLevel(paused: bool, cameras: array<F32>, view: SceneView) returns (trace: seq<Controller.Action>, ok: bool)
      requires Valid()
      modifies this, cameras
      ensures Frames.Outcome(Model(), trace, ok) == Frames.InLevel(old(Model()), paused, view)
      ensures var reached := old(inLevelCurrent && inDesignerCurrent) && Frames.DesignerEntry(old(Model())).ok;
        && (reached ==> forall i :: 0 <= i < cameras.Length ==> cameras[i] == backdropRenderDistance)
        && (!reached ==> cameras[..] == old(cameras[..]))
    {
      if !inLevelCurrent {
        return [], true;
      }
      if inDesignerCurrent {
        trace, ok := DesignerStep(cameras);
        return;
      }
      pausedCurrent := paused;
      trace, ok := SandboxStep(view);
    }

    /** Lines 141-154, when the level has just been left. */
    method LevelExit() returns (trace: seq<Controller.Action>, ok: bool)
      modifies this, fs
      ensures Frames.Outcome(Model(), trace, ok) == Frames.LevelExit(old(Model()))
    {
      if inLevelPrevious && !inLevelCurrent {
        trace, ok := ExitStep();
      } else {
        trace, ok := [], true;
      }
    }

    /**
     * Lines 77-139, after the level and designer flags were polled. The
     * cameras are set exactly on the frames that reach their loop.
     */
    method Play(paused: bool, cameras: array<F32>, view: SceneView) returns (trace: seq<Controller.Action>, ok: bool)
      requires Valid()
      modifies this, cameras
      ensures Frames.Outcome(Model(), trace, ok) == Frames.Play(old(Model()), paused, view)
      ensures var reaches := Frames.ReachesCameras(old(Model()), Controller.Flags(old(inLevelCurrent), old(inDesignerCurrent), paused));
        && (reaches ==> forall i :: 0 <= i < cameras.Length ==> cameras[i] == backdropRenderDistance)
        && (!reaches ==> cameras[..] == old(cameras[..]))
    {
      ghost var m0 := Model();
      assert m0.(current := m0.current.(inLevel := inLevelCurrent, inDesigner := inDesignerCurrent)) == m0;
      Frames.LevelEntryLoads(m0);
      var entered, entryOk := LevelEntry();
      if !entryOk {
        return entered, false;
      }
      Behaviour.ValidWhenKeysKept(m0, Model());
      var level, levelOk := InLevel(paused, cameras, view);
      trace, ok := entered + level, levelOk;
    }

    /** Lines 77-154, after the level and designer flags were polled. */
    method Run(paused: bool, cameras: array<F32>, view: SceneView) returns (trace: seq<Controller.Action>, ok: bool)
      requires Valid()
      modifies this, fs, cameras
      ensures Frames.Outcome(Model(), trace, ok) == Frames.Run(old(Model()), paused, view)
      ensures var reaches := Frames.ReachesCameras(old(Model()), Controller.Flags(old(inLevelCurrent), old(inDesignerCurrent), paused));
        && (reaches ==> forall i :: 0 <= i < cameras.Length ==> cameras[i] == backdropRenderDistance)
        && (!reaches ==> cameras[..] == old(cameras[..]))
    {
      var played, playOk := Play(paused, cameras, view);
      ghost var b := Frames.Outcome(Model(), played, playOk);
      if !playOk {
        Frames.RunOfParts(old(Model()), paused, view, b, b);
        return played, false;
      }
      var exited, exitOk := LevelExit();
      Frames.RunOfParts(old(Model()), paused, view, b, Frames.Outcome(Model(), exited, exitOk));
      trace, ok := played + exited, exitOk;
    }

    /**
     * Update (lines 72-158) with the polled IsInLevel, IsInDesigner and
     * IsPaused, the scene's cameras, and what the engine reports should a
     * capture run. It keeps the container invariant, and the cameras are
     * set exactly on the frames that reach their loop.
     */
    method Tick(inLevel: bool, inDesigner: bool, paused: bool, cameras: array<F32>, view: SceneView)
      returns (trace: seq<Controller.Action>, ok: bool)
      requires Valid()
      modifies this, fs, cameras
      ensures Frames.Outcome(Model(), trace, ok) == Frames.Update(old(Model()), Controller.Flags(inLevel, inDesigner, paused), view)
      ensures Valid()
      ensures Frames.ReachesCameras(old(Model()), Controller.Flags(inLevel, inDesigner, paused)) ==>
        forall i :: 0 <= i < cameras.Length ==> cameras[i] == backdropRenderDistance
      ensures !Frames.ReachesCameras(old(Model()), Controller.Flags(inLevel, inDesigner, paused)) ==>
        cameras[..] == old(cameras[..])
    {
      ghost var m, polled := Model(), Controller.Flags(inLevel, inDesigner, paused);
      Frames.UpdateKeepsValid(m, polled, view);
      Poll(inLevel, inDesigner);
      Behaviour.ValidWhenKeysKept(m, Model());
      assert Frames.ReachesCameras(m, polled) == Frames.ReachesCameras(Model(), polled);
      trace, ok := Run(paused, cameras, view);
      if ok {
        Remember();
      }
    }

    /** Lines 74-75. */
    method Poll(inLevel: bool, inDesigner: bool)
      modifies this
      ensures Model() == old(Model()).(current := old(Model()).current.(inLevel := inLevel, inDesigner := inDesigner))
    {
      inLevelCurrent := inLevel;
      inDesignerCurrent := inDesigner;
    }

    /** Lines 156-157. */
    method Remember()
      modifies this
      ensures Model() == old(Model()).(previous := old(Model()).previous.(inLevel := inLevelCurrent, inDesigner := inDesignerCurrent))
    {
      inLevelPrevious := inLevelCurrent;
      inDesignerPrevious := inDesignerCurrent;
    }
  }
}
