/**
 * What the MapToDesigner component (MapToDesigner.cs) does to its fields,
 * to the objects it keeps under CopiedObjectParent and to the disk, stated
 * on values. A State holds every field of the component and the disk; each
 * function gives the State one of its methods leaves behind, and whether
 * the method finished (true) or threw (false).
 *
 * Engine objects under CopiedObjectParent are known by handles: `copies`
 * maps the live ones to their contents and `children` lists them in the
 * container's child order. A handle whose object was destroyed stays in a
 * field (Unity's "fake null"), but is no longer Alive.
 */
module Behaviour {
  import opened Maybe
  import opened Codec
  import opened Scene
  import opened Store
  import Controller

  type Handle = nat
  type Flags = Controller.Flags

  /** `s` with `h` removed. */
  function Without(s: seq<Handle>, h: Handle): (r: seq<Handle>)
    ensures forall x :: x in r <==> x in s && x != h
  {
    if s == [] then []
    else (if s[0] == h then [] else [s[0]]) + Without(s[1..], h)
  }

  /**
   * The component's fields and the disk. `previous` and `current` are the
   * three *Previous and the three *Current fields (lines 21-26).
   */
  datatype State = State(
    dataPath: Path,
    containerActive: bool,
    children: seq<Handle>,
    copies: map<Handle, Subtree>,
    nextHandle: nat,
    buttonsActive: bool,
    backdrop: Option<Handle>,
    water: Option<Handle>,
    sky: Option<Handle>,
    mapName: Option<string>,
    offset: Vec3,
    angles: Vec3,
    renderDistance: F32,
    previous: Flags,
    current: Flags,
    autosaveMap: bool,
    disk: Disk)

  /** A stored handle that was issued by some earlier Instantiate. */
  predicate Issued(m: State, r: Option<Handle>)
  {
    r.Some? ==> r.value < m.nextHandle
  }

  /** A GameObject reference that is `!= null`: set, and not destroyed. */
  predicate Alive(m: State, r: Option<Handle>)
  {
    r.Some? && r.value in m.copies
  }

  /**
   * The container's children are exactly the live copies, and every handle
   * ever stored was issued before.
   */
  ghost predicate Valid(m: State)
  {
    && (forall h :: h in m.copies <==> h in m.children)
    && (forall h :: h in m.copies ==> h < m.nextHandle)
    && Issued(m, m.backdrop) && Issued(m, m.water) && Issued(m, m.sky)
  }

  /**
   * `r` has the copies of `m`, each changed at most in its own active flag:
   * what a show or a hide may do to them.
   */
  ghost predicate FlagsOnly(m: State, r: State)
  {
    && r.copies.Keys == m.copies.Keys
    && (forall h :: h in r.copies ==> r.copies[h] == WithActive(m.copies[h], r.copies[h][0].activeSelf))
  }

  function CurrentSettings(m: State): Settings
  {
    Settings(m.offset, m.angles, m.renderDistance)
  }

  /** The backdrop and its sky and water copies all exist with the given active flag. */
  ghost predicate ShownAs(m: State, value: bool)
  {
    && Alive(m, m.backdrop) && Alive(m, m.sky) && Alive(m, m.water)
    && m.copies[m.backdrop.value][0].activeSelf == value
    && m.copies[m.sky.value][0].activeSelf == value
    && m.copies[m.water.value][0].activeSelf == value
  }

  /** Line 112: the water's world position for an offset. */
  function WaterPosition(offset: Vec3): Vec3
  {
    Vec3(ZeroF32, Neg(offset.y), ZeroF32)
  }

  /** The backdrop sits at minus the offset and angles, the water at height minus offset.y. */
  ghost predicate Posed(m: State)
  {
    && Alive(m, m.backdrop) && Alive(m, m.water)
    && m.copies[m.backdrop.value][0].localPosition == NegVec(m.offset)
    && m.copies[m.backdrop.value][0].localAngles == NegVec(m.angles)
    && m.copies[m.water.value][0].position == WaterPosition(m.offset)
  }

  // ---------------------------------------------------------------- settings

  /**
   * LoadMtdSettings (lines 160-181): a missing file gives the defaults; a
   * file that ends early throws after the vectors already read are stored.
   */
  function LoadMtdSettings(m: State): (State, bool)
  {
    var path := SettingsPath(m.dataPath, m.mapName);
    if path !in m.disk.files then (m.(offset := ZeroVec, angles := ZeroVec, renderDistance := DefaultRenderDistance), true)
    else
      var data := m.disk.files[path];
      match ReadOffset(data)
      case Err(_) => (m, false)
      case Ok((offset, p)) =>
        match ReadVec3(data, p)
        case Err(_) => (m.(offset := offset), false)
        case Ok((angles, q)) =>
          match ReadSingle(data, q)
          case Err(_) => (m.(offset := offset, angles := angles), false)
          case Ok((distance, _)) => (m.(offset := offset, angles := angles, renderDistance := distance), true)
  }

  /**
   * SaveMtdSettings (lines 183-199): the current settings, under the header,
   * in the map's file; File.Create throws when MAPTODES is missing or a
   * directory has the file's name.
   */
  function SaveMtdSettings(m: State): (State, bool)
  {
    var path := SettingsPath(m.dataPath, m.mapName);
    var ok := PathMapToDes(m.dataPath) in m.disk.dirs && path !in m.disk.dirs;
    (if ok then m.(disk := m.disk.(files := m.disk.files[path := Encode(MtdHeaderBytes(), CurrentSettings(m))])) else m, ok)
  }

  /** Awake (lines 41-70): the mod's folders, and AutosaveMap when nothing threw. */
  function Awake(m: State): (State, bool)
  {
    var (d, autosave) := InitStore(m.dataPath, m.disk);
    (m.(disk := d, autosaveMap := if autosave.Some? then autosave.value else m.autosaveMap), autosave.Some?)
  }

  // ---------------------------------------------------------------- objects

  /** Instantiate(original, CopiedObjectParent): a new last child holding a copy. */
  function Instantiate(m: State, original: Subtree): (State, Handle)
  {
    var h := m.nextHandle;
    (m.(copies := m.copies[h := original], children := m.children + [h], nextHandle := h + 1), h)
  }

  /** Destroy(gameObject) on a child of the container, taking effect at once. */
  function Destroy(m: State, h: Handle): State
  {
    m.(copies := m.copies - {h}, children := Without(m.children, h))
  }

  /** SetActive on a live copy's own object. */
  function SetActive(m: State, h: Handle, value: bool): State
    requires h in m.copies
  {
    m.(copies := m.copies[h := WithActive(m.copies[h], value)])
  }

  /** Destroy on each handle of `hs`, in order. */
  function DestroyEach(m: State, hs: seq<Handle>): State
    decreases |hs|
  {
    if hs == [] then m else Destroy(DestroyEach(m, hs[..|hs| - 1]), hs[|hs| - 1])
  }

  /** DestroyChildObjects(CopiedObjectParent) (lines 261-277): every child, first to last. */
  function DestroyChildObjects(m: State): State
  {
    DestroyEach(m, m.children)
  }

  /**
   * SetActive on the backdrop, then the sky copy, then the water copy
   * (lines 93-98, 122-127, 146-151); a dead sky or water copy throws.
   */
  function SetBackdropActive(m: State, value: bool): (State, bool)
    requires Alive(m, m.backdrop)
  {
    var m1 := SetActive(m, m.backdrop.value, value);
    if !Alive(m1, m1.sky) then (m1, false)
    else
      var m2 := SetActive(m1, m1.sky.value, value);
      if !Alive(m2, m2.water) then (m2, false)
      else (SetActive(m2, m2.water.value, value), true)
  }

  /**
   * Lines 107-113: the backdrop at minus the offset and angles, then the
   * water at height minus offset.y; a dead water copy throws.
   */
  function ApplyTransform(m: State): (State, bool)
    requires Alive(m, m.backdrop)
  {
    var b := m.backdrop.value;
    var m1 := m.(copies := m.copies[b := Placed(m.copies[b], NegVec(m.offset), NegVec(m.angles))]);
    if !Alive(m1, m1.water) then (m1, false)
    else
      var w := m1.water.value;
      (m1.(copies := m1.copies[w := Moved(m1.copies[w], WaterPosition(m1.offset))]), true)
  }

  /**
   * Lines 213-231: the map root is copied into the container, moved to the
   * Terrain layer, cleaned of the Map marker and user scripts, and hidden.
   */
  function CaptureRoot(m: State, root: Subtree): State
  {
    var (m1, b) := Instantiate(m, root);
    m1.(backdrop := Some(b), copies := m1.copies[b := Capture(root, m.containerActive)])
  }

  /** Instantiate(holder, CopiedObjectParent) followed by SetActive(false) on the copy. */
  function CopyHidden(m: State, holder: Subtree): (State, Handle)
  {
    var (m1, h) := Instantiate(m, holder);
    (SetActive(m1, h, false), h)
  }

  /** One turn of the copy loop (lines 237-247). */
  function CopyIfMatch(m: State, f: Found): State
  {
    if f.comp.typeName == WaterTypeName then
      var (m1, w) := CopyHidden(m, f.holder);
      m1.(water := Some(w))
    else if f.comp.typeName == SkyTypeName then
      var (m1, s) := CopyHidden(m, f.holder);
      m1.(sky := Some(s))
    else m
  }

  /** The copy loop of lines 234-248 over the components found, in order. */
  function CopyWaterAndSky(m: State, found: seq<Found>): State
    decreases |found|
  {
    if found == [] then m else CopyIfMatch(CopyWaterAndSky(m, found[..|found| - 1]), found[|found| - 1])
  }

  /**
   * SaveMap (lines 201-254). Without a map root the old copies are destroyed
   * and then the dereference of the missing root throws.
   */
  function SaveMap(m: State, view: SceneView): (State, bool)
  {
    var m1 := DestroyChildObjects(m);
    if view.mapRoot.None? then (m1, false)
    else (CopyWaterAndSky(CaptureRoot(m1, view.mapRoot.value), view.components).(mapName := Some(view.mapName)), true)
  }

  /**
   * ToggleButtons (lines 256-259): the buttons' own flag becomes the opposite
   * of whether they are shown, which also needs their ancestors active.
   */
  function ToggleButtons(m: State, ancestorsActive: bool): (r: State)
    ensures ancestorsActive ==> r.buttonsActive == !m.buttonsActive
    ensures !ancestorsActive ==> r.buttonsActive
    ensures r == m.(buttonsActive := r.buttonsActive)
  {
    m.(buttonsActive := !(m.buttonsActive && ancestorsActive))
  }

  /**
   * What a water or sky slot holds after the copy loop has run over
   * `found`: a hidden copy of the last match's holder, or, with no match,
   * the value it had, which no longer refers to anything.
   */
  ghost predicate SlotAfter(m: State, slot: Option<Handle>, before: Option<Handle>, found: seq<Found>, name: string)
  {
    match LastMatch(found, name)
    case Some(j) => Alive(m, slot) && m.copies[slot.value] == WithActive(found[j].holder, false)
    case None => slot == before && !Alive(m, slot)
  }

  /** What a SaveMap that did not throw leaves behind (lines 213-251). */
  ghost predicate Captured(m: State, view: SceneView, water0: Option<Handle>, sky0: Option<Handle>)
  {
    && view.mapRoot.Some?
    && Alive(m, m.backdrop) && m.copies[m.backdrop.value] == Capture(view.mapRoot.value, m.containerActive)
    && SlotAfter(m, m.water, water0, view.components, WaterTypeName)
    && SlotAfter(m, m.sky, sky0, view.components, SkyTypeName)
    && m.mapName == Some(view.mapName)
  }

  // ---------------------------------------------------------------- lemmas

  /**
   * A load finishes exactly when the file is missing or decodes, and then
   * holds what LoadResult reads; a load that throws has stored the vectors
   * read before the end of the file. Nothing but the settings changes.
   */
  lemma LoadMatchesDecode(m: State)
    ensures var (r, ok) := LoadMtdSettings(m);
      var path := SettingsPath(m.dataPath, m.mapName);
      && ok == LoadResult(m.disk.files, path).Ok?
      && (ok ==> CurrentSettings(r) == LoadResult(m.disk.files, path).value)
      && (!ok ==> var data := m.disk.files[path];
            && r.offset == (if ReadOffset(data).Ok? then ReadOffset(data).value.0 else m.offset)
            && r.angles == (if ReadAngles(data).Ok? then ReadAngles(data).value.0 else m.angles)
            && r.renderDistance == m.renderDistance)
      && r == m.(offset := r.offset, angles := r.angles, renderDistance := r.renderDistance)
  {
  }

  /**
   * A save finishes exactly when MAPTODES exists and no directory has the
   * file's name; loading the file then gives back the settings saved. A
   * save changes nothing but the disk, and a save that throws nothing at all.
   */
  lemma SaveWritesSettings(m: State)
    ensures var (r, ok) := SaveMtdSettings(m);
      var path := SettingsPath(m.dataPath, m.mapName);
      && ok == (PathMapToDes(m.dataPath) in m.disk.dirs && path !in m.disk.dirs)
      && (ok ==> LoadResult(r.disk.files, path) == Ok(CurrentSettings(m)))
      && (!ok ==> r == m)
      && r == m.(disk := r.disk)
  {
    SaveThenLoad(m.disk.files, SettingsPath(m.dataPath, m.mapName), CurrentSettings(m));
  }

  /** A save adds or replaces the map's settings file and leaves every other file and directory alone. */
  lemma SaveTouchesOneFile(m: State)
    ensures var (r, ok) := SaveMtdSettings(m);
      var path := SettingsPath(m.dataPath, m.mapName);
      && r.disk.dirs == m.disk.dirs
      && r.disk.files.Keys == m.disk.files.Keys + (if ok then {path} else {})
      && (forall p :: p in m.disk.files && p != path ==> r.disk.files[p] == m.disk.files[p])
  {
  }

  /** Loading right after a save that finished changes nothing. */
  lemma SaveThenLoadKeeps(m: State)
    requires SaveMtdSettings(m).1
    ensures LoadMtdSettings(SaveMtdSettings(m).0) == (SaveMtdSettings(m).0, true)
  {
    var r := SaveMtdSettings(m).0;
    SaveWritesSettings(m);
    SaveTouchesOneFile(m);
    LoadMatchesDecode(r);
  }

  /**
   * Awake changes only the disk and AutosaveMap; when nothing throws,
   * NACHSAVE exists afterwards, an existing MAPTODES makes AutosaveMap tell
   * whether AUTOSAVE exists, and running it again changes nothing.
   */
  lemma AwakeSettles(m: State)
    ensures var (r, ok) := Awake(m);
      && r == m.(disk := r.disk, autosaveMap := r.autosaveMap)
      && (ok ==> PathNachSave(m.dataPath) in r.disk.dirs)
      && (ok && PathMapToDes(m.dataPath) in m.disk.dirs ==> r.autosaveMap == (PathAutosave(m.dataPath) in m.disk.files))
      && (ok ==> Awake(r) == (r, true))
  {
    InitMakesNachSave(m.dataPath, m.disk);
    if Awake(m).1 {
      InitIdempotent(m.dataPath, m.disk);
    }
  }

  lemma FirstIsMember(s: seq<Handle>)
    ensures s != [] ==> s[0] in s
  {
  }

  /** Instantiate keeps the container invariant and issues a handle never stored before. */
  lemma InstantiateValid(m: State, t: Subtree)
    requires Valid(m)
    ensures var (r, h) := Instantiate(m, t);
      && Valid(r) && h !in m.copies && r.copies.Keys == m.copies.Keys + {h}
      && !(Some(h) == m.backdrop || Some(h) == m.water || Some(h) == m.sky)
  {
    var (r, h) := Instantiate(m, t);
    assert h !in m.copies;
    assert r.copies.Keys == (set x | x in r.children) by {
      forall x ensures x in r.copies.Keys <==> x in r.children {
        assert x in r.children <==> x in m.children || x == h;
      }
    }
  }

  /** Destroying a list of handles removes exactly those, and nothing else changes. */
  lemma {:induction false} DestroyEachRemoves(m: State, hs: seq<Handle>)
    ensures var r := DestroyEach(m, hs);
      && r == m.(copies := r.copies, children := r.children)
      && (forall h :: h in r.copies <==> h in m.copies && h !in hs)
      && (forall h :: h in r.copies ==> r.copies[h] == m.copies[h])
      && (forall h :: h in r.children <==> h in m.children && h !in hs)
    decreases |hs|
  {
    if hs != [] {
      var front := hs[..|hs| - 1];
      DestroyEachRemoves(m, front);
      assert forall h :: h in hs <==> h in front || h == hs[|hs| - 1] by {
        assert hs == front + [hs[|hs| - 1]];
      }
    }
  }

  /** After DestroyChildObjects the container is empty, and nothing else changed. */
  lemma DestroyChildObjectsEmpties(m: State)
    requires Valid(m)
    ensures DestroyChildObjects(m) == m.(children := [], copies := map[])
    ensures Valid(DestroyChildObjects(m))
  {
    DestroyEachRemoves(m, m.children);
    var r := DestroyChildObjects(m);
    FirstIsMember(r.children);
    assert r.copies.Keys == {};
  }

  /** A state whose container keys, children, handles and slots match a valid one's is valid too. */
  lemma ValidWhenKeysKept(m: State, r: State)
    requires Valid(m)
    requires r.children == m.children && r.nextHandle == m.nextHandle && r.copies.Keys == m.copies.Keys
    requires r.backdrop == m.backdrop && r.water == m.water && r.sky == m.sky
    ensures Valid(r)
  {
  }

  /** SetActive on one live copy changes that copy's own flag and nothing else. */
  lemma SetActiveOnly(m: State, h: Handle, value: bool)
    requires h in m.copies
    ensures var r := SetActive(m, h, value);
      && r == m.(copies := r.copies)
      && r.copies.Keys == m.copies.Keys
      && r.copies[h][0].activeSelf == value
      && r.copies[h] == WithActive(m.copies[h], value)
      && (forall x :: x in r.copies && x != h ==> r.copies[x] == m.copies[x])
  {
  }

  /** ... so SetActive changes the copies in their flags only. */
  lemma SetActiveFlagsOnly(m: State, h: Handle, value: bool)
    requires h in m.copies
    ensures FlagsOnly(m, SetActive(m, h, value))
  {
  }

  /** Every state differs from itself at most in the copies' flags. */
  lemma FlagsOnlyRefl(m: State)
    ensures FlagsOnly(m, m)
  {
  }

  /** Two changes of flags only are one change of flags only. */
  lemma FlagsOnlyTrans(a: State, b: State, c: State)
    requires FlagsOnly(a, b) && FlagsOnly(b, c)
    ensures FlagsOnly(a, c)
  {
  }

  /**
   * A show or hide sets the backdrop, the sky copy and the water copy to
   * the same active flag, and finishes exactly when the sky and water
   * copies exist.
   */
  lemma SetBackdropActiveShows(m: State, value: bool)
    requires Alive(m, m.backdrop)
    ensures var (r, ok) := SetBackdropActive(m, value);
      && ok == (Alive(m, m.sky) && Alive(m, m.water))
      && (ok ==> ShownAs(r, value))
  {
    var m1 := SetActive(m, m.backdrop.value, value);
    SetActiveOnly(m, m.backdrop.value, value);
    if Alive(m1, m1.sky) {
      var m2 := SetActive(m1, m1.sky.value, value);
      SetActiveOnly(m1, m1.sky.value, value);
      if Alive(m2, m2.water) {
        SetActiveOnly(m2, m2.water.value, value);
      }
    }
  }

  /** A show or hide touches only the backdrop, sky and water copies, and keeps the container's handles. */
  lemma SetBackdropActiveOnly(m: State, value: bool)
    requires Alive(m, m.backdrop)
    ensures var (r, ok) := SetBackdropActive(m, value);
      && r == m.(copies := r.copies)
      && r.copies.Keys == m.copies.Keys
      && (forall h :: h in r.copies && Some(h) != m.backdrop && Some(h) != m.sky && Some(h) != m.water ==>
            r.copies[h] == m.copies[h])
  {
    var m1 := SetActive(m, m.backdrop.value, value);
    SetActiveOnly(m, m.backdrop.value, value);
    if Alive(m1, m1.sky) {
      var m2 := SetActive(m1, m1.sky.value, value);
      SetActiveOnly(m1, m1.sky.value, value);
      if Alive(m2, m2.water) {
        SetActiveOnly(m2, m2.water.value, value);
      }
    }
  }

  /** A show or hide changes the copies in their own active flags only: no pose, layer or component changes. */
  lemma SetBackdropActiveFlagsOnly(m: State, value: bool)
    requires Alive(m, m.backdrop)
    ensures FlagsOnly(m, SetBackdropActive(m, value).0)
  {
    var m1 := SetActive(m, m.backdrop.value, value);
    SetActiveFlagsOnly(m, m.backdrop.value, value);
    if Alive(m1, m1.sky) {
      var m2 := SetActive(m1, m1.sky.value, value);
      SetActiveFlagsOnly(m1, m1.sky.value, value);
      FlagsOnlyTrans(m, m1, m2);
      if Alive(m2, m2.water) {
        SetActiveFlagsOnly(m2, m2.water.value, value);
        FlagsOnlyTrans(m, m2, SetActive(m2, m2.water.value, value));
      }
    }
  }

  /**
   * Posing puts the backdrop at minus the offset and angles and the water
   * at height minus offset.y; it finishes exactly when the water copy
   * exists, a throw comes after the backdrop was already placed, and no
   * object's active flag changes.
   */
  lemma ApplyTransformPoses(m: State)
    requires Alive(m, m.backdrop)
    ensures var (r, ok) := ApplyTransform(m);
      && ok == Alive(m, m.water)
      && (ok ==> Posed(r))
      && (!ok ==> r.copies[m.backdrop.value] == Placed(m.copies[m.backdrop.value], NegVec(m.offset), NegVec(m.angles)))
      && r == m.(copies := r.copies)
      && r.copies.Keys == m.copies.Keys
      && (forall h :: h in r.copies ==> r.copies[h][0].activeSelf == m.copies[h][0].activeSelf)
  {
    var b := m.backdrop.value;
    var m1 := m.(copies := m.copies[b := Placed(m.copies[b], NegVec(m.offset), NegVec(m.angles))]);
    assert m1.copies.Keys == m.copies.Keys;
    if Alive(m1, m1.water) {
      var w := m1.water.value;
      var r := m1.(copies := m1.copies[w := Moved(m1.copies[w], WaterPosition(m1.offset))]);
      assert r.copies.Keys == m.copies.Keys;
    }
  }

  /** The captured backdrop is a new child; nothing but the container and the backdrop field changes. */
  lemma CaptureRootValid(m: State, root: Subtree)
    requires Valid(m)
    ensures var r := CaptureRoot(m, root);
      && Valid(r)
      && r.backdrop == Some(m.nextHandle)
      && r.copies == m.copies[m.nextHandle := Capture(root, m.containerActive)]
      && r.nextHandle == m.nextHandle + 1
      && r == m.(children := r.children, copies := r.copies, nextHandle := r.nextHandle, backdrop := r.backdrop)
  {
    InstantiateValid(m, root);
  }

  /** One turn of the copy loop keeps the container invariant and touches only the container and the slots. */
  lemma CopyIfMatchKeeps(m: State, f: Found)
    requires Valid(m)
    ensures var r := CopyIfMatch(m, f);
      && Valid(r)
      && r.nextHandle >= m.nextHandle
  {
    if f.comp.typeName == WaterTypeName || f.comp.typeName == SkyTypeName {
      InstantiateValid(m, f.holder);
      var (m1, h) := Instantiate(m, f.holder);
      SetActiveOnly(m1, h, false);
      ValidWhenKeysKept(m1, SetActive(m1, h, false));
    }
  }

  /** The copy loop changes only the container and the two slots. */
  lemma {:induction false} CopyWaterAndSkyOnly(m: State, found: seq<Found>)
    ensures var r := CopyWaterAndSky(m, found);
      r == m.(children := r.children, copies := r.copies, nextHandle := r.nextHandle, water := r.water, sky := r.sky)
    decreases |found|
  {
    if found != [] {
      CopyWaterAndSkyOnly(m, found[..|found| - 1]);
    }
  }

  /** The copy loop keeps the container invariant and every copy there was, and adds only new handles. */
  lemma {:induction false} CopyWaterAndSkyKeeps(m: State, found: seq<Found>)
    requires Valid(m)
    ensures var r := CopyWaterAndSky(m, found);
      && Valid(r)
      && r.nextHandle >= m.nextHandle
      && (forall h :: h in m.copies ==> h in r.copies && r.copies[h] == m.copies[h])
      && (forall h :: h in r.copies ==> h in m.copies || h >= m.nextHandle)
    decreases |found|
  {
    if found != [] {
      var n := |found| - 1;
      CopyWaterAndSkyKeeps(m, found[..n]);
      var prior := CopyWaterAndSky(m, found[..n]);
      CopyIfMatchKeeps(prior, found[n]);
      CopyIfMatchStep(prior, found[n], WaterTypeName);
    }
  }

  /** The field that keeps the copy of the last holder of a component named `name`. */
  function SlotFor(m: State, name: string): Option<Handle>
  {
    if name == WaterTypeName then m.water else m.sky
  }

  /** One turn of the copy loop fills the matching slot with a new hidden copy and keeps every copy there was. */
  lemma CopyIfMatchStep(m: State, f: Found, name: string)
    requires Valid(m) && (name == WaterTypeName || name == SkyTypeName)
    ensures var r := CopyIfMatch(m, f);
      && (f.comp.typeName == name ==>
            Alive(r, SlotFor(r, name)) && r.copies[SlotFor(r, name).value] == WithActive(f.holder, false))
      && (f.comp.typeName != name ==> SlotFor(r, name) == SlotFor(m, name))
      && (forall h :: h in m.copies ==> h in r.copies && r.copies[h] == m.copies[h])
      && (forall h :: h in r.copies ==> h in m.copies || h == m.nextHandle)
  {
    if f.comp.typeName == WaterTypeName || f.comp.typeName == SkyTypeName {
      InstantiateValid(m, f.holder);
      var (m1, h) := Instantiate(m, f.holder);
      SetActiveOnly(m1, h, false);
      ValidWhenKeysKept(m1, SetActive(m1, h, false));
    }
  }

  /**
   * The copy loop leaves the water or sky slot as SlotAfter says: the
   * hidden copy of the last holder of a matching component, or the old,
   * dead value.
   */
  lemma {:induction false} CopyWaterAndSkySlot(m: State, found: seq<Found>, name: string)
    requires Valid(m) && !Alive(m, SlotFor(m, name)) && (name == WaterTypeName || name == SkyTypeName)
    ensures var r := CopyWaterAndSky(m, found);
      SlotAfter(r, SlotFor(r, name), SlotFor(m, name), found, name)
    decreases |found|
  {
    if found != [] {
      var n := |found| - 1;
      CopyWaterAndSkySlot(m, found[..n], name);
      CopyWaterAndSkyKeeps(m, found[..n]);
      LastMatchStep(found, n, name);
      assert found[..n + 1] == found;
      CopyIfMatchStep(CopyWaterAndSky(m, found[..n]), found[n], name);
    }
  }

  /**
   * SaveMap destroys every old copy and keeps the container invariant;
   * without a map root it throws with the container empty and everything
   * else as it was. It changes only the container, the three object
   * fields and the map name.
   */
  lemma SaveMapKeeps(m: State, view: SceneView)
    requires Valid(m)
    ensures var (r, ok) := SaveMap(m, view);
      && Valid(r)
      && ok == view.mapRoot.Some?
      && (forall h :: h in m.copies ==> h !in r.copies)
      && (!ok ==> r == m.(children := [], copies := map[]))
  {
    DestroyChildObjectsEmpties(m);
    var m1 := DestroyChildObjects(m);
    if view.mapRoot.Some? {
      var m2 := CaptureRoot(m1, view.mapRoot.value);
      CaptureRootValid(m1, view.mapRoot.value);
      CopyWaterAndSkyKeeps(m2, view.components);
    }
  }

  /** SaveMap changes only the container, the three object fields and the map name. */
  lemma SaveMapOnly(m: State, view: SceneView)
    ensures var r := SaveMap(m, view).0;
      r == m.(children := r.children, copies := r.copies, nextHandle := r.nextHandle, backdrop := r.backdrop,
              water := r.water, sky := r.sky, mapName := r.mapName)
  {
    DestroyEachRemoves(m, m.children);
    var m1 := DestroyChildObjects(m);
    if view.mapRoot.Some? {
      CopyWaterAndSkyOnly(CaptureRoot(m1, view.mapRoot.value), view.components);
    }
  }

  /**
   * A SaveMap that finishes leaves the capture of the map root, the water
   * and sky fields holding the hidden copies of the last holders found,
   * and the map's name.
   */
  lemma SaveMapCaptures(m: State, view: SceneView)
    requires Valid(m) && view.mapRoot.Some?
    ensures Captured(SaveMap(m, view).0, view, m.water, m.sky)
  {
    DestroyChildObjectsEmpties(m);
    var m1 := DestroyChildObjects(m);
    var m2 := CaptureRoot(m1, view.mapRoot.value);
    CaptureRootValid(m1, view.mapRoot.value);
    CopyWaterAndSkyKeeps(m2, view.components);
    CopyWaterAndSkyOnly(m2, view.components);
    CopyWaterAndSkySlot(m2, view.components, WaterTypeName);
    CopyWaterAndSkySlot(m2, view.components, SkyTypeName);
  }

  /**
   * After a SaveMap that finished, the backdrop is inactive, its root and
   * every node the relabelling reaches are on the Terrain layer, and none
   * of its components is a Map or a user script.
   */
  lemma SaveMapSanitises(m: State, view: SceneView)
    requires Valid(m) && SaveMap(m, view).1
    ensures var r := SaveMap(m, view).0;
      && Alive(r, r.backdrop)
      && var t := r.copies[r.backdrop.value];
      && !t[0].activeSelf && t[0].layer == TerrainLayer
      && (forall i :: 0 <= i < |t| ==> t[i].layer == TerrainLayer || (i < |view.mapRoot.value| && !ActiveInHierarchy(view.mapRoot.value, m.containerActive, i)))
      && (forall i, c :: 0 <= i < |t| && c in t[i].comps ==> IsNative(c) && !IsMap(c))
      && r.mapName == Some(view.mapName)
  {
    SaveMapKeeps(m, view);
    SaveMapOnly(m, view);
    SaveMapCaptures(m, view);
    CaptureSanitised(view.mapRoot.value, m.containerActive);
  }
}
