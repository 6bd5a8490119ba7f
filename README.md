# MapToDesigner, modelled in Dafny

MapToDesigner is a SimplePlanes mod component. It copies the current
map into the aircraft designer as a backdrop, so an aircraft can be built
against the terrain it will fly over. The whole component is one
MonoBehaviour, `Assets/Scripts/MapToDesigner.cs`. This project models it:

- `Awake` prepares the mod's folders (`NACHSAVE/MAPTODES`) and reads the
  `AUTOSAVE` marker file that switches autosave on.
- `Update` runs once per frame. It compares the polled `IsInLevel`,
  `IsInDesigner` and `IsPaused` flags with the previous frame's:
  - entering a level or the designer loads the map's backdrop settings;
  - entering the designer shows the buttons and the backdrop;
  - every designer frame sets the cameras' far clip planes and poses the
    backdrop and its water;
  - leaving the designer hides everything;
  - pausing in the sandbox captures the map (`SaveMap`) when autosave is on;
  - leaving a level saves the settings.
- `LoadMtdSettings` and `SaveMtdSettings` read and write the per-map
  settings file. It holds a `BinaryWriter` string header, then seven
  little-endian floats: offset, angles, render distance.
- `SaveMap` destroys the previous copies (`DestroyChildObjects`) and copies
  the map root into the container. It moves the copy to the Terrain layer
  and strips the `Map` marker and every non-`UnityEngine` component
  (`DestroyChildUserScripts`). It hides the copy. It also copies every
  water (`TasharenWater`) and sky (`TOD_Sky`) holder it finds, hidden, into
  the container; the water and sky fields keep the last copy of each.
- `ToggleButtons` flips the buttons' visibility.

## Modules

- `Maybe` (maybe.dfy): an optional value, standing for a C# reference that
  may be null.
- `Codec` (codec.dfy): the settings file's bytes.
  - Floats are kept as their 32-bit patterns, and unary minus flips the
    sign bit.
  - The 7-bit encoded length of .NET's `BinaryReader`/`BinaryWriter` is
    written out, with the reader's five-byte limit and Int32 sign check.
  - Decoding what was encoded gives the record back, and every strict
    prefix of an encoding fails.
- `Store` (store.dfy): the disk as a value (directories and files) and the
  paths the mod uses.
  - `InitStore` is the folder logic of `Awake`.
  - `FileSystem` is a class around the disk, since the disk outlives the
    component.
- `Scene` (scene.dfy): a captured object tree as a flat sequence of nodes,
  each holding its parent's index, its own active flag, its layer and its
  components.
  - The relabelling and stripping loops are methods proved equal to the
    functions `Relabelled` and `Stripped`.
  - `CaptureSanitised` states what a capture leaves.
- `Controller` (controller.dfy): the edge-triggered decisions of `Update`.
  - `Plan` is the list of actions one frame performs, in order.
  - Lemmas state when settings are loaded or saved, when the backdrop is
    shown or hidden, and when a capture happens.
- `Behaviour` (behaviour.dfy): every field of the component plus the disk,
  as one `State` value. There is one function per method of the component,
  returning the new state and whether the method finished or threw.
  - The copies under `CopiedObjectParent` are handles in a map, and
    destroyed handles stay in fields as Unity's "fake null".
  - `Valid` is the invariant that the container's children are exactly the
    live copies.
  - `FlagsOnly` says that two states' copies differ at most in each copy's
    own active flag, which is all a show or a hide may change.
- `Frames` (frames.dfy): one `Update` frame, assembled from its parts.
  - Each part reports which planned actions it carried out, in order, and
    whether it threw.
  - A throw ends the frame, so nothing after it runs, including the
    bookkeeping of lines 137 and 156-157.
  - `UpdateFollowsPlan` ties every frame to `Controller.Plan`.
- `Designer` (designer.dfy): the component itself as a class,
  `Designer.MapToDesigner`, with the source's fields.
  - Every method is proved to leave `Model()` (its fields plus the disk) as
    the matching `Behaviour` or `Frames` function says.
  - `Tick` is `Update`. It also sets an array of camera far clip planes, in
    a loop, exactly on the frames that reach lines 101-104.

An exception in the source (`MissingReferenceException` on a destroyed
object, `NullReferenceException` on a missing one, `EndOfStreamException`
or `IOException` from a file) ends the frame. The model returns
`ok == false` and keeps every change made before the throw.

## Model

| member | source | states |
|---|---|---|
| Designer.MapToDesigner.Tick | Assets/Scripts/MapToDesigner.cs:72-158 | One `Update` frame leaves exactly the state `Frames.Update` gives and keeps the container invariant; the cameras' far clip planes become the render distance exactly when the frame reaches the camera loop, and are untouched otherwise |
| Designer.MapToDesigner.Play | Assets/Scripts/MapToDesigner.cs:77-139 | Level entry then the designer or sandbox part, as `Frames.Play`, with the cameras set exactly when the loop is reached |
| Designer.MapToDesigner.Run | Assets/Scripts/MapToDesigner.cs:77-154 | Everything a frame does before the flags are remembered, as `Frames.Run`, with the same camera guarantee |
| Designer.MapToDesigner.InLevel | Assets/Scripts/MapToDesigner.cs:83-139 | The designer or sandbox part of a frame, as `Frames.InLevel`; cameras set only in the designer when entering it did not throw |
| Designer.MapToDesigner.DesignerStep | Assets/Scripts/MapToDesigner.cs:85-113 | A designer frame, as `Frames.DesignerStep`; every camera gets the render distance unless entering the designer threw |
| Designer.MapToDesigner.EnterDesigner | Assets/Scripts/MapToDesigner.cs:87-99 | Entering the designer, as `Frames.EnterDesigner` |
| Designer.MapToDesigner.SandboxStep | Assets/Scripts/MapToDesigner.cs:115-138 | A sandbox frame, as `Frames.SandboxStep` |
| Designer.MapToDesigner.AutosaveStep | Assets/Scripts/MapToDesigner.cs:132-135 | The autosave capture, as `Frames.AutosaveStep` |
| Designer.MapToDesigner.HideAll | Assets/Scripts/MapToDesigner.cs:119-130 | Hiding backdrop and buttons, as `Frames.HideAll` |
| Designer.MapToDesigner.ExitStep | Assets/Scripts/MapToDesigner.cs:141-154 | Leaving a level, as `Frames.ExitStep` |
| Designer.MapToDesigner.LevelEntry | Assets/Scripts/MapToDesigner.cs:77-81 | Entering a level, as `Frames.LevelEntry` |
| Designer.MapToDesigner.LevelExit | Assets/Scripts/MapToDesigner.cs:141-154 | The exit part of a frame, as `Frames.LevelExit` |
| Designer.MapToDesigner.Poll | Assets/Scripts/MapToDesigner.cs:74-75 | Only the current level and designer flags change, to the polled values |
| Designer.MapToDesigner.Remember | Assets/Scripts/MapToDesigner.cs:156-157 | Only the previous level and designer flags change, to the current ones |
| Designer.MapToDesigner.constructor | Assets/Scripts/MapToDesigner.cs:12-39 | The field initialisers: no backdrop, zero offset and angles, render distance 50000, all flags false, autosave on, empty container; the invariant holds |
| Designer.MapToDesigner.Awake | Assets/Scripts/MapToDesigner.cs:41-70 | The disk and AutosaveMap change as `Behaviour.Awake` says, and the container invariant is kept |
| Designer.MapToDesigner.LoadMtdSettings | Assets/Scripts/MapToDesigner.cs:160-181 | Storing each vector as it is read, the fields end as `Behaviour.LoadMtdSettings` says |
| Designer.MapToDesigner.SaveMtdSettings | Assets/Scripts/MapToDesigner.cs:183-199 | The file is written as `Behaviour.SaveMtdSettings` says |
| Designer.MapToDesigner.SaveMap | Assets/Scripts/MapToDesigner.cs:201-254 | The capture, as `Behaviour.SaveMap`, keeping the container invariant |
| Designer.MapToDesigner.CopyWaterAndSky | Assets/Scripts/MapToDesigner.cs:234-248 | The loop over the found components leaves what `Behaviour.CopyWaterAndSky` gives |
| Designer.MapToDesigner.CopyIfMatch | Assets/Scripts/MapToDesigner.cs:237-247 | One turn of that loop |
| Designer.MapToDesigner.CopyHidden | Assets/Scripts/MapToDesigner.cs:240-241 | Instantiate into the container, then hide the copy |
| Designer.MapToDesigner.CaptureRoot | Assets/Scripts/MapToDesigner.cs:212-231 | The map root's copy becomes the backdrop, relabelled, cleaned and hidden, as `Behaviour.CaptureRoot` |
| Designer.MapToDesigner.DestroyChildObjects | Assets/Scripts/MapToDesigner.cs:261-277 | Copying the children into an array and destroying each one leaves what `Behaviour.DestroyChildObjects` gives |
| Designer.MapToDesigner.ToggleButtons | Assets/Scripts/MapToDesigner.cs:256-259 | As `Behaviour.ToggleButtons`, keeping the container invariant |
| Designer.MapToDesigner.SetBackdropActive | Assets/Scripts/MapToDesigner.cs:93-98 | Backdrop, sky, then water set active or inactive, as `Behaviour.SetBackdropActive` |
| Designer.MapToDesigner.ApplyTransform | Assets/Scripts/MapToDesigner.cs:106-113 | As `Behaviour.ApplyTransform` |
| Designer.SetFarClipPlanes | Assets/Scripts/MapToDesigner.cs:101-104 | Every camera's far clip plane equals the given distance |
| Scene.RelabelLayers | Assets/Scripts/MapToDesigner.cs:215-224 | The loop puts the root, and every node active in the hierarchy, on the Terrain layer, as `Scene.Relabelled` |
| Scene.StripUserScripts | Assets/Scripts/MapToDesigner.cs:279-290 | The loop leaves every node with exactly its native components, in order |
| Scene.KeepNative | Assets/Scripts/MapToDesigner.cs:282-289 | One node's kept components are exactly its `UnityEngine` ones, in order |
| Scene.CaptureSanitised | Assets/Scripts/MapToDesigner.cs:213-231 | The capture has the original's shape and parents, its root hidden and on the Terrain layer, exactly the nodes active in the hierarchy relabelled, and only native components (so no Map) |
| Scene.NativeIgnoresMap | Assets/Scripts/MapToDesigner.cs:227-228 | Destroying the Map component before stripping user scripts changes nothing the strip keeps |
| Scene.LastMatch | Assets/Scripts/MapToDesigner.cs:235-248 | The index found is a match with no match after it, or there is no match at all |
| Controller.LoadsOnEntry | Assets/Scripts/MapToDesigner.cs:77-90 | Settings are loaded exactly on entering a level or, in a level, the designer, first on a level entry, twice when both happen at once |
| Controller.SavesOnExit | Assets/Scripts/MapToDesigner.cs:141-154 | Settings are saved exactly on leaving a level, followed by hiding the backdrop (if any) and the buttons, and nothing else |
| Controller.CamerasInDesigner | Assets/Scripts/MapToDesigner.cs:85-113 | The far clip planes are set exactly on designer frames in a level, and the backdrop posed exactly when it also exists |
| Controller.AutosaveGate | Assets/Scripts/MapToDesigner.cs:115-135 | A capture happens exactly in the sandbox with autosave on, on the frame the game becomes paused |
| Controller.VisibilityGuarded | Assets/Scripts/MapToDesigner.cs:87-154 | The backdrop is shown exactly when entering the designer with a backdrop, hidden exactly when leaving the designer or the level with one; never both, and the buttons are never both shown and hidden |
| Controller.SteadyStateQuiet | Assets/Scripts/MapToDesigner.cs:72-158 | A frame whose flags match the remembered ones does nothing but, in the designer, set the cameras and pose the backdrop |
| Controller.TransitionSequence | Assets/Scripts/MapToDesigner.cs:72-158 | A concrete run: off, level, designer, back to sandbox, off gives nothing, load, designer entry, designer exit, level exit |
| Controller.Next | Assets/Scripts/MapToDesigner.cs:137 | The remembered pause flag changes only in the sandbox of a level |
| Frames.UpdateFollowsPlan | Assets/Scripts/MapToDesigner.cs:72-158 | The actions a frame carries out are, in order, exactly `Controller.Plan` when it finishes, or a prefix of it that stops before an action that can throw |
| Frames.UpdateRemembers | Assets/Scripts/MapToDesigner.cs:137-157 | A frame that finishes remembers the flags as `Controller.Next` says; one that throws remembers nothing |
| Frames.UpdateKeepsValid | Assets/Scripts/MapToDesigner.cs:72-158 | Every frame keeps the container invariant |
| Frames.UpdateInDesigner | Assets/Scripts/MapToDesigner.cs:85-113 | A designer frame that finishes poses a live backdrop; entering also loads the settings and shows buttons and backdrop; staying neither loads nor touches the buttons |
| Frames.UpdateSettings | Assets/Scripts/MapToDesigner.cs:77-90 | Settings change only on a frame entering a level or the designer, and are then the ones on disk |
| Frames.UpdateDisk | Assets/Scripts/MapToDesigner.cs:141-144 | Only a frame leaving the level writes the disk, and it writes the current settings to the map's file |
| Frames.UpdateHides | Assets/Scripts/MapToDesigner.cs:119-154 | Leaving the level or the designer hides the buttons and a live backdrop |
| Frames.UpdateAutosave | Assets/Scripts/MapToDesigner.cs:132-135 | An autosave frame that finishes leaves the capture `Behaviour.Captured` describes |
| Frames.UpdateKeepsObjects | Assets/Scripts/MapToDesigner.cs:72-158 | Without a capture a frame leaves the container and the object fields alone |
| Frames.CaptureWithoutRootRepeats | Assets/Scripts/MapToDesigner.cs:203-212 | On a map without a Map root, a paused sandbox frame empties the container and throws, remembering nothing, so the next identical frame does the same again |
| Frames.EnterDesignerShows | Assets/Scripts/MapToDesigner.cs:87-99 | Entering the designer loads the settings from disk and shows the buttons and a live backdrop, up to the first throw |
| Frames.EnterDesignerOnly | Assets/Scripts/MapToDesigner.cs:87-99 | It changes only the settings, the buttons and the copies' own active flags; every copy keeps its handle, pose, layers and components |
| Frames.DesignerStepPoses | Assets/Scripts/MapToDesigner.cs:85-113 | A designer frame follows `DesignerPlan` and poses a live backdrop |
| Frames.DesignerStepOnly | Assets/Scripts/MapToDesigner.cs:85-113 | It changes only settings, buttons and copies' contents |
| Frames.HideAllHides | Assets/Scripts/MapToDesigner.cs:119-130 | Hiding follows its plan and hides the buttons and a live backdrop |
| Frames.SandboxStepReached | Assets/Scripts/MapToDesigner.cs:115-138 | The actions a sandbox frame carries out are, in order, `SandboxPlan` when it finishes, or a prefix of it that stops before an action that can throw |
| Frames.SandboxStepOnly | Assets/Scripts/MapToDesigner.cs:115-138 | It remembers the pause flag only when it finishes, and changes only the fields a capture or a hide touches |
| Frames.SandboxStepValid | Assets/Scripts/MapToDesigner.cs:115-138 | It keeps the container invariant |
| Frames.SandboxStepHides | Assets/Scripts/MapToDesigner.cs:119-130 | Leaving the designer for the sandbox hides buttons and backdrop |
| Frames.SandboxStepCaptures | Assets/Scripts/MapToDesigner.cs:132-135 | An autosave leaves what `Captured` describes |
| Frames.ExitStepSaves | Assets/Scripts/MapToDesigner.cs:141-154 | Leaving the level writes the settings file and hides buttons and backdrop, up to the first throw |
| Frames.LevelEntryLoads | Assets/Scripts/MapToDesigner.cs:77-81 | Entering a level loads the settings from disk and otherwise does nothing |
| Frames.InLevelReached | Assets/Scripts/MapToDesigner.cs:83-139 | The actions of the designer or sandbox part are, in order, its share of the plan when it finishes, or a prefix of it that stops before an action that can throw |
| Frames.InLevelOnly | Assets/Scripts/MapToDesigner.cs:83-139 | Only the sandbox records the pause flag; neither part touches the disk or AutosaveMap |
| Frames.InLevelSettings | Assets/Scripts/MapToDesigner.cs:83-139 | Only entering the designer loads settings |
| Frames.LevelExitOnly | Assets/Scripts/MapToDesigner.cs:141-154 | The exit part changes only the disk, the buttons and the copies' own active flags; every copy keeps its handle, pose, layers and components |
| Behaviour.LoadMatchesDecode | Assets/Scripts/MapToDesigner.cs:160-181 | A load finishes exactly when the file is missing (defaults) or decodes (its values); a file ending early throws after storing the vectors already read |
| Behaviour.SaveWritesSettings | Assets/Scripts/MapToDesigner.cs:183-199 | A save finishes exactly when MAPTODES exists and no directory has the file's name, and the file then loads back as the current settings |
| Behaviour.SaveTouchesOneFile | Assets/Scripts/MapToDesigner.cs:183-199 | A save adds or replaces only the map's settings file |
| Behaviour.SaveThenLoadKeeps | Assets/Scripts/MapToDesigner.cs:160-199 | Loading right after a save that finished changes nothing |
| Behaviour.AwakeSettles | Assets/Scripts/MapToDesigner.cs:41-70 | Awake changes only the disk and AutosaveMap, leaves NACHSAVE, reads AUTOSAVE when MAPTODES exists, and a second Awake changes nothing |
| Behaviour.InstantiateValid | Assets/Scripts/MapToDesigner.cs:213 | Instantiate keeps the invariant and issues a fresh handle |
| Behaviour.DestroyEachRemoves | Assets/Scripts/MapToDesigner.cs:273-276 | Destroying a list of handles removes exactly those |
| Behaviour.DestroyChildObjectsEmpties | Assets/Scripts/MapToDesigner.cs:261-277 | The container ends empty and nothing else changes |
| Behaviour.SetActiveOnly | Assets/Scripts/MapToDesigner.cs:231 | SetActive turns the copy into itself with only its root's own flag set to the value; every other copy and field stays |
| Behaviour.SetActiveFlagsOnly | Assets/Scripts/MapToDesigner.cs:231 | SetActive changes the copies in their own active flags only |
| Behaviour.SetBackdropActiveShows | Assets/Scripts/MapToDesigner.cs:93-98 | Showing or hiding finishes exactly when the sky and water copies exist, and then all three have the flag |
| Behaviour.SetBackdropActiveOnly | Assets/Scripts/MapToDesigner.cs:93-98 | It touches only those three copies |
| Behaviour.SetBackdropActiveFlagsOnly | Assets/Scripts/MapToDesigner.cs:93-98 | A show or hide changes the copies in their own active flags only, never a pose, layer or component |
| Behaviour.ApplyTransformPoses | Assets/Scripts/MapToDesigner.cs:106-113 | Posing puts the backdrop at minus offset and angles and the water at height minus offset.y, finishes exactly when the water exists, a throw leaving the backdrop already placed, and changes no active flag |
| Behaviour.CaptureRootValid | Assets/Scripts/MapToDesigner.cs:212-231 | The captured backdrop is a new child holding `Capture` of the root |
| Behaviour.CopyIfMatchKeeps | Assets/Scripts/MapToDesigner.cs:237-247 | One turn of the copy loop keeps the invariant |
| Behaviour.CopyIfMatchStep | Assets/Scripts/MapToDesigner.cs:237-247 | A match fills its slot with a new hidden copy; anything else leaves the slot |
| Behaviour.CopyWaterAndSkyOnly | Assets/Scripts/MapToDesigner.cs:234-248 | The loop changes only the container and the two slots |
| Behaviour.CopyWaterAndSkyKeeps | Assets/Scripts/MapToDesigner.cs:234-248 | The loop keeps every copy there was and adds only new handles |
| Behaviour.CopyWaterAndSkySlot | Assets/Scripts/MapToDesigner.cs:234-248 | Each slot ends holding a hidden copy of the last matching holder, or its old dead value |
| Behaviour.SaveMapKeeps | Assets/Scripts/MapToDesigner.cs:201-254 | SaveMap destroys every old copy and keeps the invariant; without a map root it throws with the container empty |
| Behaviour.SaveMapOnly | Assets/Scripts/MapToDesigner.cs:201-254 | It changes only the container, the object fields and the map name |
| Behaviour.SaveMapCaptures | Assets/Scripts/MapToDesigner.cs:201-254 | A SaveMap that finishes leaves the sanitised backdrop, the water and sky fields holding hidden copies of the last holders found, and the map's name |
| Behaviour.SaveMapSanitises | Assets/Scripts/MapToDesigner.cs:213-231 | After it the backdrop is hidden, on the Terrain layer where relabelled, with no Map and no user script |
| Behaviour.ToggleButtons | Assets/Scripts/MapToDesigner.cs:256-259 | With active ancestors the flag flips; with inactive ones it becomes true; nothing else changes |
| Store.InitStore | Assets/Scripts/MapToDesigner.cs:43-69 | Awake only adds NACHSAVE and MAPTODES to the folders and an empty AUTOSAVE to the files; when nothing throws both folders exist and AutosaveMap tells whether AUTOSAVE exists |
| Store.InitThrows | Assets/Scripts/MapToDesigner.cs:51-67 | Awake throws exactly when NACHSAVE is a file, or MAPTODES is missing and is a file or would get a directory as its AUTOSAVE |
| Store.InitExisting | Assets/Scripts/MapToDesigner.cs:51-60 | With MAPTODES present, AutosaveMap tells whether AUTOSAVE exists |
| Store.InitFirstRun | Assets/Scripts/MapToDesigner.cs:61-67 | A first run creates MAPTODES and an empty AUTOSAVE and turns autosave on |
| Store.InitIdempotent | Assets/Scripts/MapToDesigner.cs:41-70 | A second Awake on the resulting disk changes nothing |
| Store.SecondRunAfterFirst | Assets/Scripts/MapToDesigner.cs:41-70 | After a first run every later run has autosave on |
| Store.MissingFileDefaults | Assets/Scripts/MapToDesigner.cs:175-180 | A missing file loads zero offset, zero angles and 50000 |
| Store.SaveThenLoad | Assets/Scripts/MapToDesigner.cs:160-199 | Loading what a save wrote gives the settings back |
| Store.FileSystem.CreateDirectory | Assets/Scripts/MapToDesigner.cs:52 | The directory is added unless a file has its path, which throws |
| Store.FileSystem.CreateFile | Assets/Scripts/MapToDesigner.cs:187 | The file is created or overwritten unless its directory is missing or a directory has its path |
| Codec.RoundTrip | Assets/Scripts/MapToDesigner.cs:160-199 | Decoding an encoding gives the record back, whatever the header and whatever follows |
| Codec.HeaderIgnored | Assets/Scripts/MapToDesigner.cs:169 | The header is skipped without being checked |
| Codec.Truncated | Assets/Scripts/MapToDesigner.cs:166-173 | Every strict prefix of an encoding fails to decode |
| Codec.SevenBitRoundTrip | Assets/Scripts/MapToDesigner.cs:169-190 | The 7-bit length written reads back, from anywhere in a byte sequence |
| Codec.SevenBitTruncated | Assets/Scripts/MapToDesigner.cs:169 | A length cut short ends in EndOfStream |
| Codec.SevenBitFitsInt32 | Assets/Scripts/MapToDesigner.cs:169-190 | Every Int32 length fits in the five bytes a reader accepts |
| Codec.SkipHeader | Assets/Scripts/MapToDesigner.cs:169 | The header string of an encoding is skipped exactly |
| Codec.BodyRoundTrip | Assets/Scripts/MapToDesigner.cs:170-197 | The seven floats read back in the order written |
| Codec.MtdFileSize | Assets/Scripts/MapToDesigner.cs:183-199 | The file written is 43 bytes long |
| Codec.NegInvolution | Assets/Scripts/MapToDesigner.cs:109-110 | Negating a float twice gives its bit pattern back |
| Codec.Neg | Assets/Scripts/MapToDesigner.cs:109-112 | Unary minus flips the sign bit and keeps the other 31 bits |
| Codec.SevenBit | Assets/Scripts/MapToDesigner.cs:190 | Every byte but the last has its high bit set |
| Codec.ReadSevenBit | Assets/Scripts/MapToDesigner.cs:169 | A length read stays within the data |
| Codec.ReadSingle | Assets/Scripts/MapToDesigner.cs:170-172 | A float is read exactly when four bytes remain, else EndOfStream |
| Codec.Encode | Assets/Scripts/MapToDesigner.cs:188-198 | The file written is the 7-bit length, the header, then 28 bytes of floats, with the header in place |
| Codec.SkipString | Assets/Scripts/MapToDesigner.cs:169 | Skipping the header string moves strictly forward and stays within the data |
| Codec.Decode | Assets/Scripts/MapToDesigner.cs:166-173 | A settings file loads exactly when its header string is intact and the 28 bytes of the seven floats follow it; a bad header fails as its skip does, and otherwise a failure is EndOfStream |

## Left out

- Registering the console commands (lines 43-44) and every `Debug.Log` /
  `Debug.LogError` call: they write to the console and change no state.
- `Destroy` in Unity takes effect at the end of the frame. Here it takes
  effect at once. In the source, objects destroyed by `SaveMap` are still
  found by the `FindObjectsOfType` calls later in the same call. The model
  assumes those searches do not see them, which holds while the old copies
  are inactive.
- `FindObjectOfType<Map>`, `FindObjectsOfType<GameObject>` and
  `FindObjectsOfType<Component>` are engine queries. `SceneView` stands for
  what they return. The order of the component list is the engine's, taken
  as given.
- `activeInHierarchy` of the copy's nodes is computed from their own
  flags and from whether `CopiedObjectParent` is active. The buttons'
  ancestors are a parameter of `ToggleButtons`.
- `Instantiate` is modelled as an exact copy under a new handle, with the
  engine's renaming (" (Clone)") left out.
- Floats are kept as bit patterns. No float arithmetic happens in the
  source besides unary minus, which is modelled.
- `Path.Combine` is modelled as joining with "/". Rooted second parts and
  platform separators are not modelled.
- Strings in a file: only the header is read, and it is skipped without
  being checked. Characters are not decoded.
- The cameras are an array parameter of `Tick`, not part of the state.
  `Camera.allCameras` is given by the caller.
- `MtdOffset.cs` and `MtdHeading.cs` are not part of this model.
  `MtdOffset.cs` (lines 33 and 35) is a UI script that adds float
  velocities to `BackdropOffset` from outside. `MtdHeading.cs` is marked
  deprecated and only rotates its own `MapGuide` transform. The model has
  no float arithmetic, so the offset and angles change only by a load.
- The Inspector references `ButtonsParent` and `CopiedObjectParent` are
  assumed to be set. Were either unassigned, `ToggleButtons` (line 258) and
  `SaveMap` (at line 263, in the `DestroyChildObjects` call of line 210)
  would throw `NullReferenceException`.
- Exceptions are `ok == false` results. The type of the exception is not
  kept.
