/**
 * The mod's files under the game's persistent data folder (MapToDesigner.cs
 * lines 31-67 and 160-199): the NACHSAVE folder, the MAPTODES folder in it,
 * the AUTOSAVE marker file and one settings file per map.
 */
module Store {
  import opened Maybe
  import opened Codec

  type Path = string

  /** The directories and files that exist, files with their contents. */
  datatype Disk = Disk(dirs: set<Path>, files: map<Path, seq<Byte>>)

  /** Path.Combine for a relative second part. */
  function Combine(dir: Path, name: string): Path
  {
    dir + "/" + name
  }

  function PathNachSave(root: Path): Path { Combine(root, "NACHSAVE") }
  function PathMapToDes(root: Path): Path { Combine(PathNachSave(root), "MAPTODES") }
  function PathAutosave(root: Path): Path { Combine(PathMapToDes(root), "AUTOSAVE") }

  /**
   * The settings file of a map: BackdropMapName + ".MTD" in MAPTODES. A map
   * name that was never set is C#'s null, which concatenates as "".
   */
  function SettingsPath(root: Path, mapName: Option<string>): Path
  {
    Combine(PathMapToDes(root), (if mapName.Some? then mapName.value else "") + ".MTD")
  }

  /**
   * Awake's effect on the disk (lines 51-67) and the AutosaveMap value it
   * settles on, or None when one of its calls throws: CreateDirectory where
   * a file is, File.Create where a directory is. It only adds NACHSAVE and
   * MAPTODES to the directories and an empty AUTOSAVE to the files; when
   * nothing throws both folders exist and AutosaveMap tells whether AUTOSAVE
   * exists afterwards.
   */
  function InitStore(root: Path, d: Disk): (r: (Disk, Option<bool>))
    ensures d.dirs <= r.0.dirs <= d.dirs + {PathNachSave(root), PathMapToDes(root)}
    ensures r.0.files == d.files || r.0.files == d.files[PathAutosave(root) := []]
    ensures r.1.Some? ==> PathNachSave(root) in r.0.dirs && PathMapToDes(root) in r.0.dirs
    ensures r.1.Some? ==> r.1.value == (PathAutosave(root) in r.0.files)
  {
    var nach, mtd, auto := PathNachSave(root), PathMapToDes(root), PathAutosave(root);
    if nach in d.files then (d, None)
    else
      var d1 := d.(dirs := d.dirs + {nach});
      if mtd in d1.dirs then (d1, Some(auto in d1.files))
      else if mtd in d1.files then (d1, None)
      else
        var d2 := d1.(dirs := d1.dirs + {mtd});
        if auto in d2.dirs then (d2, None)
        else (d2.(files := d2.files[auto := []]), Some(true))
  }

  /** What LoadMtdSettings reads from the disk for a settings file path. */
  function LoadResult(files: map<Path, seq<Byte>>, path: Path): Result<Settings>
  {
    if path in files then Decode(files[path]) else Ok(Defaults)
  }

  /** The file system: SaveMtdSettings and Awake change it; it outlives the mod object. */
  class FileSystem {
    var disk: Disk

    constructor (d: Disk)
      ensures disk == d
    {
      disk := d;
    }

    /** Directory.CreateDirectory: nothing happens if it exists, it throws if a file is there. */
    method CreateDirectory(p: Path) returns (ok: bool)
      modifies this
      ensures ok == (p !in old(disk).files)
      ensures disk == if ok then old(disk).(dirs := old(disk).dirs + {p}) else old(disk)
    {
      ok := p !in disk.files;
      if ok {
        disk := disk.(dirs := disk.dirs + {p});
      }
    }

    /**
     * File.Create and a write of `contents`: the file in directory `dir`
     * is created or overwritten; it throws when `dir` is missing or a
     * directory has the file's path.
     */
    method CreateFile(dir: Path, name: string, contents: seq<Byte>) returns (ok: bool)
      modifies this
      ensures ok == (dir in old(disk).dirs && Combine(dir, name) !in old(disk).dirs)
      ensures disk == if ok then old(disk).(files := old(disk).files[Combine(dir, name) := contents]) else old(disk)
    {
      var p := Combine(dir, name);
      ok := dir in disk.dirs && p !in disk.dirs;
      if ok {
        disk := disk.(files := disk.files[p := contents]);
      }
    }
  }

  // ---------------------------------------------------------------- lemmas

  lemma PathsDistinct(root: Path)
    ensures PathNachSave(root) != PathMapToDes(root)
    ensures PathNachSave(root) != PathAutosave(root)
    ensures PathMapToDes(root) != PathAutosave(root)
  {
    assert |PathNachSave(root)| < |PathMapToDes(root)| < |PathAutosave(root)|;
  }

  /** When MAPTODES exists, AutosaveMap tells whether AUTOSAVE exists, and only NACHSAVE may be added. */
  lemma InitExisting(root: Path, d: Disk)
    requires PathNachSave(root) !in d.files && PathMapToDes(root) in d.dirs
    ensures InitStore(root, d) == (d.(dirs := d.dirs + {PathNachSave(root)}), Some(PathAutosave(root) in d.files))
  {
  }

  /** First run: MAPTODES and an empty AUTOSAVE are created and AutosaveMap is true. */
  lemma InitFirstRun(root: Path, d: Disk)
    requires PathNachSave(root) !in d.files && PathMapToDes(root) !in d.dirs
    requires PathMapToDes(root) !in d.files && PathAutosave(root) !in d.dirs
    ensures var (d', autosave) := InitStore(root, d);
      && autosave == Some(true)
      && d'.dirs == d.dirs + {PathNachSave(root), PathMapToDes(root)}
      && d'.files == d.files[PathAutosave(root) := []]
  {
    PathsDistinct(root);
  }

  /**
   * Awake throws exactly when NACHSAVE is a file, or when MAPTODES is not a
   * directory and either is a file or would get a directory as its AUTOSAVE.
   */
  lemma InitThrows(root: Path, d: Disk)
    ensures InitStore(root, d).1.None? <==>
      || PathNachSave(root) in d.files
      || (PathMapToDes(root) !in d.dirs && (PathMapToDes(root) in d.files || PathAutosave(root) in d.dirs))
  {
  }

  /** NACHSAVE is a directory after every Awake that does not throw. */
  lemma InitMakesNachSave(root: Path, d: Disk)
    ensures InitStore(root, d).1.Some? ==> PathNachSave(root) in InitStore(root, d).0.dirs
  {
  }

  /** A second Awake on the disk the first left changes nothing and agrees on AutosaveMap. */
  lemma InitIdempotent(root: Path, d: Disk)
    requires InitStore(root, d).1.Some?
    ensures InitStore(root, InitStore(root, d).0) == InitStore(root, d)
  {
    PathsDistinct(root);
    var d' := InitStore(root, d).0;
    assert d'.dirs + {PathNachSave(root)} == d'.dirs;
  }

  /** ... so after a first run every later run has autosave on and creates nothing. */
  lemma SecondRunAfterFirst(root: Path, d: Disk)
    requires PathNachSave(root) !in d.files && PathMapToDes(root) !in d.dirs
    requires PathMapToDes(root) !in d.files && PathAutosave(root) !in d.dirs
    ensures var d' := InitStore(root, d).0; InitStore(root, d') == (d', Some(true))
  {
    InitFirstRun(root, d);
    InitIdempotent(root, d);
  }

  /** A missing settings file loads the defaults: zero offset, zero angles, 50000. */
  lemma MissingFileDefaults(files: map<Path, seq<Byte>>, path: Path)
    requires path !in files
    ensures LoadResult(files, path) == Ok(Settings(ZeroVec, ZeroVec, DefaultRenderDistance))
  {
  }

  /** Loading what SaveMtdSettings wrote gives back the same settings. */
  lemma SaveThenLoad(files: map<Path, seq<Byte>>, path: Path, s: Settings)
    ensures LoadResult(files[path := Encode(MtdHeaderBytes(), s)], path) == Ok(s)
  {
    RoundTrip(MtdHeaderBytes(), s, []);
    assert Encode(MtdHeaderBytes(), s) + [] == Encode(MtdHeaderBytes(), s);
  }
}
