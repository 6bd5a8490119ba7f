/**
 * The engine objects SaveMap copies and cleans (MapToDesigner.cs lines 201-290).
 *
 * A game object with everything below it is a Subtree: a sequence of nodes
 * whose first node is the object itself and in which every other node names
 * a parent that comes before it. Components are known by their type's name
 * and namespace.
 */
module Scene {
  import opened Maybe
  import opened Codec

  /** The "Terrain" layer the copy is moved to, for lighting. */
  const TerrainLayer: int := 20

  /** The only namespace whose components survive in the copy. */
  const NativeNamespace: string := "UnityEngine"

  const WaterTypeName: string := "TasharenWater"
  const SkyTypeName: string := "TOD_Sky"

  /** A component: its type's Name and Namespace ("" for the global namespace). */
  datatype Component = Component(typeName: string, ns: string)

  /** The mod tools' map root marker, Jundroo.SimplePlanes.ModTools.Map. */
  predicate IsMap(c: Component)
  {
    c.typeName == "Map" && c.ns == "Jundroo.SimplePlanes.ModTools"
  }

  predicate IsNative(c: Component)
  {
    c.ns == NativeNamespace
  }

  /**
   * One game object: its parent's index in the subtree (ignored for the
   * first node), its own active flag, its layer, its components and the
   * transform values the mod assigns.
   */
  datatype Obj = Obj(
    parent: int,
    activeSelf: bool,
    layer: int,
    comps: seq<Component>,
    localPosition: Vec3,
    localAngles: Vec3,
    position: Vec3)

  predicate WellFormed(t: seq<Obj>)
  {
    |t| > 0 && forall i :: 0 < i < |t| ==> 0 <= t[i].parent < i
  }

  type Subtree = t: seq<Obj> | WellFormed(t)
    witness [Obj(-1, true, 0, [], ZeroVec, ZeroVec, ZeroVec)]

  /**
   * What the engine reports when SaveMap runs: the object holding the first
   * Map component (FindObjectOfType<Map>), every component of every active
   * object with the object holding it (FindObjectsOfType<Component>), and
   * the current map's name.
   */
  datatype Found = Found(comp: Component, holder: Subtree)
  datatype SceneView = SceneView(mapRoot: Option<Subtree>, components: seq<Found>, mapName: string)

  /**
   * activeInHierarchy of node i: it and every ancestor are active, and so is
   * the object the subtree hangs under.
   */
  function ActiveInHierarchy(t: Subtree, parentActive: bool, i: nat): bool
    requires i < |t|
    decreases i
  {
    t[i].activeSelf && (if i == 0 then parentActive else ActiveInHierarchy(t, parentActive, t[i].parent))
  }

  /** The nodes FindObjectsOfType<GameObject> returns are those active in the hierarchy. */
  function Relabelled(t: Subtree, parentActive: bool): (r: Subtree)
  {
    seq(|t|, i requires 0 <= i < |t| =>
      if i == 0 || ActiveInHierarchy(t, parentActive, i) then t[i].(layer := TerrainLayer) else t[i])
  }

  /** The components kept by DestroyChildUserScripts: the native ones, in order. */
  function Native(cs: seq<Component>): (r: seq<Component>)
    ensures |r| <= |cs|
    ensures forall c :: c in r <==> c in cs && IsNative(c)
  {
    if cs == [] then []
    else Native(cs[..|cs| - 1]) + (if IsNative(cs[|cs| - 1]) then [cs[|cs| - 1]] else [])
  }

  /** Destroy(GetComponent<Map>()): the first Map component goes, if there is one. */
  function WithoutFirstMap(cs: seq<Component>): (r: seq<Component>)
    ensures (exists i :: 0 <= i < |cs| && IsMap(cs[i])) ==> |r| == |cs| - 1
    ensures (forall i :: 0 <= i < |cs| ==> !IsMap(cs[i])) ==> r == cs
    ensures forall c :: c in r ==> c in cs
  {
    if cs == [] then []
    else if IsMap(cs[0]) then cs[1..]
    else [cs[0]] + WithoutFirstMap(cs[1..])
  }

  function WithoutRootMap(t: Subtree): Subtree
  {
    t[0 := t[0].(comps := WithoutFirstMap(t[0].comps))]
  }

  function Stripped(t: Subtree): Subtree
  {
    seq(|t|, i requires 0 <= i < |t| => t[i].(comps := Native(t[i].comps)))
  }

  /** SetActive on the subtree's own object. */
  function WithActive(t: Subtree, value: bool): Subtree
  {
    t[0 := t[0].(activeSelf := value)]
  }

  /** The backdrop SaveMap makes from the map root (lines 213-231). */
  function Capture(t: Subtree, parentActive: bool): Subtree
  {
    WithActive(Stripped(WithoutRootMap(Relabelled(t, parentActive))), false)
  }

  /** Lines 109-110: the backdrop's local position and angles. */
  function Placed(t: Subtree, localPosition: Vec3, localAngles: Vec3): Subtree
  {
    t[0 := t[0].(localPosition := localPosition, localAngles := localAngles)]
  }

  /** Line 112: the water's world position. */
  function Moved(t: Subtree, position: Vec3): Subtree
  {
    t[0 := t[0].(position := position)]
  }

  /**
   * The last entry whose component has the given type name: each match in
   * the loop of lines 235-248 overwrites the slot, so the last one stays.
   */
  function LastMatch(found: seq<Found>, name: string): (r: Option<nat>)
    ensures r.Some? ==> r.value < |found| && found[r.value].comp.typeName == name
    ensures r.Some? ==> forall k :: r.value < k < |found| ==> found[k].comp.typeName != name
    ensures r.None? ==> forall k :: 0 <= k < |found| ==> found[k].comp.typeName != name
  {
    if found == [] then None
    else if found[|found| - 1].comp.typeName == name then Some(|found| - 1)
    else LastMatch(found[..|found| - 1], name)
  }

  /** One more entry either is the new last match or leaves the last match as it was. */
  lemma LastMatchStep(found: seq<Found>, i: nat, name: string)
    requires i < |found|
    ensures LastMatch(found[..i + 1], name) ==
      if found[i].comp.typeName == name then Some(i) else LastMatch(found[..i], name)
  {
    assert found[..i + 1][..i] == found[..i];
  }

  // ---------------------------------------------------------------- lemmas

  /** Dropping a Map component first changes nothing the native filter keeps. */
  lemma {:induction false} NativeIgnoresMap(cs: seq<Component>)
    ensures Native(WithoutFirstMap(cs)) == Native(cs)
    decreases |cs|
  {
    if cs != [] {
      assert cs == [cs[0]] + cs[1..];
      NativePrepend(cs[0], cs[1..]);
      if !IsMap(cs[0]) {
        NativeIgnoresMap(cs[1..]);
        NativePrepend(cs[0], WithoutFirstMap(cs[1..]));
      } else {
        assert !IsNative(cs[0]);
      }
    }
  }

  lemma {:induction false} NativePrepend(c: Component, cs: seq<Component>)
    ensures Native([c] + cs) == (if IsNative(c) then [c] else []) + Native(cs)
    decreases |cs|
  {
    if cs != [] {
      assert ([c] + cs)[..|cs|] == [c] + cs[..|cs| - 1];
      NativePrepend(c, cs[..|cs| - 1]);
    } else {
      assert ([c] + cs)[..0] == [];
    }
  }

  /**
   * The copy is clean and hidden: same shape as the original, every node the
   * relabelling reaches on the Terrain layer (the root always), exactly the
   * native components kept (so no Map and no user script), and its own
   * object inactive.
   */
  lemma CaptureSanitised(t: Subtree, parentActive: bool)
    ensures var r := Capture(t, parentActive);
      && |r| == |t|
      && !r[0].activeSelf
      && r[0].layer == TerrainLayer
      && (forall i :: 0 <= i < |r| ==> r[i].parent == t[i].parent)
      && (forall i :: 0 < i < |r| ==> r[i].activeSelf == t[i].activeSelf)
      && (forall i :: 0 <= i < |r| ==>
            r[i].layer == if i == 0 || ActiveInHierarchy(t, parentActive, i) then TerrainLayer else t[i].layer)
      && (forall i :: 0 <= i < |r| ==> r[i].comps == Native(t[i].comps))
      && (forall i, c :: 0 <= i < |r| && c in r[i].comps ==> IsNative(c) && !IsMap(c))
  {
    forall i | 0 <= i < |t|
      ensures Capture(t, parentActive)[i] == CapturedNode(t, parentActive, i)
    {
      CaptureAt(t, parentActive, i);
    }
  }

  /** Node i of the copy, read off the four steps of the capture. */
  function CapturedNode(t: Subtree, parentActive: bool, i: nat): Obj
    requires i < |t|
  {
    var n := t[i].(comps := Native(t[i].comps));
    if i == 0 then n.(layer := TerrainLayer, activeSelf := false)
    else if ActiveInHierarchy(t, parentActive, i) then n.(layer := TerrainLayer)
    else n
  }

  lemma CaptureAt(t: Subtree, parentActive: bool, i: nat)
    requires i < |t|
    ensures |Capture(t, parentActive)| == |t|
    ensures Capture(t, parentActive)[i] == CapturedNode(t, parentActive, i)
  {
    var a := Relabelled(t, parentActive);
    var b := WithoutRootMap(a);
    if i == 0 {
      NativeIgnoresMap(t[0].comps);
      assert b[0].comps == WithoutFirstMap(t[0].comps);
    } else {
      assert b[i] == a[i];
    }
  }

  // ---------------------------------------------------------------- the loops

  /** Lines 216-224: the copy's root, then every active node under it, onto the Terrain layer. */
  method RelabelLayers(t: Subtree, parentActive: bool) returns (r: Subtree)
    ensures r == Relabelled(t, parentActive)
  {
    r := t[0 := t[0].(layer := TerrainLayer)];
    var i := 0;
    while i < |t|
      invariant 0 <= i <= |t| && |r| == |t|
      invariant r[0] == t[0].(layer := TerrainLayer)
      invariant forall j :: 0 < j < i ==> r[j] == Relabelled(t, parentActive)[j]
      invariant forall j :: i <= j < |t| && j > 0 ==> r[j] == t[j]
    {
      if ActiveInHierarchy(t, parentActive, i) {
        r := r[i := r[i].(layer := TerrainLayer)];
      }
      i := i + 1;
    }
  }

  /** The native components of one node, kept in order. */
  method KeepNative(cs: seq<Component>) returns (kept: seq<Component>)
    ensures kept == Native(cs)
  {
    kept := [];
    for i := 0 to |cs|
      invariant kept == Native(cs[..i])
    {
      assert cs[..i + 1][..i] == cs[..i];
      if cs[i].ns == NativeNamespace {
        kept := kept + [cs[i]];
      }
    }
    assert cs[..|cs|] == cs;
  }

  /** DestroyChildUserScripts (lines 279-290): every non-native component in the subtree goes. */
  method StripUserScripts(t: Subtree) returns (r: Subtree)
    ensures r == Stripped(t)
  {
    r := t;
    for i := 0 to |t|
      invariant |r| == |t|
      invariant forall j :: 0 <= j < i ==> r[j] == t[j].(comps := Native(t[j].comps))
      invariant forall j :: i <= j < |t| ==> r[j] == t[j]
    {
      var kept := KeepNative(r[i].comps);
      r := r[i := r[i].(comps := kept)];
    }
  }
}
