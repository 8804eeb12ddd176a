/** The material classifier: each imported material record becomes one Material,
    by name heuristics, the record's own colour and opacity, and a texture that is
    looked up in "." and then "textures", with a white 1x1 texture as last resort. */
module Materials {
  import opened Types
  import opened Textures

  /** What the importer reports for one material; every part may be missing.
      `diffuseTexture` is the first diffuse texture's file name, present when the
      material declares at least one diffuse texture. */
  datatype MaterialRecord = MaterialRecord(
    name: Option<string>,
    diffuse: Option<Vec3>,
    opacity: Option<real>,
    diffuseTexture: Option<string>)

  datatype Material = Material(
    diffuseColor: Vec3,
    textureID: nat,
    isEmissive: bool,
    isTransparent: bool,
    transparency: real)

  const WHITE := Vec3(1.0, 1.0, 1.0)
  const LIGHT_TINT := Vec3(1.0, 0.1, 0.0)
  const GLASS_TINT := Vec3(0.1, 0.1, 0.15)
  const GLASS_TRANSPARENCY: real := 0.3
  const OPAQUE_TRANSPARENCY: real := 1.0
  /** An opacity strictly below this makes a material transparent. */
  const OPACITY_THRESHOLD: real := 0.99

  const LIGHT_TOKENS: seq<string> := ["light", "Light", "tail", "Tail", "lamp", "Lamp"]
  const GLASS_TOKENS: seq<string> := ["glass", "Glass", "window", "Window", "windshield", "Windshield"]

  // ---------------------------------------------------------------------------
  // Case-sensitive substring search (std::string::find(t) != npos)

  predicate OccursAt(s: string, t: string, i: nat) {
    i + |t| <= |s| && s[i..i + |t|] == t
  }

  function Contains(s: string, t: string): bool
    decreases |s|
  {
    if |s| < |t| then false
    else s[..|t|] == t || Contains(s[1..], t)
  }

  /** The search agrees with the definition of "t occurs somewhere in s". */
  lemma {:induction false} ContainsIffOccurs(s: string, t: string)
    ensures Contains(s, t) <==> exists i: nat :: OccursAt(s, t, i)
    decreases |s|
  {
    if |s| < |t| {
      forall i: nat ensures !OccursAt(s, t, i) { }
    } else if s[..|t|] == t {
      assert OccursAt(s, t, 0);
    } else {
      ContainsIffOccurs(s[1..], t);
      if Contains(s[1..], t) {
        var j: nat :| OccursAt(s[1..], t, j);
        assert s[j + 1..j + 1 + |t|] == s[1..][j..j + |t|];
        assert OccursAt(s, t, j + 1);
      } else {
        forall i: nat | OccursAt(s, t, i) ensures false {
          if i > 0 {
            assert s[1..][i - 1..i - 1 + |t|] == s[i..i + |t|];
            assert OccursAt(s[1..], t, i - 1);
          }
        }
      }
    }
  }

  predicate ContainsAny(s: string, tokens: seq<string>) {
    exists k :: 0 <= k < |tokens| && Contains(s, tokens[k])
  }

  /** Searching for any of six tokens is six searches joined by "or". */
  lemma ContainsAnyOfSix(s: string, tokens: seq<string>)
    requires |tokens| == 6
    ensures ContainsAny(s, tokens)
        <==> (Contains(s, tokens[0]) || Contains(s, tokens[1]) || Contains(s, tokens[2])
              || Contains(s, tokens[3]) || Contains(s, tokens[4]) || Contains(s, tokens[5]))
  {
  }

  // ---------------------------------------------------------------------------
  // Classification rules

  /** The name marks a light: emissive, warm tint. */
  predicate NamedLight(rec: MaterialRecord) {
    rec.name.Some? && ContainsAny(rec.name.value, LIGHT_TOKENS)
  }

  /** The name marks glass: transparent, cool dark tint. */
  predicate NamedGlass(rec: MaterialRecord) {
    rec.name.Some? && ContainsAny(rec.name.value, GLASS_TOKENS)
  }

  /** The record's opacity makes the material see-through. */
  predicate Translucent(rec: MaterialRecord) {
    rec.opacity.Some? && rec.opacity.value < OPACITY_THRESHOLD
  }

  /** The outcome of the classification rules, texture not yet chosen (textureID 0),
      stated per field rather than in the order the rules run. */
  function Classify(rec: MaterialRecord): Material {
    Material(
      diffuseColor :=
        if NamedGlass(rec) then GLASS_TINT
        else if NamedLight(rec) then LIGHT_TINT
        else if rec.diffuse.Some? then rec.diffuse.value
        else WHITE,
      textureID := 0,
      isEmissive := NamedLight(rec),
      isTransparent := NamedGlass(rec) || Translucent(rec),
      transparency :=
        if Translucent(rec) then rec.opacity.value
        else if NamedGlass(rec) then GLASS_TRANSPARENCY
        else OPAQUE_TRANSPARENCY)
  }

  /** The classification part of the material loop body, rule after rule in source order. */
  method ApplyRules(rec: MaterialRecord) returns (mat: Material)
    ensures mat == Classify(rec)
  {
    mat := Material(WHITE, 0, false, false, OPAQUE_TRANSPARENCY);
    if rec.name.Some? {
      var name := rec.name.value;
      ContainsAnyOfSix(name, LIGHT_TOKENS);
      ContainsAnyOfSix(name, GLASS_TOKENS);
      if Contains(name, "light") || Contains(name, "Light")
        || Contains(name, "tail") || Contains(name, "Tail")
        || Contains(name, "lamp") || Contains(name, "Lamp")
      {
        mat := mat.(isEmissive := true, diffuseColor := LIGHT_TINT);
      }
      if Contains(name, "glass") || Contains(name, "Glass")
        || Contains(name, "window") || Contains(name, "Window")
        || Contains(name, "windshield") || Contains(name, "Windshield")
      {
        mat := mat.(isTransparent := true, transparency := GLASS_TRANSPARENCY, diffuseColor := GLASS_TINT);
      }
    }
    if rec.diffuse.Some? && !mat.isEmissive && !mat.isTransparent {
      mat := mat.(diffuseColor := rec.diffuse.value);
    }
    if rec.opacity.Some? {
      var opacity := rec.opacity.value;
      if opacity < OPACITY_THRESHOLD {
        mat := mat.(isTransparent := true, transparency := opacity);
      }
    }
  }

  /** A light name makes the material emissive; unless the name also marks glass,
      its colour is the warm tint whatever colour the record supplies. */
  lemma LightNameMakesEmissive(rec: MaterialRecord)
    ensures Classify(rec).isEmissive <==> NamedLight(rec)
    ensures NamedLight(rec) && !NamedGlass(rec) ==> Classify(rec).diffuseColor == LIGHT_TINT
  {
  }

  /** A glass name makes the material transparent with the glass tint, which also
      wins over the light tint; its transparency is 0.3 unless the opacity overrides it. */
  lemma GlassNameMakesTransparent(rec: MaterialRecord)
    requires NamedGlass(rec)
    ensures Classify(rec).isTransparent
    ensures Classify(rec).diffuseColor == GLASS_TINT
    ensures Classify(rec).transparency
         == if Translucent(rec) then rec.opacity.value else GLASS_TRANSPARENCY
  {
  }

  /** The record's colour is used exactly when no name rule fired; otherwise it is ignored. */
  lemma SourceColourOnlyWithoutNameMatch(rec: MaterialRecord)
    ensures !NamedLight(rec) && !NamedGlass(rec)
        ==> Classify(rec).diffuseColor == (if rec.diffuse.Some? then rec.diffuse.value else WHITE)
    ensures NamedLight(rec) || NamedGlass(rec)
        ==> Classify(rec).diffuseColor in {LIGHT_TINT, GLASS_TINT}
  {
  }

  /** An opacity below 0.99 always makes the material transparent with that
      amount, even over a glass name or a light name; otherwise opacity changes nothing. */
  lemma OpacityOverridesTransparency(rec: MaterialRecord)
    ensures Translucent(rec) ==> Classify(rec).isTransparent && Classify(rec).transparency == rec.opacity.value
    ensures !Translucent(rec) ==> Classify(rec) == Classify(rec.(opacity := None))
  {
  }

  /** A material named "Tail" is a light whatever colour the record supplies. */
  lemma TailNameExample(colour: Vec3)
    ensures var m := Classify(MaterialRecord(Some("Tail"), Some(colour), None, None));
      m.isEmissive && !m.isTransparent && m.diffuseColor == LIGHT_TINT
  {
    assert Contains("Tail", LIGHT_TOKENS[3]);
    ContainsAnyOfSix("Tail", GLASS_TOKENS);
  }

  /** A glass material with opacity 0.5 ends with transparency 0.5, not 0.3. */
  lemma GlassWithOpacityExample()
    ensures var m := Classify(MaterialRecord(Some("glass"), None, Some(0.5), None));
      m.isTransparent && m.transparency == 0.5 && m.diffuseColor == GLASS_TINT
  {
    assert Contains("glass", GLASS_TOKENS[0]);
  }

  // ---------------------------------------------------------------------------
  // Texture choice

  /** The texture objects the texture step of one material creates, in order: a
      name per LoadTexture call, then a white one when no call succeeded. */
  function TextureSteps(disk: Disk, texture: Option<string>): seq<Texture> {
    match texture
    case None => [White]
    case Some(f) =>
      if LoadedTexture(disk, f, ".") != Unfilled then [LoadedTexture(disk, f, ".")]
      else if LoadedTexture(disk, f, "textures") != Unfilled then [Unfilled, LoadedTexture(disk, f, "textures")]
      else [Unfilled, Unfilled, White]
  }

  /** The four file paths tried for a declared texture, in order. */
  function CandidatePaths(f: string): seq<string> {
    [PrimaryPath(f, "."), FallbackPath(f, "."), PrimaryPath(f, "textures"), FallbackPath(f, "textures")]
  }

  function FirstDecodable(disk: Disk, paths: seq<string>): Option<string> {
    if paths == [] then None
    else if paths[0] in disk then Some(paths[0])
    else FirstDecodable(disk, paths[1..])
  }

  lemma FirstOfFour(disk: Disk, a: string, b: string, c: string, d: string)
    ensures FirstDecodable(disk, [a, b, c, d])
         == if a in disk then Some(a) else if b in disk then Some(b)
            else if c in disk then Some(c) else if d in disk then Some(d) else None
  {
    assert [d][1..] == [];
    assert FirstDecodable(disk, [d]) == if d in disk then Some(d) else None;
    assert [c, d][1..] == [d];
    assert FirstDecodable(disk, [c, d]) == if c in disk then Some(c) else FirstDecodable(disk, [d]);
    assert [b, c, d][1..] == [c, d];
    assert FirstDecodable(disk, [b, c, d]) == if b in disk then Some(b) else FirstDecodable(disk, [c, d]);
    assert [a, b, c, d][1..] == [b, c, d];
  }

  /** The texture a material ends up with: the first candidate path that decodes,
      or white when no texture is declared or none decodes. */
  function ResolvedTexture(disk: Disk, texture: Option<string>): Texture {
    match texture
    case None => White
    case Some(f) =>
      match FirstDecodable(disk, CandidatePaths(f))
      case Some(p) => Image(p)
      case None => White
  }

  /** The texture step creates one to three names; all but the last are failed
      loads, and the last holds the resolved texture, which is never unfilled. */
  lemma TextureStepsResolve(disk: Disk, texture: Option<string>)
    ensures var steps := TextureSteps(disk, texture);
      && 1 <= |steps| <= 3
      && steps[|steps| - 1] == ResolvedTexture(disk, texture)
      && (forall i :: 0 <= i < |steps| - 1 ==> steps[i] == Unfilled)
    ensures ResolvedTexture(disk, texture) != Unfilled
  {
    if texture.Some? {
      var f := texture.value;
      FirstOfFour(disk, PrimaryPath(f, "."), FallbackPath(f, "."), PrimaryPath(f, "textures"), FallbackPath(f, "textures"));
    }
  }

  /** The loop body of the material loop: rules, then the texture step. The
      material's texture name is the last one created, so it is never 0. */
  method LoadMaterial(gpu: Gpu, rec: MaterialRecord, disk: Disk) returns (mat: Material)
    modifies gpu
    ensures gpu.textures == old(gpu.textures) + TextureSteps(disk, rec.diffuseTexture)
    ensures mat == WithTexture(Classify(rec), |gpu.textures|)
    ensures mat.textureID != 0
  {
    mat := ApplyRules(rec);
    if rec.diffuseTexture.Some? {
      var path := rec.diffuseTexture.value;
      var id := gpu.LoadTexture(path, ".", disk);
      if id == 0 {
        id := gpu.LoadTexture(path, "textures", disk);
      }
      mat := mat.(textureID := id);
    }
    if mat.textureID == 0 {
      var id := gpu.CreateTexture();
      gpu.Upload(id, White);
      mat := mat.(textureID := id);
    }
  }

  function WithTexture(m: Material, textureID: nat): Material {
    m.(textureID := textureID)
  }

  /** The texture objects the texture step of each record creates, in record order. */
  function StepsPerRecord(disk: Disk, records: seq<MaterialRecord>): (r: seq<seq<Texture>>)
    ensures |r| == |records|
  {
    seq(|records|, k requires 0 <= k < |records| => TextureSteps(disk, records[k].diffuseTexture))
  }

  /** The concatenation of the parts, in order. */
  function Concat(parts: seq<seq<Texture>>): seq<Texture> {
    if parts == [] then []
    else Concat(parts[..|parts| - 1]) + parts[|parts| - 1]
  }

  /** The textures of earlier parts come first in the concatenation. */
  lemma {:induction false} ConcatPrefix(parts: seq<seq<Texture>>, j: nat)
    requires j <= |parts|
    ensures Concat(parts[..j]) <= Concat(parts)
    decreases |parts|
  {
    if j < |parts| {
      var init := parts[..|parts| - 1];
      assert init[..j] == parts[..j];
      ConcatPrefix(init, j);
    } else {
      assert parts[..j] == parts;
    }
  }

  /** The last texture of a non-empty part sits at the end of the concatenation of
      the parts up to it. */
  lemma LastOfPart(parts: seq<seq<Texture>>, k: nat)
    requires k < |parts| && parts[k] != []
    ensures var n := |Concat(parts[..k + 1])|;
      1 <= n <= |Concat(parts)| && Concat(parts)[n - 1] == parts[k][|parts[k]| - 1]
  {
    assert parts[..k + 1][..k] == parts[..k];
    ConcatPrefix(parts, k + 1);
  }

  /** The materials the loop appends for `records`, when the device already held
      `base` textures and record k's texture step created parts[k]: each record's
      classification named after the last texture its step created. */
  function LoadedMaterials(base: nat, records: seq<MaterialRecord>, parts: seq<seq<Texture>>): (r: seq<Material>)
    requires |parts| == |records|
    ensures |r| == |records|
  {
    if records == [] then []
    else
      LoadedMaterials(base, records[..|records| - 1], parts[..|parts| - 1])
      + [WithTexture(Classify(records[|records| - 1]), base + |Concat(parts)|)]
  }

  /** The k-th loaded material is records[k]'s classification, named after the
      textures of parts[..k + 1]. */
  lemma {:induction false} LoadedMaterialAt(base: nat, records: seq<MaterialRecord>, parts: seq<seq<Texture>>, k: nat)
    requires |parts| == |records| && k < |records|
    ensures LoadedMaterials(base, records, parts)[k]
         == WithTexture(Classify(records[k]), base + |Concat(parts[..k + 1])|)
    decreases |records|
  {
    var n := |records| - 1;
    if k < n {
      LoadedMaterialAt(base, records[..n], parts[..n], k);
      assert parts[..n][..k + 1] == parts[..k + 1];
    } else {
      assert parts[..k + 1] == parts;
    }
  }

  /** When every record's step creates at least one texture, every loaded material
      keeps its classification and names the last texture its own step created. */
  lemma LoadedMaterialsNameLastTexture(base: seq<Texture>, records: seq<MaterialRecord>, parts: seq<seq<Texture>>)
    requires |parts| == |records|
    requires forall k :: 0 <= k < |parts| ==> parts[k] != []
    ensures forall k :: 0 <= k < |records| ==>
      var all := base + Concat(parts);
      var m := LoadedMaterials(|base|, records, parts)[k];
      m.(textureID := 0) == Classify(records[k])
      && 1 <= m.textureID <= |all| && all[m.textureID - 1] == parts[k][|parts[k]| - 1]
  {
  }

  /** Every material the loop produces names a texture (never 0) that holds its
      record's resolved texture, once the loop's textures follow the `base` ones. */
  lemma LoadedMaterialsHoldResolvedTextures(disk: Disk, base: seq<Texture>, records: seq<MaterialRecord>)
    ensures forall k :: 0 <= k < |records| ==>
      var parts := StepsPerRecord(disk, records);
      var all := base + Concat(parts);
      var m := LoadedMaterials(|base|, records, parts)[k];
      m.(textureID := 0) == Classify(records[k])
      && 1 <= m.textureID <= |all| && all[m.textureID - 1] == ResolvedTexture(disk, records[k].diffuseTexture)
  {
    var parts := StepsPerRecord(disk, records);
    forall k | 0 <= k < |parts|
      ensures parts[k] != [] && parts[k][|parts[k]| - 1] == ResolvedTexture(disk, records[k].diffuseTexture)
    {
      TextureStepsResolve(disk, records[k].diffuseTexture);
    }
    LoadedMaterialsNameLastTexture(base, records, parts);
  }

  /** The process-wide material list. */
  class MaterialTable {
    var materials: seq<Material>

    constructor ()
      ensures materials == []
    {
      materials := [];
    }

    /** The material loop: one Material per record, in record order, each with a
        texture name whose texture is the resolved one. */
    method LoadAll(gpu: Gpu, records: seq<MaterialRecord>, disk: Disk)
      modifies this, gpu
      ensures gpu.textures == old(gpu.textures) + Concat(StepsPerRecord(disk, records))
      ensures materials
           == old(materials) + LoadedMaterials(|old(gpu.textures)|, records, StepsPerRecord(disk, records))
    {
      ghost var start := materials;
      ghost var base := gpu.textures;
      ghost var parts := StepsPerRecord(disk, records);
      var i := 0;
      while i < |records|
        invariant 0 <= i <= |records|
        invariant gpu.textures == base + Concat(parts[..i])
        invariant materials == start + LoadedMaterials(|base|, records[..i], parts[..i])
      {
        var mat := LoadMaterial(gpu, records[i], disk);
        assert parts[..i + 1][..i] == parts[..i];
        assert records[..i + 1][..i] == records[..i];
        materials := materials + [mat];
        i := i + 1;
      }
      assert records[..|records|] == records;
      assert parts[..|parts|] == parts;
    }
  }
}
