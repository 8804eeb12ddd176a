# Toyota Supra viewer: the model-loading pipeline in Dafny

This project models how `supra.cpp` turns an imported scene into the data it
draws, and proves properties of that model. The program is a single-file
OpenGL 4.6 viewer. The modelled part covers four steps:

- **Texture loading** (`LoadTexture`). A fresh texture name is created first.
  The image is then read from `directory + "/" + filename`. When that fails,
  it is read from `directory + "/" + basename`, where the basename is the text
  after the last `/` or `\`. When both fail, the function returns the
  sentinel `0`.
- **Material classification** (the material loop of `main`). Each imported
  material becomes one `Material`:
  - a name containing a light token makes it emissive with a warm tint;
  - a name containing a glass token makes it transparent (0.3) with a dark
    tint;
  - the imported colour applies only when neither name rule fired;
  - an opacity below 0.99 overrides the transparency;
  - the texture is looked up in `"."`, then in `"textures"`, and otherwise a
    1x1 white texture is created.
- **Scene flattening** (`processMesh`, `processNode`). The node tree is walked
  in depth-first pre-order. Each referenced mesh appends its vertices, its
  face indices and one draw range to three shared lists.
  - A missing normal becomes (0,1,0) and a missing UV becomes (0,0).
  - A draw range records the sizes of the lists before the append, three
    indices per face, and the mesh's material index.
- **The draw loop**. Each draw range is drawn with its own count and
  offsets. Its material is bound only when the range's material index is
  inside the material list; otherwise the previously bound material stays in
  effect.

## Modules and files

| file | module | contents |
|---|---|---|
| `types.dfy` | `Types` | `Option`, the 32-bit `unsigned int` (`U32`, `Wrap32`), vectors |
| `textures.dfy` | `Textures` | `Basename` and the two paths; `Gpu`, a class for the texture names; `LoadTexture` |
| `materials.dfy` | `Materials` | `Classify` (the rules, stated declaratively) and the `ApplyRules` method; the texture step; `MaterialTable.LoadAll` |
| `flatten.dfy` | `Flatten` | `Mesh` and `Node`; the pure specification `AddMesh`, `AddMeshes` and `PreOrder`; the `MeshBuffers` class with `ProcessMesh` and `ProcessNode` |
| `render.dfy` | `Render` | the draw loop `DrawSubMeshes` and the bound-material state `BoundAfter` |

Modelling choices:

- **Image decoding.** Decoding is an oracle. `Disk` is the set of paths at
  which an image file exists and decodes.
- **Texture names.** The graphics device is the `Gpu` class. Name `h` (with
  `h >= 1`) stands for `textures[h - 1]`, so a created name is never 0.
- **Assimp data.** Each imported material is a `MaterialRecord`, and each
  `Option` field is one `Get` call that may fail. Meshes and nodes are values
  (`Mesh`, `Node`), and a node's mesh references index the scene's mesh table.
- **Program state.** The program's global vectors (`allVertices`,
  `allIndices`, `subMeshes`, `materials`) are `seq` fields. The classes
  `MeshBuffers` and `MaterialTable` hold them, and their methods reassign
  them.
- **Proof structure.** Each such method is proved equal to a pure function
  of its inputs and the old state. The properties are proved about those
  functions.

## Model

| member | source | states |
|---|---|---|
| Textures.FindLastSeparatorIsLast | supra.cpp:133 | `find_last_of("/\\")` finds the last `/` or `\`, with nothing after it being one, and reports none only when the name has no separator |
| Textures.BasenameIsLastComponent | supra.cpp:133-134 | the simple name is a suffix of the file name without separators, and it is preceded by a separator whenever it is shorter than the name |
| Textures.PlainNameRetriesSamePath | supra.cpp:122-135 | for a name with no separator, the fallback path is the first path again |
| Textures.LoadedPathChoice | supra.cpp:130-147 | an image is loaded exactly when one of the two paths decodes; the first path wins when it decodes; the fallback path is used only after the first path failed |
| Textures.NestedNameFallsBackToBasename | supra.cpp:121-137 | `"foo/bar.png"` in `"assets"` is tried at `assets/foo/bar.png`, then at `assets/bar.png` |
| Textures.Gpu.CreateTexture | supra.cpp:124-125 | a created name is new, non-zero, and has no storage yet |
| Textures.Gpu.Upload | supra.cpp:167-168 | only the given name gets the image; every other name is unchanged |
| Textures.Gpu.LoadTexture | supra.cpp:120-180 | one new name is used up even when the load fails; the result is non-zero exactly when the first or the fallback path decodes, and is then that new name holding the image; otherwise it is 0 |
| Materials.ContainsIffOccurs | supra.cpp:325-341 | `name.find(t) != npos` holds exactly when `t` occurs at some position of `name` |
| Materials.ContainsAnyOfSix | supra.cpp:325-330 | testing a name against a six-token list is the six `find` tests joined by "or" |
| Materials.ApplyRules | supra.cpp:312-365 | running the rules in source order gives the declarative classification `Classify`, field by field |
| Materials.LightNameMakesEmissive | supra.cpp:325-334 | the material is emissive exactly when its name contains a light token; such a material gets the tint (1, 0.1, 0) unless its name also marks glass |
| Materials.GlassNameMakesTransparent | supra.cpp:336-346 | a glass name makes the material transparent with tint (0.1, 0.1, 0.15), even over a light name, and with transparency 0.3 unless the opacity overrides it |
| Materials.SourceColourOnlyWithoutNameMatch | supra.cpp:349-356 | the imported colour (or white, when there is none) is used exactly when no name rule fired; otherwise the colour is one of the two tints |
| Materials.OpacityOverridesTransparency | supra.cpp:358-365 | an opacity below 0.99 always gives a transparent material with that transparency; any other opacity leaves the material as if no opacity had been given |
| Materials.TailNameExample | supra.cpp:325-356 | a material named "Tail" is emissive, is not transparent, and has the light tint whatever colour it declares |
| Materials.GlassWithOpacityExample | supra.cpp:336-365 | a "glass" material with opacity 0.5 ends with transparency 0.5, not 0.3 |
| Materials.TextureStepsResolve | supra.cpp:367-383 | the texture step creates one to three names: all but the last are failed loads; the last holds the first of the four candidate paths that decodes, or white; it is never an unfilled name |
| Materials.LoadMaterial | supra.cpp:312-385 | one loop iteration: the texture names created are the texture step's; the material is the classification with the last created name; its `textureID` is never 0 |
| Materials.LoadedMaterialAt | supra.cpp:310-386 | material k is record k's classification, named by the last texture name that step k created |
| Materials.LoadedMaterialsNameLastTexture | supra.cpp:310-386 | when each step creates a name, every material's texture name exists and holds the last texture of its own step |
| Materials.LoadedMaterialsHoldResolvedTextures | supra.cpp:310-386 | after the loop, every material keeps its classification and its texture name holds its record's resolved texture (an image or white) |
| Materials.MaterialTable.LoadAll | supra.cpp:310-386 | the material list grows by one entry per imported material, in order, and the texture names grow by the step textures of each material in turn |
| Flatten.VerticesUpToAt | supra.cpp:189-212 | vertex i copies position i, takes normal i or (0,1,0) when the mesh has no normals, and takes the x,y of UV i or (0,0) when there is no UV channel 0 |
| Flatten.FaceIndexAt | supra.cpp:215-219 | index j of face k is appended verbatim (not offset by the base vertex), right after the indices of the earlier faces |
| Flatten.TrianglesGiveThreeIndicesEach | supra.cpp:184-219 | when every face is a triangle, the indices appended number `3 * mNumFaces`, the count the draw range records |
| Flatten.LineFaceOvercounts | supra.cpp:184-219 | a two-index face still counts three in the draw range, one more than the indices appended |
| Flatten.AddMeshAppends | supra.cpp:182-222 | exactly `mNumVertices` vertices and one draw range are appended, and earlier entries are unchanged; the range's base vertex and base index are the list sizes before the append; its index count is `3 * mNumFaces` modulo 2^32; its material index is copied |
| Flatten.QuadExample | supra.cpp:182-222 | a quad of two triangles gives indices 0,1,2,0,2,3 and range (6, 0, 0); a second copy gets range (6, 6, 4) |
| Flatten.AddMeshesAppend | supra.cpp:224-232 | appending two reference lists in turn equals appending their concatenation |
| Flatten.AddMeshesOnlyAppends | supra.cpp:224-232 | the walk never changes what the three lists held before |
| Flatten.AddMeshesRanges | supra.cpp:224-232 | one draw range is appended per mesh reference, in reference order, carrying that mesh's material index and index count |
| Flatten.ForestPrefix | supra.cpp:229-231 | the subtrees of earlier children come first in the pre-order of a node's children |
| Flatten.ChildSubtreeInPreOrder | supra.cpp:224-232 | child k's subtree follows the node's own meshes and the subtrees of children 0..k-1 |
| Flatten.AddMeshKeepsDrawable | supra.cpp:182-222 | appending a triangulated mesh whose indices name its own vertices keeps every draw range inside the index buffer and every offset index inside the vertex buffer, provided nothing wraps |
| Flatten.AddMeshesKeepsDrawable | supra.cpp:224-232 | the same holds across a whole walk when the final lists fit 32-bit offsets |
| Flatten.LoadedSceneRanges | supra.cpp:224-232 | the loaded scene has one draw range per mesh reference of the tree, in pre-order, with that mesh's material index; it is drawable under the conditions above |
| Flatten.MeshBuffers.ProcessMesh | supra.cpp:182-222 | processMesh leaves the three lists equal to `AddMesh` of the old lists |
| Flatten.MeshBuffers.ProcessNode | supra.cpp:224-232 | processNode leaves the lists equal to `AddMeshes` of the old lists over the node's pre-order mesh references |
| Render.DrawSubMeshes | supra.cpp:452-468 | one draw call per range, in order, with the range's own count, byte offset `4 * baseIndex` and base vertex, under the material bound at that point; the final binding carries over to the next frame |
| Render.NoBindingKeepsPrior | supra.cpp:452-461 | when no visited material index is in range, the previously bound material is still bound |
| Render.BoundIsLastInRange | supra.cpp:452-461 | the bound material is that of the last visited range whose index is inside the material list |
| Render.DrawBindsOwnOrKeeps | supra.cpp:453-461 | a range with an in-range index is drawn with its own material; one with an out-of-range index is drawn with the previous binding |
| Render.BoundComesFromList | supra.cpp:452-461 | the bound material is the prior one or an entry of the list; so when all of those name a texture, every draw has a non-zero texture bound |

## Left out

- Window creation, GLAD loading, input and the swap of buffers are not part of this model; they have no effect on the modelled data.
- Shader compilation and linking are not modelled, and neither are uniform locations.
- The camera, projection and model matrices are not modelled, because they involve floating-point trigonometry.
- Image decoding (stb_image) is reduced to "the path decodes".
- Pixel data, sizes and the channel-count format choice are not modelled, and neither are the mipmap and sampler parameters.
- Vertex and index buffer upload and the vertex attribute layout are not modelled.
- The Assimp import itself (`ReadFile` and its post-processing flags) and its error check are not modelled. The model starts from the imported records, meshes and node tree.
- Console logging is not modelled.
- `float` values (colours, opacity, transparency, positions) are modelled as mathematical reals. The 0.99f threshold is modelled as the real 0.99. No float lies between the two, so the comparison agrees on every float input.
- Texture names are unbounded naturals, not 32-bit GL names. The model does not bound how many names the device can hand out.
- Flatten.AddMeshKeepsDrawable: holds only for triangulated meshes whose face indices name their own vertices, and only when no size wraps modulo 2^32. The program relies on the importer's triangulation for the first condition. `LineFaceOvercounts` shows what happens when a face is not a triangle.
- Flatten.MeshBuffers.ProcessNode: requires every mesh reference of the tree to index the scene's mesh table. The program does not check this; it trusts the importer.
- The draw loop's counter is unbounded. A sub-mesh list of 2^32 or more entries, which would make the `unsigned int` counter wrap, is not modelled.
- Transparency is not clamped to [0,1]. The code copies any opacity below 0.99, including a negative one, and the model does the same.
