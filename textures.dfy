/** The texture loader: the path and basename fallback of LoadTexture, with image
    decoding reduced to "the file at this path decodes" and the graphics device
    reduced to a table of texture names. */
module Textures {
  import opened Types

  /** The set of paths at which an image file exists and decodes. */
  type Disk = set<string>

  predicate IsSeparator(c: char) {
    c == '/' || c == '\\'
  }

  /** std::string::find_last_of("/\\"): the position of the last separator, None for npos. */
  function FindLastSeparator(s: string): (r: Option<nat>)
    ensures r.Some? ==> r.value < |s|
  {
    if s == [] then None
    else if IsSeparator(s[|s| - 1]) then Some(|s| - 1)
    else FindLastSeparator(s[..|s| - 1])
  }

  /** The search finds the last separator, and reports none only when there is none. */
  lemma {:induction false} FindLastSeparatorIsLast(s: string)
    ensures FindLastSeparator(s).None? ==> forall i :: 0 <= i < |s| ==> !IsSeparator(s[i])
    ensures FindLastSeparator(s).Some? ==>
      var p := FindLastSeparator(s).value;
      p < |s| && IsSeparator(s[p]) && forall i :: p < i < |s| ==> !IsSeparator(s[i])
  {
    if s != [] && !IsSeparator(s[|s| - 1]) {
      var init := s[..|s| - 1];
      FindLastSeparatorIsLast(init);
      assert forall i :: 0 <= i < |init| ==> init[i] == s[i];
    }
  }

  /** The file name with any directory part removed: the text after the last
      separator, or the whole name when it has none. */
  function Basename(filename: string): string {
    match FindLastSeparator(filename)
    case None => filename
    case Some(i) => filename[i + 1..]
  }

  function JoinPath(directory: string, filename: string): string {
    directory + "/" + filename
  }

  /** The first path LoadTexture tries. */
  function PrimaryPath(filename: string, directory: string): string {
    JoinPath(directory, filename)
  }

  /** The path LoadTexture retries after the first one fails. */
  function FallbackPath(filename: string, directory: string): string {
    JoinPath(directory, Basename(filename))
  }

  /** The path from which LoadTexture ends up decoding the image, if any. */
  function LoadedPath(disk: Disk, filename: string, directory: string): Option<string> {
    if PrimaryPath(filename, directory) in disk then Some(PrimaryPath(filename, directory))
    else if FallbackPath(filename, directory) in disk then Some(FallbackPath(filename, directory))
    else None
  }

  /** The basename is the longest separator-free suffix of the file name. */
  lemma BasenameIsLastComponent(filename: string)
    ensures var b := Basename(filename);
      && |b| <= |filename|
      && b == filename[|filename| - |b|..]
      && (forall i :: 0 <= i < |b| ==> !IsSeparator(b[i]))
      && (|b| < |filename| ==> IsSeparator(filename[|filename| - |b| - 1]))
  {
    FindLastSeparatorIsLast(filename);
    match FindLastSeparator(filename)
    case None =>
    case Some(k) =>
      var b := filename[k + 1..];
      forall i | 0 <= i < |b| ensures !IsSeparator(b[i]) {
        assert b[i] == filename[k + 1 + i];
      }
  }

  /** A name without any separator is its own basename, so the retry repeats the first path. */
  lemma PlainNameRetriesSamePath(filename: string, directory: string)
    requires forall i :: 0 <= i < |filename| ==> !IsSeparator(filename[i])
    ensures Basename(filename) == filename
    ensures FallbackPath(filename, directory) == PrimaryPath(filename, directory)
  {
    FindLastSeparatorIsLast(filename);
  }

  /** LoadTexture yields an image exactly when one of its two paths decodes, and it
      uses the fallback path only when the first path does not decode. */
  lemma LoadedPathChoice(disk: Disk, filename: string, directory: string)
    ensures LoadedPath(disk, filename, directory).Some?
        <==> PrimaryPath(filename, directory) in disk || FallbackPath(filename, directory) in disk
    ensures PrimaryPath(filename, directory) in disk
        ==> LoadedPath(disk, filename, directory) == Some(PrimaryPath(filename, directory))
    ensures LoadedPath(disk, filename, directory).Some?
        ==> LoadedPath(disk, filename, directory).value in disk
    ensures LoadedPath(disk, filename, directory) == Some(FallbackPath(filename, directory))
        ==> PrimaryPath(filename, directory) !in disk
            || FallbackPath(filename, directory) == PrimaryPath(filename, directory)
  {
  }

  /** "foo/bar.png" in "assets": "assets/foo/bar.png" is tried first, then "assets/bar.png". */
  lemma NestedNameFallsBackToBasename(disk: Disk)
    requires "assets/foo/bar.png" !in disk
    ensures PrimaryPath("foo/bar.png", "assets") == "assets/foo/bar.png"
    ensures FallbackPath("foo/bar.png", "assets") == "assets/bar.png"
    ensures LoadedPath(disk, "foo/bar.png", "assets")
        == if "assets/bar.png" in disk then Some("assets/bar.png") else None
  {
    var f := "foo/bar.png";
    assert IsSeparator(f[3]);
    assert forall i :: 3 < i < |f| ==> !IsSeparator(f[i]);
    FindLastSeparatorIsLast(f);
    assert FindLastSeparator(f) == Some(3);
  }

  /** What a texture name holds: storage that was never filled (a failed load),
      a decoded image file, or the 1x1 white RGBA pixel. */
  datatype Texture = Unfilled | Image(path: string) | White

  /** The texture a LoadTexture call leaves behind under its fresh name. */
  function LoadedTexture(disk: Disk, filename: string, directory: string): Texture {
    match LoadedPath(disk, filename, directory)
    case Some(p) => Image(p)
    case None => Unfilled
  }

  /** The graphics device's texture objects. Texture name h (h >= 1) stands for
      textures[h - 1]; 0 is never a texture name. */
  class Gpu {
    var textures: seq<Texture>

    constructor ()
      ensures textures == []
    {
      textures := [];
    }

    /** glCreateTextures: a new, non-zero name with no storage yet. */
    method CreateTexture() returns (name: nat)
      modifies this
      ensures textures == old(textures) + [Unfilled]
      ensures name == |textures| && name != 0
    {
      textures := textures + [Unfilled];
      name := |textures|;
    }

    /** glTextureStorage2D and glTextureSubImage2D: fill an existing name. */
    method Upload(name: nat, content: Texture)
      requires 1 <= name <= |textures|
      modifies this
      ensures textures == old(textures)[name - 1 := content]
    {
      textures := textures[name - 1 := content];
    }

    /** LoadTexture: a name is created before the first attempt, so a failed load
        still uses up a name; the sentinel 0 is returned when neither path decodes. */
    method LoadTexture(filename: string, directory: string, disk: Disk) returns (name: nat)
      modifies this
      ensures textures == old(textures) + [LoadedTexture(disk, filename, directory)]
      ensures name != 0 <==> PrimaryPath(filename, directory) in disk || FallbackPath(filename, directory) in disk
      ensures name != 0 ==> name == |textures|
    {
      var finalPath := JoinPath(directory, filename);
      var textureID := CreateTexture();
      if finalPath !in disk {
        var simpleName := match FindLastSeparator(filename)
          case None => filename
          case Some(lastSlash) => filename[lastSlash + 1..];
        var fallbackPath := JoinPath(directory, simpleName);
        if fallbackPath !in disk {
          return 0;
        }
        Upload(textureID, Image(fallbackPath));
      } else {
        Upload(textureID, Image(finalPath));
      }
      name := textureID;
    }
  }
}
