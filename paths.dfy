/**
 * The parts of Rust's `Path` the pipeline uses, for paths written with '/':
 * `file_name`, `parent`, `file_stem` and `join`, and from them the sidecar path.
 */
module Paths {
  import opened Wrappers

  type Path = string

  /** The position of the last `c` in `s`, if any. */
  function LastIndexOf(s: string, c: char): (r: Option<nat>)
    ensures r.Some? ==> r.value < |s| && s[r.value] == c && c !in s[r.value + 1..]
    ensures r.None? ==> c !in s
  {
    if s == [] then None
    else if s[|s| - 1] == c then Some(|s| - 1)
    else
      var r := LastIndexOf(s[..|s| - 1], c);
      assert s == s[..|s| - 1] + [s[|s| - 1]];
      r
  }

  /** `Path::file_name`: the final component, everything after the last '/'. */
  function FileName(p: Path): (name: string)
    ensures '/' !in name
    ensures |name| <= |p| && p[|p| - |name|..] == name
    ensures |name| < |p| ==> p[|p| - |name| - 1] == '/'
  {
    match LastIndexOf(p, '/')
    case None => p
    case Some(i) => p[i + 1..]
  }

  /**
   * `Path::parent`: what comes before the final component, without the
   * separator; "/" for a file at the root and "" for a bare file name.
   */
  function Parent(p: Path): (dir: Path)
    ensures dir == "" <==> '/' !in p
    ensures dir != "/" ==> |dir| <= |p| && p[..|dir|] == dir
    ensures '/' in p ==>
      (dir == "/" && p[0] == '/' && '/' !in p[1..]) || (|dir| < |p| && p[|dir|] == '/' && '/' !in p[|dir| + 1..])
  {
    match LastIndexOf(p, '/')
    case None => ""
    case Some(i) => if i == 0 then "/" else p[..i]
  }

  /**
   * `Path::file_stem` of a file name: the name without its last extension. A
   * name whose only '.' leads it (".profile") has no extension.
   */
  function FileStem(name: string): (stem: string)
    ensures |stem| <= |name| && name[..|stem|] == stem
    ensures stem != name ==> 0 < |stem| && name[|stem|] == '.' && '.' !in name[|stem| + 1..]
    ensures name != "" ==> stem != ""
    ensures stem == name <==> name == "" || '.' !in name[1..]
  {
    match LastIndexOf(name, '.')
    case Some(i) => if i > 0 then name[..i] else name
    case None => name
  }

  /** `PathBuf::join` of a directory and a single file name. */
  function Join(dir: Path, name: string): (j: Path)
    ensures |name| <= |j| && j[|j| - |name|..] == name
    ensures dir != "" ==> |dir| + |name| <= |j| && j[..|dir|] == dir && j[|j| - |name| - 1] == '/'
  {
    if dir == "" then name
    else if dir[|dir| - 1] == '/' then dir + name
    else dir + "/" + name
  }

  /** Where the sidecar of an image goes: its directory, its stem, and ".json". */
  function SidecarPath(image: Path): Path {
    Join(Parent(image), FileStem(FileName(image)) + ".json")
  }

  /** A directory as `Path::parent` gives it back: no trailing '/' except for the root. */
  predicate IsDirectoryForm(dir: Path) {
    dir == "" || dir == "/" || dir[|dir| - 1] != '/'
  }

  /** Appending text without `c` does not move the last `c`. */
  lemma {:induction false} LastIndexOfAppend(a: string, b: string, c: char)
    requires c !in b
    ensures LastIndexOf(a + b, c) == LastIndexOf(a, c)
  {
    if b != [] {
      var b' := b[..|b| - 1];
      assert (a + b)[..|a + b| - 1] == a + b';
      LastIndexOfAppend(a, b', c);
    } else {
      assert a + b == a;
    }
  }

  /** The final component of a joined path is the name joined. */
  lemma JoinFileName(dir: Path, name: string)
    requires '/' !in name
    ensures FileName(Join(dir, name)) == name
    ensures IsDirectoryForm(dir) ==> Parent(Join(dir, name)) == dir
  {
    if dir == "" {
      assert Join(dir, name) == name;
    } else if dir[|dir| - 1] == '/' {
      LastIndexOfAppend(dir, name, '/');
      var j := Join(dir, name);
      assert j[|dir|..] == name;
      assert j[..|dir| - 1] == dir[..|dir| - 1];
    } else {
      LastIndexOfAppend(dir + "/", name, '/');
      var j := Join(dir, name);
      assert j[|dir| + 1..] == name;
      assert j[..|dir|] == dir;
    }
  }

  /** Replacing the extension by "json" keeps the stem. */
  lemma StemOfJsonName(stem: string)
    requires stem != ""
    ensures FileStem(stem + ".json") == stem
  {
    LastIndexOfAppend(stem + ".", "json", '.');
    assert stem + ".json" == (stem + ".") + "json";
    assert (stem + ".json")[..|stem|] == stem;
  }

  /**
   * The sidecar of an image is named after the image's stem with the extension
   * "json", keeps that stem, and (for a directory as `parent` gives it) lies in
   * the image's directory.
   */
  lemma SidecarBesideImage(image: Path)
    requires FileName(image) != ""
    ensures FileName(SidecarPath(image)) == FileStem(FileName(image)) + ".json"
    ensures FileStem(FileName(SidecarPath(image))) == FileStem(FileName(image))
    ensures IsDirectoryForm(Parent(image)) ==> Parent(SidecarPath(image)) == Parent(image)
  {
    var name := FileName(image);
    var stem := FileStem(name);
    assert '/' !in stem by {
      assert forall k :: 0 <= k < |stem| ==> stem[k] == name[k];
    }
    assert '/' !in stem + ".json";
    JoinFileName(Parent(image), stem + ".json");
    StemOfJsonName(stem);
  }
}
