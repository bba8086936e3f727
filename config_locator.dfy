/**
 * The upward search for coffeelint's configuration file (`find_filename`).
 * A path is the sequence of its directory segments below the root, so the
 * root is `[]`, `os.path.dirname` drops the last segment and the root is
 * its own parent. The file system is the set of paths of existing files.
 */
module ConfigLocator {
  import opened Wrappers

  type Path = seq<string>

  /** The name of coffeelint's configuration file. */
  const ConfigFileName := "coffeelint.json"

  /** `os.path.dirname`: the parent directory; the root is its own parent. */
  function Dirname(p: Path): (parent: Path)
    ensures parent <= p
    ensures parent == p <==> p == []
    ensures p != [] ==> |parent| == |p| - 1
  {
    if p == [] then [] else p[..|p| - 1]
  }

  /** `os.path.join(dir, name)`. */
  function Join(dir: Path, name: string): Path
  {
    dir + [name]
  }

  /** The joined path names `name` inside `dir`: its last segment is `name` and its parent is `dir`. */
  lemma JoinDirname(dir: Path, name: string)
    ensures var p := Join(dir, name);
      p != [] && p[|p| - 1] == name && Dirname(p) == dir
  {
    var p := Join(dir, name);
    assert p[..|p| - 1] == dir;
  }

  /** The path `dir/name` of the nearest directory at or above `dir` where `name` is a file, or None. */
  function NearestConfig(files: set<Path>, dir: Path, name: string): (found: Option<Path>)
    ensures found.Some? ==> |found.value| >= 1 && var d := found.value[..|found.value| - 1];
      && found.value == Join(d, name)
      && found.value in files
      && d <= dir
      && forall k :: |d| < k <= |dir| ==> Join(dir[..k], name) !in files
    ensures found.None? <==> forall k :: 0 <= k <= |dir| ==> Join(dir[..k], name) !in files
    decreases |dir|
  {
    if Join(dir, name) in files then
      assert Join(dir, name)[..|dir|] == dir && dir[..|dir|] == dir;
      Some(Join(dir, name))
    else if Dirname(dir) == dir then
      assert dir[..0] == dir;
      None
    else
      var up := Dirname(dir);
      var r := NearestConfig(files, up, name);
      assert forall k :: 0 <= k <= |up| ==> up[..k] == dir[..k];
      assert dir[..|dir|] == dir;
      r
  }

  /** `find_filename`: the loop that climbs from `path` until `filename` is found or the root has been tried. */
  method FindFilename(files: set<Path>, path: Path, filename: string) returns (found: Option<Path>)
    ensures found == NearestConfig(files, path, filename)
  {
    found := None;
    var cur := path;
    while true
      invariant NearestConfig(files, cur, filename) == NearestConfig(files, path, filename)
      decreases |cur|
    {
      var curFile := Join(cur, filename);
      if curFile in files {
        found := Some(curFile);
        break;
      }
      var next := Dirname(cur);
      if cur == next {
        break;
      }
      cur := next;
    }
  }

  /** Climbing from `/a/b/c` finds `/a/coffeelint.json` when neither `/a/b` nor `/a/b/c` holds one. */
  lemma NearestAncestorExample(files: set<Path>)
    requires ["a", ConfigFileName] in files
    requires ["a", "b", ConfigFileName] !in files && ["a", "b", "c", ConfigFileName] !in files
    ensures NearestConfig(files, ["a", "b", "c"], ConfigFileName) == Some(["a", ConfigFileName])
  {
    assert Dirname(["a", "b", "c"]) == ["a", "b"] && Dirname(["a", "b"]) == ["a"];
    assert Join(["a"], ConfigFileName) == ["a", ConfigFileName];
    assert Join(["a", "b"], ConfigFileName) == ["a", "b", ConfigFileName];
    assert Join(["a", "b", "c"], ConfigFileName) == ["a", "b", "c", ConfigFileName];
    assert NearestConfig(files, ["a"], ConfigFileName) == Some(["a", ConfigFileName]);
    assert NearestConfig(files, ["a", "b"], ConfigFileName) == NearestConfig(files, ["a"], ConfigFileName);
  }
}
