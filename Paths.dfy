/**
 * File references inside tombstone records: an absolute path together with
 * its "reference path", the path relative to the configured root directory.
 * Paths use `/` as the separator.
 */
module Paths {

  /** An absolute path and the path a report shows for it. */
  datatype FileReference = FileReference(absolutePath: string, referencePath: string)

  /** The root directory with exactly one trailing separator appended when it has none. */
  function DirPrefix(root: string): (d: string)
    ensures |d| > 0 && d[|d| - 1] == '/'
    ensures d == root || d == root + "/"
  {
    if |root| > 0 && root[|root| - 1] == '/' then root else root + "/"
  }

  /**
   * `path` lies inside the directory `root`: it starts with the root followed
   * by a separator. A sibling whose name merely starts with the root's name
   * (`/ab/x` against root `/a`) is not inside it.
   */
  predicate IsUnder(root: string, path: string)
  {
    var d := DirPrefix(root);
    |d| <= |path| && path[..|d|] == d
  }

  /** The reference path of `path`: relative to `root` when it lies under it, unchanged otherwise. */
  function RelativePath(root: string, path: string): (r: string)
    ensures IsUnder(root, path) ==> DirPrefix(root) + r == path
    ensures !IsUnder(root, path) ==> r == path
  {
    if IsUnder(root, path) then path[|DirPrefix(root)|..] else path
  }

  /** The reference for `path` given the root directory. */
  function Reference(root: string, path: string): (f: FileReference)
    ensures f.absolutePath == path
    ensures f.referencePath == RelativePath(root, path)
  {
    FileReference(path, RelativePath(root, path))
  }

  /** A path under the root is shortened exactly by the root and its separator. */
  lemma RelativePathStripsRoot(root: string, rest: string)
    ensures RelativePath(root, DirPrefix(root) + rest) == rest
  {
    var d := DirPrefix(root);
    assert (d + rest)[..|d|] == d;
    assert (d + rest)[|d|..] == rest;
  }

  /** A file directly in the root directory is referred to by its bare name. */
  lemma FileInRootIsBareName(root: string)
    requires |root| == 0 || root[|root| - 1] != '/'
    ensures RelativePath(root, root + "/file1.php") == "file1.php"
  {
    RelativePathStripsRoot(root, "file1.php");
  }

  /**
   * A directory whose name only starts with the root's name (`/ab` against
   * root `/a`) is not treated as inside the root: its paths are kept as given.
   */
  lemma SiblingDirectoryNotRelativised(root: string, name: string)
    requires |root| == 0 || root[|root| - 1] != '/'
    requires |name| > 0 && name[0] != '/'
    ensures RelativePath(root, root + name) == root + name
  {
    var p := root + name;
    assert p[|root|] == name[0];
    assert DirPrefix(root)[|root|] == '/';
  }
}
