/**
 * A directory tree as a finite map from relative file path to text content,
 * and the project directory the generator builds up in place.
 */
module ProjectDirectory {

  import opened Wrappers
  import opened TemplatePaths

  /** A file tree: every regular file below a root, by relative path. */
  type Tree = map<Path, string>

  /**
   * The tree left by a recursive copy of `upper` onto `lower` with
   * overwriting on: every file of either; where both have a file, `upper`'s.
   */
  function Overlay(lower: Tree, upper: Tree): (r: Tree)
    ensures r.Keys == lower.Keys + upper.Keys
    ensures forall p :: p in upper ==> r[p] == upper[p]
    ensures forall p :: p in lower && p !in upper ==> r[p] == lower[p]
  {
    lower + upper
  }

  /** True when `listing` names every file of `t` exactly once (in no particular order). */
  ghost predicate Enumerates(listing: seq<Path>, t: Tree)
  {
    && (forall i, j :: 0 <= i < j < |listing| ==> listing[i] != listing[j])
    && (forall p :: p in listing <==> p in t)
  }

  /** The project directory on disk. */
  class Directory {

    var files: Tree

    /** `fs.ensureDir`: the directory exists afterwards; files already in it stay. */
    constructor (existing: Tree)
      ensures files == existing
    {
      files := existing;
    }

    /** `fs.copy(src, dir)`: fs-extra overwrites by default, and `{ overwrite: true }` says so explicitly. */
    method Copy(src: Tree)
      modifies this
      ensures files == Overlay(old(files), src)
    {
      files := files + src;
    }

    /** `fs.readFile`: the content, or nothing when there is no such file. */
    method ReadFile(p: Path) returns (content: Option<string>)
      ensures p in files <==> content.Some?
      ensures content.Some? ==> content.value == files[p]
    {
      content := if p in files then Some(files[p]) else None;
    }

    /** `fs.writeFile`: creates or replaces one file. */
    method WriteFile(p: Path, content: string)
      modifies this
      ensures files == old(files)[p := content]
    {
      files := files[p := content];
    }

    /** `fs.remove`: deletes one file, if present. */
    method Remove(p: Path)
      modifies this
      ensures files == old(files) - {p}
    {
      files := files - {p};
    }

    /**
     * `fs.readdir(dir, { recursive: true })`: every file path, each once, in
     * an order the operating system chooses (here: any order).
     */
    method ListRecursive() returns (listing: seq<Path>)
      ensures Enumerates(listing, files)
    {
      listing := [];
      var pending := files.Keys;
      while pending != {}
        invariant forall p :: p in files <==> p in pending || p in listing
        invariant forall p :: p in listing ==> p !in pending
        invariant forall i, j :: 0 <= i < j < |listing| ==> listing[i] != listing[j]
        decreases pending
      {
        var p :| p in pending;
        listing := listing + [p];
        pending := pending - {p};
      }
    }
  }
}
