/**
 * `sorted_dir_list`: the files to show, as full paths in ascending order.
 */
module Listing {
  import opened Base
  import opened Host
  import opened Order

  /** `requested + '/' + name` */
  function ChildPath(dir: string, name: string): string
  {
    dir + "/" + name
  }

  /** The direct children of `dir` that are regular files, as full paths. */
  function ChildFiles(fs: FileSystem, dir: string): set<string>
    requires IsDir(fs, dir)
  {
    set name | name in fs[dir].entries && IsFile(fs, ChildPath(dir, name)) :: ChildPath(dir, name)
  }

  lemma ChildPathInjective(dir: string, a: string, b: string)
    requires ChildPath(dir, a) == ChildPath(dir, b)
    ensures a == b
  {
    assert a == ChildPath(dir, a)[|dir| + 1..];
    assert b == ChildPath(dir, b)[|dir| + 1..];
  }

  /** What a listing of `path` must be. */
  ghost predicate ListingOf(fs: FileSystem, path: string, r: seq<string>)
  {
    if IsFile(fs, path) then r == [path]
    else if IsDir(fs, path) then StrictlySorted(r) && forall p :: p in r <==> p in ChildFiles(fs, path)
    else r == []
  }

  /** `os.listdir` raises: `path` is a directory the process may not read. */
  predicate ListingFails(fs: FileSystem, path: string)
  {
    !IsFile(fs, path) && IsDir(fs, path) && !fs[path].readable
  }

  /**
   * A file is listed on its own; a directory gives its child files, not
   * recursing into subdirectories, each once and in ascending order;
   * anything else gives nothing. The order `os.listdir` reports the names in
   * does not matter. `None` stands for the exception `os.listdir` raises on
   * a directory it may not read.
   */
  method SortedDirList(fs: FileSystem, path: string) returns (r: Option<seq<string>>)
    ensures r.None? <==> ListingFails(fs, path)
    ensures IsFile(fs, path) ==> r == Some([path])
    ensures !IsFile(fs, path) && IsDir(fs, path) && r.Some? ==>
      StrictlySorted(r.value) && forall p :: p in r.value <==> p in ChildFiles(fs, path)
    ensures !IsFile(fs, path) && !IsDir(fs, path) ==> r == Some([])
  {
    var found: seq<string> := [];
    if IsFile(fs, path) {
      found := found + [path];
      assert found[1..] == [] && Sort(found) == Insert(path, Sort([]));
    } else if IsDir(fs, path) {
      if !fs[path].readable {
        return None;
      }
      var remaining := fs[path].entries;
      ghost var seen: set<string> := {};
      while remaining != {}
        invariant remaining !! seen && remaining + seen == fs[path].entries
        invariant Distinct(found)
        invariant forall p :: p in found <==> exists name :: name in seen && IsFile(fs, ChildPath(path, name)) && p == ChildPath(path, name)
        decreases remaining
      {
        var name :| name in remaining;
        var candidate := ChildPath(path, name);
        if IsFile(fs, candidate) {
          forall k | 0 <= k < |found| ensures found[k] != candidate {
            if found[k] == candidate {
              assert found[k] in found;
              var other :| other in seen && IsFile(fs, ChildPath(path, other)) && found[k] == ChildPath(path, other);
              ChildPathInjective(path, other, name);
            }
          }
          found := found + [candidate];
        }
        remaining := remaining - {name};
        seen := seen + {name};
      }
      SortStrict(found);
    }
    r := Some(Sort(found));
  }

  /** The listing is determined by the file system: any two listings of a path are equal. */
  lemma ListingUnique(fs: FileSystem, path: string, a: seq<string>, b: seq<string>)
    requires ListingOf(fs, path, a) && ListingOf(fs, path, b)
    ensures a == b
  {
    if !IsFile(fs, path) && IsDir(fs, path) {
      StrictlySortedUnique(a, b);
    }
  }
}
