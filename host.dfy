/**
 * The part of the host machine the program looks at: a file system mapping
 * each path to what it names, the names of the environment variables that
 * are set, and what `i2cdetect -y 1 60 60` prints.
 */
module Host {
  import opened Base

  /** Pixel size of a picture as Pillow decodes it. */
  datatype Dims = Dims(width: nat, height: nat)

  /**
   * What a path names. A regular file carries what `readlines()` returns for
   * it and, when Pillow can open it, the size of the picture it holds. A
   * directory carries the names `os.listdir` reports, in no particular order.
   * `readable` says whether the process may open the file or list the
   * directory; when it may not, `open`, `Image.open` or `os.listdir` raises.
   */
  datatype Node =
    | RegularFile(lines: seq<string>, picture: Option<Dims>, readable: bool)
    | Directory(entries: set<string>, readable: bool)
    | Special

  /** Paths are looked up exactly as the program spells them. */
  type FileSystem = map<string, Node>

  /** `os.path.exists` */
  predicate Exists(fs: FileSystem, path: string)
  {
    path in fs
  }

  /** `os.path.isfile` */
  predicate IsFile(fs: FileSystem, path: string)
  {
    path in fs && fs[path].RegularFile?
  }

  /** `os.path.isdir` */
  predicate IsDir(fs: FileSystem, path: string)
  {
    path in fs && fs[path].Directory?
  }

  /** `open(path)` succeeds: a regular file the process may read. */
  predicate IsReadableFile(fs: FileSystem, path: string)
  {
    IsFile(fs, path) && fs[path].readable
  }

  /** `xmessage_installed`: one of the three usual locations exists. */
  predicate XmessageInstalled(fs: FileSystem)
  {
    Exists(fs, "/opt/X11/bin/xmessage") || Exists(fs, "/bin/xmessage") || Exists(fs, "/usr/bin/xmessage")
  }

  /** `feh_installed`: one of the three usual locations exists. */
  predicate FehInstalled(fs: FileSystem)
  {
    Exists(fs, "/usr/bin/feh") || Exists(fs, "/bin/feh") || Exists(fs, "/opt/local/bin/feh")
  }

  const XmessagePaths: set<string> := {"/opt/X11/bin/xmessage", "/bin/xmessage", "/usr/bin/xmessage"}
  const FehPaths: set<string> := {"/usr/bin/feh", "/bin/feh", "/opt/local/bin/feh"}

  /**
   * A viewer counts as installed exactly when one of its usual locations
   * exists, whatever else the file system holds; adding paths never
   * uninstalls it.
   */
  lemma ViewerLocations(fs: FileSystem, more: FileSystem)
    ensures XmessageInstalled(fs) <==> XmessagePaths * fs.Keys != {}
    ensures FehInstalled(fs) <==> FehPaths * fs.Keys != {}
    ensures fs.Keys <= more.Keys ==> (XmessageInstalled(fs) ==> XmessageInstalled(more)) && (FehInstalled(fs) ==> FehInstalled(more))
  {
    if XmessageInstalled(fs) {
      var p :| p in XmessagePaths && p in fs;
      assert p in XmessagePaths * fs.Keys;
    }
    if FehInstalled(fs) {
      var p :| p in FehPaths && p in fs;
      assert p in FehPaths * fs.Keys;
    }
  }

  datatype Machine = Machine(fs: FileSystem, environ: set<string>, i2cdetectOutput: seq<string>)
}
