/** The host file system as an oracle: what `os.stat` reports for each path
    it succeeds on (regular files and directories alike), the directories
    with what `os.listdir` lists, the text files with the lines `readlines`
    returns, and the paths whose copy to a temporary file raises for some
    other reason than being a directory (no read permission, a full
    temporary disk). Paths are looked up as they are spelled; the operating
    system's own resolution of `..` and symbolic links is not modelled. */
module HostFiles {
  import opened Wrappers
  import opened Paths
  import opened Metadata

  datatype Host = Host(files: FileSystem, dirs: map<Path, seq<string>>, text: map<Path, seq<string>>, uncopyable: set<Path>)

  /** Every directory has what `os.stat` reports about it, as on a real host. */
  predicate Coherent(h: Host) {
    forall p :: p in h.dirs ==> p in h.files
  }

  /** `os.path.exists(p)`. */
  predicate Exists(h: Host, p: Path) {
    p in h.files || p in h.dirs
  }

  /** `os.listdir(p)`, or `None` where it raises. */
  function ListDir(h: Host, p: Path): (r: Option<seq<string>>)
    ensures r.Some? ==> Exists(h, p)
  {
    if p in h.dirs then Some(h.dirs[p]) else None
  }

  /** Whether `shutil.copy2(p, tmp)` succeeds: it raises for a directory
      and for the paths the host cannot copy. */
  predicate CanCopy(h: Host, p: Path) {
    p !in h.dirs && p !in h.uncopyable
  }

  /** The lines of a text file, or `None` where opening it raises. */
  function ReadLines(h: Host, p: Path): Option<seq<string>> {
    if p in h.text then Some(h.text[p]) else None
  }
}
