/** The parts of the tag handler the synchronisation decisions depend on: the
    supported-format test, the change fingerprint of a file, and the early
    returns of the tag and artwork operations. The tag library itself is an
    oracle: a map from a path to the tags it could read there. */
module Metadata {
  import opened Wrappers
  import opened Strings
  import opened Paths

  /** The seven audio extensions the handler accepts. */
  const SupportedFormats: set<string> := {".mp3", ".flac", ".m4a", ".aac", ".ogg", ".opus", ".wma"}

  /** `is_supported`: the lower-cased extension is one of the seven. */
  predicate IsSupported(p: Path) {
    Lower(SplitExt(p).1) in SupportedFormats
  }

  /** What `os.stat` reports for a file: its size and modification time. */
  datatype FileStat = FileStat(size: nat, mtime: real)

  /** The host file system as the handler sees it: the files that exist. */
  type FileSystem = map<Path, FileStat>

  /** The MD5 digest of the bytes fed to it, kept symbolic: two digests are
      equal exactly when their inputs are. */
  datatype Digest = Md5(input: string)

  /** Python's `int(x)` on a float: truncation toward zero. */
  function Truncate(x: real): (r: int)
    ensures x >= 0.0 ==> r as real <= x < r as real + 1.0
    ensures x < 0.0 ==> r as real - 1.0 < x <= r as real
  {
    if x >= 0.0 then x.Floor else -((-x).Floor)
  }

  /** `get_file_hash`: nothing for a missing file, otherwise the digest of the
      decimal size followed by the decimal whole-second mtime. */
  function FileHash(fs: FileSystem, p: Path): (r: Option<Digest>)
    ensures r.None? <==> p !in fs
  {
    if p !in fs then None
    else Some(Md5(IntToString(fs[p].size) + IntToString(Truncate(fs[p].mtime))))
  }

  // ----- supported formats -----

  /** Every supported extension is a dot followed by lower-case letters and digits. */
  lemma SupportedShape(e: string)
    requires e in SupportedFormats
    ensures |e| >= 2 && e[0] == '.' && '.' !in e[1..] && '/' !in e && Lower(e) == e
  {
  }

  /** A path whose last component has no dot has no extension, so it is unsupported. */
  lemma NoExtensionUnsupported(p: Path)
    requires '.' !in Basename(p)
    ensures SplitExt(p).1 == ""
    ensures !IsSupported(p)
  {
    NoDotNoExtension(p);
    assert Lower("") == "";
  }

  lemma NoDotNoExtension(p: Path)
    requires '.' !in Basename(p)
    ensures SplitExt(p).1 == ""
  {
    var sepIndex := RFind(p, '/');
    var dotIndex := RFind(p, '.');
    assert dotIndex <= sepIndex;
  }

  /** A file named `<dir>/<name><ext>` is supported exactly when its lower-cased
      extension is listed; a hidden file such as `<dir>/.mp3` has no extension. */
  lemma SupportedByExtension(dir: Path, name: string, ext: string)
    requires '/' !in name && '.' !in name
    requires |ext| >= 1 && ext[0] == '.' && '.' !in ext[1..] && '/' !in ext
    ensures name != "" ==> (IsSupported(dir + "/" + name + ext) <==> Lower(ext) in SupportedFormats)
    ensures name == "" ==> !IsSupported(dir + "/" + name + ext)
  {
    NamedSplitExt(dir, name, ext);
    assert Lower("") == "";
  }

  /** The extension of `<dir>/<name><ext>` is `ext`, or none when the name is empty. */
  lemma NamedSplitExt(dir: Path, name: string, ext: string)
    requires '/' !in name && '.' !in name
    requires |ext| >= 1 && ext[0] == '.' && '.' !in ext[1..] && '/' !in ext
    ensures SplitExt(dir + "/" + name + ext).1 == if name != "" then ext else ""
  {
    var p := dir + "/" + name + ext;
    NamedRFinds(dir, name, ext);
    var sepIndex := |dir|;
    var dotIndex := |dir| + 1 + |name|;
    if name != "" {
      assert p[sepIndex + 1] == name[0] && p[sepIndex + 1] != '.';
      assert p[dotIndex..] == ext;
    } else {
      assert dotIndex == sepIndex + 1;
    }
  }

  /** Concatenation is associative. */
  lemma ConcatAssoc(a: string, b: string, c: string)
    ensures a + b + c == a + (b + c)
  {
  }

  /** A character in neither part is not in their concatenation. */
  lemma NotInConcat(a: string, b: string, c: char)
    requires c !in a && c !in b
    ensures c !in a + b
  {
    assert forall i :: 0 <= i < |a + b| ==> (a + b)[i] == if i < |a| then a[i] else b[i - |a|];
  }

  /** In `<dir>/<name><ext>` the last `/` is the one after `dir`, and the last
      `.` is the first character of `ext`. */
  lemma NamedRFinds(dir: Path, name: string, ext: string)
    requires '/' !in name && '.' !in name
    requires |ext| >= 1 && ext[0] == '.' && '.' !in ext[1..] && '/' !in ext
    ensures RFind(dir + "/" + name + ext, '/') == |dir|
    ensures RFind(dir + "/" + name + ext, '.') == |dir| + 1 + |name|
  {
    LastSlash(dir, name, ext);
    LastDot(dir + "/" + name, ext);
  }

  /** The last `/` of `<dir>/<rest>` is the one after `dir` when `rest` has none. */
  lemma LastSlash(dir: Path, name: string, ext: string)
    requires '/' !in name && '/' !in ext
    ensures RFind(dir + "/" + name + ext, '/') == |dir|
  {
    NotInConcat(name, ext, '/');
    ConcatAssoc(dir + "/", name, ext);
    RFindAfterLast(dir, '/', name + ext);
  }

  /** The last `.` of `<stem><ext>` starts `ext` when only its first character is a dot. */
  lemma LastDot(stem: string, ext: string)
    requires |ext| >= 1 && ext[0] == '.' && '.' !in ext[1..]
    ensures RFind(stem + ext, '.') == |stem|
  {
    assert ext == ['.'] + ext[1..];
    ConcatAssoc(stem, ['.'], ext[1..]);
    RFindAfterLast(stem, '.', ext[1..]);
  }

  // ----- the change fingerprint -----

  /** Equal size and equal whole-second mtime give equal fingerprints: a change
      within the same second, or one that keeps size and second, goes unseen. */
  lemma SameStatSameHash(fs: FileSystem, p: Path, fs': FileSystem, p': Path)
    requires p in fs && p' in fs'
    requires fs[p].size == fs'[p'].size && Truncate(fs[p].mtime) == Truncate(fs'[p'].mtime)
    ensures FileHash(fs, p) == FileHash(fs', p')
  {
  }

  /** A rewrite inside the same second is not detected. */
  lemma SubSecondChangeUndetected(fs: FileSystem, p: Path)
    requires p in fs && fs[p].mtime >= 0.0
    ensures FileHash(fs[p := FileStat(fs[p].size, fs[p].mtime.Floor as real + 0.5)], p) == FileHash(fs, p)
  {
    var t := fs[p].mtime.Floor as real + 0.5;
    assert t.Floor == fs[p].mtime.Floor;
  }

  /** `str(i)` determines `i`. */
  lemma IntToStringInjective(a: int, b: int)
    requires IntToString(a) == IntToString(b)
    ensures a == b
  {
    ParseIntOfString(a);
    ParseIntOfString(b);
  }

  /** With the size unchanged, a move to another whole second changes the
      text the digest is taken of, and so the fingerprint, MD5 being taken
      free of collisions. */
  lemma NewSecondDetected(fs: FileSystem, p: Path, fs': FileSystem)
    requires p in fs && p in fs'
    requires fs[p].size == fs'[p].size && Truncate(fs[p].mtime) != Truncate(fs'[p].mtime)
    ensures FileHash(fs, p).value.input != FileHash(fs', p).value.input
    ensures FileHash(fs, p) != FileHash(fs', p)
  {
    var s := IntToString(fs[p].size);
    var a := IntToString(Truncate(fs[p].mtime));
    var b := IntToString(Truncate(fs'[p].mtime));
    if s + a == s + b {
      assert a == (s + a)[|s|..];
      assert b == (s + b)[|s|..];
      IntToStringInjective(Truncate(fs[p].mtime), Truncate(fs'[p].mtime));
    }
  }

  /** The two numbers are written with no separator between them, so different
      stats can share a fingerprint: 12 bytes at second 345 and 123 bytes at
      second 45 both feed the digest "12345". */
  lemma UnseparatedFieldsCollide()
    ensures FileHash(map["a" := FileStat(12, 345.0)], "a") == FileHash(map["a" := FileStat(123, 45.0)], "a")
  {
    assert Truncate(345.0) == 345 && Truncate(45.0) == 45;
    assert IntToString(12) == "12" && IntToString(345) == "345";
    assert IntToString(123) == "123" && IntToString(45) == "45";
    assert "12" + "345" == "123" + "45";
  }

  // ----- tags and artwork -----

  /** What the tag library reads from one file: its text tags and its embedded
      cover, if any. */
  datatype Tags = Tags(fields: map<string, string>, artwork: Option<seq<bv8>>)

  /** The tag library: the files it can open, with what it reads there. A file
      it cannot open (or that raises while reading) is absent. */
  type TagLibrary = map<Path, Tags>

  /** The dictionary `read_metadata` returns when it gets past its guards:
      the tags, and the cover when one was found and is not empty. Such a
      dictionary always holds the `length` and `bitrate` keys, so it is never
      empty; the empty dictionary is modelled by `None`. */
  datatype AudioMetadata = AudioMetadata(fields: map<string, string>, artwork: Option<seq<bv8>>)

  /** `extract_artwork`: nothing for an unsupported format, otherwise the
      cover the tag library finds. */
  function ExtractArtwork(p: Path, lib: TagLibrary): (r: Option<seq<bv8>>)
    ensures !IsSupported(p) ==> r.None?
    ensures r.Some? ==> p in lib && lib[p].artwork == r
  {
    if !IsSupported(p) || p !in lib then None else lib[p].artwork
  }

  /** `read_metadata`: the empty dictionary for an unsupported format or a
      missing file, before the tag library is consulted. */
  function ReadMetadata(fs: FileSystem, p: Path, lib: TagLibrary): (r: Option<AudioMetadata>)
    ensures !IsSupported(p) || p !in fs ==> r.None?
    ensures r.Some? <==> IsSupported(p) && p in fs && p in lib
    ensures r.Some? && r.value.artwork.Some? ==> r.value.artwork.value != []
  {
    if !IsSupported(p) || p !in fs || p !in lib then None
    else
      var art := ExtractArtwork(p, lib);
      var kept := if art.Some? && art.value != [] then art else None;
      Some(AudioMetadata(lib[p].fields, kept))
  }

  /** `embed_artwork_in_file`: false for an unsupported format or empty cover
      data; otherwise true exactly when the tag library can open the file.
      `writable` holds the files that can be opened and saved. */
  function EmbedArtworkInFile(p: Path, data: seq<bv8>, writable: set<Path>): (r: bool)
    ensures r <==> IsSupported(p) && data != [] && p in writable
  {
    if !IsSupported(p) then false
    else if data == [] then false
    else p in writable
  }

  /** `preserve_metadata`: false when the source yields no metadata; copies the
      cover when embedding is enabled and there is one, and is true otherwise. */
  function PreserveMetadata(embedArtwork: bool, fs: FileSystem, lib: TagLibrary, src: Path, dest: Path, writable: set<Path>): (r: bool)
    ensures ReadMetadata(fs, src, lib).None? ==> !r
    ensures ReadMetadata(fs, src, lib).Some? && (!embedArtwork || ReadMetadata(fs, src, lib).value.artwork.None?) ==> r
    ensures r && embedArtwork && ReadMetadata(fs, src, lib).Some? && ReadMetadata(fs, src, lib).value.artwork.Some? ==> IsSupported(dest) && dest in writable
  {
    var meta := ReadMetadata(fs, src, lib);
    if meta.None? then false
    else if embedArtwork && meta.value.artwork.Some? then EmbedArtworkInFile(dest, meta.value.artwork.value, writable)
    else true
  }
}
