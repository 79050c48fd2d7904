/** The playlist handler: it translates a library path into the path a track
    has below the player's music folder, writes the M3U text of a playlist,
    turns a playlist name into a file name, groups tracks by their folder on
    the player, and restricts a library playlist to the tracks being synced.
    The handler never changes after construction, so it is a value. */
module Playlists {
  import opened Wrappers
  import opened Strings
  import opened Paths
  import opened OrderedMaps
  import opened Metadata
  import opened MusicBee

  /** The characters `_sanitize_filename` replaces by `_`. */
  const InvalidChars: seq<char> := ['<', '>', ':', '"', '/', '\\', '|', '?', '*']

  /** What `strip(' .')` removes from both ends of a file name. */
  const EdgeChars: set<char> := {' ', '.'}

  const MaxNameLength := 255

  /** The `artist/album/file` fallback: the names of the grandparent folder,
      the parent folder and the file, joined with empty names dropped. */
  function ArtistAlbumPath(f: Path): Path {
    Join(Join(Basename(Dirname(Dirname(f))), Basename(Dirname(f))), Basename(f))
  }

  function Min(a: int, b: int): int {
    if a < b then a else b
  }

  /** The fallback keeps the last three components (fewer for a shallower path). */
  lemma ArtistAlbumPathOfAbs(cs: seq<string>)
    requires Clean(cs) && cs != []
    ensures ArtistAlbumPath(AbsPathOf(cs)) == JoinWith(cs[|cs| - Min(3, |cs|)..], '/')
  {
    var n := |cs|;
    var tail := cs[n - Min(3, n)..];
    if n >= 3 {
      var pre := cs[..n - 3];
      assert cs == pre + [cs[n - 3], cs[n - 2], cs[n - 1]];
      ArtistAlbumDeep(pre, cs[n - 3], cs[n - 2], cs[n - 1]);
      assert tail == [cs[n - 3], cs[n - 2], cs[n - 1]];
      JoinThree(tail);
    } else if n == 2 {
      assert tail == cs && cs[1..] == [cs[1]];
      ArtistAlbumShallow(cs);
    } else {
      assert tail == cs;
      ArtistAlbumTop(cs);
    }
  }

  lemma JoinThree(t: seq<string>)
    requires |t| == 3
    ensures JoinWith(t, '/') == t[0] + "/" + t[1] + "/" + t[2]
  {
    var rest := t[1..];
    assert rest[1..] == [t[2]];
    assert JoinWith(rest, '/') == t[1] + "/" + t[2];
    assert JoinWith(t, '/') == t[0] + "/" + JoinWith(rest, '/');
  }

  /** The names of a path's last three levels give the fallback. */
  lemma ArtistAlbumOfNames(f: Path, artist: string, album: string, base: string)
    requires Basename(f) == base && Basename(Dirname(f)) == album && Basename(Dirname(Dirname(f))) == artist
    ensures ArtistAlbumPath(f) == Join(Join(artist, album), base)
  {
  }

  lemma ArtistAlbumDeep(pre: seq<string>, artist: string, album: string, base: string)
    requires Clean(pre + [artist, album, base])
    ensures ArtistAlbumPath(AbsPathOf(pre + [artist, album, base])) == artist + "/" + album + "/" + base
  {
    var c3 := pre + [artist, album, base];
    var c2 := pre + [artist, album];
    var c1 := pre + [artist];
    assert c3[..|c3| - 1] == c2 && c2[..|c2| - 1] == c1;
    assert c3[|c3| - 1] == base && c2[|c2| - 1] == album && c1[|c1| - 1] == artist;
    ParentOfAbs(c3);
    ParentOfAbs(c2);
    ParentOfAbs(c1);
    ArtistAlbumOfNames(AbsPathOf(c3), artist, album, base);
    assert CleanComponent(c3[|c3| - 3]) && CleanComponent(c3[|c3| - 2]) && CleanComponent(c3[|c3| - 1]);
    JoinName(artist, album);
    JoinName(artist + "/" + album, base);
  }

  lemma ArtistAlbumShallow(c2: seq<string>)
    requires Clean(c2) && |c2| == 2
    ensures ArtistAlbumPath(AbsPathOf(c2)) == c2[0] + "/" + c2[1]
  {
    ShallowNames(c2);
    ArtistAlbumOfNames(AbsPathOf(c2), "", c2[0], c2[1]);
    assert CleanComponent(c2[0]) && CleanComponent(c2[1]);
    JoinName("", c2[0]);
    JoinName(c2[0], c2[1]);
  }

  /** The last three levels of `/a/b` are the root's empty name, `a` and `b`. */
  lemma ShallowNames(c2: seq<string>)
    requires Clean(c2) && |c2| == 2
    ensures Basename(AbsPathOf(c2)) == c2[1]
    ensures Basename(Dirname(AbsPathOf(c2))) == c2[0]
    ensures Basename(Dirname(Dirname(AbsPathOf(c2)))) == ""
  {
    var c1 := c2[..1];
    ParentOfAbs(c2);
    assert c1 == [c2[0]];
    ParentOfAbs(c1);
    assert c1[..0] == [];
    assert AbsPathOf([]) == "/";
    BasenameOfRoot();
  }

  lemma ArtistAlbumTop(c1: seq<string>)
    requires Clean(c1) && |c1| == 1
    ensures ArtistAlbumPath(AbsPathOf(c1)) == c1[0]
  {
    var c0 := c1[..0];
    ParentOfAbs(c1);
    ParentOfAbs(c0);
    BasenameOfRoot();
    ArtistAlbumOfNames(AbsPathOf(c1), "", "", c1[0]);
    assert CleanComponent(c1[0]);
  }

  /** The tracks of `tracks` whose path is one of `paths`, in order, duplicates kept. */
  function Restrict(tracks: seq<Track>, paths: set<Path>): (r: seq<Track>)
    ensures |r| <= |tracks|
    decreases |tracks|
  {
    if tracks == [] then []
    else
      var before := Restrict(tracks[..|tracks| - 1], paths);
      if tracks[|tracks| - 1].filePath in paths then before + [tracks[|tracks| - 1]] else before
  }

  lemma {:induction false} RestrictMembers(tracks: seq<Track>, paths: set<Path>, t: Track)
    ensures t in Restrict(tracks, paths) <==> t in tracks && t.filePath in paths
    decreases |tracks|
  {
    if tracks != [] {
      RestrictMembers(tracks[..|tracks| - 1], paths, t);
      assert tracks == tracks[..|tracks| - 1] + [tracks[|tracks| - 1]];
    }
  }

  /** The paths of a list of tracks, as a set. */
  function PathSet(tracks: seq<Track>): set<Path> {
    set t | t in tracks :: t.filePath
  }

  // ----- file names -----

  /** Every invalid character replaced by `_`. */
  function ReplaceInvalid(s: string): (r: string)
    ensures |r| == |s|
    ensures forall i :: 0 <= i < |s| ==> r[i] == if s[i] in InvalidChars then '_' else s[i]
  {
    seq(|s|, i requires 0 <= i < |s| => if s[i] in InvalidChars then '_' else s[i])
  }

  /** The first `k` invalid characters replaced by `_`: the state of the
      `_sanitize_filename` loop after `k` turns. */
  function ReplacedUpTo(s: string, k: nat): (r: string)
    requires k <= |InvalidChars|
    ensures |r| == |s|
    ensures forall i :: 0 <= i < |s| ==> r[i] == if s[i] in InvalidChars[..k] then '_' else s[i]
  {
    seq(|s|, i requires 0 <= i < |s| => if s[i] in InvalidChars[..k] then '_' else s[i])
  }

  /** What `_sanitize_filename` computes. */
  function Sanitized(name: string): string {
    var r := Strip(ReplaceInvalid(name), EdgeChars);
    if |r| > MaxNameLength then r[..MaxNameLength] else r
  }

  /** A sanitized name holds no invalid character, does not start with a space
      or a dot, and is at most 255 characters long. */
  lemma SanitizedProperties(name: string)
    ensures forall i :: 0 <= i < |Sanitized(name)| ==> Sanitized(name)[i] !in InvalidChars
    ensures |Sanitized(name)| > 0 ==> Sanitized(name)[0] !in EdgeChars
    ensures |Sanitized(name)| <= MaxNameLength
  {
    var u := ReplaceInvalid(name);
    ReplaceInvalidValid(name);
    var st := Strip(u, EdgeChars);
    StripKeepsValid(u);
    var r := Sanitized(name);
    assert r == if |st| > MaxNameLength then st[..MaxNameLength] else st;
    assert forall i :: 0 <= i < |r| ==> r[i] == st[i];
  }

  /** Stripping a name without invalid characters leaves none. */
  lemma StripKeepsValid(u: string)
    requires forall i :: 0 <= i < |u| ==> u[i] !in InvalidChars
    ensures forall i :: 0 <= i < |Strip(u, EdgeChars)| ==> Strip(u, EdgeChars)[i] !in InvalidChars
  {
    var st := Strip(u, EdgeChars);
    var lo := StripSlice(u, EdgeChars);
    forall i | 0 <= i < |st|
      ensures st[i] !in InvalidChars
    {
      assert st[i] == u[lo + i];
    }
  }

  /** Replacement leaves no invalid character. */
  lemma ReplaceInvalidValid(name: string)
    ensures forall i :: 0 <= i < |ReplaceInvalid(name)| ==> ReplaceInvalid(name)[i] !in InvalidChars
  {
    assert '_' !in InvalidChars;
  }

  /** Cutting at 255 characters happens after stripping, so a long name can
      end in a dot: 254 letters, a dot and one more letter give 254 letters
      and a dot. */
  lemma TruncationCanEndInDot(stem: string)
    requires |stem| == 254 && forall i :: 0 <= i < 254 ==> 'a' <= stem[i] <= 'z'
    ensures Sanitized(stem + ".x") == stem + "."
  {
    var s := stem + ".x";
    LettersAndDotValid(stem);
    ReplaceInvalidNoOp(s);
    assert s[0] !in EdgeChars && s[|s| - 1] !in EdgeChars;
    StripNoOp(s, EdgeChars);
    assert s[..255] == stem + ".";
  }

  /** Letters followed by `.x` hold no invalid character. */
  lemma LettersAndDotValid(stem: string)
    requires forall i :: 0 <= i < |stem| ==> 'a' <= stem[i] <= 'z'
    ensures forall i :: 0 <= i < |stem + ".x"| ==> (stem + ".x")[i] !in InvalidChars
  {
  }

  /** A name without invalid characters is left as it is by the replacement. */
  lemma ReplaceInvalidNoOp(s: string)
    requires forall i :: 0 <= i < |s| ==> s[i] !in InvalidChars
    ensures ReplaceInvalid(s) == s
  {
  }

  // ----- the handler -----

  datatype PlaylistHandler = PlaylistHandler(dapMusicPath: Path, libraryPath: Path) {

    /** `_get_relative_dap_path`: when the normalised path starts, as a string,
        with the normalised library root, its path relative to the root;
        otherwise the `artist/album/file` fallback. Separators are already `/`. */
    function RelativeDapPath(filePath: Path): Path {
      var f := Normpath(filePath);
      var l := Normpath(libraryPath);
      if !StartsWith(f, l) then ArtistAlbumPath(f) else RelPath(f, l)
    }

    /** A file below the library root maps to its components below the root,
        and joining the root with the result gives the file back. */
    lemma RelativeDapPathBelowRoot(root: seq<string>, rel: seq<string>)
      requires libraryPath == AbsPathOf(root)
      requires Clean(root) && Clean(rel) && rel != []
      ensures RelativeDapPath(AbsPathOf(root + rel)) == JoinWith(rel, '/')
      ensures Join(libraryPath, RelativeDapPath(AbsPathOf(root + rel))) == AbsPathOf(root + rel)
    {
      CleanConcat(root, rel);
      BelowRootIsRelative(root, rel);
      RelPathBelow(root, rel);
      JoinRelPath(root, rel);
    }

    /** A file below the library root takes the `relpath` branch. */
    lemma BelowRootIsRelative(root: seq<string>, rel: seq<string>)
      requires libraryPath == AbsPathOf(root)
      requires Clean(root) && Clean(root + rel) && rel != []
      ensures RelativeDapPath(AbsPathOf(root + rel)) == RelPath(AbsPathOf(root + rel), AbsPathOf(root))
    {
      NormpathOfAbs(root);
      NormpathOfAbs(root + rel);
      AbsPathBelowStartsWith(root, rel);
    }

    /** The root test compares characters, not components: below root
        `/.../x`, a file in a sibling folder `/.../xy` takes the relative
        branch and starts with `..`. */
    lemma CharacterPrefixSibling(a: seq<string>, x: string, y: string, rest: seq<string>)
      requires libraryPath == AbsPathOf(a + [x])
      requires Clean(a + [x]) && Clean([x + y] + rest) && y != ""
      ensures RelativeDapPath(AbsPathOf(a + [x + y] + rest)) == "../" + JoinWith([x + y] + rest, '/')
    {
      SiblingRelPath(a, x, y, rest);
      NormpathOfAbs(a + [x]);
      NormpathOfAbs(a + [x + y] + rest);
      LongerNamePrefix(a, x, y, rest);
    }

    /** A file whose path does not start with the root maps to its last three
        components, whatever the root. */
    lemma OutsideRootKeepsLastThree(cs: seq<string>)
      requires Clean(cs) && cs != []
      requires !StartsWith(AbsPathOf(cs), Normpath(libraryPath))
      ensures RelativeDapPath(AbsPathOf(cs)) == JoinWith(cs[|cs| - Min(3, |cs|)..], '/')
    {
      NormpathOfAbs(cs);
      ArtistAlbumPathOfAbs(cs);
    }

    // ----- playlist text -----

    /** The `#EXTINF` line of a track: whole seconds, artist, title. */
    function ExtInf(t: Track): string {
      "#EXTINF:" + IntToString(Truncate(t.duration)) + "," + t.artist + " - " + t.title
    }

    /** Whether a track makes it into a playlist: it has a path, and that path
        translates to something. */
    predicate Emits(t: Track) {
      t.filePath != "" && RelativeDapPath(t.filePath) != ""
    }

    /** The lines one track adds. */
    function TrackLines(t: Track): seq<string> {
      if Emits(t) then [ExtInf(t), RelativeDapPath(t.filePath)] else []
    }

    /** The lines `generate_playlist` collects after the header. */
    function BodyLines(tracks: seq<Track>): seq<string>
      decreases |tracks|
    {
      if tracks == [] then []
      else BodyLines(tracks[..|tracks| - 1]) + TrackLines(tracks[|tracks| - 1])
    }

    /** The tracks that make it into the playlist, in order. */
    function Emitted(tracks: seq<Track>): seq<Track>
      decreases |tracks|
    {
      if tracks == [] then []
      else
        var before := Emitted(tracks[..|tracks| - 1]);
        if Emits(tracks[|tracks| - 1]) then before + [tracks[|tracks| - 1]] else before
    }

    /** The whole playlist, one line per entry. */
    function PlaylistLines(tracks: seq<Track>): seq<string> {
      ["#EXTM3U"] + BodyLines(tracks)
    }

    /** The text `generate_playlist` returns. */
    function PlaylistContent(tracks: seq<Track>): string {
      JoinWith(PlaylistLines(tracks), '\n') + "\n"
    }

    /** The playlist is the header followed by two lines per emitted track,
        in order: its `#EXTINF` line and its path on the player. */
    lemma {:induction false} PlaylistLinesShape(tracks: seq<Track>)
      ensures |PlaylistLines(tracks)| == 1 + 2 * |Emitted(tracks)|
      ensures PlaylistLines(tracks)[0] == "#EXTM3U"
      ensures forall k :: 0 <= k < |Emitted(tracks)| ==>
                PlaylistLines(tracks)[1 + 2 * k] == ExtInf(Emitted(tracks)[k])
                && PlaylistLines(tracks)[2 + 2 * k] == RelativeDapPath(Emitted(tracks)[k].filePath)
      decreases |tracks|
    {
      if tracks != [] {
        var n := |tracks| - 1;
        var init := tracks[..n];
        var last := tracks[n];
        PlaylistLinesShape(init);
        PlaylistLinesStep(tracks, n);
        assert tracks[..n + 1] == tracks;
        var before := PlaylistLines(init);
        var lines := PlaylistLines(tracks);
        var es := Emitted(tracks);
        var es0 := Emitted(init);
        assert lines == before + TrackLines(last);
        assert es == if Emits(last) then es0 + [last] else es0;
        forall k | 0 <= k < |es|
          ensures lines[1 + 2 * k] == ExtInf(es[k]) && lines[2 + 2 * k] == RelativeDapPath(es[k].filePath)
        {
          if k < |es0| {
            assert es[k] == es0[k];
            assert lines[1 + 2 * k] == before[1 + 2 * k] && lines[2 + 2 * k] == before[2 + 2 * k];
          } else {
            assert es[k] == last && TrackLines(last) == [ExtInf(last), RelativeDapPath(last.filePath)];
            assert lines[1 + 2 * k] == TrackLines(last)[0] && lines[2 + 2 * k] == TrackLines(last)[1];
          }
        }
      }
    }

    /** One more track appends its lines. */
    lemma PlaylistLinesStep(tracks: seq<Track>, i: nat)
      requires i < |tracks|
      ensures PlaylistLines(tracks[..i + 1]) == PlaylistLines(tracks[..i]) + TrackLines(tracks[i])
    {
      var xs := tracks[..i + 1];
      assert xs[..|xs| - 1] == tracks[..i] && xs[|xs| - 1] == tracks[i];
      assert BodyLines(xs) == BodyLines(tracks[..i]) + TrackLines(tracks[i]);
    }

    /** The text starts with the header and ends with a newline. */
    lemma PlaylistContentEnds(tracks: seq<Track>)
      ensures StartsWith(PlaylistContent(tracks), "#EXTM3U")
      ensures EndsWith(PlaylistContent(tracks), "\n")
    {
      var lines := PlaylistLines(tracks);
      if |lines| > 1 {
        assert JoinWith(lines, '\n') == "#EXTM3U" + ['\n'] + JoinWith(lines[1..], '\n');
      }
    }

    /** `generate_playlist`. The name mapping is consulted but its result is
        never used, so the text depends on the tracks alone. */
    method GeneratePlaylist(name: string, tracks: seq<Track>, mapping: Option<map<string, string>>) returns (content: string)
      ensures content == PlaylistContent(tracks)
    {
      var mappedName := name;
      if mapping.Some? && name in mapping.value {
        mappedName := mapping.value[name];
      }
      var lines := ["#EXTM3U"];
      var i := 0;
      while i < |tracks|
        invariant 0 <= i <= |tracks|
        invariant lines == PlaylistLines(tracks[..i])
      {
        PlaylistLinesStep(tracks, i);
        var t := tracks[i];
        if t.filePath != "" {
          var relative := RelativeDapPath(t.filePath);
          if relative != "" {
            lines := lines + [ExtInf(t), relative];
          }
        }
        i := i + 1;
      }
      assert tracks[..|tracks|] == tracks;
      content := JoinWith(lines, '\n') + "\n";
    }

    // ----- playlist files -----

    /** `_sanitize_filename`. */
    method SanitizeFilename(filename: string) returns (r: string)
      ensures r == Sanitized(filename)
    {
      r := filename;
      var k := 0;
      while k < |InvalidChars|
        invariant 0 <= k <= |InvalidChars|
        invariant r == ReplacedUpTo(filename, k)
      {
        assert InvalidChars[..k + 1] == InvalidChars[..k] + [InvalidChars[k]];
        assert '_' != InvalidChars[k];
        r := ReplaceChar(r, InvalidChars[k], '_');
        k := k + 1;
      }
      assert InvalidChars[..|InvalidChars|] == InvalidChars;
      assert r == ReplaceInvalid(filename);
      r := Strip(r, EdgeChars);
      if |r| > MaxNameLength {
        r := r[..MaxNameLength];
      }
    }

    /** `save_playlist`: the file name is the sanitized name with `.m3u`,
        inside `dir`; the content is not used. */
    method SavePlaylist(content: string, name: string, dir: Path) returns (path: Path)
      ensures path == Join(dir, Sanitized(name) + ".m3u")
    {
      var safe := SanitizeFilename(name);
      path := Join(dir, safe + ".m3u");
    }

    /** The folder playlists go to on the player. */
    function PlaylistsDir(): Path {
      Join(dapMusicPath, "Playlists")
    }

    /** `generate_playlist_file`: the text and the path of a playlist; the
        name mapping changes neither. */
    method GeneratePlaylistFile(name: string, tracks: seq<Track>, mapping: Option<map<string, string>>) returns (content: string, path: Path)
      ensures content == PlaylistContent(tracks)
      ensures path == Join(PlaylistsDir(), Sanitized(name) + ".m3u")
    {
      content := GeneratePlaylist(name, tracks, mapping);
      path := SavePlaylist(content, name, PlaylistsDir());
    }

    /** `get_tracks_for_playlist`: the reader's tracks for the playlist that
        are among `allTracks`, in the reader's order. */
    method GetTracksForPlaylist(name: string, reader: MusicBeeReader, allTracks: seq<Track>) returns (r: seq<Track>)
      ensures r == Restrict(match Get(reader.playlists, name)
                            case None => []
                            case Some(entries) => TracksOfEntries(reader.tracks, entries), PathSet(allTracks))
    {
      var tracks := reader.GetPlaylistTracks(name);
      if tracks == [] {
        return [];
      }
      r := Restrict(tracks, PathSet(allTracks));
    }

    // ----- folders on the player -----

    /** The bucket of a translated path: its dirname, or `.` when it has none. */
    function DirKey(relative: Path): string {
      var d := Dirname(relative);
      if d == "" then "." else d
    }

    /** The structure after one more track. */
    function AddToStructure(st: Entries<string, seq<Path>>, t: Track): Entries<string, seq<Path>> {
      if !Emits(t) then st
      else
        var k := DirKey(RelativeDapPath(t.filePath));
        Put(st, k, Get(st, k).GetOr([]) + [t.filePath])
    }

    /** What `create_playlist_structure` builds from `tracks`. */
    function StructureOf(tracks: seq<Track>): Entries<string, seq<Path>>
      decreases |tracks|
    {
      if tracks == [] then []
      else AddToStructure(StructureOf(tracks[..|tracks| - 1]), tracks[|tracks| - 1])
    }

    /** The paths of the emitted tracks whose bucket is `d`, in input order. */
    function Bucket(tracks: seq<Track>, d: string): seq<Path>
      decreases |tracks|
    {
      if tracks == [] then []
      else
        var before := Bucket(tracks[..|tracks| - 1], d);
        var t := tracks[|tracks| - 1];
        if Emits(t) && DirKey(RelativeDapPath(t.filePath)) == d then before + [t.filePath] else before
    }

    /** Each bucket holds exactly the paths of the emitted tracks whose folder
        it is, in input order; buckets have distinct keys and none is empty. */
    lemma {:induction false} StructureBuckets(tracks: seq<Track>, d: string)
      ensures UniqueKeys(StructureOf(tracks))
      ensures Get(StructureOf(tracks), d) == if Bucket(tracks, d) == [] then None else Some(Bucket(tracks, d))
      decreases |tracks|
    {
      if tracks != [] {
        var init := tracks[..|tracks| - 1];
        var st := StructureOf(init);
        StructureBuckets(init, d);
        var t := tracks[|tracks| - 1];
        if Emits(t) {
          var k := DirKey(RelativeDapPath(t.filePath));
          StructureBuckets(init, k);
          PutProperties(st, k, Get(st, k).GetOr([]) + [t.filePath]);
        }
      }
    }

    /** `create_playlist_structure`. */
    method CreatePlaylistStructure(tracks: seq<Track>) returns (st: Entries<string, seq<Path>>)
      ensures st == StructureOf(tracks)
    {
      st := [];
      var i := 0;
      while i < |tracks|
        invariant 0 <= i <= |tracks|
        invariant st == StructureOf(tracks[..i])
      {
        assert tracks[..i + 1][..i] == tracks[..i];
        var t := tracks[i];
        if t.filePath != "" {
          var relative := RelativeDapPath(t.filePath);
          if relative != "" {
            var dir := DirKey(relative);
            var bucket := Get(st, dir).GetOr([]);
            st := Put(st, dir, bucket + [t.filePath]);
          }
        }
        i := i + 1;
      }
      assert tracks[..|tracks|] == tracks;
    }
  }
}
