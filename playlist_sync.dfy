/** `_sync_playlists` as a step function: every library playlist, in its
    order, is restricted to the entries whose paths are among the synced
    tracks; a playlist with such entries is written as M3U text to a
    temporary file and pushed to the playlist folder once, counting as
    synced or failed. The whole loop sits in one `try`: a temporary file
    that cannot be created ends it, and the playlists after it are not
    visited. */
module PlaylistSync {
  import opened Wrappers
  import opened Strings
  import opened Paths
  import opened OrderedMaps
  import opened MusicBee
  import opened Playlists
  import opened DeviceOracle
  import opened Transfer

  /** The entries whose path is one of `paths`, in order. */
  function FilterPaths(entries: seq<Path>, paths: set<Path>): seq<Path>
    decreases |entries|
  {
    if entries == [] then []
    else
      var e := entries[|entries| - 1];
      FilterPaths(entries[..|entries| - 1], paths) + (if e in paths then [e] else [])
  }

  /** The tracks `get_track` finds for `ps`, in order, leaving out paths it
      does not find. */
  function LookupAll(cat: Catalog, ps: seq<Path>): seq<Track>
    decreases |ps|
  {
    if ps == [] then []
    else
      var found := Get(cat, Normpath(ps[|ps| - 1]));
      LookupAll(cat, ps[..|ps| - 1]) + (if found.Some? then [found.value] else [])
  }

  /** The file name of playlist `name`: its sanitized name with `.m3u`. */
  function PlaylistFileName(name: string): string {
    Sanitized(name) + ".m3u"
  }

  /** Where the M3U file of playlist `name` goes on the player. */
  function PlaylistFilePath(s: Settings, name: string): Path {
    Join(s.handler.PlaylistsDir(), PlaylistFileName(name))
  }

  /** The number of bytes of `c` in UTF-8. */
  function Utf8Width(c: char): nat {
    if c as int < 0x80 then 1 else if c as int < 0x800 then 2 else if c as int < 0x10000 then 3 else 4
  }

  /** The number of bytes of `s` in UTF-8, the encoding of file names on the host. */
  function Utf8Length(s: string): nat
    decreases |s|
  {
    if s == [] then 0 else Utf8Length(s[..|s| - 1]) + Utf8Width(s[|s| - 1])
  }

  /** The longest file name, in bytes, the host's file system creates (`NAME_MAX`). */
  const NameMax: nat := 255

  /** Whether a temporary file of that name can be created; opening one
      with a longer name raises. */
  predicate NameFits(fileName: string) {
    Utf8Length(fileName) <= NameMax
  }

  /** The tracks of one playlist that get written, given the synced paths. */
  function PlaylistDicts(cat: Catalog, paths: set<Path>, entries: seq<Path>): seq<Track> {
    LookupAll(cat, FilterPaths(entries, paths))
  }

  /** One push of playlist text, counted as synced or failed. */
  function PushPlaylist(w: World, path: Path, content: string): World {
    var r := Push(w.device, path, Text(content));
    var stats := if r.0 then w.stats.(playlistsSynced := w.stats.playlistsSynced + 1)
                 else w.stats.(playlistsFailed := w.stats.playlistsFailed + 1);
    w.(stats := stats, device := r.1)
  }

  /** One turn of the playlist loop and whether it raised: nothing when no
      entry is among the synced paths, or none of them is found; an
      exception, with nothing changed, when the temporary file cannot be
      created; otherwise one push of the M3U text. */
  function PlaylistStep(s: Settings, w: World, cat: Catalog, paths: set<Path>, name: string, entries: seq<Path>): (World, bool) {
    var dicts := PlaylistDicts(cat, paths, entries);
    if dicts == [] then (w, false)
    else if !NameFits(PlaylistFileName(name)) then (w, true)
    else (PushPlaylist(w, PlaylistFilePath(s, name), s.handler.PlaylistContent(dicts)), false)
  }

  /** The state after the playlist loop over `pls`, for the synced `tracks`,
      and whether an exception ended the loop. */
  function PlaylistsRun(s: Settings, w: World, cat: Catalog, tracks: seq<Track>, pls: Entries<string, seq<Path>>): (World, bool)
    decreases |pls|
  {
    if pls == [] then (w, false)
    else
      var r := PlaylistsRun(s, w, cat, tracks, pls[..|pls| - 1]);
      var last := pls[|pls| - 1];
      if r.1 then r else PlaylistStep(s, r.0, cat, PathSet(tracks), last.0, last.1)
  }

  /** The state after `_sync_playlists`, which swallows the exception. */
  function PlaylistsEffect(s: Settings, w: World, cat: Catalog, tracks: seq<Track>, pls: Entries<string, seq<Path>>): World {
    PlaylistsRun(s, w, cat, tracks, pls).0
  }

  /** A reference count of the loop: how many playlists of `pls` are pushed,
      and whether one whose file cannot be created ends the loop first. */
  function Outcome(cat: Catalog, paths: set<Path>, pls: Entries<string, seq<Path>>): (nat, bool)
    decreases |pls|
  {
    if pls == [] then (0, false)
    else
      var r := Outcome(cat, paths, pls[..|pls| - 1]);
      var last := pls[|pls| - 1];
      if r.1 || PlaylistDicts(cat, paths, last.1) == [] then r
      else if NameFits(PlaylistFileName(last.0)) then (r.0 + 1, false)
      else (r.0, true)
  }

  /** The number of playlists in `pls` with something to write. */
  function Pushed(cat: Catalog, paths: set<Path>, pls: Entries<string, seq<Path>>): nat
    decreases |pls|
  {
    if pls == [] then 0
    else Pushed(cat, paths, pls[..|pls| - 1]) + (if PlaylistDicts(cat, paths, pls[|pls| - 1].1) != [] then 1 else 0)
  }

  // ----- properties -----

  /** One more turn of the playlist loop: a turn when no exception ended
      the loop yet, nothing otherwise. */
  lemma PlaylistsRunStep(s: Settings, w: World, cat: Catalog, tracks: seq<Track>, pls: Entries<string, seq<Path>>, i: nat)
    requires i < |pls|
    ensures var r := PlaylistsRun(s, w, cat, tracks, pls[..i]);
      !r.1 ==> PlaylistsRun(s, w, cat, tracks, pls[..i + 1]) == PlaylistStep(s, r.0, cat, PathSet(tracks), pls[i].0, pls[i].1)
    ensures var r := PlaylistsRun(s, w, cat, tracks, pls[..i]);
      r.1 ==> PlaylistsRun(s, w, cat, tracks, pls[..i + 1]) == r
  {
    assert pls[..i + 1][..i] == pls[..i];
  }

  /** Once an exception ends the loop, the later playlists change nothing. */
  lemma {:induction false} PlaylistsRunStops(s: Settings, w: World, cat: Catalog, tracks: seq<Track>, pls: Entries<string, seq<Path>>, i: nat)
    requires i <= |pls| && PlaylistsRun(s, w, cat, tracks, pls[..i]).1
    ensures PlaylistsRun(s, w, cat, tracks, pls) == PlaylistsRun(s, w, cat, tracks, pls[..i])
    decreases |pls|
  {
    if i < |pls| {
      var init := pls[..|pls| - 1];
      assert init[..i] == pls[..i];
      PlaylistsRunStops(s, w, cat, tracks, init, i);
    } else {
      assert pls[..i] == pls;
    }
  }

  /** Filtering keeps each wanted path as often as it occurs, and drops the rest. */
  lemma {:induction false} FilterPathsCount(entries: seq<Path>, paths: set<Path>, e: Path)
    ensures multiset(FilterPaths(entries, paths))[e] == if e in paths then multiset(entries)[e] else 0
    decreases |entries|
  {
    if entries != [] {
      var init := entries[..|entries| - 1];
      FilterPathsCount(init, paths, e);
      assert entries == init + [entries[|entries| - 1]];
    }
  }

  /** Filtering keeps order: the entries of `a + b` are those of `a`, then those of `b`. */
  lemma {:induction false} FilterPathsConcat(a: seq<Path>, b: seq<Path>, paths: set<Path>)
    ensures FilterPaths(a + b, paths) == FilterPaths(a, paths) + FilterPaths(b, paths)
    decreases |b|
  {
    if b == [] {
      assert a + b == a;
    } else {
      FilterPathsConcat(a, b[..|b| - 1], paths);
      assert (a + b)[..|a + b| - 1] == a + b[..|b| - 1];
    }
  }

  /** A track of a well-keyed catalog is found under its own normalised path. */
  lemma GetOwnTrack(cat: Catalog, t: Track)
    requires WellKeyed(cat) && t in Values(cat)
    ensures Get(cat, Normpath(t.filePath)) == Some(t)
  {
    var j :| 0 <= j < |cat| && Values(cat)[j] == t;
    GetAt(cat, j);
  }

  /** For tracks each found under its own normalised path, every path of
      one of them is found, and gives back a track of theirs with exactly
      that path. */
  lemma {:induction false} LookupAllSelected(cat: Catalog, tracks: seq<Track>, ps: seq<Path>)
    requires forall t :: t in tracks ==> Get(cat, Normpath(t.filePath)) == Some(t)
    requires forall i :: 0 <= i < |ps| ==> ps[i] in PathSet(tracks)
    ensures |LookupAll(cat, ps)| == |ps|
    ensures forall i :: 0 <= i < |ps| ==> LookupAll(cat, ps)[i].filePath == ps[i] && LookupAll(cat, ps)[i] in tracks
    decreases |ps|
  {
    if ps != [] {
      var init := ps[..|ps| - 1];
      LookupAllSelected(cat, tracks, init);
      var p := ps[|ps| - 1];
      var t :| t in tracks && t.filePath == p;
      assert ps == init + [p];
      LookupAllSnocFound(cat, init, p, t);
      MatchedSnoc(LookupAll(cat, init), init, t, tracks);
    }
  }

  /** One more path that is found adds its track. */
  lemma LookupAllSnocFound(cat: Catalog, init: seq<Path>, p: Path, t: Track)
    requires Get(cat, Normpath(p)) == Some(t)
    ensures LookupAll(cat, init + [p]) == LookupAll(cat, init) + [t]
  {
    assert (init + [p])[..|init|] == init;
  }

  /** Tracks matched one to one with paths stay matched when one more
      track is added with its path. */
  lemma MatchedSnoc(found: seq<Track>, ps: seq<Path>, t: Track, tracks: seq<Track>)
    requires |found| == |ps| && t in tracks
    requires forall i :: 0 <= i < |ps| ==> found[i].filePath == ps[i] && found[i] in tracks
    ensures forall i :: 0 <= i < |ps| + 1 ==> (found + [t])[i].filePath == (ps + [t.filePath])[i] && (found + [t])[i] in tracks
  {
  }

  /** The playlist written for a selection from a well-keyed catalog lists,
      in entry order, exactly the selected tracks its entries name. */
  lemma PlaylistDictsExact(cat: Catalog, tracks: seq<Track>, entries: seq<Path>)
    requires WellKeyed(cat) && forall t :: t in tracks ==> t in Values(cat)
    ensures var f := FilterPaths(entries, PathSet(tracks));
      && |PlaylistDicts(cat, PathSet(tracks), entries)| == |f|
      && forall i :: 0 <= i < |f| ==>
           PlaylistDicts(cat, PathSet(tracks), entries)[i].filePath == f[i]
           && PlaylistDicts(cat, PathSet(tracks), entries)[i] in tracks
  {
    var f := FilterPaths(entries, PathSet(tracks));
    forall i | 0 <= i < |f|
      ensures f[i] in PathSet(tracks)
    {
      FilterPathsCount(entries, PathSet(tracks), f[i]);
    }
    forall t | t in tracks
      ensures Get(cat, Normpath(t.filePath)) == Some(t)
    {
      GetOwnTrack(cat, t);
    }
    LookupAllSelected(cat, tracks, f);
  }

  /** A playlist with no entry among the synced paths is passed over. */
  lemma FilterEmptyIff(entries: seq<Path>, paths: set<Path>)
    ensures FilterPaths(entries, paths) == [] <==> forall e :: e in entries ==> e !in paths
  {
    if FilterPaths(entries, paths) != [] {
      var e := FilterPaths(entries, paths)[0];
      FilterPathsCount(entries, paths, e);
    }
    if exists e :: e in entries && e in paths {
      var e :| e in entries && e in paths;
      FilterPathsCount(entries, paths, e);
    }
  }

  /** One turn pushes at most once, when it has something to write and its
      file can be created, and counts that push in exactly one of the two
      playlist counters; it raises exactly when it has something to write
      and its file cannot be created. The track counters, the history and
      the run's times stay as they were. */
  lemma PlaylistStepCounters(s: Settings, w: World, cat: Catalog, paths: set<Path>, name: string, entries: seq<Path>)
    ensures var r := PlaylistStep(s, w, cat, paths, name, entries);
      var w' := r.0;
      var some := PlaylistDicts(cat, paths, entries) != [];
      var pushed := some && NameFits(PlaylistFileName(name));
      && (r.1 <==> some && !NameFits(PlaylistFileName(name)))
      && w'.stats.playlistsSynced + w'.stats.playlistsFailed
         == w.stats.playlistsSynced + w.stats.playlistsFailed + (if pushed then 1 else 0)
      && w'.stats.playlistsSynced >= w.stats.playlistsSynced
      && w'.stats.playlistsFailed >= w.stats.playlistsFailed
      && w'.stats.(playlistsSynced := w.stats.playlistsSynced, playlistsFailed := w.stats.playlistsFailed) == w.stats
      && w'.store == w.store
      && w'.device.pushes == w.device.pushes + (if pushed then 1 else 0)
      && w.device.trace <= w'.device.trace
  {
  }

  /** The playlist loop pushes as many playlists as the reference count
      says and counts each push exactly once, stops exactly when the count
      says, and leaves the track counters, the history and the times alone. */
  lemma {:induction false} PlaylistsEffectCounters(s: Settings, w: World, cat: Catalog, tracks: seq<Track>, pls: Entries<string, seq<Path>>)
    ensures var r := PlaylistsRun(s, w, cat, tracks, pls);
      var w' := r.0;
      var o := Outcome(cat, PathSet(tracks), pls);
      && r.1 == o.1
      && w'.stats.playlistsSynced + w'.stats.playlistsFailed
         == w.stats.playlistsSynced + w.stats.playlistsFailed + o.0
      && w'.stats.(playlistsSynced := w.stats.playlistsSynced, playlistsFailed := w.stats.playlistsFailed) == w.stats
      && w'.store == w.store
      && w'.device.pushes == w.device.pushes + o.0
      && w.device.trace <= w'.device.trace
    decreases |pls|
  {
    if pls != [] {
      var init := pls[..|pls| - 1];
      PlaylistsEffectCounters(s, w, cat, tracks, init);
      var r0 := PlaylistsRun(s, w, cat, tracks, init);
      PlaylistStepCounters(s, r0.0, cat, PathSet(tracks), pls[|pls| - 1].0, pls[|pls| - 1].1);
    }
  }

  /** The loop pushes at most the playlists with something to write, and
      all of them when no exception ends it. */
  lemma {:induction false} OutcomeAtMostPushed(cat: Catalog, paths: set<Path>, pls: Entries<string, seq<Path>>)
    ensures Outcome(cat, paths, pls).0 <= Pushed(cat, paths, pls)
    ensures !Outcome(cat, paths, pls).1 ==> Outcome(cat, paths, pls).0 == Pushed(cat, paths, pls)
    decreases |pls|
  {
    if pls != [] {
      OutcomeAtMostPushed(cat, paths, pls[..|pls| - 1]);
    }
  }

  /** A string takes at least one and at most four bytes per character, and
      exactly one per ASCII character. */
  lemma {:induction false} Utf8LengthBounds(s: string)
    ensures |s| <= Utf8Length(s) <= 4 * |s|
    ensures (forall i :: 0 <= i < |s| ==> s[i] as int < 0x80) ==> Utf8Length(s) == |s|
    decreases |s|
  {
    if s != [] {
      Utf8LengthBounds(s[..|s| - 1]);
    }
  }

  /** The file of a playlist whose sanitized name is ASCII and at most 251
      characters long can be created. */
  lemma ShortAsciiNameFits(name: string)
    requires |Sanitized(name)| <= 251
    requires forall i :: 0 <= i < |Sanitized(name)| ==> Sanitized(name)[i] as int < 0x80
    ensures NameFits(PlaylistFileName(name))
  {
    AsciiFileNameLength(Sanitized(name));
  }

  /** An ASCII name with `.m3u` takes one byte per character. */
  lemma AsciiFileNameLength(n: string)
    requires forall i :: 0 <= i < |n| ==> n[i] as int < 0x80
    ensures Utf8Length(n + ".m3u") == |n| + 4
  {
    var f := n + ".m3u";
    assert forall i :: 0 <= i < |f| ==> f[i] as int < 0x80;
    Utf8LengthBounds(f);
  }

  /** A name of 255 letters is kept whole by the sanitizer, so its file name
      has 259 bytes: creating it raises and ends the playlist loop. */
  lemma LongNameRaises(name: string)
    requires |name| == 255 && forall i :: 0 <= i < 255 ==> 'a' <= name[i] <= 'z'
    ensures Sanitized(name) == name
    ensures !NameFits(PlaylistFileName(name))
  {
    assert forall i :: 0 <= i < |name| ==> name[i] !in InvalidChars;
    ReplaceInvalidNoOp(name);
    assert name[0] !in EdgeChars && name[|name| - 1] !in EdgeChars;
    StripNoOp(name, EdgeChars);
    AsciiFileNameLength(name);
  }

  /** The file name is what follows the playlist folder in the path on the player. */
  lemma PlaylistFileNameOfPath(s: Settings, name: string)
    ensures Basename(PlaylistFilePath(s, name)) == PlaylistFileName(name)
  {
    NoSlashInFileName(name);
    JoinedBasename(s.handler.PlaylistsDir(), PlaylistFileName(name));
  }

  /** A playlist's file name holds no `/`, since the sanitizer replaces it. */
  lemma NoSlashInFileName(name: string)
    ensures '/' !in PlaylistFileName(name)
  {
    SanitizedProperties(name);
    var n := Sanitized(name);
    assert '/' == InvalidChars[4];
    assert forall i :: 0 <= i < |n| ==> n[i] != '/';
    assert forall i :: 0 <= i < |n + ".m3u"| ==> (n + ".m3u")[i] != '/';
  }

  /** For a selection from a well-keyed catalog, the playlists pushed are
      exactly those with at least one entry among the synced paths. */
  lemma HasTracksIffShared(cat: Catalog, tracks: seq<Track>, entries: seq<Path>)
    requires WellKeyed(cat) && forall t :: t in tracks ==> t in Values(cat)
    ensures PlaylistDicts(cat, PathSet(tracks), entries) != [] <==> exists e :: e in entries && e in PathSet(tracks)
  {
    PlaylistDictsExact(cat, tracks, entries);
    FilterEmptyIff(entries, PathSet(tracks));
  }
}
