/** The sync engine: it owns the counters, the sync-history table and its
    connection to the player, reads the library through a MusicBee reader,
    and runs one synchronisation: connect, select the tracks, make the
    folders, transfer each track, write the playlists, disconnect. Each
    method is proved against the step functions of the transfer and
    playlist modules. */
module Engine {
  import opened Wrappers
  import opened Paths
  import opened OrderedMaps
  import opened HostFiles
  import opened MusicBee
  import opened Playlists
  import opened SyncStore
  import opened DeviceOracle
  import opened Selection
  import opened Transfer
  import opened PlaylistSync

  const DefaultMusicPath: Path := "/sdcard/Music"
  const DefaultMode := "incremental"

  /** The configuration values the engine reads, each absent when the key
      is missing: the MusicBee paths, `dap.music_path`, `sync.mode`,
      `sync.criteria` and `sync_rules.playlist_mappings`. */
  datatype EngineConfig = EngineConfig(
    libraryXml: Path,
    playlistsPath: Path,
    libraryPath: Path,
    musicPath: Option<Path>,
    mode: Option<string>,
    criteria: Option<seq<Criterion>>,
    mappings: Option<map<string, string>>)

  /** The settings a configuration gives, `storeOk` telling whether the
      history database could be opened. */
  function SettingsOf(cfg: EngineConfig, storeOk: bool): (s: Settings)
    ensures s.full <==> cfg.mode == Some("full")
    ensures s.dapMusicPath == (if cfg.musicPath.Some? then cfg.musicPath.value else DefaultMusicPath)
    ensures s.handler.PlaylistsDir() == Join(s.dapMusicPath, "Playlists")
    ensures s.handler.libraryPath == cfg.libraryPath && s.storeOk == storeOk
  {
    var music := if cfg.musicPath.Some? then cfg.musicPath.value else DefaultMusicPath;
    var mode := if cfg.mode.Some? then cfg.mode.value else DefaultMode;
    Settings(mode == "full", storeOk, music, PlaylistHandler(music, cfg.libraryPath))
  }

  /** The tracks a run selects: none when the library does not load,
      otherwise the de-duplicated tracks of all criteria. */
  function SelectedTracks(cat: Catalog, pls: Entries<string, seq<Path>>, criteria: seq<Criterion>, libOk: bool, now: int, parseDate: string -> Option<int>): seq<Track> {
    if libOk then Dedup(Gathered(cat, pls, criteria, now, parseDate)) else []
  }

  /** What `sync` does once connected: nothing more for an empty selection
      (the run then ends without disconnecting); otherwise the music and
      playlist folders are made, every track is transferred, the playlists
      are written, the player is disconnected and the end time is set. */
  function RunAfterConnect(s: Settings, w: World, h: Host, cat: Catalog, pls: Entries<string, seq<Path>>,
                           tracks: seq<Track>, now: int, finish: int): World {
    if tracks == [] then w
    else
      var d := Mkdir(Mkdir(w.device, s.dapMusicPath).1, Join(s.dapMusicPath, "Playlists")).1;
      var w1 := TracksEffect(s, w.(device := d), h, tracks, now);
      var w2 := PlaylistsEffect(s, w1, cat, tracks, pls);
      w2.(stats := w2.stats.(endTime := Some(finish)), device := Disconnect(w2.device))
  }

  class DapSync {
    const settings: Settings
    const criteria: seq<Criterion>
    const mappings: map<string, string>
    const reader: MusicBeeReader
    var stats: Stats
    var store: Store
    var device: Device

    /** Everything a transfer changes. */
    function State(): World
      reads this
    {
      World(stats, store, device)
    }

    /** `__init__`: the components built from the configuration, with the
        defaults for missing keys, zeroed counters, the history table as the
        database holds it and the player as it is. */
    constructor(cfg: EngineConfig, storeOk: bool, history: Store, player: Device)
      ensures settings == SettingsOf(cfg, storeOk)
      ensures criteria == if cfg.criteria.Some? then cfg.criteria.value else []
      ensures mappings == if cfg.mappings.Some? then cfg.mappings.value else map[]
      ensures fresh(reader) && reader.tracks == [] && reader.playlists == []
      ensures reader.libraryXmlPath == cfg.libraryXml && reader.playlistsPath == cfg.playlistsPath
      ensures reader.libraryPath == cfg.libraryPath
      ensures stats == InitialStats && store == history && device == player
    {
      settings := SettingsOf(cfg, storeOk);
      criteria := if cfg.criteria.Some? then cfg.criteria.value else [];
      mappings := if cfg.mappings.Some? then cfg.mappings.value else map[];
      reader := new MusicBeeReader(cfg.libraryXml, cfg.playlistsPath, cfg.libraryPath);
      stats := InitialStats;
      store := history;
      device := player;
    }

    /** `get_stats`: a copy of the counters. */
    function GetStats(): (r: Stats)
      reads this
      ensures r == stats
    {
      stats
    }

    /** `_update_sync_status`. */
    method UpdateSyncStatus(filePath: Path, rec: SyncRecord)
      modifies this
      ensures store == Upsert(old(store), settings.storeOk, filePath, rec)
      ensures stats == old(stats) && device == old(device)
    {
      store := Upsert(store, settings.storeOk, filePath, rec);
    }

    /** `_sync_file`: the landing path is `_get_dap_path` of the file. */
    method SyncFile(h: Host, filePath: Path, now: int, retries: nat) returns (ok: bool)
      modifies this
      ensures (ok, State()) == SyncFileEffect(settings, old(State()), h, filePath, DapPath(settings, filePath), now, retries)
    {
      var remote := DapPath(settings, filePath);
      ok := SyncFileTo(h, filePath, remote, now, retries);
    }

    /** The body of `_sync_file` for a file landing at `remote`. */
    method SyncFileTo(h: Host, filePath: Path, remote: Path, now: int, retries: nat) returns (ok: bool)
      modifies this
      ensures (ok, State()) == SyncFileEffect(settings, old(State()), h, filePath, remote, now, retries)
    {
      if !Exists(h, filePath) {
        return false;
      }
      var hash := GetFileHash(h, filePath);
      if hash.None? {
        return false;
      }
      var size := h.files[filePath].size;
      if !ShouldSync(settings, State(), filePath, remote, hash.value, size) {
        stats := stats.(tracksSkipped := stats.tracksSkipped + 1);
        return true;
      }
      if !CanCopy(h, filePath) {
        stats := stats.(tracksFailed := stats.tracksFailed + 1);
        return false;
      }
      var payload := Copy(filePath);
      ghost var start := device;
      var success := false;
      var attempt := 0;
      while attempt < retries
        invariant 0 <= attempt <= retries
        invariant success ==> RetryPush(start, remote, payload, retries) == (true, device)
        invariant !success ==> RetryPush(start, remote, payload, retries) == RetryPush(device, remote, payload, retries - attempt)
        invariant stats == old(stats) && store == old(store)
      {
        var pushed := Push(device, remote, payload);
        device := pushed.1;
        if pushed.0 {
          success := true;
          break;
        }
        if attempt < retries - 1 {
          device := Pause(device);
        }
        attempt := attempt + 1;
      }
      if success {
        UpdateSyncStatus(filePath, SyncRecord(hash.value, size, now, Synced));
        stats := CountSynced(stats, size);
        return true;
      } else {
        UpdateSyncStatus(filePath, SyncRecord(hash.value, size, now, Failed));
        stats := stats.(tracksFailed := stats.tracksFailed + 1);
        return false;
      }
    }

    /** `_get_tracks_to_sync`: loads the library, then the playlists (a
        failure there is only a warning), gathers the tracks of every
        criterion in order and keeps the first track of each non-empty path. */
    method GetTracksToSync(h: Host, doc: LibraryDocument, parsers: Parsers, now: int) returns (result: seq<Track>)
      modifies reader
      ensures var libOk := Exists(h, reader.libraryXmlPath) && doc.Items?;
        && reader.tracks == (if libOk then CatalogAfter(old(reader.tracks), doc.items, reader.libraryPath, parsers) else old(reader.tracks))
        && reader.playlists == (if libOk && Exists(h, reader.playlistsPath) && ListDir(h, reader.playlistsPath).Some?
                                then PlaylistsAfter(old(reader.playlists), h, reader.playlistsPath, reader.libraryPath, ListDir(h, reader.playlistsPath).value)
                                else old(reader.playlists))
        && result == SelectedTracks(reader.tracks, reader.playlists, criteria, libOk, now, parsers.parseDate)
    {
      var libOk := reader.LoadLibrary(h, doc, parsers);
      if !libOk {
        return [];
      }
      var plOk := reader.LoadPlaylists(h);
      var gathered := GatherTracks(now, parsers.parseDate);
      result := Deduplicate(gathered);
    }

    /** The tracks of every criterion, in order, before de-duplication. */
    method GatherTracks(now: int, parseDate: string -> Option<int>) returns (gathered: seq<Track>)
      ensures gathered == Gathered(reader.tracks, reader.playlists, criteria, now, parseDate)
    {
      gathered := [];
      var i := 0;
      while i < |criteria|
        invariant 0 <= i <= |criteria|
        invariant gathered == Gathered(reader.tracks, reader.playlists, criteria[..i], now, parseDate)
      {
        GatheredStep(reader.tracks, reader.playlists, criteria, i, now, parseDate);
        var more := CriterionTracks(criteria[i], now, parseDate);
        gathered := gathered + more;
        i := i + 1;
      }
      assert criteria[..|criteria|] == criteria;
    }

    /** The tracks one criterion contributes, read from the loaded reader:
        the whole library, the named playlists, the smart playlists and the
        custom filter, in that order. */
    method CriterionTracks(c: Criterion, now: int, parseDate: string -> Option<int>) returns (ts: seq<Track>)
      ensures ts == RuleTracks(reader.tracks, reader.playlists, c, now, parseDate)
    {
      if c.NotARule? {
        return [];
      }
      var all: seq<Track> := [];
      if c.entireLibrary {
        all := reader.AllTracks();
      }
      var named: seq<Track> := [];
      if c.playlists.Some? {
        named := PlaylistsTracks(c.playlists.value);
      }
      var smart: seq<Track> := [];
      if c.smartPlaylists.Some? {
        smart := SmartPlaylistsTracks(c.smartPlaylists.value, now, parseDate);
      }
      var custom: seq<Track> := [];
      if c.custom.Some? {
        custom := reader.FilterTracksByCriteria(c.custom.value, now, parseDate);
      }
      ts := all + named + smart + custom;
    }

    /** The loop over a criterion's `playlists`. */
    method PlaylistsTracks(names: seq<string>) returns (ts: seq<Track>)
      ensures ts == NamedTracks(reader.tracks, reader.playlists, names)
    {
      ts := [];
      var j := 0;
      while j < |names|
        invariant 0 <= j <= |names|
        invariant ts == NamedTracks(reader.tracks, reader.playlists, names[..j])
      {
        NamedTracksSnoc(reader.tracks, reader.playlists, names, j);
        var more := reader.GetPlaylistTracks(names[j]);
        ts := ts + more;
        j := j + 1;
      }
      assert names[..|names|] == names;
    }

    /** The loop over a criterion's `smart_playlists`. */
    method SmartPlaylistsTracks(configs: seq<Criteria>, now: int, parseDate: string -> Option<int>) returns (ts: seq<Track>)
      ensures ts == SmartTracks(reader.tracks, configs, now, parseDate)
    {
      ts := [];
      var j := 0;
      while j < |configs|
        invariant 0 <= j <= |configs|
        invariant ts == SmartTracks(reader.tracks, configs[..j], now, parseDate)
      {
        SmartTracksSnoc(reader.tracks, configs, now, parseDate, j);
        var more := reader.GetSmartPlaylistTracks(configs[j], now, parseDate);
        ts := ts + more;
        j := j + 1;
      }
      assert configs[..|configs|] == configs;
    }

    /** The duplicate removal at the end of `_get_tracks_to_sync`. */
    static method Deduplicate(ts: seq<Track>) returns (unique: seq<Track>)
      ensures unique == Dedup(ts)
    {
      var seen: set<Path> := {};
      unique := [];
      var k := 0;
      while k < |ts|
        invariant 0 <= k <= |ts|
        invariant unique == Dedup(ts[..k]) && seen == PathsOf(ts[..k])
      {
        DedupStep(ts, k, unique, seen);
        var p := ts[k].filePath;
        if p != "" && p !in seen {
          seen := seen + {p};
          unique := unique + [ts[k]];
        }
        k := k + 1;
      }
      assert ts[..|ts|] == ts;
    }

    /** `_sync_playlists`: every library playlist restricted to the synced
        tracks, pushed once when anything of it remains. */
    method SyncPlaylists(tracks: seq<Track>)
      modifies this
      ensures State() == PlaylistsEffect(settings, old(State()), reader.tracks, tracks, reader.playlists)
    {
      var pls := reader.playlists;
      ghost var cat := reader.tracks;
      ghost var w0 := State();
      var trackPaths := PathSet(tracks);
      var i := 0;
      var raised := false;
      while i < |pls| && !raised
        invariant 0 <= i <= |pls|
        invariant (State(), raised) == PlaylistsRun(settings, w0, cat, tracks, pls[..i])
      {
        PlaylistsRunStep(settings, w0, cat, tracks, pls, i);
        raised := SyncPlaylist(pls[i].0, pls[i].1, trackPaths);
        i := i + 1;
      }
      if raised {
        PlaylistsRunStops(settings, w0, cat, tracks, pls, i);
      } else {
        assert pls[..|pls|] == pls;
      }
    }

    /** One turn of the loop of `_sync_playlists`; `raised` when creating
        the temporary file raised. */
    method SyncPlaylist(name: string, entries: seq<Path>, trackPaths: set<Path>) returns (raised: bool)
      modifies this
      ensures (State(), raised) == PlaylistStep(settings, old(State()), reader.tracks, trackPaths, name, entries)
    {
      raised := false;
      var filtered := FilterEntries(entries, trackPaths);
      if filtered == [] {
        return;
      }
      var dicts := LookupTracks(filtered);
      assert dicts == PlaylistDicts(reader.tracks, trackPaths, entries);
      if dicts == [] {
        return;
      }
      var content, path := settings.handler.GeneratePlaylistFile(name, dicts, Some(mappings));
      assert path == PlaylistFilePath(settings, name);
      var tempName := Basename(path);
      PlaylistFileNameOfPath(settings, name);
      assert tempName == PlaylistFileName(name);
      if !NameFits(tempName) {
        return true;
      }
      PushText(path, content);
    }

    /** The push of a written playlist. */
    method PushText(path: Path, content: string)
      modifies this
      ensures State() == PushPlaylist(old(State()), path, content)
    {
      var pushed := Push(device, path, Text(content));
      device := pushed.1;
      if pushed.0 {
        stats := stats.(playlistsSynced := stats.playlistsSynced + 1);
      } else {
        stats := stats.(playlistsFailed := stats.playlistsFailed + 1);
      }
    }

    /** The list comprehension keeping the entries that are synced paths. */
    static method FilterEntries(entries: seq<Path>, paths: set<Path>) returns (r: seq<Path>)
      ensures r == FilterPaths(entries, paths)
    {
      r := [];
      var k := 0;
      while k < |entries|
        invariant 0 <= k <= |entries|
        invariant r == FilterPaths(entries[..k], paths)
      {
        assert entries[..k + 1][..k] == entries[..k];
        if entries[k] in paths {
          r := r + [entries[k]];
        }
        k := k + 1;
      }
      assert entries[..|entries|] == entries;
    }

    /** The `get_track` loop of `_sync_playlists`. */
    method LookupTracks(ps: seq<Path>) returns (r: seq<Track>)
      ensures r == LookupAll(reader.tracks, ps)
    {
      r := [];
      var k := 0;
      while k < |ps|
        invariant 0 <= k <= |ps|
        invariant r == LookupAll(reader.tracks, ps[..k])
      {
        assert ps[..k + 1][..k] == ps[..k];
        var t := reader.GetTrack(ps[k]);
        if t.Some? {
          r := r + [t.value];
        }
        k := k + 1;
      }
      assert ps[..|ps|] == ps;
    }

    /** `sync`, with `now` the start time and `finish` the end time. A player
        that cannot be reached ends the run with false; otherwise the run
        succeeds, with an empty selection or after the full transfer. */
    method Sync(h: Host, doc: LibraryDocument, parsers: Parsers, now: int, finish: int) returns (ok: bool)
      modifies this, reader
      ensures ok == old(device.reachable)
      ensures var w0 := old(State()).(stats := old(stats).(startTime := Some(now)), device := Connect(old(device)).1);
        && (!ok ==> State() == w0 && reader.tracks == old(reader.tracks) && reader.playlists == old(reader.playlists))
        && (ok ==>
             var libOk := Exists(h, reader.libraryXmlPath) && doc.Items?;
             && reader.tracks == (if libOk then CatalogAfter(old(reader.tracks), doc.items, reader.libraryPath, parsers) else old(reader.tracks))
             && reader.playlists == (if libOk && Exists(h, reader.playlistsPath) && ListDir(h, reader.playlistsPath).Some?
                                     then PlaylistsAfter(old(reader.playlists), h, reader.playlistsPath, reader.libraryPath, ListDir(h, reader.playlistsPath).value)
                                     else old(reader.playlists))
             && State() == RunAfterConnect(settings, w0, h, reader.tracks, reader.playlists,
                                           SelectedTracks(reader.tracks, reader.playlists, criteria, libOk, now, parsers.parseDate), now, finish))
    {
      stats := stats.(startTime := Some(now));
      var connected := Connect(device);
      device := connected.1;
      if !connected.0 {
        return false;
      }
      var tracks := GetTracksToSync(h, doc, parsers, now);
      if tracks == [] {
        return true;
      }
      device := Mkdir(device, settings.dapMusicPath).1;
      device := Mkdir(device, Join(settings.dapMusicPath, "Playlists")).1;
      SyncTracks(h, tracks, now);
      SyncPlaylists(tracks);
      device := Disconnect(device);
      stats := stats.(endTime := Some(finish));
      return true;
    }

    /** The track loop of `sync`. */
    method SyncTracks(h: Host, tracks: seq<Track>, now: int)
      modifies this
      ensures State() == TracksEffect(settings, old(State()), h, tracks, now)
    {
      var i := 0;
      while i < |tracks|
        invariant 0 <= i <= |tracks|
        invariant State() == TracksEffect(settings, old(State()), h, tracks[..i], now)
      {
        assert tracks[..i + 1][..i] == tracks[..i];
        SyncTrack(h, tracks[i], now);
        i := i + 1;
      }
      assert tracks[..|tracks|] == tracks;
    }

    /** One turn of the track loop: the track's folder on the player is made
        before the file is synced. */
    method SyncTrack(h: Host, t: Track, now: int)
      modifies this
      ensures State() == TrackStep(settings, old(State()), h, t, now)
    {
      var filePath := t.filePath;
      if filePath != "" {
        var remote := DapPath(settings, filePath);
        var dapDir := Dirname(remote);
        if dapDir != "" {
          device := Mkdir(device, dapDir).1;
        }
        var _ := SyncFileTo(h, filePath, remote, now, DefaultRetries);
      }
    }
  }
}
