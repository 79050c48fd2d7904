/** What one run of the engine promises once the player is connected: the
    order of its calls to the player, the counters it ends with, and which
    tracks and playlists it considers. */
module EngineFacts {
  import opened Wrappers
  import opened Paths
  import opened OrderedMaps
  import opened HostFiles
  import opened MusicBee
  import opened Playlists
  import opened DeviceOracle
  import opened Selection
  import opened Transfer
  import opened TransferFacts
  import opened PlaylistSync
  import opened Engine

  /** An empty selection ends the run at once; otherwise the first two calls
      make the music folder and its playlist folder, the run ends with a
      disconnect and its end time, every file with a fingerprint counts once
      among the track counters and every pushed playlist once among the
      playlist counters. */
  lemma RunAfterConnectSpec(s: Settings, w: World, h: Host, cat: Catalog, pls: Entries<string, seq<Path>>,
                            tracks: seq<Track>, now: int, finish: int)
    ensures tracks == [] ==> RunAfterConnect(s, w, h, cat, pls, tracks, now, finish) == w
    ensures tracks != [] ==>
      var w' := RunAfterConnect(s, w, h, cat, pls, tracks, now, finish);
      var m1 := Mkdir(w.device, s.dapMusicPath);
      var m2 := Mkdir(m1.1, Join(s.dapMusicPath, "Playlists"));
      && w.device.trace + [MadeDir(s.dapMusicPath, m1.0), MadeDir(Join(s.dapMusicPath, "Playlists"), m2.0)] <= w'.device.trace
      && w'.device.trace[|w'.device.trace| - 1] == Disconnected
      && Handled(w'.stats) == Handled(w.stats) + Hashed(h, tracks)
      && w'.stats.playlistsSynced + w'.stats.playlistsFailed
         == w.stats.playlistsSynced + w.stats.playlistsFailed + PlaylistSync.Outcome(cat, PathSet(tracks), pls).0
      && w'.stats.startTime == w.stats.startTime
      && w'.stats.endTime == Some(finish)
  {
    if tracks != [] {
      var m1 := Mkdir(w.device, s.dapMusicPath);
      var m2 := Mkdir(m1.1, Join(s.dapMusicPath, "Playlists"));
      var w0 := w.(device := m2.1);
      var w1 := TracksEffect(s, w0, h, tracks, now);
      var w2 := PlaylistsEffect(s, w1, cat, tracks, pls);
      TracksEffectCounters(s, w0, h, tracks, now);
      PlaylistsEffectCounters(s, w1, cat, tracks, pls);
      assert w.device.trace + [MadeDir(s.dapMusicPath, m1.0), MadeDir(Join(s.dapMusicPath, "Playlists"), m2.0)] == w0.device.trace;
    }
  }

  /** The selection: nothing when the library does not load; otherwise
      tracks of the catalog, each with a path, no two with the same path,
      covering every path the criteria name. */
  lemma SelectedTracksSpec(cat: Catalog, pls: Entries<string, seq<Path>>, criteria: seq<Criterion>, libOk: bool,
                           now: int, parseDate: string -> Option<int>)
    ensures !libOk ==> SelectedTracks(cat, pls, criteria, libOk, now, parseDate) == []
    ensures forall t :: t in SelectedTracks(cat, pls, criteria, libOk, now, parseDate) ==> t in Values(cat) && t.filePath != ""
    ensures var sel := SelectedTracks(cat, pls, criteria, libOk, now, parseDate);
      forall i, j :: 0 <= i < j < |sel| ==> sel[i].filePath != sel[j].filePath
    ensures libOk ==> PathsOf(SelectedTracks(cat, pls, criteria, libOk, now, parseDate)) == PathsOf(Gathered(cat, pls, criteria, now, parseDate))
  {
    if libOk {
      var g := Gathered(cat, pls, criteria, now, parseDate);
      DedupFromInput(g);
      DedupDistinct(g);
      DedupCovers(g);
      forall t | t in Dedup(g)
        ensures t in Values(cat)
      {
        GatheredFromCatalog(cat, pls, criteria, now, parseDate, t);
      }
    }
  }

  /** For a well-keyed catalog, a library playlist is written exactly when
      one of its entries is the path of a selected track. */
  lemma PlaylistWrittenIff(cat: Catalog, pls: Entries<string, seq<Path>>, criteria: seq<Criterion>, libOk: bool,
                           now: int, parseDate: string -> Option<int>, entries: seq<Path>)
    requires WellKeyed(cat)
    ensures var sel := SelectedTracks(cat, pls, criteria, libOk, now, parseDate);
      PlaylistDicts(cat, PathSet(sel), entries) != [] <==> exists e :: e in entries && e in PathSet(sel)
  {
    SelectedTracksSpec(cat, pls, criteria, libOk, now, parseDate);
    HasTracksIffShared(cat, SelectedTracks(cat, pls, criteria, libOk, now, parseDate), entries);
  }
}
