/** The transfer of one library file: where it lands on the player, whether
    it needs pushing again, and what a push with retries does to the
    counters, the sync history and the player. Everything here is a value;
    the engine class applies these steps to its fields. */
module Transfer {
  import opened Wrappers
  import opened Strings
  import opened Paths
  import opened Metadata
  import opened HostFiles
  import opened MusicBee
  import opened Playlists
  import opened SyncStore
  import opened DeviceOracle

  /** The engine's counters and the start and end of the run. */
  datatype Stats = Stats(
    tracksSynced: nat,
    tracksSkipped: nat,
    tracksFailed: nat,
    playlistsSynced: nat,
    playlistsFailed: nat,
    bytesTransferred: nat,
    startTime: Option<int>,
    endTime: Option<int>)

  const InitialStats := Stats(0, 0, 0, 0, 0, 0, None, None)

  /** What the engine reads from its configuration once: whether the mode is
      `full`, whether the history database can be used, the music folder on
      the player and the playlist handler built for it. */
  datatype Settings = Settings(full: bool, storeOk: bool, dapMusicPath: Path, handler: PlaylistHandler)

  /** Everything a transfer changes. */
  datatype World = World(stats: Stats, store: Store, device: Device)

  /** The default number of push attempts of `_sync_file`. */
  const DefaultRetries: nat := 3

  /** `_get_dap_path`: the music folder joined with the translated path, or
      with the file name when the translation is empty, with `\` turned into `/`. */
  function DapPath(s: Settings, filePath: Path): Path {
    var rel := s.handler.RelativeDapPath(filePath);
    var name := if rel == "" then Basename(filePath) else rel;
    ReplaceChar(Join(s.dapMusicPath, name), '\\', '/')
  }

  /** `_get_file_hash`: the fingerprint, or nothing for a missing file. */
  function GetFileHash(h: Host, p: Path): (r: Option<Digest>)
    ensures r == FileHash(h.files, p)
  {
    if !Exists(h, p) then None else FileHash(h.files, p)
  }

  /** `_should_sync_file`, given the file's path on the player `remote`
      (what `_get_dap_path` returns for it). The stored size, status and
      time, and the size passed in, are never looked at. */
  predicate ShouldSync(s: Settings, w: World, filePath: Path, remote: Path, fileHash: Digest, fileSize: nat) {
    if s.full then true
    else
      var rec := Lookup(w.store, s.storeOk, filePath);
      if rec.None? then true
      else if rec.value.hash != fileHash then true
      else !FileExists(w.device, remote)
  }

  /** Whether the k-th scripted push succeeds. */
  predicate Scripted(script: seq<bool>, k: nat) {
    k < |script| && script[k]
  }

  /** The retry loop of `_sync_file`: up to `retries` pushes, stopping at
      the first that succeeds, with a pause after each failed attempt but
      the last. */
  function RetryPush(d: Device, remote: Path, payload: Payload, retries: nat): (bool, Device)
    decreases retries
  {
    if retries == 0 then (false, d)
    else
      var r := Push(d, remote, payload);
      if r.0 then (true, r.1)
      else if retries == 1 then (false, r.1)
      else RetryPush(Pause(r.1), remote, payload, retries - 1)
  }

  /** The events of `n` attempts: each failed attempt but the last is
      followed by a pause; the last attempt has result `ok`. */
  function AttemptEvents(remote: Path, payload: Payload, n: nat, ok: bool): seq<Event>
    requires n >= 1
    decreases n
  {
    if n == 1 then [Pushed(remote, payload, ok)]
    else [Pushed(remote, payload, false), Paused] + AttemptEvents(remote, payload, n - 1, ok)
  }

  /** The counters after one more pushed file. */
  function CountSynced(st: Stats, size: nat): Stats {
    st.(tracksSynced := st.tracksSynced + 1, bytesTransferred := st.bytesTransferred + size)
  }

  /** `_sync_file`: the result and the new state, where `remote` is the
      file's path on the player. A missing file or one without a fingerprint
      changes nothing; an unchanged file only counts as skipped; a file
      whose copy to the temporary folder raises lands in the `except`
      branch, counts as failed and writes no row; otherwise the file is
      pushed to `remote` with retries and its row is written with the
      outcome. */
  function SyncFileEffect(s: Settings, w: World, h: Host, filePath: Path, remote: Path, now: int, retries: nat): (bool, World) {
    if !Exists(h, filePath) then (false, w)
    else
      var hash := GetFileHash(h, filePath);
      if hash.None? then (false, w)
      else
        var size := h.files[filePath].size;
        if !ShouldSync(s, w, filePath, remote, hash.value, size) then
          (true, w.(stats := w.stats.(tracksSkipped := w.stats.tracksSkipped + 1)))
        else if !CanCopy(h, filePath) then
          (false, w.(stats := w.stats.(tracksFailed := w.stats.tracksFailed + 1)))
        else
          var r := RetryPush(w.device, remote, Copy(filePath), retries);
          var rec := SyncRecord(hash.value, size, now, if r.0 then Synced else Failed);
          var stats := if r.0 then CountSynced(w.stats, size) else w.stats.(tracksFailed := w.stats.tracksFailed + 1);
          (r.0, World(stats, Upsert(w.store, s.storeOk, filePath, rec), r.1))
  }

  /** One turn of the track loop of `sync`: a track with a path gets its
      folder made on the player, when the path has one, and is then synced. */
  function TrackStep(s: Settings, w: World, h: Host, t: Track, now: int): World {
    var filePath := t.filePath;
    if filePath == "" then w
    else
      var remote := DapPath(s, filePath);
      var dapDir := Dirname(remote);
      var d := if dapDir != "" then Mkdir(w.device, dapDir).1 else w.device;
      SyncFileEffect(s, w.(device := d), h, filePath, remote, now, DefaultRetries).1
  }

  /** The state after the track loop has run over `tracks`. */
  function TracksEffect(s: Settings, w: World, h: Host, tracks: seq<Track>, now: int): World
    decreases |tracks|
  {
    if tracks == [] then w
    else TrackStep(s, TracksEffect(s, w, h, tracks[..|tracks| - 1], now), h, tracks[|tracks| - 1], now)
  }
}
