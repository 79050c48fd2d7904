/** What one transfer promises: the retry loop, the incremental-mode
    decision, the counters and the history rows, and why a second run over
    an unchanged library pushes nothing. */
module TransferFacts {
  import opened Wrappers
  import opened Paths
  import opened Metadata
  import opened HostFiles
  import opened MusicBee
  import opened SyncStore
  import opened DeviceOracle
  import opened Transfer

  /** Full mode pushes every file; incremental mode pushes a file exactly when
      it has no readable row, its fingerprint changed, or it is missing on
      the player. */
  lemma ShouldSyncSpec(s: Settings, w: World, p: Path, remote: Path, hash: Digest, size: nat)
    ensures s.full ==> ShouldSync(s, w, p, remote, hash, size)
    ensures !s.full ==>
      (ShouldSync(s, w, p, remote, hash, size) <==>
         !s.storeOk || p !in w.store || w.store[p].hash != hash || remote !in w.device.present)
  {
  }

  /** A row whose push failed still causes a skip when the fingerprint
      matches and a file is on the player: the status is never read. */
  lemma FailedRowStillSkips(s: Settings, w: World, p: Path, remote: Path, hash: Digest, size: nat)
    requires !s.full && s.storeOk && p in w.store
    requires w.store[p] == SyncRecord(hash, size, w.store[p].lastSynced, Failed)
    requires remote in w.device.present
    ensures !ShouldSync(s, w, p, remote, hash, size)
  {
  }

  /** The retry loop makes between one and `retries` attempts. It succeeds
      exactly when one of the scripted results in range does, stops at the
      first success, and uses all attempts only on failure. It records each
      attempt with a pause between failures, and leaves the file on the
      player only after a success. */
  lemma {:induction false} RetryPushSpec(d: Device, remote: Path, payload: Payload, retries: nat)
    requires retries >= 1
    ensures 1 <= Attempts(d, remote, payload, retries) <= retries
    ensures RetryPush(d, remote, payload, retries).0
        <==> Scripted(d.script, d.pushes + Attempts(d, remote, payload, retries) - 1)
    ensures forall j :: d.pushes <= j < d.pushes + Attempts(d, remote, payload, retries) - 1 ==> !Scripted(d.script, j)
    ensures !RetryPush(d, remote, payload, retries).0 ==> Attempts(d, remote, payload, retries) == retries
    ensures RetryPush(d, remote, payload, retries).1.trace
        == d.trace + AttemptEvents(remote, payload, Attempts(d, remote, payload, retries), RetryPush(d, remote, payload, retries).0)
    ensures RetryPush(d, remote, payload, retries).1.present
        == if RetryPush(d, remote, payload, retries).0 then d.present + {remote} else d.present
    ensures RetryPush(d, remote, payload, retries).1 == d.(pushes := RetryPush(d, remote, payload, retries).1.pushes,
                                                         present := RetryPush(d, remote, payload, retries).1.present,
                                                         trace := RetryPush(d, remote, payload, retries).1.trace)
    decreases retries
  {
    var p := Push(d, remote, payload);
    if !p.0 && retries > 1 {
      var d2 := Pause(p.1);
      RetryPushSpec(d2, remote, payload, retries - 1);
      var r := RetryPush(d2, remote, payload, retries - 1);
      var m := Attempts(d2, remote, payload, retries - 1);
      assert RetryPush(d, remote, payload, retries) == r;
      assert Attempts(d, remote, payload, retries) == m + 1;
      assert AttemptEvents(remote, payload, m + 1, r.0)
          == [Pushed(remote, payload, false), Paused] + AttemptEvents(remote, payload, m, r.0);
      assert !Scripted(d.script, d.pushes);
    }
  }

  /** The number of pushes the retry loop makes. */
  function Attempts(d: Device, remote: Path, payload: Payload, retries: nat): int {
    RetryPush(d, remote, payload, retries).1.pushes - d.pushes
  }

  /** Whether some scripted result among the first `retries` from `k` succeeds. */
  predicate SomeSucceeds(script: seq<bool>, k: nat, retries: nat) {
    exists j :: k <= j < k + retries && Scripted(script, j)
  }

  /** The retry loop succeeds exactly when some attempt within range would. */
  lemma RetryPushSucceedsIff(d: Device, remote: Path, payload: Payload, retries: nat)
    ensures RetryPush(d, remote, payload, retries).0 <==> SomeSucceeds(d.script, d.pushes, retries)
  {
    if retries >= 1 {
      RetryPushSpec(d, remote, payload, retries);
      var r := RetryPush(d, remote, payload, retries);
      var n := Attempts(d, remote, payload, retries);
      if SomeSucceeds(d.script, d.pushes, retries) && !r.0 {
        var j :| d.pushes <= j < d.pushes + retries && Scripted(d.script, j);
      }
      if r.0 {
        assert Scripted(d.script, d.pushes + n - 1);
      }
    }
  }

  /** The recorded attempts alternate pushes and pauses: `2n - 1` events,
      a push at each even position, failed except possibly the last, and a
      pause at each odd position. */
  lemma {:induction false} AttemptEventsShape(remote: Path, payload: Payload, n: nat, ok: bool)
    requires n >= 1
    ensures |AttemptEvents(remote, payload, n, ok)| == 2 * n - 1
    ensures forall i :: 0 <= i < 2 * n - 1 ==>
      AttemptEvents(remote, payload, n, ok)[i]
        == if i % 2 == 1 then Paused else Pushed(remote, payload, ok && i == 2 * n - 2)
    decreases n
  {
    if n > 1 {
      AttemptEventsShape(remote, payload, n - 1, ok);
      var e := AttemptEvents(remote, payload, n, ok);
      var tail := AttemptEvents(remote, payload, n - 1, ok);
      forall i | 2 <= i < 2 * n - 1
        ensures e[i] == if i % 2 == 1 then Paused else Pushed(remote, payload, ok && i == 2 * n - 2)
      {
        assert e[i] == tail[i - 2];
        assert (i - 2) % 2 == i % 2;
      }
    }
  }

  /** A file that is missing or has no fingerprint fails without changing anything. */
  lemma SyncFileGuards(s: Settings, w: World, h: Host, p: Path, remote: Path, now: int, retries: nat)
    requires GetFileHash(h, p).None?
    ensures SyncFileEffect(s, w, h, p, remote, now, retries) == (false, w)
  {
  }

  /** An unchanged file only counts as skipped and succeeds. */
  lemma SyncFileSkip(s: Settings, w: World, h: Host, p: Path, remote: Path, now: int, retries: nat)
    requires GetFileHash(h, p).Some?
    requires !ShouldSync(s, w, p, remote, GetFileHash(h, p).value, h.files[p].size)
    ensures SyncFileEffect(s, w, h, p, remote, now, retries).0
    ensures SyncFileEffect(s, w, h, p, remote, now, retries).1.stats == w.stats.(tracksSkipped := w.stats.tracksSkipped + 1)
    ensures SyncFileEffect(s, w, h, p, remote, now, retries).1.store == w.store
    ensures SyncFileEffect(s, w, h, p, remote, now, retries).1.device == w.device
  {
    assert Exists(h, p);
    var skipped := w.(stats := w.stats.(tracksSkipped := w.stats.tracksSkipped + 1));
    assert SyncFileEffect(s, w, h, p, remote, now, retries) == (true, skipped);
  }

  /** A file that needs pushing but cannot be copied to the temporary
      folder fails: one failed track, no row, no push. */
  lemma SyncFileCopyFails(s: Settings, w: World, h: Host, p: Path, remote: Path, now: int, retries: nat)
    requires GetFileHash(h, p).Some?
    requires ShouldSync(s, w, p, remote, GetFileHash(h, p).value, h.files[p].size)
    requires !CanCopy(h, p)
    ensures SyncFileEffect(s, w, h, p, remote, now, retries) == (false, w.(stats := w.stats.(tracksFailed := w.stats.tracksFailed + 1)))
  {
  }

  /** On a coherent host a path has a fingerprint exactly when it exists,
      so a directory passes the guards: when it needs pushing, its copy
      raises and it counts as one failed track with no row written. */
  lemma DirectoryCountsFailed(s: Settings, w: World, h: Host, p: Path, remote: Path, now: int, retries: nat)
    requires Coherent(h)
    ensures GetFileHash(h, p).Some? <==> Exists(h, p)
    ensures p in h.dirs && ShouldSync(s, w, p, remote, GetFileHash(h, p).value, h.files[p].size) ==>
      SyncFileEffect(s, w, h, p, remote, now, retries) == (false, w.(stats := w.stats.(tracksFailed := w.stats.tracksFailed + 1)))
  {
  }

  /** A file that needs pushing and can be copied gets the retry loop's
      result. Success adds one synced track and its size; failure adds one
      failed track. Either way its row is written with the fingerprint, the
      size, the time and the outcome. */
  lemma SyncFilePush(s: Settings, w: World, h: Host, p: Path, remote: Path, now: int, retries: nat)
    requires GetFileHash(h, p).Some?
    requires ShouldSync(s, w, p, remote, GetFileHash(h, p).value, h.files[p].size)
    requires CanCopy(h, p)
    ensures var r := SyncFileEffect(s, w, h, p, remote, now, retries);
      var push := RetryPush(w.device, remote, Copy(p), retries);
      var size := h.files[p].size;
      && r.0 == push.0
      && r.1.device == push.1
      && r.1.stats == (if r.0 then w.stats.(tracksSynced := w.stats.tracksSynced + 1,
                                           bytesTransferred := w.stats.bytesTransferred + size)
                       else w.stats.(tracksFailed := w.stats.tracksFailed + 1))
      && r.1.store == Upsert(w.store, s.storeOk, p,
                             SyncRecord(GetFileHash(h, p).value, size, now, if r.0 then Synced else Failed))
  {
  }

  /** The sum of the three track counters. */
  function Handled(st: Stats): nat {
    st.tracksSynced + st.tracksSkipped + st.tracksFailed
  }

  /** Every file with a fingerprint counts exactly once, and nothing else
      among the counters moves: the playlist counters and the run's times
      stay as they were, and bytes grow only for a synced file. */
  lemma SyncFileCounters(s: Settings, w: World, h: Host, p: Path, remote: Path, now: int, retries: nat)
    ensures var r := SyncFileEffect(s, w, h, p, remote, now, retries);
      var st := r.1.stats;
      && Handled(st) == Handled(w.stats) + (if GetFileHash(h, p).Some? then 1 else 0)
      && st.playlistsSynced == w.stats.playlistsSynced
      && st.playlistsFailed == w.stats.playlistsFailed
      && st.startTime == w.stats.startTime && st.endTime == w.stats.endTime
      && st.bytesTransferred == w.stats.bytesTransferred + (if st.tracksSynced > w.stats.tracksSynced then h.files[p].size else 0)
      && st.tracksSynced >= w.stats.tracksSynced
      && (r.0 <==> GetFileHash(h, p).Some? && st.tracksFailed == w.stats.tracksFailed)
  {
  }

  /** Files already on the player stay there and history rows of other
      paths are kept, whatever one transfer does. */
  lemma SyncFileMonotone(s: Settings, w: World, h: Host, p: Path, remote: Path, now: int, retries: nat)
    ensures var w' := SyncFileEffect(s, w, h, p, remote, now, retries).1;
      && w.device.present <= w'.device.present
      && w.device.trace <= w'.device.trace
      && (forall q :: q != p && q in w.store ==> q in w'.store && w'.store[q] == w.store[q])
  {
    var r := SyncFileEffect(s, w, h, p, remote, now, retries);
    var hash := GetFileHash(h, p);
    if hash.Some? && ShouldSync(s, w, p, remote, hash.value, h.files[p].size) && CanCopy(h, p) && retries >= 1 {
      RetryPushSpec(w.device, remote, Copy(p), retries);
    }
  }

  /** In incremental mode with a usable history, a file that was synced,
      or skipped, is skipped by the next transfer of the same unchanged file. */
  lemma SecondTransferSkips(s: Settings, w: World, h: Host, p: Path, remote: Path, now: int, retries: nat)
    requires !s.full && s.storeOk && GetFileHash(h, p).Some?
    requires SyncFileEffect(s, w, h, p, remote, now, retries).0
    ensures !ShouldSync(s, SyncFileEffect(s, w, h, p, remote, now, retries).1, p, remote, GetFileHash(h, p).value, h.files[p].size)
  {
    var hash := GetFileHash(h, p).value;
    var size := h.files[p].size;
    if ShouldSync(s, w, p, remote, hash, size) {
      assert CanCopy(h, p) && retries >= 1;
      RetryPushSpec(w.device, remote, Copy(p), retries);
    }
  }

  /** Once a file would be skipped, no later transfer changes that as long
      as the file keeps its fingerprint: rows of other paths are kept, a
      transfer of the file itself is a skip, and files stay on the player. */
  lemma SkipSurvivesSyncFile(s: Settings, w: World, h: Host, q: Path, remoteQ: Path, now: int, retries: nat,
                             p: Path, remote: Path, hash: Digest, size: nat)
    requires q == p ==> remoteQ == remote && GetFileHash(h, q) in {None, Some(hash)}
    requires !ShouldSync(s, w, p, remote, hash, size)
    ensures !ShouldSync(s, SyncFileEffect(s, w, h, q, remoteQ, now, retries).1, p, remote, hash, size)
  {
    SyncFileMonotone(s, w, h, q, remoteQ, now, retries);
  }

  /** A turn of the track loop also keeps a skipped file skipped. */
  lemma SkipSurvivesTrackStep(s: Settings, w: World, h: Host, t: Track, now: int, p: Path, hash: Digest, size: nat)
    requires GetFileHash(h, p) in {None, Some(hash)}
    requires !ShouldSync(s, w, p, DapPath(s, p), hash, size)
    ensures !ShouldSync(s, TrackStep(s, w, h, t, now), p, DapPath(s, p), hash, size)
  {
    if t.filePath != "" {
      var remote := DapPath(s, t.filePath);
      var dapDir := Dirname(remote);
      var d := if dapDir != "" then Mkdir(w.device, dapDir).1 else w.device;
      var w1 := w.(device := d);
      assert !ShouldSync(s, w1, p, DapPath(s, p), hash, size);
      SkipSurvivesSyncFile(s, w1, h, t.filePath, remote, now, DefaultRetries, p, DapPath(s, p), hash, size);
    }
  }

  /** ... and so does the whole track loop. */
  lemma {:induction false} SkipSurvivesTracks(s: Settings, w: World, h: Host, tracks: seq<Track>, now: int, p: Path, hash: Digest, size: nat)
    requires GetFileHash(h, p) in {None, Some(hash)}
    requires !ShouldSync(s, w, p, DapPath(s, p), hash, size)
    ensures !ShouldSync(s, TracksEffect(s, w, h, tracks, now), p, DapPath(s, p), hash, size)
    decreases |tracks|
  {
    if tracks != [] {
      SkipSurvivesTracks(s, w, h, tracks[..|tracks| - 1], now, p, hash, size);
      SkipSurvivesTrackStep(s, TracksEffect(s, w, h, tracks[..|tracks| - 1], now), h, tracks[|tracks| - 1], now, p, hash, size);
    }
  }

  /** The number of tracks the loop hands to `_sync_file` that have a fingerprint. */
  function Hashed(h: Host, tracks: seq<Track>): nat
    decreases |tracks|
  {
    if tracks == [] then 0
    else
      var t := tracks[|tracks| - 1];
      Hashed(h, tracks[..|tracks| - 1]) + (if t.filePath != "" && t.filePath in h.files then 1 else 0)
  }

  /** The track loop counts every track with a fingerprint exactly once and
      leaves the playlist counters and the times alone; the player's record
      only grows. */
  lemma {:induction false} TracksEffectCounters(s: Settings, w: World, h: Host, tracks: seq<Track>, now: int)
    ensures var w' := TracksEffect(s, w, h, tracks, now);
      && Handled(w'.stats) == Handled(w.stats) + Hashed(h, tracks)
      && w'.stats.playlistsSynced == w.stats.playlistsSynced
      && w'.stats.playlistsFailed == w.stats.playlistsFailed
      && w'.stats.startTime == w.stats.startTime && w'.stats.endTime == w.stats.endTime
      && w.device.trace <= w'.device.trace
    decreases |tracks|
  {
    if tracks != [] {
      var init := tracks[..|tracks| - 1];
      var t := tracks[|tracks| - 1];
      TracksEffectCounters(s, w, h, init, now);
      var w0 := TracksEffect(s, w, h, init, now);
      if t.filePath != "" {
        var remote := DapPath(s, t.filePath);
        var dapDir := Dirname(remote);
        var d := if dapDir != "" then Mkdir(w0.device, dapDir).1 else w0.device;
        var w1 := w0.(device := d);
        SyncFileCounters(s, w1, h, t.filePath, remote, now, DefaultRetries);
        SyncFileMonotone(s, w1, h, t.filePath, remote, now, DefaultRetries);
        assert w0.device.trace <= w1.device.trace;
      }
    }
  }

  /** The track loop over `a + b` is the loop over `a` followed by the loop over `b`. */
  lemma {:induction false} TracksEffectConcat(s: Settings, w: World, h: Host, a: seq<Track>, b: seq<Track>, now: int)
    ensures TracksEffect(s, w, h, a + b, now) == TracksEffect(s, TracksEffect(s, w, h, a, now), h, b, now)
    decreases |b|
  {
    if b == [] {
      EmptySuffix(a, b);
    } else {
      TracksEffectConcat(s, w, h, a, b[..|b| - 1], now);
      LastOfConcat(a, b);
    }
  }

  lemma EmptySuffix(a: seq<Track>, b: seq<Track>)
    requires b == []
    ensures a + b == a
  {
  }

  /** The last track of `a + b` is that of `b`, and what precedes it is `a` with the rest of `b`. */
  lemma LastOfConcat(a: seq<Track>, b: seq<Track>)
    requires b != []
    ensures (a + b)[..|a + b| - 1] == a + b[..|b| - 1]
    ensures (a + b)[|a + b| - 1] == b[|b| - 1]
  {
  }
}

/** Where a file lands on the player. */
module DapPathFacts {
  import opened Strings
  import opened Paths
  import opened Transfer

  /** A file below the library root lands at its path below the root,
      inside the music folder; no landing path contains a backslash. */
  lemma DapPathBelowRoot(s: Settings, root: seq<string>, rel: seq<string>)
    requires s.handler.libraryPath == AbsPathOf(root)
    requires Clean(root) && Clean(rel) && rel != []
    requires '\\' !in s.dapMusicPath && forall i :: 0 <= i < |rel| ==> '\\' !in rel[i]
    ensures DapPath(s, AbsPathOf(root + rel)) == Join(s.dapMusicPath, JoinWith(rel, '/'))
  {
    s.handler.RelativeDapPathBelowRoot(root, rel);
    JoinWithLastChar(rel);
    JoinWithNoSep(rel, '/', '\\');
    JoinNoChar(s.dapMusicPath, JoinWith(rel, '/'), '\\');
    ReplaceCharAbsent(Join(s.dapMusicPath, JoinWith(rel, '/')), '\\', '/');
  }

  /** The landing path never contains a backslash. */
  lemma DapPathSlashes(s: Settings, f: Path)
    ensures '\\' !in DapPath(s, f)
  {
  }
}
