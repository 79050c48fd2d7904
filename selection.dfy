/** Which tracks a run considers: each sync criterion contributes the tracks
    it names, criteria in order, and the concatenation is then reduced to the
    first track seen for each non-empty path. */
module Selection {
  import opened Wrappers
  import opened Paths
  import opened OrderedMaps
  import opened MusicBee

  /** One entry of the `criteria` list. An entry that is not a dictionary is
      ignored; in a dictionary each of the four keys may be present. */
  datatype Criterion =
    | NotARule
    | Rule(entireLibrary: bool, playlists: Option<seq<string>>, smartPlaylists: Option<seq<Criteria>>, custom: Option<Criteria>)

  /** What `get_playlist_tracks(name)` returns for a reader in this state. */
  function PlaylistTracks(cat: Catalog, pls: Entries<string, seq<Path>>, name: string): seq<Track> {
    match Get(pls, name)
    case None => []
    case Some(entries) => TracksOfEntries(cat, entries)
  }

  /** The tracks of the named playlists, one playlist after the other. */
  function NamedTracks(cat: Catalog, pls: Entries<string, seq<Path>>, names: seq<string>): seq<Track>
    decreases |names|
  {
    if names == [] then []
    else NamedTracks(cat, pls, names[..|names| - 1]) + PlaylistTracks(cat, pls, names[|names| - 1])
  }

  /** The tracks of the smart playlists, one after the other. */
  function SmartTracks(cat: Catalog, configs: seq<Criteria>, now: int, parseDate: string -> Option<int>): seq<Track>
    decreases |configs|
  {
    if configs == [] then []
    else SmartTracks(cat, configs[..|configs| - 1], now, parseDate)
         + Select(Values(cat), SmartCriteria(configs[|configs| - 1]), now, parseDate)
  }

  /** One more name adds the tracks of that playlist. */
  lemma NamedTracksSnoc(cat: Catalog, pls: Entries<string, seq<Path>>, names: seq<string>, j: nat)
    requires j < |names|
    ensures NamedTracks(cat, pls, names[..j + 1]) == NamedTracks(cat, pls, names[..j]) + PlaylistTracks(cat, pls, names[j])
  {
    assert names[..j + 1][..j] == names[..j];
  }

  /** One more smart playlist adds the tracks its criteria select. */
  lemma SmartTracksSnoc(cat: Catalog, configs: seq<Criteria>, now: int, parseDate: string -> Option<int>, j: nat)
    requires j < |configs|
    ensures SmartTracks(cat, configs[..j + 1], now, parseDate)
         == SmartTracks(cat, configs[..j], now, parseDate) + Select(Values(cat), SmartCriteria(configs[j]), now, parseDate)
  {
    assert configs[..j + 1][..j] == configs[..j];
  }

  /** What one criterion adds: the whole library, then its playlists, then its
      smart playlists, then its custom filter. */
  function RuleTracks(cat: Catalog, pls: Entries<string, seq<Path>>, c: Criterion, now: int, parseDate: string -> Option<int>): seq<Track> {
    match c
    case NotARule => []
    case Rule(entire, names, smart, custom) =>
      (if entire then Values(cat) else [])
      + (if names.Some? then NamedTracks(cat, pls, names.value) else [])
      + (if smart.Some? then SmartTracks(cat, smart.value, now, parseDate) else [])
      + (if custom.Some? then Select(Values(cat), custom.value, now, parseDate) else [])
  }

  /** The tracks of every criterion, one after the other. */
  function Flatten(rule: Criterion -> seq<Track>, criteria: seq<Criterion>): seq<Track>
    decreases |criteria|
  {
    if criteria == [] then []
    else Flatten(rule, criteria[..|criteria| - 1]) + rule(criteria[|criteria| - 1])
  }

  /** `RuleTracks` as a function of the criterion. */
  function RuleOf(cat: Catalog, pls: Entries<string, seq<Path>>, now: int, parseDate: string -> Option<int>): Criterion -> seq<Track> {
    c => RuleTracks(cat, pls, c, now, parseDate)
  }

  /** `tracks_to_sync` before duplicates are removed. */
  function Gathered(cat: Catalog, pls: Entries<string, seq<Path>>, criteria: seq<Criterion>, now: int, parseDate: string -> Option<int>): seq<Track> {
    Flatten(RuleOf(cat, pls, now, parseDate), criteria)
  }

  /** The non-empty paths of `ts`: the `seen_paths` set. */
  function PathsOf(ts: seq<Track>): set<Path> {
    set t | t in ts && t.filePath != "" :: t.filePath
  }

  /** The de-duplicated list: a track is kept when its path is non-empty and
      no earlier track had it. */
  function Dedup(ts: seq<Track>): seq<Track>
    decreases |ts|
  {
    if ts == [] then []
    else
      var init := ts[..|ts| - 1];
      var t := ts[|ts| - 1];
      if t.filePath != "" && t.filePath !in PathsOf(init) then Dedup(init) + [t] else Dedup(init)
  }

  // ----- properties -----

  lemma PathsOfSnoc(ts: seq<Track>, t: Track)
    ensures PathsOf(ts + [t]) == PathsOf(ts) + (if t.filePath != "" then {t.filePath} else {})
  {
    assert forall u :: u in ts + [t] <==> u in ts || u == t;
  }

  /** One more turn of the de-duplicating loop: a track with a new path is
      kept and its path marked as seen; any other track changes nothing. */
  lemma DedupStep(ts: seq<Track>, k: nat, unique: seq<Track>, seen: set<Path>)
    requires k < |ts| && unique == Dedup(ts[..k]) && seen == PathsOf(ts[..k])
    ensures var p := ts[k].filePath;
      p != "" && p !in seen ==> Dedup(ts[..k + 1]) == unique + [ts[k]] && PathsOf(ts[..k + 1]) == seen + {p}
    ensures var p := ts[k].filePath;
      !(p != "" && p !in seen) ==> Dedup(ts[..k + 1]) == unique && PathsOf(ts[..k + 1]) == seen
  {
    assert ts[..k + 1][..k] == ts[..k];
    assert ts[..k + 1] == ts[..k] + [ts[k]];
    PathsOfSnoc(ts[..k], ts[k]);
  }

  /** Every kept track is one of the input tracks and has a path. */
  lemma {:induction false} DedupFromInput(ts: seq<Track>)
    ensures forall t :: t in Dedup(ts) ==> t in ts && t.filePath != ""
    decreases |ts|
  {
    if ts != [] {
      var init := ts[..|ts| - 1];
      DedupFromInput(init);
      assert forall u :: u in init ==> u in ts;
    }
  }

  /** No two kept tracks share a path. */
  lemma {:induction false} DedupDistinct(ts: seq<Track>)
    ensures forall i, j :: 0 <= i < j < |Dedup(ts)| ==> Dedup(ts)[i].filePath != Dedup(ts)[j].filePath
    decreases |ts|
  {
    if ts != [] {
      var init := ts[..|ts| - 1];
      var t := ts[|ts| - 1];
      var before := Dedup(init);
      DedupDistinct(init);
      if t.filePath != "" && t.filePath !in PathsOf(init) {
        DedupFromInput(init);
        forall i | 0 <= i < |before|
          ensures before[i].filePath != t.filePath
        {
          assert before[i] in init;
        }
        var r := before + [t];
        assert forall i :: 0 <= i < |before| ==> r[i] == before[i];
      }
    }
  }

  /** The first track of every path is kept. */
  lemma {:induction false} DedupKeepsFirst(ts: seq<Track>)
    ensures forall k :: 0 <= k < |ts| && ts[k].filePath != "" && ts[k].filePath !in PathsOf(ts[..k]) ==> ts[k] in Dedup(ts)
    decreases |ts|
  {
    if ts != [] {
      var init := ts[..|ts| - 1];
      DedupKeepsFirst(init);
      var r := Dedup(ts);
      assert forall u :: u in Dedup(init) ==> u in r;
      forall k | 0 <= k < |ts| && ts[k].filePath != "" && ts[k].filePath !in PathsOf(ts[..k])
        ensures ts[k] in r
      {
        if k < |init| {
          assert ts[..k] == init[..k];
          assert ts[k] == init[k];
        } else {
          assert ts[..k] == init;
        }
      }
    }
  }

  /** Every path of the input is the path of a kept track. */
  lemma {:induction false} DedupCovers(ts: seq<Track>)
    ensures PathsOf(Dedup(ts)) == PathsOf(ts)
    decreases |ts|
  {
    if ts != [] {
      var init := ts[..|ts| - 1];
      var t := ts[|ts| - 1];
      DedupCovers(init);
      assert ts == init + [t];
      PathsOfSnoc(init, t);
      if t.filePath != "" && t.filePath !in PathsOf(init) {
        PathsOfSnoc(Dedup(init), t);
      }
    }
  }

  /** What is kept from a prefix of the input is a prefix of what is kept
      from all of it, so kept tracks come in the order of their first
      occurrence. */
  lemma {:induction false} DedupPrefix(ts: seq<Track>)
    ensures forall n :: 0 <= n <= |ts| ==> Dedup(ts[..n]) <= Dedup(ts)
    decreases |ts|
  {
    if ts != [] {
      var init := ts[..|ts| - 1];
      DedupPrefix(init);
      forall n | 0 <= n <= |ts|
        ensures Dedup(ts[..n]) <= Dedup(ts)
      {
        if n < |ts| {
          assert ts[..n] == init[..n];
        } else {
          assert ts[..n] == ts;
        }
      }
    }
  }

  /** Every gathered track is a track of the catalog. */
  lemma {:induction false} GatheredFromCatalog(cat: Catalog, pls: Entries<string, seq<Path>>, criteria: seq<Criterion>, now: int, parseDate: string -> Option<int>, t: Track)
    requires t in Gathered(cat, pls, criteria, now, parseDate)
    ensures t in Values(cat)
    decreases |criteria|
  {
    var init := criteria[..|criteria| - 1];
    if t in Gathered(cat, pls, init, now, parseDate) {
      GatheredFromCatalog(cat, pls, init, now, parseDate, t);
    } else {
      RuleFromCatalog(cat, pls, criteria[|criteria| - 1], now, parseDate, t);
    }
  }

  lemma RuleFromCatalog(cat: Catalog, pls: Entries<string, seq<Path>>, c: Criterion, now: int, parseDate: string -> Option<int>, t: Track)
    requires t in RuleTracks(cat, pls, c, now, parseDate)
    ensures t in Values(cat)
  {
    var all := Values(cat);
    if c.Rule? {
      if c.playlists.Some? && t in NamedTracks(cat, pls, c.playlists.value) {
        NamedFromCatalog(cat, pls, c.playlists.value, t);
      } else if c.smartPlaylists.Some? && t in SmartTracks(cat, c.smartPlaylists.value, now, parseDate) {
        SmartFromCatalog(cat, c.smartPlaylists.value, now, parseDate, t);
      } else if c.custom.Some? && t in Select(all, c.custom.value, now, parseDate) {
        SelectMembers(all, c.custom.value, now, parseDate, t);
      }
    }
  }

  lemma {:induction false} NamedFromCatalog(cat: Catalog, pls: Entries<string, seq<Path>>, names: seq<string>, t: Track)
    requires t in NamedTracks(cat, pls, names)
    ensures t in Values(cat)
    decreases |names|
  {
    var init := names[..|names| - 1];
    if t in NamedTracks(cat, pls, init) {
      NamedFromCatalog(cat, pls, init, t);
    } else {
      var entries := Get(pls, names[|names| - 1]);
      TracksOfEntriesFromCatalog(cat, entries.value, t);
      var j :| 0 <= j < |cat| && cat[j].1 == t;
      assert Values(cat)[j] == t;
    }
  }

  lemma {:induction false} SmartFromCatalog(cat: Catalog, configs: seq<Criteria>, now: int, parseDate: string -> Option<int>, t: Track)
    requires t in SmartTracks(cat, configs, now, parseDate)
    ensures t in Values(cat)
    decreases |configs|
  {
    var init := configs[..|configs| - 1];
    if t in SmartTracks(cat, init, now, parseDate) {
      SmartFromCatalog(cat, init, now, parseDate, t);
    } else {
      SelectMembers(Values(cat), SmartCriteria(configs[|configs| - 1]), now, parseDate, t);
    }
  }

  lemma {:induction false} FlattenConcat(rule: Criterion -> seq<Track>, a: seq<Criterion>, b: seq<Criterion>)
    ensures Flatten(rule, a + b) == Flatten(rule, a) + Flatten(rule, b)
    decreases |b|
  {
    if b == [] {
      assert a + b == a;
    } else {
      var b0, x := b[..|b| - 1], b[|b| - 1];
      FlattenConcat(rule, a, b0);
      assert b == b0 + [x];
      assert a + b == (a + b0) + [x];
      FlattenSnoc(rule, a + b0, x);
      FlattenSnoc(rule, b0, x);
      SeqAssoc(Flatten(rule, a), Flatten(rule, b0), rule(x));
    }
  }

  /** One more criterion adds its tracks at the end. */
  lemma FlattenSnoc(rule: Criterion -> seq<Track>, xs: seq<Criterion>, x: Criterion)
    ensures Flatten(rule, xs + [x]) == Flatten(rule, xs) + rule(x)
  {
    assert (xs + [x])[..|xs|] == xs;
  }

  /** One more criterion adds its own tracks at the end. */
  lemma GatheredStep(cat: Catalog, pls: Entries<string, seq<Path>>, criteria: seq<Criterion>, i: nat, now: int, parseDate: string -> Option<int>)
    requires i < |criteria|
    ensures Gathered(cat, pls, criteria[..i + 1], now, parseDate)
         == Gathered(cat, pls, criteria[..i], now, parseDate) + RuleTracks(cat, pls, criteria[i], now, parseDate)
  {
    assert criteria[..i + 1] == criteria[..i] + [criteria[i]];
    FlattenSnoc(RuleOf(cat, pls, now, parseDate), criteria[..i], criteria[i]);
  }

  lemma SeqAssoc(a: seq<Track>, b: seq<Track>, c: seq<Track>)
    ensures a + b + c == a + (b + c)
  {
  }

  /** Criteria are taken in order: the tracks of a list of criteria are those
      of its first part followed by those of the rest. */
  lemma GatheredConcat(cat: Catalog, pls: Entries<string, seq<Path>>, a: seq<Criterion>, b: seq<Criterion>, now: int, parseDate: string -> Option<int>)
    ensures Gathered(cat, pls, a + b, now, parseDate) == Gathered(cat, pls, a, now, parseDate) + Gathered(cat, pls, b, now, parseDate)
  {
    FlattenConcat(RuleOf(cat, pls, now, parseDate), a, b);
  }
}
