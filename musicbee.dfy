/** The MusicBee library reader: it turns the `<Item>` elements of the library
    file into tracks keyed by normalised path, reads the `.m3u`/`.m3u8`
    playlists of the playlist folder, and answers the queries the engine
    makes (one track, one playlist's tracks, the tracks matching a set of
    filters). The XML parser, the date parser and the float parser are
    oracles. */
module MusicBee {
  import opened Wrappers
  import opened Strings
  import opened Paths
  import opened OrderedMaps
  import opened HostFiles

  /** The attributes of one `<Item>` element. */
  type Item = map<string, string>

  /** A parsed track; timestamps are whole seconds. */
  datatype Track = Track(
    filePath: Path,
    title: string, artist: string, album: string, albumArtist: string,
    genre: string, year: string, trackNumber: string, discNumber: string,
    rating: int, playCount: int,
    dateAdded: string, dateModified: string, lastPlayed: string,
    bitrate: string, sampleRate: string,
    duration: real,
    dateAddedParsed: Option<int>, dateModifiedParsed: Option<int>)

  /** `float(s)` and `dateutil.parser.parse(s)`; `None` where they raise. */
  datatype Parsers = Parsers(parseFloat: string -> Option<real>, parseDate: string -> Option<int>)

  /** The library document as the XML parser delivers it. */
  datatype LibraryDocument = Unparsable | NoItems | Items(items: seq<Item>)

  /** `item.get(key, '')`. */
  function Attr(item: Item, key: string): string {
    if key in item then item[key] else ""
  }

  // ----- Windows paths -----

  /** The rewrite applied to a path holding a backslash: backslashes become
      slashes, and when a colon follows, the text before the first colon is
      taken as a drive letter and the path moves below `/mnt/<drive>`. */
  function WindowsToPosix(p: Path): Path {
    if '\\' !in p then p
    else
      var q := ReplaceChar(p, '\\', '/');
      var i := Find(q, ':');
      if i < 0 then q
      else "/mnt/" + Lower(q[..i]) + LStrip(q[i + 1..], {'\\'})
  }

  lemma NotInSlice(s: string, c: char, i: int, j: int)
    requires c !in s && 0 <= i <= j <= |s|
    ensures c !in s[i..j]
  {
    assert forall k :: i <= k < j ==> s[i..j][k - i] == s[k];
  }

  lemma NotInConcat(a: string, b: string, c: string, x: char)
    requires x !in a && x !in b && x !in c
    ensures x !in a + b + c
  {
  }

  lemma LowerNoBackslash(s: string)
    requires '\\' !in s
    ensures '\\' !in Lower(s)
  {
    var r := Lower(s);
    forall k | 0 <= k < |r|
      ensures r[k] != '\\'
    {
      assert r[k] == LowerChar(s[k]);
      LowerCharFacts(s[k]);
    }
  }

  /** Rewriting leaves no backslash behind, and touches no path without one. */
  lemma WindowsToPosixResult(p: Path)
    ensures '\\' !in WindowsToPosix(p)
    ensures '\\' !in p ==> WindowsToPosix(p) == p
  {
    if '\\' in p {
      var q := ReplaceChar(p, '\\', '/');
      assert '\\' !in q;
      var i := Find(q, ':');
      if i >= 0 {
        DriveRewriteNoBackslash(q, i);
      }
    }
  }

  lemma DriveRewriteNoBackslash(q: string, i: nat)
    requires '\\' !in q && i < |q|
    ensures '\\' !in "/mnt/" + Lower(q[..i]) + LStrip(q[i + 1..], {'\\'})
  {
    var drive := q[..i];
    NotInSlice(q, '\\', 0, i);
    assert drive == q[0..i];
    LowerNoBackslash(drive);
    StrippedTailNoBackslash(q, i);
    MntNoBackslash();
    NotInConcat("/mnt/", Lower(drive), LStrip(q[i + 1..], {'\\'}), '\\');
  }

  lemma MntNoBackslash()
    ensures '\\' !in "/mnt/"
  {
    assert "/mnt/"[0] != '\\' && "/mnt/"[1] != '\\' && "/mnt/"[2] != '\\' && "/mnt/"[3] != '\\' && "/mnt/"[4] != '\\';
  }

  lemma StrippedTailNoBackslash(q: string, i: nat)
    requires '\\' !in q && i < |q|
    ensures '\\' !in LStrip(q[i + 1..], {'\\'})
  {
    NotInSlice(q, '\\', i + 1, |q|);
    assert q[i + 1..] == q[i + 1..|q|];
    var tail := LStrip(q[i + 1..], {'\\'});
    NotInSlice(q[i + 1..], '\\', |q[i + 1..]| - |tail|, |q[i + 1..]|);
  }

  /** `X:\dir\file` becomes `/mnt/x/dir/file`. */
  lemma DriveLetterRewrite(d: char, rest: string)
    requires d != ':' && d != '\\' && ':' !in rest
    ensures WindowsToPosix([d, ':', '\\'] + rest) == "/mnt/" + [LowerChar(d)] + "/" + ReplaceChar(rest, '\\', '/')
  {
    var p := [d, ':', '\\'] + rest;
    var rq := ReplaceChar(rest, '\\', '/');
    DriveReplaced(d, rest);
    DriveRewritten(d, rq);
    assert "/mnt/" + [LowerChar(d)] + ("/" + rq) == "/mnt/" + [LowerChar(d)] + "/" + rq;
  }

  lemma DriveReplaced(d: char, rest: string)
    requires d != '\\'
    ensures '\\' in [d, ':', '\\'] + rest
    ensures ReplaceChar([d, ':', '\\'] + rest, '\\', '/') == [d, ':', '/'] + ReplaceChar(rest, '\\', '/')
  {
    var p := [d, ':', '\\'] + rest;
    assert p[2] == '\\';
    var q := ReplaceChar(p, '\\', '/');
    var rq := ReplaceChar(rest, '\\', '/');
    forall k | 0 <= k < |q|
      ensures q[k] == ([d, ':', '/'] + rq)[k]
    {
      if k >= 3 {
        assert p[k] == rest[k - 3];
      }
    }
  }

  lemma DriveRewritten(d: char, rq: string)
    requires d != ':' && ':' !in rq
    ensures var q := [d, ':', '/'] + rq;
      "/mnt/" + Lower(q[..Find(q, ':')]) + LStrip(q[Find(q, ':') + 1..], {'\\'}) == "/mnt/" + [LowerChar(d)] + ("/" + rq)
  {
    var q := [d, ':', '/'] + rq;
    assert q[0] == d && q[1] == ':';
    assert Find(q, ':') == 1;
    assert q[..1] == [d] && q[2..] == "/" + rq;
    assert LStrip("/" + rq, {'\\'}) == "/" + rq;
    assert Lower([d]) == [LowerChar(d)];
  }

  // ----- one <Item> -----

  /** `int(item.get(key, 0)) if item.get(key) else 0`: zero when the attribute
      is absent or empty, `None` when its text is not an integer. */
  function ParseCount(item: Item, key: string): (r: Option<int>)
    ensures Attr(item, key) == "" ==> r == Some(0)
  {
    if Attr(item, key) == "" then Some(0) else ParseInt(Attr(item, key))
  }

  /** A count written as Python writes an integer reads back as that integer. */
  lemma ParseCountOfString(item: Item, key: string, n: int)
    requires key in item && item[key] == IntToString(n)
    ensures ParseCount(item, key) == Some(n)
  {
    ParseIntOfString(n);
  }

  /** `float(item.get('Duration', 0)) if item.get('Duration') else 0`. */
  function ParseDuration(item: Item, parsers: Parsers): Option<real> {
    if Attr(item, "Duration") == "" then Some(0.0) else parsers.parseFloat(Attr(item, "Duration"))
  }

  /** A date attribute, parsed when it is present and not empty. */
  function ParseDate(item: Item, key: string, parsers: Parsers): Option<int> {
    if Attr(item, key) == "" then None else parsers.parseDate(Attr(item, key))
  }

  /** The path of an item after the Windows rewrite, made absolute against
      the library root when it is relative. */
  function ItemPath(raw: Path, libraryPath: Path): Path {
    var p := WindowsToPosix(raw);
    if IsAbs(p) then p else Join(libraryPath, p)
  }

  lemma WindowsToPosixNonEmpty(p: Path)
    requires p != ""
    ensures WindowsToPosix(p) != ""
  {
    if '\\' in p {
      var q := ReplaceChar(p, '\\', '/');
      assert |q| == |p|;
      if Find(q, ':') >= 0 {
        assert WindowsToPosix(p)[0] == '/';
      }
    }
  }

  /** An item's path is never empty, is absolute below an absolute library
      root, and is kept as it is when already a POSIX absolute path. */
  lemma ItemPathShape(raw: Path, libraryPath: Path)
    requires raw != ""
    ensures ItemPath(raw, libraryPath) != ""
    ensures IsAbs(libraryPath) ==> IsAbs(ItemPath(raw, libraryPath))
    ensures '\\' !in raw && IsAbs(raw) ==> ItemPath(raw, libraryPath) == raw
  {
    WindowsToPosixNonEmpty(raw);
    JoinShape(libraryPath, WindowsToPosix(raw));
  }

  /** `_parse_track_item`: `None` without a file path or when a count or the
      duration does not parse; otherwise a track whose path is rewritten and
      made absolute, whose counts default to zero and whose text fields
      default to the empty string. */
  function ParseTrackItem(item: Item, libraryPath: Path, parsers: Parsers): (r: Option<Track>)
    ensures r.Some? <==> Attr(item, "FilePath") != "" && ParseCount(item, "Rating").Some?
                         && ParseCount(item, "PlayCount").Some? && ParseDuration(item, parsers).Some?
    ensures r.Some? ==> r.value.filePath == ItemPath(Attr(item, "FilePath"), libraryPath)
    ensures r.Some? ==> r.value.rating == ParseCount(item, "Rating").value && r.value.playCount == ParseCount(item, "PlayCount").value
    ensures r.Some? ==> r.value.title == Attr(item, "TrackTitle") && r.value.artist == Attr(item, "Artist")
                        && r.value.album == Attr(item, "Album") && r.value.genre == Attr(item, "Genre")
    ensures r.Some? ==> r.value.dateAddedParsed == ParseDate(item, "DateAdded", parsers)
  {
    var raw := Attr(item, "FilePath");
    if raw == "" then None
    else
      var rating := ParseCount(item, "Rating");
      var plays := ParseCount(item, "PlayCount");
      var duration := ParseDuration(item, parsers);
      if rating.None? || plays.None? || duration.None? then None
      else
        Some(Track(
          ItemPath(raw, libraryPath),
          Attr(item, "TrackTitle"), Attr(item, "Artist"), Attr(item, "Album"), Attr(item, "AlbumArtist"),
          Attr(item, "Genre"), Attr(item, "Year"), Attr(item, "TrackNo"), Attr(item, "DiscNo"),
          rating.value, plays.value,
          Attr(item, "DateAdded"), Attr(item, "DateModified"), Attr(item, "LastPlayed"),
          Attr(item, "Bitrate"), Attr(item, "SampleRate"),
          duration.value,
          ParseDate(item, "DateAdded", parsers), ParseDate(item, "DateModified", parsers)))
  }

  // ----- the catalog -----

  /** The catalog: tracks keyed by the normalised form of their path. */
  type Catalog = Entries<Path, Track>

  /** Every key is the normalised path of the track stored under it. */
  predicate WellKeyed(c: Catalog) {
    UniqueKeys(c) && forall i :: 0 <= i < |c| ==> c[i].0 == Normpath(c[i].1.filePath)
  }

  /** One turn of the `load_library` loop: a parsed track with a path is stored
      under its normalised path, replacing what was there. */
  function AddItem(c: Catalog, item: Item, libraryPath: Path, parsers: Parsers): Catalog {
    var t := ParseTrackItem(item, libraryPath, parsers);
    if t.Some? && t.value.filePath != "" then Put(c, Normpath(t.value.filePath), t.value) else c
  }

  /** The catalog after the loop has seen `items`. */
  function CatalogAfter(c: Catalog, items: seq<Item>, libraryPath: Path, parsers: Parsers): Catalog
    decreases |items|
  {
    if items == [] then c
    else AddItem(CatalogAfter(c, items[..|items| - 1], libraryPath, parsers), items[|items| - 1], libraryPath, parsers)
  }

  /** One more turn of the `load_library` loop. */
  lemma CatalogAfterSnoc(c: Catalog, items: seq<Item>, libraryPath: Path, parsers: Parsers, i: nat, before: Catalog)
    requires i < |items| && before == CatalogAfter(c, items[..i], libraryPath, parsers)
    ensures CatalogAfter(c, items[..i + 1], libraryPath, parsers) == AddItem(before, items[i], libraryPath, parsers)
  {
    assert items[..i + 1][..i] == items[..i];
  }

  /** The last item of `items` that parses to a track stored under `key`. */
  function LastWithKey(items: seq<Item>, key: Path, libraryPath: Path, parsers: Parsers): Option<Track>
    decreases |items|
  {
    if items == [] then None
    else
      var t := ParseTrackItem(items[|items| - 1], libraryPath, parsers);
      if t.Some? && t.value.filePath != "" && Normpath(t.value.filePath) == key then t
      else LastWithKey(items[..|items| - 1], key, libraryPath, parsers)
  }

  lemma AddItemWellKeyed(c: Catalog, item: Item, libraryPath: Path, parsers: Parsers)
    requires WellKeyed(c)
    ensures WellKeyed(AddItem(c, item, libraryPath, parsers))
  {
    var t := ParseTrackItem(item, libraryPath, parsers);
    if t.Some? && t.value.filePath != "" {
      var k := Normpath(t.value.filePath);
      PutProperties(c, k, t.value);
      var r := Put(c, k, t.value);
      var i := IndexOf(c, k);
      forall j | 0 <= j < |r|
        ensures r[j].0 == Normpath(r[j].1.filePath)
      {
        if i < 0 {
          if j < |c| { assert r[j] == c[j]; }
        } else if j != i {
          assert r[j] == c[j];
        }
      }
    }
  }

  /** Loading keeps the catalog well keyed, and the track stored under a key
      is the last item with that key, or what was stored before when no item
      has it: a later item with the same normalised path replaces an earlier one. */
  lemma {:induction false} CatalogAfterProperties(c: Catalog, items: seq<Item>, libraryPath: Path, parsers: Parsers, key: Path)
    requires WellKeyed(c)
    ensures WellKeyed(CatalogAfter(c, items, libraryPath, parsers))
    ensures Get(CatalogAfter(c, items, libraryPath, parsers), key)
            == if LastWithKey(items, key, libraryPath, parsers).Some? then LastWithKey(items, key, libraryPath, parsers) else Get(c, key)
    decreases |items|
  {
    if items != [] {
      var prefix := items[..|items| - 1];
      CatalogAfterProperties(c, prefix, libraryPath, parsers, key);
      var before := CatalogAfter(c, prefix, libraryPath, parsers);
      AddItemWellKeyed(before, items[|items| - 1], libraryPath, parsers);
      AddItemGet(before, items[|items| - 1], libraryPath, parsers, key);
    }
  }

  /** One item replaces what is stored under its own key and leaves every
      other key alone. */
  lemma AddItemGet(c: Catalog, item: Item, libraryPath: Path, parsers: Parsers, key: Path)
    requires UniqueKeys(c)
    ensures var t := ParseTrackItem(item, libraryPath, parsers);
      Get(AddItem(c, item, libraryPath, parsers), key)
      == if t.Some? && t.value.filePath != "" && Normpath(t.value.filePath) == key then t else Get(c, key)
  {
    var t := ParseTrackItem(item, libraryPath, parsers);
    if t.Some? && t.value.filePath != "" {
      PutProperties(c, Normpath(t.value.filePath), t.value);
    }
  }

  // ----- playlist files -----

  /** Whether a stripped playlist line is skipped outright: blank, a header or
      an `#EXTINF` line, or a URL. */
  predicate SkippedLine(l: string) {
    l == "" || StartsWith(l, "#EXTM3U") || StartsWith(l, "#EXTINF")
    || StartsWith(l, "http://") || StartsWith(l, "https://")
  }

  /** The existing file one line of a playlist names: nothing when the line
      is skipped or names no existing file; a relative line is looked up next
      to the playlist first and in the library second; an absolute one is
      looked up after the Windows rewrite. */
  function EntrySource(h: Host, playlistPath: Path, libraryPath: Path, line: string): (r: Option<Path>)
    ensures SkippedLine(Strip(line, Whitespace)) ==> r.None?
    ensures r.Some? ==> Exists(h, r.value)
  {
    var l := Strip(line, Whitespace);
    if SkippedLine(l) then None
    else if !IsAbs(l) then
      var a := Join(Dirname(playlistPath), l);
      if Exists(h, a) then Some(a)
      else
        var b := Join(libraryPath, l);
        if Exists(h, b) then Some(b) else None
    else
      var w := WindowsToPosix(l);
      if Exists(h, w) then Some(w) else None
  }

  /** What one line contributes to the playlist: the normalised path of the
      file it names. */
  function ResolveEntry(h: Host, playlistPath: Path, libraryPath: Path, line: string): Option<Path> {
    match EntrySource(h, playlistPath, libraryPath, line)
    case Some(a) => Some(Normpath(a))
    case None => None
  }

  /** A relative line naming a file both next to the playlist and in the
      library resolves next to the playlist. */
  lemma PlaylistDirFirst(h: Host, playlistPath: Path, libraryPath: Path, line: string)
    requires var l := Strip(line, Whitespace); !SkippedLine(l) && !IsAbs(l) && Exists(h, Join(Dirname(playlistPath), l))
    ensures EntrySource(h, playlistPath, libraryPath, line) == Some(Join(Dirname(playlistPath), Strip(line, Whitespace)))
  {
  }

  /** The values `f` gives for `xs`, in order, leaving out the `None`s. */
  function Collect<A, B>(f: A -> Option<B>, xs: seq<A>): (r: seq<B>)
    ensures |r| <= |xs|
    decreases |xs|
  {
    if xs == [] then []
    else
      var before := Collect(f, xs[..|xs| - 1]);
      match f(xs[|xs| - 1])
      case Some(e) => before + [e]
      case None => before
  }

  /** Every collected value is given by some element, and nothing is
      collected when every element gives `None`. */
  lemma {:induction false} CollectSpec<A, B>(f: A -> Option<B>, xs: seq<A>)
    ensures forall e :: e in Collect(f, xs) ==> exists i :: 0 <= i < |xs| && f(xs[i]) == Some(e)
    ensures (forall i :: 0 <= i < |xs| ==> f(xs[i]).None?) ==> Collect(f, xs) == []
    decreases |xs|
  {
    if xs != [] {
      var init := xs[..|xs| - 1];
      CollectSpec(f, init);
      assert forall i :: 0 <= i < |init| ==> init[i] == xs[i];
    }
  }

  /** One more element of a collecting loop, given what that element yields. */
  lemma CollectSnoc<A, B>(f: A -> Option<B>, xs: seq<A>, i: nat, before: seq<B>, v: Option<B>)
    requires i < |xs| && before == Collect(f, xs[..i]) && v == f(xs[i])
    ensures v.Some? ==> Collect(f, xs[..i + 1]) == before + [v.value]
    ensures v.None? ==> Collect(f, xs[..i + 1]) == before
  {
    assert xs[..i + 1][..i] == xs[..i];
  }

  /** When every element gives a value, all of them are collected, in order. */
  lemma {:induction false} CollectAll<A, B>(f: A -> Option<B>, xs: seq<A>)
    requires forall i :: 0 <= i < |xs| ==> f(xs[i]).Some?
    ensures |Collect(f, xs)| == |xs|
    ensures forall i :: 0 <= i < |xs| ==> Collect(f, xs)[i] == f(xs[i]).value
    decreases |xs|
  {
    if xs != [] {
      var init := xs[..|xs| - 1];
      assert forall i :: 0 <= i < |init| ==> init[i] == xs[i];
      CollectAll(f, init);
    }
  }

  /** `ResolveEntry` of the playlist at `playlistPath`, as a function of the line. */
  function LineEntry(h: Host, playlistPath: Path, libraryPath: Path): string -> Option<Path> {
    line => ResolveEntry(h, playlistPath, libraryPath, line)
  }

  /** The entries of a playlist whose lines are `lines`, in file order. */
  function EntriesOf(h: Host, playlistPath: Path, libraryPath: Path, lines: seq<string>): (r: seq<Path>)
    ensures |r| <= |lines|
  {
    Collect(LineEntry(h, playlistPath, libraryPath), lines)
  }

  /** Every entry is the normalised path of a file that exists, and a
      playlist made only of headers, blanks and URLs has no entries. */
  lemma EntriesExist(h: Host, playlistPath: Path, libraryPath: Path, lines: seq<string>)
    ensures forall e :: e in EntriesOf(h, playlistPath, libraryPath, lines) ==>
              exists a: Path :: Exists(h, a) && e == Normpath(a)
    ensures (forall i :: 0 <= i < |lines| ==> SkippedLine(Strip(lines[i], Whitespace))) ==> EntriesOf(h, playlistPath, libraryPath, lines) == []
  {
    var f := LineEntry(h, playlistPath, libraryPath);
    CollectSpec(f, lines);
    forall e | e in EntriesOf(h, playlistPath, libraryPath, lines)
      ensures exists a: Path :: Exists(h, a) && e == Normpath(a)
    {
      var i :| 0 <= i < |lines| && f(lines[i]) == Some(e);
      ResolveEntrySpec(h, playlistPath, libraryPath, lines[i]);
    }
    if forall i :: 0 <= i < |lines| ==> SkippedLine(Strip(lines[i], Whitespace)) {
      forall i | 0 <= i < |lines|
        ensures f(lines[i]).None?
      {
        ResolveEntrySpec(h, playlistPath, libraryPath, lines[i]);
      }
    }
  }

  /** One line resolves to the normalised path of an existing file, or to
      nothing; a skipped line always to nothing. */
  lemma ResolveEntrySpec(h: Host, playlistPath: Path, libraryPath: Path, line: string)
    ensures ResolveEntry(h, playlistPath, libraryPath, line).Some? ==>
      exists a: Path :: Exists(h, a) && ResolveEntry(h, playlistPath, libraryPath, line).value == Normpath(a)
    ensures SkippedLine(Strip(line, Whitespace)) ==> ResolveEntry(h, playlistPath, libraryPath, line).None?
  {
    var src := EntrySource(h, playlistPath, libraryPath, line);
    if src.Some? {
      assert Exists(h, src.value);
    }
  }

  /** The entries of the playlist file at `playlistPath`; none when it cannot be read. */
  function PlaylistFileEntries(h: Host, playlistPath: Path, libraryPath: Path): seq<Path> {
    match ReadLines(h, playlistPath)
    case None => []
    case Some(lines) => EntriesOf(h, playlistPath, libraryPath, lines)
  }

  /** Whether a directory entry is a playlist file. */
  predicate IsPlaylistFile(name: string) {
    EndsWith(name, ".m3u") || EndsWith(name, ".m3u8")
  }

  /** A playlist with at least one entry is stored under its file name
      without extension. */
  function StorePlaylist(pl: Entries<string, seq<Path>>, fileName: string, entries: seq<Path>): Entries<string, seq<Path>> {
    if entries == [] then pl else Put(pl, SplitExt(fileName).0, entries)
  }

  /** The playlist table after `load_playlists` has seen `names`: each playlist
      file with at least one entry is stored under its name without extension. */
  function PlaylistsAfter(pl: Entries<string, seq<Path>>, h: Host, dir: Path, libraryPath: Path, names: seq<string>): Entries<string, seq<Path>>
    decreases |names|
  {
    if names == [] then pl
    else
      var before := PlaylistsAfter(pl, h, dir, libraryPath, names[..|names| - 1]);
      var name := names[|names| - 1];
      if !IsPlaylistFile(name) then before
      else StorePlaylist(before, name, PlaylistFileEntries(h, Join(dir, name), libraryPath))
  }

  /** One more turn of the `load_playlists` loop: a name that is not a
      playlist file changes nothing, and a playlist file is parsed and stored. */
  lemma PlaylistsAfterSnoc(pl: Entries<string, seq<Path>>, h: Host, dir: Path, libraryPath: Path, names: seq<string>, i: nat,
                           before: Entries<string, seq<Path>>)
    requires i < |names| && before == PlaylistsAfter(pl, h, dir, libraryPath, names[..i])
    ensures !IsPlaylistFile(names[i]) ==> PlaylistsAfter(pl, h, dir, libraryPath, names[..i + 1]) == before
    ensures IsPlaylistFile(names[i]) ==> PlaylistsAfter(pl, h, dir, libraryPath, names[..i + 1])
                                         == StorePlaylist(before, names[i], PlaylistFileEntries(h, Join(dir, names[i]), libraryPath))
  {
    assert names[..i + 1][..i] == names[..i];
  }

  /** Loading keeps playlist names distinct and stores no empty playlist. */
  lemma {:induction false} PlaylistsAfterProperties(pl: Entries<string, seq<Path>>, h: Host, dir: Path, libraryPath: Path, names: seq<string>)
    requires UniqueKeys(pl) && forall i :: 0 <= i < |pl| ==> pl[i].1 != []
    ensures var r := PlaylistsAfter(pl, h, dir, libraryPath, names);
            UniqueKeys(r) && forall i :: 0 <= i < |r| ==> r[i].1 != []
    decreases |names|
  {
    if names != [] {
      var before := PlaylistsAfter(pl, h, dir, libraryPath, names[..|names| - 1]);
      PlaylistsAfterProperties(pl, h, dir, libraryPath, names[..|names| - 1]);
      var name := names[|names| - 1];
      if IsPlaylistFile(name) {
        var entries := PlaylistFileEntries(h, Join(dir, name), libraryPath);
        if entries != [] {
          PutNonEmpty(before, SplitExt(name).0, entries);
        }
      }
    }
  }

  /** Storing a non-empty playlist keeps the names distinct and every
      playlist non-empty. */
  lemma PutNonEmpty(pl: Entries<string, seq<Path>>, k: string, entries: seq<Path>)
    requires UniqueKeys(pl) && forall i :: 0 <= i < |pl| ==> pl[i].1 != []
    requires entries != []
    ensures var r := Put(pl, k, entries);
            UniqueKeys(r) && forall i :: 0 <= i < |r| ==> r[i].1 != []
  {
    PutProperties(pl, k, entries);
    var r := Put(pl, k, entries);
    var i := IndexOf(pl, k);
    forall j | 0 <= j < |r|
      ensures r[j].1 != []
    {
      if i < 0 {
        if j < |pl| { assert r[j] == pl[j]; }
      } else if j != i {
        assert r[j] == pl[j];
      }
    }
  }

  // ----- playlist lookup -----

  /** The first catalog track whose key has the basename `base`. */
  function FirstByBasename(c: Catalog, base: string): Option<Track> {
    if c == [] then None
    else if Basename(c[0].0) == base then Some(c[0].1)
    else FirstByBasename(c[1..], base)
  }

  /** The basename search finds a track exactly when some key has that
      basename, and then it is the track of the first such key. */
  lemma {:induction false} FirstByBasenameSpec(c: Catalog, base: string)
    ensures FirstByBasename(c, base).Some? <==> exists i :: 0 <= i < |c| && Basename(c[i].0) == base
    ensures FirstByBasename(c, base).Some? ==>
              exists i :: 0 <= i < |c| && Basename(c[i].0) == base && c[i].1 == FirstByBasename(c, base).value
                          && forall j :: 0 <= j < i ==> Basename(c[j].0) != base
  {
    if c != [] && Basename(c[0].0) != base {
      var tail := c[1..];
      FirstByBasenameSpec(tail, base);
      if i :| 0 <= i < |c| && Basename(c[i].0) == base {
        assert tail[i - 1] == c[i];
      }
      if FirstByBasename(tail, base).Some? {
        var i :| 0 <= i < |tail| && Basename(tail[i].0) == base && tail[i].1 == FirstByBasename(tail, base).value
                 && forall j :: 0 <= j < i ==> Basename(tail[j].0) != base;
        assert c[i + 1] == tail[i];
        forall j | 0 <= j < i + 1
          ensures Basename(c[j].0) != base
        {
          if j > 0 {
            assert c[j] == tail[j - 1];
          }
        }
      }
    }
  }

  /** The track a playlist entry stands for: the one under its normalised path,
      or else the first with the same basename. */
  function LookupEntry(c: Catalog, entry: Path): Option<Track> {
    match Get(c, Normpath(entry))
    case Some(t) => Some(t)
    case None => FirstByBasename(c, Basename(entry))
  }

  /** A looked-up track is one of the catalog's. */
  lemma LookupEntryFromCatalog(c: Catalog, entry: Path)
    ensures LookupEntry(c, entry).Some? ==> exists i :: 0 <= i < |c| && c[i].1 == LookupEntry(c, entry).value
  {
    FirstByBasenameSpec(c, Basename(entry));
  }

  /** `LookupEntry` in catalog `c`, as a function of the entry. */
  function EntryLookup(c: Catalog): Path -> Option<Track> {
    entry => LookupEntry(c, entry)
  }

  /** The tracks of a playlist with entries `entries`, in entry order. */
  function TracksOfEntries(c: Catalog, entries: seq<Path>): (r: seq<Track>)
    ensures |r| <= |entries|
  {
    Collect(EntryLookup(c), entries)
  }

  /** One more entry of the loop of `get_playlist_tracks`, given its track. */
  lemma TracksOfEntriesSnoc(c: Catalog, entries: seq<Path>, i: nat, before: seq<Track>, track: Option<Track>)
    requires i < |entries| && before == TracksOfEntries(c, entries[..i]) && track == LookupEntry(c, entries[i])
    ensures track.Some? ==> TracksOfEntries(c, entries[..i + 1]) == before + [track.value]
    ensures track.None? ==> TracksOfEntries(c, entries[..i + 1]) == before
  {
    CollectSnoc(EntryLookup(c), entries, i, before, track);
  }

  /** Every track of a playlist comes from the catalog. */
  lemma TracksOfEntriesFromCatalog(c: Catalog, entries: seq<Path>, t: Track)
    requires t in TracksOfEntries(c, entries)
    ensures exists j :: 0 <= j < |c| && c[j].1 == t
  {
    CollectSpec(EntryLookup(c), entries);
    var i :| 0 <= i < |entries| && EntryLookup(c)(entries[i]) == Some(t);
    LookupEntryFromCatalog(c, entries[i]);
  }

  /** Each entry with a track under its exact normalised path contributes that
      track, so the tracks of a playlist of exact entries are those entries'
      tracks, one for one. */
  lemma ExactEntries(c: Catalog, entries: seq<Path>)
    requires forall i :: 0 <= i < |entries| ==> Get(c, Normpath(entries[i])).Some?
    ensures |TracksOfEntries(c, entries)| == |entries|
    ensures forall i :: 0 <= i < |entries| ==> TracksOfEntries(c, entries)[i] == Get(c, Normpath(entries[i])).value
  {
    var f := EntryLookup(c);
    forall i | 0 <= i < |entries|
      ensures f(entries[i]) == Get(c, Normpath(entries[i]))
    {
    }
    CollectAll(f, entries);
  }

  // ----- filters -----

  /** A list-valued filter: absent, present with a value that is not a list
      (ignored), or a list of terms. */
  datatype ListFilter = Absent | NotAList | Terms(terms: seq<string>)

  /** The filters `_matches_criteria` understands; `ratingMin` and `days`
      are taken to be integers. */
  datatype Criteria = Criteria(
    genres: ListFilter, ratingMin: Option<int>, dateAddedAfter: Option<string>,
    days: Option<int>, artists: ListFilter, albums: ListFilter)

  const NoCriteria := Criteria(Absent, None, None, None, Absent, Absent)

  /** `any(t.lower() in field.lower() for t in terms)`. */
  predicate AnyTermIn(terms: seq<string>, field: string)
    decreases |terms|
  {
    |terms| > 0 && (Contains(Lower(field), Lower(terms[0])) || AnyTermIn(terms[1..], field))
  }

  lemma {:induction false} AnyTermInExists(terms: seq<string>, field: string)
    ensures AnyTermIn(terms, field) <==> exists i :: 0 <= i < |terms| && Contains(Lower(field), Lower(terms[i]))
    decreases |terms|
  {
    if |terms| > 0 {
      AnyTermInExists(terms[1..], field);
      assert forall i :: 1 <= i < |terms| ==> terms[1..][i - 1] == terms[i];
    }
  }

  /** Case is ignored beyond ASCII: a term in capitals with an umlaut
      matches the artist written in mixed case. */
  lemma UmlautTermMatches()
    ensures AnyTermIn(["MOTÖRHEAD"], "Motörhead")
  {
    assert Lower("MOTÖRHEAD") == Lower("Motörhead");
    assert OccursAt(Lower("Motörhead"), Lower("MOTÖRHEAD"), 0);
  }

  /** Accented Greek and Ukrainian capitals lower as well. */
  lemma GreekAccentTermMatches()
    ensures AnyTermIn(["όλα"], "Όλα")
    ensures AnyTermIn(["ґанок"], "Ґанок")
  {
    assert Lower("όλα") == Lower("Όλα");
    assert OccursAt(Lower("Όλα"), Lower("όλα"), 0);
    assert Lower("ґанок") == Lower("Ґанок");
    assert OccursAt(Lower("Ґанок"), Lower("ґанок"), 0);
  }

  lemma LowerIdempotent(s: string)
    ensures Lower(Lower(s)) == Lower(s)
  {
    forall i | 0 <= i < |s|
      ensures Lower(Lower(s))[i] == Lower(s)[i]
    {
      LowerCharFacts(s[i]);
    }
  }

  /** The term test ignores case on both sides. */
  lemma AnyTermInIgnoresCase(terms: seq<string>, field: string)
    ensures AnyTermIn(terms, Lower(field)) == AnyTermIn(terms, field)
  {
    LowerIdempotent(field);
  }

  predicate ListFilterPasses(f: ListFilter, field: string) {
    !f.Terms? || AnyTermIn(f.terms, field)
  }

  predicate RatingPasses(c: Criteria, t: Track) {
    c.ratingMin.None? || t.rating >= c.ratingMin.value
  }

  /** `date_added_after`: ignored when the date does not parse. */
  predicate DateAfterPasses(c: Criteria, t: Track, parseDate: string -> Option<int>) {
    c.dateAddedAfter.None? || parseDate(c.dateAddedAfter.value).None?
    || (t.dateAddedParsed.Some? && t.dateAddedParsed.value >= parseDate(c.dateAddedAfter.value).value)
  }

  const SecondsPerDay := 86400

  /** `days`: added no earlier than `days` days before `now`. */
  predicate DaysPasses(c: Criteria, t: Track, now: int) {
    c.days.None? || (t.dateAddedParsed.Some? && t.dateAddedParsed.value >= now - c.days.value * SecondsPerDay)
  }

  /** `_matches_criteria`: the filters in the order the source tries them,
      each returning false at once; the track passes when none does. */
  function MatchesCriteria(t: Track, c: Criteria, now: int, parseDate: string -> Option<int>): (r: bool)
    ensures r <==> ListFilterPasses(c.genres, t.genre) && RatingPasses(c, t) && DateAfterPasses(c, t, parseDate)
                   && DaysPasses(c, t, now) && ListFilterPasses(c.artists, t.artist) && ListFilterPasses(c.albums, t.album)
  {
    if c.genres.Terms? && !AnyTermIn(c.genres.terms, t.genre) then false
    else if c.ratingMin.Some? && t.rating < c.ratingMin.value then false
    else if c.dateAddedAfter.Some? && parseDate(c.dateAddedAfter.value).Some?
            && (t.dateAddedParsed.None? || t.dateAddedParsed.value < parseDate(c.dateAddedAfter.value).value) then false
    else if c.days.Some? && (t.dateAddedParsed.None? || t.dateAddedParsed.value < now - c.days.value * SecondsPerDay) then false
    else if c.artists.Terms? && !AnyTermIn(c.artists.terms, t.artist) then false
    else if c.albums.Terms? && !AnyTermIn(c.albums.terms, t.album) then false
    else true
  }

  /** No filters accept every track; an empty term list rejects every track;
      a value that is not a list filters nothing. */
  lemma MatchesCriteriaEdges(t: Track, c: Criteria, now: int, parseDate: string -> Option<int>)
    ensures MatchesCriteria(t, NoCriteria, now, parseDate)
    ensures !MatchesCriteria(t, c.(genres := Terms([])), now, parseDate)
    ensures !MatchesCriteria(t, c.(artists := Terms([])), now, parseDate)
    ensures !MatchesCriteria(t, c.(albums := Terms([])), now, parseDate)
    ensures MatchesCriteria(t, c.(genres := NotAList), now, parseDate) == MatchesCriteria(t, c.(genres := Absent), now, parseDate)
  {
  }

  /** The tracks of `ts` that match, in order. */
  function Select(ts: seq<Track>, c: Criteria, now: int, parseDate: string -> Option<int>): (r: seq<Track>)
    ensures |r| <= |ts|
    decreases |ts|
  {
    if ts == [] then []
    else
      var before := Select(ts[..|ts| - 1], c, now, parseDate);
      if MatchesCriteria(ts[|ts| - 1], c, now, parseDate) then before + [ts[|ts| - 1]] else before
  }

  /** A track is selected exactly when it is among `ts` and matches. */
  lemma {:induction false} SelectMembers(ts: seq<Track>, c: Criteria, now: int, parseDate: string -> Option<int>, t: Track)
    ensures t in Select(ts, c, now, parseDate) <==> t in ts && MatchesCriteria(t, c, now, parseDate)
    decreases |ts|
  {
    if ts != [] {
      SelectMembers(ts[..|ts| - 1], c, now, parseDate, t);
      assert ts == ts[..|ts| - 1] + [ts[|ts| - 1]];
    }
  }

  /** `get_smart_playlist_tracks` forwards only five of the filters. */
  function SmartCriteria(config: Criteria): (r: Criteria)
    ensures r.dateAddedAfter.None?
    ensures r.(dateAddedAfter := config.dateAddedAfter) == config
  {
    config.(dateAddedAfter := None)
  }

  // ----- the reader -----

  class MusicBeeReader {
    const libraryXmlPath: Path
    const playlistsPath: Path
    const libraryPath: Path
    var tracks: Catalog
    var playlists: Entries<string, seq<Path>>

    constructor(libraryXmlPath: Path, playlistsPath: Path, libraryPath: Path)
      ensures this.libraryXmlPath == libraryXmlPath && this.playlistsPath == playlistsPath && this.libraryPath == libraryPath
      ensures tracks == [] && playlists == []
    {
      this.libraryXmlPath := libraryXmlPath;
      this.playlistsPath := playlistsPath;
      this.libraryPath := libraryPath;
      tracks := [];
      playlists := [];
    }

    /** `load_library`: false when the file is missing, does not parse or has
        no `Items` element; otherwise every item is added in document order. */
    method LoadLibrary(h: Host, doc: LibraryDocument, parsers: Parsers) returns (ok: bool)
      modifies this
      ensures ok <==> Exists(h, libraryXmlPath) && doc.Items?
      ensures tracks == if ok then CatalogAfter(old(tracks), doc.items, libraryPath, parsers) else old(tracks)
      ensures playlists == old(playlists)
    {
      if !Exists(h, libraryXmlPath) {
        return false;
      }
      if !doc.Items? {
        return false;
      }
      var items := doc.items;
      var c := tracks;
      var i := 0;
      while i < |items|
        invariant 0 <= i <= |items|
        invariant c == CatalogAfter(old(tracks), items[..i], libraryPath, parsers)
        invariant unchanged(this)
      {
        CatalogAfterSnoc(old(tracks), items, libraryPath, parsers, i, c);
        var track := ParseTrackItem(items[i], libraryPath, parsers);
        if track.Some? && track.value.filePath != "" {
          c := Put(c, Normpath(track.value.filePath), track.value);
        }
        i := i + 1;
      }
      assert items[..|items|] == items;
      tracks := c;
      return true;
    }

    /** `_parse_playlist`: the entries of one playlist file. */
    method ParsePlaylist(h: Host, playlistPath: Path) returns (entries: seq<Path>)
      ensures entries == PlaylistFileEntries(h, playlistPath, libraryPath)
    {
      entries := [];
      var lines := ReadLines(h, playlistPath);
      if lines.None? {
        return;
      }
      var ls := lines.value;
      var i := 0;
      while i < |ls|
        invariant 0 <= i <= |ls|
        invariant entries == EntriesOf(h, playlistPath, libraryPath, ls[..i])
      {
        var e := ResolveEntry(h, playlistPath, libraryPath, ls[i]);
        CollectSnoc(LineEntry(h, playlistPath, libraryPath), ls, i, entries, e);
        if e.Some? {
          entries := entries + [e.value];
        }
        i := i + 1;
      }
      assert ls[..|ls|] == ls;
    }

    /** `load_playlists`: false when the folder is missing or cannot be listed;
        otherwise each playlist file with entries is stored under its name. */
    method LoadPlaylists(h: Host) returns (ok: bool)
      modifies this
      ensures ok <==> Exists(h, playlistsPath) && ListDir(h, playlistsPath).Some?
      ensures playlists == if ok then PlaylistsAfter(old(playlists), h, playlistsPath, libraryPath, ListDir(h, playlistsPath).value) else old(playlists)
      ensures tracks == old(tracks)
    {
      if !Exists(h, playlistsPath) {
        return false;
      }
      var listing := ListDir(h, playlistsPath);
      if listing.None? {
        return false;
      }
      var names := listing.value;
      var pl := playlists;
      var i := 0;
      while i < |names|
        invariant 0 <= i <= |names|
        invariant pl == PlaylistsAfter(old(playlists), h, playlistsPath, libraryPath, names[..i])
        invariant unchanged(this)
      {
        PlaylistsAfterSnoc(old(playlists), h, playlistsPath, libraryPath, names, i, pl);
        var name := names[i];
        if IsPlaylistFile(name) {
          var entries := ParsePlaylist(h, Join(playlistsPath, name));
          pl := StorePlaylist(pl, name, entries);
        }
        i := i + 1;
      }
      assert names[..|names|] == names;
      playlists := pl;
      return true;
    }

    /** `get_all_tracks`. */
    function AllTracks(): (r: seq<Track>)
      reads this
      ensures r == Values(tracks)
    {
      Values(tracks)
    }

    /** `get_track`: the track under the normalised path. */
    function GetTrack(path: Path): (r: Option<Track>)
      reads this
      ensures r.Some? <==> HasKey(tracks, Normpath(path))
      ensures WellKeyed(tracks) && r.Some? ==> Normpath(r.value.filePath) == Normpath(path)
    {
      Get(tracks, Normpath(path))
    }

    /** The fallback search of `get_playlist_tracks`: the first catalog
        entry, in catalog order, whose key has the basename `base`. */
    method FindByBasename(base: string) returns (r: Option<Track>)
      ensures r == FirstByBasename(tracks, base)
    {
      var j := 0;
      while j < |tracks|
        invariant 0 <= j <= |tracks|
        invariant FirstByBasename(tracks[j..], base) == FirstByBasename(tracks, base)
      {
        assert tracks[j..][1..] == tracks[j + 1..];
        if Basename(tracks[j].0) == base {
          return Some(tracks[j].1);
        }
        j := j + 1;
      }
      return None;
    }

    /** `get_playlist_tracks`: nothing for an unknown playlist; otherwise each
        entry's track, by exact key or else by the first basename match. */
    method GetPlaylistTracks(name: string) returns (result: seq<Track>)
      ensures result == match Get(playlists, name)
                        case None => []
                        case Some(entries) => TracksOfEntries(tracks, entries)
    {
      var found := Get(playlists, name);
      if found.None? {
        return [];
      }
      var entries := found.value;
      result := [];
      var i := 0;
      while i < |entries|
        invariant 0 <= i <= |entries|
        invariant result == TracksOfEntries(tracks, entries[..i])
      {
        var track := LookupPlaylistEntry(entries[i]);
        TracksOfEntriesSnoc(tracks, entries, i, result, track);
        if track.Some? {
          result := result + [track.value];
        }
        i := i + 1;
      }
      assert entries[..|entries|] == entries;
    }

    /** One entry of `get_playlist_tracks`: the track under the entry's
        normalised path, or else the first with the same basename. */
    method LookupPlaylistEntry(entry: Path) returns (track: Option<Track>)
      ensures track == LookupEntry(tracks, entry)
    {
      track := GetTrack(entry);
      if track.None? {
        track := FindByBasename(Basename(entry));
      }
    }

    /** `filter_tracks_by_criteria`: the matching tracks, in catalog order. */
    method FilterTracksByCriteria(c: Criteria, now: int, parseDate: string -> Option<int>) returns (result: seq<Track>)
      ensures result == Select(Values(tracks), c, now, parseDate)
    {
      var all := Values(tracks);
      result := [];
      var i := 0;
      while i < |all|
        invariant 0 <= i <= |all|
        invariant result == Select(all[..i], c, now, parseDate)
      {
        assert all[..i + 1][..i] == all[..i];
        if MatchesCriteria(all[i], c, now, parseDate) {
          result := result + [all[i]];
        }
        i := i + 1;
      }
      assert all[..|all|] == all;
    }

    /** `get_smart_playlist_tracks`: the filter with `date_added_after` dropped. */
    method GetSmartPlaylistTracks(config: Criteria, now: int, parseDate: string -> Option<int>) returns (result: seq<Track>)
      ensures result == Select(Values(tracks), SmartCriteria(config), now, parseDate)
    {
      result := FilterTracksByCriteria(SmartCriteria(config), now, parseDate);
    }
  }
}
