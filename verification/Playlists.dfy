/** HLS presentations as files: how a playlist refers to other files, and when a directory of
    files is a complete presentation (RFC 8216, sections 4.3.2.1, 4.3.3.4, 4.3.4.1, 4.3.4.2). */
module Playlists {

  import opened Common

  /** A path relative to the publish directory, split at its slashes. */
  type Name = seq<string>

  /** A URI as `urlsplit` sees it: whether it is a plain local path, and that path decoded and
      split at its slashes. */
  datatype Uri = Uri(local: bool, path: seq<string>)

  datatype Line =
    | Header
    | EndList
    | StreamInf(uris: seq<Uri>)
    // An EXT-X-MEDIA tag, and whether its TYPE is AUDIO or SUBTITLES.
    | Media(external: bool, uris: seq<Uri>)
    | ExtInf(uris: seq<Uri>)
    | Tag(uris: seq<Uri>)
    // A line that is no tag: the URI of a rendition or of a media segment.
    | Reference(uri: Uri)

  datatype Text = Unreadable | Lines(lines: seq<Line>)

  datatype Blob = Blob(text: Text, size: nat)

  type Files = map<Name, Blob>

  const MASTER: Name := ["master.m3u8"]

  // ---- Names ------------------------------------------------------------------------

  predicate IsPlaylist(name: Name) {
    name != [] &&
    var last := LowerAll(name[|name| - 1]);
    |last| >= 5 && last[|last| - 5..] == ".m3u8"
  }

  lemma LowerAppends(stem: string, ext: string)
    ensures LowerAll(stem + ext) == LowerAll(stem) + LowerAll(ext)
  {
  }

  /** A playlist is a file whose name ends in ".m3u8", in any mix of cases. */
  lemma PlaylistsByExtension(name: Name)
    ensures IsPlaylist(name) <==>
            exists directory: Name, stem, ext :: name == directory + [stem + ext] && LowerAll(ext) == ".m3u8"
  {
    if IsPlaylist(name) {
      var last := name[|name| - 1];
      var stem, ext := last[..|last| - 5], last[|last| - 5..];
      LowerAppends(stem, ext);
      assert last == stem + ext;
      assert name == name[..|name| - 1] + [stem + ext];
    }
    if directory: Name, stem, ext :| name == directory + [stem + ext] && LowerAll(ext) == ".m3u8" {
      LowerAppends(stem, ext);
      assert name[|name| - 1] == stem + ext;
    }
  }

  predicate CleanSegment(s: string) {
    s != "" && s != "." && s != ".."
  }

  predicate Clean(name: Name) {
    forall i :: 0 <= i < |name| ==> CleanSegment(name[i])
  }

  // ---- References ---------------------------------------------------------------------

  /** The loop of `posixpath.normpath` on a relative path, from a given stack of components. */
  function NormFrom(stack: Name, path: seq<string>): Name
    decreases |path|
  {
    if path == [] then stack
    else if path[0] == "" || path[0] == "." then NormFrom(stack, path[1..])
    else if path[0] != ".." || stack == [] || stack[|stack| - 1] == ".." then
      NormFrom(stack + [path[0]], path[1..])
    else NormFrom(stack[..|stack| - 1], path[1..])
  }

  function NormPath(path: seq<string>): Name {
    NormFrom([], path)
  }

  datatype Resolution = Resolved(name: Name) | Rejected

  function Directory(name: Name): Name
    requires name != []
  {
    name[..|name| - 1]
  }

  /** `_resolve_playlist_reference`. */
  function Resolve(referring: Name, uri: Uri, files: Files): Resolution
    requires referring != []
  {
    if !uri.local || uri.path == [] || uri.path == [""] || uri.path[0] == "" then Rejected
    else
      var resolved := NormPath(Directory(referring) + uri.path);
      if resolved == [] || resolved[0] == ".." then Rejected
      else if resolved !in files then Rejected
      else Resolved(resolved)
  }

  datatype Place = At(name: Name) | Outside

  /** What the reference means to a player: walk from the playlist's directory, one component
      at a time, never above the root of the presentation. */
  function Navigate(at: Name, path: seq<string>): Place
    decreases |path|
  {
    if path == [] then At(at)
    else if path[0] == "" || path[0] == "." then Navigate(at, path[1..])
    else if path[0] == ".." then
      if at == [] then Outside else Navigate(at[..|at| - 1], path[1..])
    else Navigate(at + [path[0]], path[1..])
  }

  lemma {:induction false} ClimbedOut(stack: Name, path: seq<string>)
    requires stack != [] && stack[0] == ".."
    ensures var r := NormFrom(stack, path); r != [] && r[0] == ".."
    decreases |path|
  {
    if path != [] {
      if path[0] == "" || path[0] == "." {
        ClimbedOut(stack, path[1..]);
      } else if path[0] != ".." || stack[|stack| - 1] == ".." {
        ClimbedOut(stack + [path[0]], path[1..]);
      } else {
        ClimbedOut(stack[..|stack| - 1], path[1..]);
      }
    }
  }

  /** Normalizing gives the place the path leads to, or a leading ".." if it leaves the root. */
  lemma {:induction false} NormFollowsNavigation(at: Name, path: seq<string>)
    requires Clean(at)
    ensures var r := NormFrom(at, path);
            match Navigate(at, path)
            case At(name) => r == name && Clean(name)
            case Outside => r != [] && r[0] == ".."
    decreases |path|
  {
    if path != [] {
      if path[0] == "" || path[0] == "." {
        NormFollowsNavigation(at, path[1..]);
      } else if path[0] != ".." {
        NormFollowsNavigation(at + [path[0]], path[1..]);
      } else if at == [] {
        assert at + [path[0]] == [".."];
        ClimbedOut([".."], path[1..]);
      } else {
        NormFollowsNavigation(at[..|at| - 1], path[1..]);
      }
    }
  }

  lemma {:induction false} NormSkipsCleanPrefix(stack: Name, base: Name, path: seq<string>)
    requires Clean(base)
    ensures NormFrom(stack, base + path) == NormFrom(stack + base, path)
    decreases |base|
  {
    if base == [] {
      assert base + path == path && stack + base == stack;
    } else {
      assert (base + path)[1..] == base[1..] + path;
      assert CleanSegment(base[0]);
      NormSkipsCleanPrefix(stack + [base[0]], base[1..], path);
      assert stack + [base[0]] + base[1..] == stack + base;
    }
  }

  /** A reference is accepted exactly when it is local and relative and leads, without
      leaving the publish directory, to a file that was collected; and then it is resolved
      to that file. */
  lemma ResolveMeansNavigate(referring: Name, uri: Uri, files: Files, name: Name)
    requires referring != [] && Clean(referring)
    ensures Resolve(referring, uri, files) == Resolved(name) <==>
            && uri.local && uri.path != [] && uri.path[0] != ""
            && Navigate(Directory(referring), uri.path) == At(name)
            && name != [] && name in files
  {
    var base := Directory(referring);
    NormSkipsCleanPrefix([], base, uri.path);
    assert [] + base == base;
    NormFollowsNavigation(base, uri.path);
    if Navigate(base, uri.path) == At(name) && name != [] {
      assert CleanSegment(name[0]);
    }
  }

  // ---- What a playlist lists ----------------------------------------------------------

  function LineUris(line: Line): seq<Uri> {
    match line
    case Header => []
    case EndList => []
    case StreamInf(uris) => uris
    case Media(_, uris) => uris
    case ExtInf(uris) => uris
    case Tag(uris) => uris
    case Reference(_) => []
  }

  function References(lines: seq<Line>): seq<Uri> {
    if lines == [] then []
    else
      var rest := References(lines[..|lines| - 1]);
      var last := lines[|lines| - 1];
      if last.Reference? then rest + [last.uri] else rest
  }

  function TagUris(lines: seq<Line>): seq<Uri> {
    if lines == [] then [] else TagUris(lines[..|lines| - 1]) + LineUris(lines[|lines| - 1])
  }

  function MediaUris(lines: seq<Line>): seq<Uri> {
    if lines == [] then []
    else
      var rest := MediaUris(lines[..|lines| - 1]);
      var last := lines[|lines| - 1];
      if last.Media? then rest + last.uris else rest
  }

  function ExtInfCount(lines: seq<Line>): nat {
    if lines == [] then 0
    else ExtInfCount(lines[..|lines| - 1]) + (if lines[|lines| - 1].ExtInf? then 1 else 0)
  }

  predicate Readable(blob: Blob) {
    blob.text.Lines? && blob.text.lines != [] && blob.text.lines[0] == Header
  }

  /** Everything a media playlist makes a player fetch. */
  function MediaAssets(lines: seq<Line>): seq<Uri> {
    References(lines) + TagUris(lines)
  }

  /** Every playlist a master playlist makes a player fetch. */
  function MasterPlaylists(lines: seq<Line>): seq<Uri> {
    References(lines) + MediaUris(lines)
  }

  /** A line that names this URI in a tag. */
  predicate Tags(line: Line, uri: Uri) {
    (line.StreamInf? || line.Media? || line.ExtInf? || line.Tag?) && uri in line.uris
  }

  lemma {:induction false} ReferencesExactly(lines: seq<Line>, uri: Uri)
    ensures uri in References(lines) <==> Reference(uri) in lines
    decreases |lines|
  {
    if lines != [] {
      var rest, last := lines[..|lines| - 1], lines[|lines| - 1];
      assert lines == rest + [last];
      ReferencesExactly(rest, uri);
    }
  }

  lemma {:induction false} TagUrisExactly(lines: seq<Line>, uri: Uri)
    ensures uri in TagUris(lines) <==> exists line :: line in lines && Tags(line, uri)
    ensures uri in MediaUris(lines) <==> exists line :: line in lines && line.Media? && Tags(line, uri)
    decreases |lines|
  {
    if lines != [] {
      var rest, last := lines[..|lines| - 1], lines[|lines| - 1];
      assert lines == rest + [last];
      TagUrisExactly(rest, uri);
      assert uri in LineUris(last) <==> Tags(last, uri);
      assert last in lines && forall line :: line in rest ==> line in lines;
    }
  }

  /** What a media playlist makes a player fetch: every URI line and every URI in a tag. */
  lemma MediaAssetsExactly(lines: seq<Line>, uri: Uri)
    ensures uri in MediaAssets(lines) <==> Reference(uri) in lines || exists line :: line in lines && Tags(line, uri)
  {
    ReferencesExactly(lines, uri);
    TagUrisExactly(lines, uri);
  }

  /** What a master makes it fetch: every URI line and every URI of a media entry. */
  lemma MasterPlaylistsExactly(lines: seq<Line>, uri: Uri)
    ensures uri in MasterPlaylists(lines) <==>
            Reference(uri) in lines || exists line :: line in lines && line.Media? && Tags(line, uri)
  {
    ReferencesExactly(lines, uri);
    TagUrisExactly(lines, uri);
  }

  // ---- Complete presentations ---------------------------------------------------------

  predicate AssetOk(playlist: Name, uri: Uri, files: Files)
    requires playlist != []
  {
    var r := Resolve(playlist, uri, files);
    r.Resolved? && !IsPlaylist(r.name) && files[r.name].size > 0
  }

  predicate MediaPlaylistOk(playlist: Name, files: Files)
    requires playlist != [] && playlist in files
  {
    var blob := files[playlist];
    Readable(blob) &&
    var lines := blob.text.lines;
    && (forall i :: 0 <= i < |lines| ==> !lines[i].StreamInf?)
    && EndList in lines
    && References(lines) != []
    && ExtInfCount(lines) == |References(lines)|
    && forall i :: 0 <= i < |MediaAssets(lines)| ==> AssetOk(playlist, MediaAssets(lines)[i], files)
  }

  /** STREAM-INF tags and URI lines come in adjacent pairs, and in no other way. */
  predicate Paired(lines: seq<Line>) {
    && (forall i :: 0 <= i < |lines| && lines[i].StreamInf? ==> i + 1 < |lines| && lines[i + 1].Reference?)
    && (forall i :: 0 <= i < |lines| && lines[i].Reference? ==> 0 < i && lines[i - 1].StreamInf?)
  }

  predicate PlaylistOk(uri: Uri, files: Files) {
    var r := Resolve(MASTER, uri, files);
    r.Resolved? && IsPlaylist(r.name) && MediaPlaylistOk(r.name, files)
  }

  predicate Referenced(name: Name, uris: seq<Uri>, files: Files) {
    exists i :: 0 <= i < |uris| && Resolve(MASTER, uris[i], files) == Resolved(name)
  }

  predicate PresentationOk(files: Files)
    requires MASTER in files
  {
    Readable(files[MASTER]) &&
    var lines := files[MASTER].text.lines;
    && Paired(lines)
    && References(lines) != []
    && (forall i :: 0 <= i < |lines| && lines[i].Media? && lines[i].external ==> |lines[i].uris| == 1)
    && (forall i :: 0 <= i < |MasterPlaylists(lines)| ==> PlaylistOk(MasterPlaylists(lines)[i], files))
    && (forall name :: name in files && name != MASTER && IsPlaylist(name) ==>
          Referenced(name, MasterPlaylists(lines), files))
  }

  // ---- The same without the validator's own lists ---------------------------------------

  datatype Position = Position(at: nat)

  /** Where the URI lines stand, and where the segment tags. */
  ghost function ReferencesAt(lines: seq<Line>): set<Position> {
    set i: nat | i < |lines| && lines[i].Reference? :: Position(i)
  }

  ghost function SegmentTagsAt(lines: seq<Line>): set<Position> {
    set i: nat | i < |lines| && lines[i].ExtInf? :: Position(i)
  }

  /** From this playlist, a player that follows the URI arrives at this file. */
  predicate Reaches(playlist: Name, uri: Uri, to: Name)
    requires playlist != []
  {
    uri.local && uri.path != [] && uri.path[0] != "" && Navigate(Directory(playlist), uri.path) == At(to)
  }

  predicate ReachesSegment(playlist: Name, uri: Uri, files: Files)
    requires playlist != []
  {
    exists to :: to in files && to != [] && Reaches(playlist, uri, to) && !IsPlaylist(to) && files[to].size > 0
  }

  predicate ReachesMediaPlaylist(uri: Uri, files: Files) {
    exists to :: to in files && to != [] && Reaches(MASTER, uri, to) && IsPlaylist(to) && MediaPlaylistOk(to, files)
  }

  /** A URI a media playlist makes a player fetch. */
  predicate Fetches(lines: seq<Line>, uri: Uri) {
    Reference(uri) in lines || exists line :: line in lines && Tags(line, uri)
  }

  /** A playlist URI of a master: a rendition or a media entry. */
  predicate Offers(lines: seq<Line>, uri: Uri) {
    Reference(uri) in lines || exists line :: line in lines && line.Media? && Tags(line, uri)
  }

  /** One more line adds its own position, or none. */
  lemma OneMoreReference(rest: seq<Line>, last: Line)
    ensures |ReferencesAt(rest + [last])| == |ReferencesAt(rest)| + (if last.Reference? then 1 else 0)
  {
    var lines := rest + [last];
    forall q
      ensures q in ReferencesAt(lines) <==> q in ReferencesAt(rest) || (last.Reference? && q == Position(|rest|))
    {
      if q.at < |rest| {
        assert lines[q.at] == rest[q.at];
      }
    }
    assert ReferencesAt(lines) == ReferencesAt(rest) + if last.Reference? then {Position(|rest|)} else {};
  }

  lemma OneMoreSegmentTag(rest: seq<Line>, last: Line)
    ensures |SegmentTagsAt(rest + [last])| == |SegmentTagsAt(rest)| + (if last.ExtInf? then 1 else 0)
  {
    var lines := rest + [last];
    forall q
      ensures q in SegmentTagsAt(lines) <==> q in SegmentTagsAt(rest) || (last.ExtInf? && q == Position(|rest|))
    {
      if q.at < |rest| {
        assert lines[q.at] == rest[q.at];
      }
    }
    assert SegmentTagsAt(lines) == SegmentTagsAt(rest) + if last.ExtInf? then {Position(|rest|)} else {};
  }

  lemma {:induction false} CountsAreOccurrences(lines: seq<Line>)
    ensures |References(lines)| == |ReferencesAt(lines)|
    ensures ExtInfCount(lines) == |SegmentTagsAt(lines)|
    decreases |lines|
  {
    if lines == [] {
      assert ReferencesAt(lines) == {} && SegmentTagsAt(lines) == {};
    } else {
      var rest, last := lines[..|lines| - 1], lines[|lines| - 1];
      CountsAreOccurrences(rest);
      OneMoreReference(rest, last);
      OneMoreSegmentTag(rest, last);
      assert rest + [last] == lines;
    }
  }

  lemma AssetOkExactly(playlist: Name, uri: Uri, files: Files)
    requires playlist != [] && Clean(playlist)
    ensures AssetOk(playlist, uri, files) <==> ReachesSegment(playlist, uri, files)
  {
    if AssetOk(playlist, uri, files) {
      var to := Resolve(playlist, uri, files).name;
      ResolveMeansNavigate(playlist, uri, files, to);
      assert Reaches(playlist, uri, to);
    }
    if to :| to in files && to != [] && Reaches(playlist, uri, to) && !IsPlaylist(to) && files[to].size > 0 {
      ResolveMeansNavigate(playlist, uri, files, to);
    }
  }

  /** A media playlist is accepted exactly if it begins with its header, ends, is no master,
      has as many segment tags as URI lines, at least one, and makes a player fetch nothing
      but files of the directory that are not empty and no playlists. */
  lemma MediaPlaylistExactly(playlist: Name, files: Files)
    requires playlist != [] && playlist in files && Clean(playlist)
    ensures MediaPlaylistOk(playlist, files) <==>
            match files[playlist].text
            case Unreadable => false
            case Lines(lines) =>
              && lines != [] && lines[0] == Header && EndList in lines
              && (forall line :: line in lines ==> !line.StreamInf?)
              && 0 < |ReferencesAt(lines)| == |SegmentTagsAt(lines)|
              && forall uri :: Fetches(lines, uri) ==> ReachesSegment(playlist, uri, files)
  {
    if Readable(files[playlist]) {
      var lines := files[playlist].text.lines;
      var assets := MediaAssets(lines);
      CountsAreOccurrences(lines);
      forall uri
        ensures Fetches(lines, uri) <==> uri in assets
        ensures AssetOk(playlist, uri, files) <==> ReachesSegment(playlist, uri, files)
      {
        MediaAssetsExactly(lines, uri);
        AssetOkExactly(playlist, uri, files);
      }
      assert (forall i :: 0 <= i < |assets| ==> AssetOk(playlist, assets[i], files)) <==>
             forall uri :: uri in assets ==> AssetOk(playlist, uri, files);
    }
  }

  lemma PlaylistOkExactly(uri: Uri, files: Files)
    ensures PlaylistOk(uri, files) <==> ReachesMediaPlaylist(uri, files)
  {
    if PlaylistOk(uri, files) {
      var to := Resolve(MASTER, uri, files).name;
      ResolveMeansNavigate(MASTER, uri, files, to);
      assert Reaches(MASTER, uri, to);
    }
    if to :| to in files && to != [] && Reaches(MASTER, uri, to) && IsPlaylist(to) && MediaPlaylistOk(to, files) {
      ResolveMeansNavigate(MASTER, uri, files, to);
    }
  }

  lemma ReferencedExactly(name: Name, lines: seq<Line>, files: Files)
    requires name in files && name != []
    ensures Referenced(name, MasterPlaylists(lines), files) <==>
            exists uri :: Offers(lines, uri) && Reaches(MASTER, uri, name)
  {
    var uris := MasterPlaylists(lines);
    if i :| 0 <= i < |uris| && Resolve(MASTER, uris[i], files) == Resolved(name) {
      MasterPlaylistsExactly(lines, uris[i]);
      ResolveMeansNavigate(MASTER, uris[i], files, name);
      assert Offers(lines, uris[i]) && Reaches(MASTER, uris[i], name);
    }
    if uri :| Offers(lines, uri) && Reaches(MASTER, uri, name) {
      MasterPlaylistsExactly(lines, uri);
      ResolveMeansNavigate(MASTER, uri, files, name);
    }
  }

  /** Every playlist a master lists is acceptable exactly if everything it offers is. */
  lemma OffersExactly(lines: seq<Line>, files: Files)
    ensures (forall i :: 0 <= i < |MasterPlaylists(lines)| ==> PlaylistOk(MasterPlaylists(lines)[i], files)) <==>
            forall uri :: Offers(lines, uri) ==> ReachesMediaPlaylist(uri, files)
  {
    var uris := MasterPlaylists(lines);
    forall uri
      ensures Offers(lines, uri) <==> uri in uris
      ensures PlaylistOk(uri, files) <==> ReachesMediaPlaylist(uri, files)
    {
      MasterPlaylistsExactly(lines, uri);
      PlaylistOkExactly(uri, files);
    }
    assert (forall i :: 0 <= i < |uris| ==> PlaylistOk(uris[i], files)) <==>
           forall uri :: uri in uris ==> PlaylistOk(uri, files);
  }

  ghost predicate LeftOut(name: Name, lines: seq<Line>) {
    forall uri :: Offers(lines, uri) ==> !Reaches(MASTER, uri, name)
  }

  lemma LeftOutExactly(lines: seq<Line>, files: Files)
    requires [] !in files
    ensures (forall name :: name in files && name != MASTER && IsPlaylist(name) ==>
               Referenced(name, MasterPlaylists(lines), files)) <==>
            forall name :: name in files && name != MASTER && IsPlaylist(name) ==> !LeftOut(name, lines)
  {
    forall name | name in files
      ensures Referenced(name, MasterPlaylists(lines), files) <==> !LeftOut(name, lines)
    {
      ReferencedExactly(name, lines, files);
    }
  }

  /** With stream tags and URI lines in pairs there is one of either kind or of none. */
  lemma PairsAreReferences(lines: seq<Line>)
    requires Paired(lines)
    ensures References(lines) != [] <==> exists line :: line in lines && line.StreamInf?
  {
    if References(lines) != [] {
      ReferencesExactly(lines, References(lines)[0]);
      var i :| 0 <= i < |lines| && lines[i] == Reference(References(lines)[0]);
      assert lines[i - 1].StreamInf?;
    }
    if line :| line in lines && line.StreamInf? {
      var i :| 0 <= i < |lines| && lines[i] == line;
      ReferencesExactly(lines, lines[i + 1].uri);
    }
  }

  /** A directory is accepted exactly if its master begins with the header, pairs its stream
      tags with URI lines and has one of these pairs at least, gives every audio or subtitles
      entry one URI, offers nothing but acceptable media playlists, and leaves no playlist of
      the directory out. */
  lemma PresentationExactly(files: Files)
    requires MASTER in files && [] !in files
    ensures PresentationOk(files) <==>
            match files[MASTER].text
            case Unreadable => false
            case Lines(lines) =>
              && lines != [] && lines[0] == Header && Paired(lines)
              && (exists line :: line in lines && line.StreamInf?)
              && (forall line :: line in lines && line.Media? && line.external ==> |line.uris| == 1)
              && (forall uri :: Offers(lines, uri) ==> ReachesMediaPlaylist(uri, files))
              && forall name :: name in files && name != MASTER && IsPlaylist(name) ==> !LeftOut(name, lines)
  {
    if Readable(files[MASTER]) {
      var lines := files[MASTER].text.lines;
      OffersExactly(lines, files);
      LeftOutExactly(lines, files);
      if Paired(lines) {
        PairsAreReferences(lines);
      }
    }
  }

  // ---- The validators -----------------------------------------------------------------

  lemma PrefixStep(lines: seq<Line>, i: nat)
    requires i < |lines|
    ensures lines[..i + 1][..i] == lines[..i] && lines[..i + 1][i] == lines[i]
  {
  }

  /** `_validate_media_playlist`: false where the source raises. */
  method ValidateMediaPlaylist(playlist: Name, files: Files) returns (ok: bool)
    requires playlist != [] && playlist in files
    ensures ok <==> MediaPlaylistOk(playlist, files)
  {
    var blob := files[playlist];
    if !Readable(blob) {
      return false;
    }
    var lines := blob.text.lines;
    var media, tagged, extinf, ended := [], [], 0, false;
    for i := 0 to |lines|
      invariant forall j :: 0 <= j < i ==> !lines[j].StreamInf?
      invariant ended <==> EndList in lines[..i]
      invariant media == References(lines[..i])
      invariant tagged == TagUris(lines[..i])
      invariant extinf == ExtInfCount(lines[..i])
    {
      PrefixStep(lines, i);
      if lines[i].StreamInf? {
        return false;
      }
      if lines[i].Reference? {
        media := media + [lines[i].uri];
      } else {
        tagged := tagged + LineUris(lines[i]);
      }
      if lines[i].ExtInf? {
        extinf := extinf + 1;
      }
      ended := ended || lines[i].EndList?;
    }
    assert lines[..|lines|] == lines;
    if !ended || media == [] || extinf != |media| {
      return false;
    }
    var assets := media + tagged;
    assert assets == MediaAssets(lines);
    for i := 0 to |assets|
      invariant forall j :: 0 <= j < i ==> AssetOk(playlist, assets[j], files)
    {
      var r := Resolve(playlist, assets[i], files);
      if r.Rejected? || IsPlaylist(r.name) || files[r.name].size <= 0 {
        assert !AssetOk(playlist, MediaAssets(lines)[i], files);
        return false;
      }
    }
    ok := true;
  }

  /** The URI lines that directly follow a STREAM-INF tag. */
  function Renditions(lines: seq<Line>, i: nat): seq<Uri>
    requires i <= |lines|
    decreases |lines| - i
  {
    if i == |lines| then []
    else if lines[i].StreamInf? && i + 1 < |lines| && lines[i + 1].Reference? then
      [lines[i + 1].uri] + Renditions(lines, i + 1)
    else Renditions(lines, i + 1)
  }

  function RenditionsTo(lines: seq<Line>, i: nat): seq<Uri>
    requires i <= |lines|
  {
    if i == 0 then []
    else if lines[i - 1].StreamInf? && i < |lines| && lines[i].Reference? then
      RenditionsTo(lines, i - 1) + [lines[i].uri]
    else RenditionsTo(lines, i - 1)
  }

  lemma {:induction false} RenditionsSplit(lines: seq<Line>, i: nat)
    requires i <= |lines|
    ensures RenditionsTo(lines, i) + Renditions(lines, i) == Renditions(lines, 0)
    decreases i
  {
    if i > 0 {
      RenditionsSplit(lines, i - 1);
    }
  }

  function ReferencesFrom(lines: seq<Line>, i: nat): seq<Uri>
    requires i <= |lines|
    decreases |lines| - i
  {
    if i == |lines| then []
    else if lines[i].Reference? then [lines[i].uri] + ReferencesFrom(lines, i + 1)
    else ReferencesFrom(lines, i + 1)
  }

  lemma {:induction false} ReferencesSplit(lines: seq<Line>, i: nat)
    requires i <= |lines|
    ensures References(lines[..i]) + ReferencesFrom(lines, i) == References(lines)
    decreases |lines| - i
  {
    if i == |lines| {
      assert lines[..i] == lines;
    } else {
      PrefixStep(lines, i);
      ReferencesSplit(lines, i + 1);
    }
  }

  /** With every STREAM-INF tag followed by a URI line, comparing the two lists compares
      adjacency: they agree exactly if no URI line stands alone. */
  lemma {:induction false} PairingByComparison(lines: seq<Line>, i: nat)
    requires i <= |lines|
    requires forall j :: 0 <= j < |lines| && lines[j].StreamInf? ==> j + 1 < |lines| && lines[j + 1].Reference?
    requires i > 0 ==> !lines[i - 1].StreamInf?
    ensures |Renditions(lines, i)| <= |ReferencesFrom(lines, i)|
    ensures ReferencesFrom(lines, i) == Renditions(lines, i) <==>
            forall j :: i <= j < |lines| && lines[j].Reference? ==> 0 < j && lines[j - 1].StreamInf?
    decreases |lines| - i
  {
    if i < |lines| {
      if lines[i].StreamInf? {
        assert lines[i + 1].Reference?;
        PairingByComparison(lines, i + 2);
        assert Renditions(lines, i) == [lines[i + 1].uri] + Renditions(lines, i + 2);
        assert ReferencesFrom(lines, i) == [lines[i + 1].uri] + ReferencesFrom(lines, i + 2);
        assert ReferencesFrom(lines, i) == Renditions(lines, i) <==>
               ReferencesFrom(lines, i)[1..] == Renditions(lines, i)[1..];
      } else {
        PairingByComparison(lines, i + 1);
      }
    }
  }

  /** What the final comparison of the collected lists decides. */
  lemma ComparisonDecidesPairing(lines: seq<Line>)
    requires forall j :: 0 <= j < |lines| && lines[j].StreamInf? ==> j + 1 < |lines| && lines[j + 1].Reference?
    ensures var renditions := RenditionsTo(lines, |lines|);
            && (renditions == References(lines) <==> Paired(lines))
  {
    ReferencesSplit(lines, 0);
    assert lines[..0] == [];
    RenditionsSplit(lines, |lines|);
    PairingByComparison(lines, 0);
  }

  predicate MasterShape(lines: seq<Line>) {
    && Paired(lines)
    && References(lines) != []
    && forall i :: 0 <= i < |lines| && lines[i].Media? && lines[i].external ==> |lines[i].uris| == 1
  }

  /** One pass over the master playlist: the rendition and auxiliary URIs it lists. */
  method ScanMaster(lines: seq<Line>) returns (ok: bool, uris: seq<Uri>)
    ensures ok <==> MasterShape(lines)
    ensures ok ==> uris == MasterPlaylists(lines)
  {
    var renditions, auxiliary, media := [], [], [];
    uris := [];
    for i := 0 to |lines|
      invariant forall j :: 0 <= j < i && lines[j].StreamInf? ==> j + 1 < |lines| && lines[j + 1].Reference?
      invariant forall j :: 0 <= j < i && lines[j].Media? && lines[j].external ==> |lines[j].uris| == 1
      invariant renditions == RenditionsTo(lines, i)
      invariant auxiliary == MediaUris(lines[..i])
      invariant media == References(lines[..i])
    {
      PrefixStep(lines, i);
      if lines[i].StreamInf? {
        if i + 1 >= |lines| || !lines[i + 1].Reference? {
          return false, [];
        }
        renditions := renditions + [lines[i + 1].uri];
      } else if lines[i].Media? {
        if lines[i].external && |lines[i].uris| != 1 {
          return false, [];
        }
        auxiliary := auxiliary + lines[i].uris;
      } else if lines[i].Reference? {
        media := media + [lines[i].uri];
      }
    }
    assert lines[..|lines|] == lines;
    ComparisonDecidesPairing(lines);
    ok := renditions != [] && media == renditions;
    uris := renditions + auxiliary;
  }

  /** Resolve the listed playlists, then validate each of them once. */
  method CheckPlaylists(uris: seq<Uri>, files: Files) returns (ok: bool, playlists: set<Name>)
    ensures ok <==> forall i :: 0 <= i < |uris| ==> PlaylistOk(uris[i], files)
    ensures ok ==> forall n :: n in playlists <==> Referenced(n, uris, files)
  {
    playlists := {};
    for i := 0 to |uris|
      invariant forall j :: 0 <= j < i ==>
                  var r := Resolve(MASTER, uris[j], files); r.Resolved? && IsPlaylist(r.name) && r.name in playlists
      invariant forall n :: n in playlists ==> exists j :: 0 <= j < i && Resolve(MASTER, uris[j], files) == Resolved(n)
    {
      var r := Resolve(MASTER, uris[i], files);
      if r.Rejected? || !IsPlaylist(r.name) {
        assert !PlaylistOk(uris[i], files);
        return false, {};
      }
      playlists := playlists + {r.name};
    }
    var todo := playlists;
    while todo != {}
      invariant todo <= playlists
      invariant forall n :: n in playlists - todo ==> n in files && n != [] && MediaPlaylistOk(n, files)
      decreases todo
    {
      var n :| n in todo;
      ghost var j :| 0 <= j < |uris| && Resolve(MASTER, uris[j], files) == Resolved(n);
      ok := ValidateMediaPlaylist(n, files);
      if !ok {
        assert !PlaylistOk(uris[j], files);
        return;
      }
      todo := todo - {n};
    }
    assert playlists - todo == playlists;
    ok := true;
  }

  /** `_validate_hls_presentation`: false where the source raises. */
  method ValidatePresentation(files: Files) returns (ok: bool)
    requires MASTER in files
    ensures ok <==> PresentationOk(files)
  {
    if !Readable(files[MASTER]) {
      return false;
    }
    var uris, playlists;
    ok, uris := ScanMaster(files[MASTER].text.lines);
    if !ok {
      return;
    }
    ok, playlists := CheckPlaylists(uris, files);
    if !ok {
      return;
    }
    var collected := set n | n in files && n != MASTER && IsPlaylist(n);
    ok := collected <= playlists;
  }
}
