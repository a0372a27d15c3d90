/** The two readers of a request path: the guard, which decodes the URI before it looks for the
    video, and the sweep, which looks for it in the raw URI inside the cache key. Strings are
    strings of bytes. */
module CachePaths {

  import opened Common
  import opened Paths
  import Sorting

  predicate Bytes(s: string) {
    forall i :: 0 <= i < |s| ==> s[i] as int < 256
  }

  /** The index of the first `c`, or the length. */
  function IndexOf(s: string, c: char): (i: nat)
    ensures i <= |s| && c !in s[..i] && (i < |s| ==> s[i] == c)
  {
    if s == "" || s[0] == c then 0 else IndexOf(s[1..], c) + 1
  }

  lemma {:induction false} IndexAfter(a: string, c: char, b: string)
    requires c !in a
    ensures IndexOf(a + [c] + b, c) == |a|
    decreases |a|
  {
    var s := a + [c] + b;
    if a != "" {
      assert s[1..] == a[1..] + [c] + b;
      IndexAfter(a[1..], c, b);
    }
  }

  lemma {:induction false} IndexAbsent(s: string, c: char)
    requires c !in s
    ensures IndexOf(s, c) == |s|
    decreases |s|
  {
    if s != "" {
      IndexAbsent(s[1..], c);
    }
  }

  // ---- Video ids ----------------------------------------------------------------------------

  predicate Digit(c: char) {
    '0' <= c <= '9'
  }

  predicate HexDigit(c: char) {
    Digit(c) || 'a' <= c <= 'f' || 'A' <= c <= 'F'
  }

  /** The length of the white space character that the bytes start with, or 0. */
  function SpaceAtStart(s: string): (n: nat)
    ensures n <= |s|
  {
    if s == "" then 0
    else if '\t' <= s[0] <= '\r' || s[0] == ' ' then 1
    else if |s| >= 2 && WideSpace(s[..2]) then 2
    else if |s| >= 3 && WideSpace(s[..3]) then 3
    else 0
  }

  function SpaceAtEnd(s: string): (n: nat)
    ensures n <= |s|
  {
    if s == "" then 0
    else if '\t' <= s[|s| - 1] <= '\r' || s[|s| - 1] == ' ' then 1
    else if |s| >= 2 && WideSpace(s[|s| - 2..]) then 2
    else if |s| >= 3 && WideSpace(s[|s| - 3..]) then 3
    else 0
  }

  /** The UTF-8 encodings of the white space beyond ASCII. */
  predicate WideSpace(s: string) {
    || s in {"\U{C2}\U{85}", "\U{C2}\U{A0}"}
    || (|s| == 3 && s[..2] == "\U{E2}\U{80}" && '\U{80}' <= s[2] <= '\U{8A}')
    || s in {"\U{E1}\U{9A}\U{80}", "\U{E2}\U{80}\U{A8}", "\U{E2}\U{80}\U{A9}", "\U{E2}\U{80}\U{AF}",
             "\U{E2}\U{81}\U{9F}", "\U{E3}\U{80}\U{80}"}
  }

  function TrimLeft(s: string): string
    decreases |s|
  {
    if SpaceAtStart(s) == 0 then s else TrimLeft(s[SpaceAtStart(s)..])
  }

  function TrimRight(s: string): string
    decreases |s|
  {
    if SpaceAtEnd(s) == 0 then s else TrimRight(s[..|s| - SpaceAtEnd(s)])
  }

  /** `strings.TrimSpace` leaves no white space at either end. */
  lemma {:induction false} TrimsTheStart(s: string)
    ensures |TrimLeft(s)| <= |s| && s[|s| - |TrimLeft(s)|..] == TrimLeft(s) && SpaceAtStart(TrimLeft(s)) == 0
    decreases |s|
  {
    if SpaceAtStart(s) > 0 {
      TrimsTheStart(s[SpaceAtStart(s)..]);
    }
  }

  lemma {:induction false} TrimsTheEnd(s: string)
    ensures TrimRight(s) <= s && SpaceAtEnd(TrimRight(s)) == 0
    decreases |s|
  {
    if SpaceAtEnd(s) > 0 {
      TrimsTheEnd(s[..|s| - SpaceAtEnd(s)]);
    }
  }

  predicate IsUuid(s: string) {
    && |s| == 36
    && forall i :: 0 <= i < 36 ==> if i in {8, 13, 18, 23} then s[i] == '-' else HexDigit(s[i])
  }

  /** `canonicalVideoID` */
  function Canonical(raw: string): Option<string> {
    var s := TrimRight(TrimLeft(raw));
    if IsUuid(s) then Some(LowerAll(s)) else None
  }

  // ---- Percent encoding of paths --------------------------------------------------------------

  /** The bytes a path carries unescaped. */
  predicate Plain(c: char) {
    Digit(c) || 'a' <= c <= 'z' || 'A' <= c <= 'Z' || c in {'-', '_', '.', '~', '$', '&', '+', ',', '/', ':', ';', '=', '@'}
  }

  function HexValue(c: char): (n: nat)
    requires HexDigit(c)
    ensures n < 16
  {
    if Digit(c) then c as int - '0' as int
    else if 'a' <= c <= 'f' then c as int - 'a' as int + 10
    else c as int - 'A' as int + 10
  }

  function HexChar(n: nat): (c: char)
    requires n < 16
    ensures HexDigit(c) && HexValue(c) == n && Plain(c) && c != '/' && c != '%'
  {
    if n < 10 then ('0' as int + n) as char else ('A' as int + n - 10) as char
  }

  function Unescape(s: string): Option<string>
    decreases |s|
  {
    if s == "" then Some("")
    else if s[0] != '%' then
      (match Unescape(s[1..])
       case None => None
       case Some(t) => Some([s[0]] + t))
    else if |s| < 3 || !HexDigit(s[1]) || !HexDigit(s[2]) then None
    else
      match Unescape(s[3..])
      case None => None
      case Some(t) => Some([(16 * HexValue(s[1]) + HexValue(s[2])) as char] + t)
  }

  function EscapeByte(c: char): (e: string)
    requires c as int < 256
    ensures e != ""
  {
    if Plain(c) then [c] else ['%', HexChar(c as int / 16), HexChar(c as int % 16)]
  }

  function Escape(s: string): string
    requires Bytes(s)
  {
    if s == "" then "" else EscapeByte(s[0]) + Escape(s[1..])
  }

  lemma {:induction false} UnescapeGivesBytes(s: string)
    requires Bytes(s)
    ensures Unescape(s).Some? ==> Bytes(Unescape(s).value)
    decreases |s|
  {
    if s != "" {
      UnescapeGivesBytes(s[1..]);
      if |s| >= 3 {
        UnescapeGivesBytes(s[3..]);
      }
    }
  }

  lemma {:induction false} EscapeSplits(a: string, b: string)
    requires Bytes(a) && Bytes(b)
    ensures Escape(a + b) == Escape(a) + Escape(b)
    decreases |a|
  {
    if a == "" {
      assert a + b == b;
    } else {
      assert (a + b)[1..] == a[1..] + b;
      EscapeSplits(a[1..], b);
    }
  }

  /** Escaping writes plain bytes and percent signs only, and a percent sign exactly if there
      was something to escape. */
  lemma {:induction false} EscapedText(s: string)
    requires Bytes(s)
    ensures forall i :: 0 <= i < |Escape(s)| ==> Plain(Escape(s)[i]) || Escape(s)[i] == '%'
    ensures '/' !in s ==> '/' !in Escape(s)
    ensures '%' !in Escape(s) ==> Escape(s) == s
    ensures s != "" ==> Escape(s) != ""
    decreases |s|
  {
    if s != "" {
      EscapedText(s[1..]);
      var c := s[0];
      assert Escape(s) == EscapeByte(c) + Escape(s[1..]);
      assert EscapeByte(c)[0] in Escape(s);
      assert [c] + s[1..] == s;
    }
  }

  lemma {:induction false} PlainText(s: string)
    requires forall i :: 0 <= i < |s| ==> Plain(s[i])
    ensures Bytes(s) && Escape(s) == s
    decreases |s|
  {
    if s != "" {
      PlainText(s[1..]);
      assert [s[0]] + s[1..] == s;
    }
  }

  /** The server's normal form can be undone: decoding an escaped path gives it back. */
  lemma {:induction false} UnescapeEscape(s: string)
    requires Bytes(s)
    ensures Unescape(Escape(s)) == Some(s)
    decreases |s|
  {
    if s != "" {
      var c, rest := s[0], Escape(s[1..]);
      UnescapeEscape(s[1..]);
      assert Escape(s) == EscapeByte(c) + rest;
      assert [c] + s[1..] == s;
      if Plain(c) {
        assert Escape(s)[1..] == rest;
      } else {
        assert Escape(s)[3..] == rest;
        assert 16 * (c as int / 16) + c as int % 16 == c as int;
      }
    }
  }

  // ---- Cleaning --------------------------------------------------------------------------------

  /** `path.Clean` on the segments of a rooted path. */
  function CleanParts(done: seq<string>, parts: seq<string>): seq<string>
    decreases |parts|
  {
    if parts == [] then done
    else if parts[0] == "" || parts[0] == "." then CleanParts(done, parts[1..])
    else if parts[0] == ".." then CleanParts(if done == [] then [] else done[..|done| - 1], parts[1..])
    else CleanParts(done + [parts[0]], parts[1..])
  }

  function Clean(p: string): string
    requires p != "" && p[0] == '/'
  {
    "/" + Join(CleanParts([], Split(p[1..])))
  }

  lemma {:induction false} CleanPartsKeeps(done: seq<string>, parts: seq<string>)
    requires NoSlashes(done) && NoSlashes(parts)
    ensures NoSlashes(CleanParts(done, parts)) && |CleanParts(done, parts)| <= |done| + |parts|
    decreases |parts|
  {
    if parts != [] {
      var rest := parts[1..];
      if parts[0] == "" || parts[0] == "." {
        CleanPartsKeeps(done, rest);
      } else if parts[0] == ".." {
        CleanPartsKeeps(if done == [] then [] else done[..|done| - 1], rest);
      } else {
        CleanPartsKeeps(done + [parts[0]], rest);
      }
    }
  }

  predicate AllOrdinary(parts: seq<string>) {
    forall i :: 0 <= i < |parts| ==> Ordinary(parts[i])
  }

  /** Cleaning keeps ordinary segments, and drops some if there are others. */
  lemma {:induction false} CleanPartsDrop(done: seq<string>, parts: seq<string>)
    requires NoSlashes(done) && NoSlashes(parts)
    ensures AllOrdinary(parts) ==> CleanParts(done, parts) == done + parts
    ensures |CleanParts(done, parts)| == |done| + |parts| ==> AllOrdinary(parts)
    decreases |parts|
  {
    if parts != [] {
      var rest := parts[1..];
      if Ordinary(parts[0]) {
        CleanPartsDrop(done + [parts[0]], rest);
        Sorting.Associate(done, [parts[0]], rest);
        assert [parts[0]] + rest == parts;
        assert AllOrdinary(rest) <==> AllOrdinary(parts) by {
          assert forall i :: 0 < i < |parts| ==> parts[i] == rest[i - 1];
        }
      } else {
        CleanPartsKeeps(if parts[0] == ".." && done != [] then done[..|done| - 1] else done, rest);
      }
    }
  }

  /** A rooted path is its own clean form exactly if it is the root or has no empty, dot or
      dot-dot segment. */
  lemma CleanIsCanonical(p: string)
    requires p != "" && p[0] == '/'
    ensures Clean(p) == p <==> p == "/" || forall i :: 0 <= i < |Split(p[1..])| ==> Ordinary(Split(p[1..])[i])
  {
    var parts := Split(p[1..]);
    var cleaned := CleanParts([], parts);
    JoinSplit(p[1..]);
    CleanPartsKeeps([], parts);
    CleanPartsDrop([], parts);
    assert [] + parts == parts;
    assert p == "/" + p[1..];
    if Clean(p) == p {
      assert Join(cleaned) == Clean(p)[1..];
      if cleaned != [] {
        SplitJoin(cleaned);
      }
    }
  }

  // ---- The two readers ----------------------------------------------------------------------------

  function PathPart(uri: string): string {
    uri[..IndexOf(uri, '?')]
  }

  predicate Control(c: char) {
    c < ' ' || c == '\U{7F}'
  }

  /** The decoded path, if the request URI parses to one without scheme, host or a spelling
      that differs from the default encoding. */
  function ParsedPath(uri: string): Option<string>
    requires Bytes(uri)
  {
    if (exists i :: 0 <= i < |uri| && Control(uri[i])) || uri == "" || uri[0] != '/' then None
    else match Unescape(PathPart(uri))
      case None => None
      case Some(path) =>
        UnescapeGivesBytes(PathPart(uri));
        if Escape(path) == PathPart(uri) then Some(path) else None
  }

  /** `videoIDFromHLSURI` */
  function GuardVideo(uri: string): Option<string>
    requires Bytes(uri)
  {
    match ParsedPath(uri)
    case None => None
    case Some(path) =>
      if path == "" || path[0] != '/' || Clean(path) != path || '\\' in path then None
      else
        var parts := Split(path[1..]);
        if |parts| < 3 || parts[0] != "hls" || parts[2] == "" then None else Canonical(parts[1])
  }

  /** `videoIDFromHLSPath` */
  function PathVideo(path: string): Option<string> {
    if !("/hls/" <= path) then None
    else
      var remainder := path[5..];
      var slash := IndexOf(remainder, '/');
      if slash == 0 || slash == |remainder| then None else Canonical(remainder[..slash])
  }

  /** `videoIDFromNginxCacheKey` */
  function KeyVideo(key: string): Option<string> {
    var start := IndexOf(key, '/');
    if start == |key| then None else PathVideo(PathPart(key[start..]))
  }

  /** The cache key of a request: what stands before its URI has no slash. */
  function CacheKey(schemeMethodHost: string, uri: string, range: string): string {
    schemeMethodHost + uri + range
  }

  /** The segment of the raw URI that names the video. */
  function RawSegment(uri: string): string
    requires |uri| >= 5
  {
    uri[5..][..IndexOf(uri[5..], '/')]
  }

  /** What an accepted URI looks like after decoding and before it. */
  lemma DecodedShape(path: string) returns (segment: string, tail: string)
    requires Bytes(path) && path != "" && path[0] == '/'
    requires var parts := Split(path[1..]); |parts| >= 3 && parts[0] == "hls"
    ensures segment == Split(path[1..])[1] && '/' !in segment
    ensures path == "/hls/" + segment + "/" + tail && Bytes(segment) && Bytes(tail)
  {
    var parts := Split(path[1..]);
    JoinSplit(path[1..]);
    segment, tail := parts[1], Join(parts[2..]);
    assert parts[1..][1..] == parts[2..];
    var inner := segment + "/" + tail;
    assert Join(parts[1..]) == inner;
    assert path == "/" + path[1..];
    assert "/" + ("hls" + "/" + inner) == "/hls/" + inner;
    Regroup("/hls/", segment, "/", tail);
    BytesOfParts("/hls/" + segment + "/", tail);
    BytesOfParts("/hls/" + segment, "/");
    BytesOfParts("/hls/", segment);
  }

  lemma Regroup(a: string, b: string, c: string, d: string)
    ensures a + (b + c + d) == a + b + c + d
  {
  }

  lemma BytesOfParts(a: string, b: string)
    requires Bytes(a + b)
    ensures Bytes(a) && Bytes(b)
  {
    assert forall i :: 0 <= i < |a| ==> a[i] == (a + b)[i];
    assert forall i :: 0 <= i < |b| ==> b[i] == (a + b)[|a| + i];
  }

  lemma EscapedShape(segment: string, tail: string)
    requires Bytes(segment) && Bytes(tail)
    ensures Bytes("/hls/" + segment + "/" + tail)
    ensures Escape("/hls/" + segment + "/" + tail) == "/hls/" + Escape(segment) + "/" + Escape(tail)
  {
    PlainText("/hls/");
    PlainText("/");
    EscapeSplits("/hls/", segment);
    EscapeSplits("/hls/" + segment, "/");
    EscapeSplits("/hls/" + segment + "/", tail);
  }

  lemma AcceptedShape(uri: string) returns (segment: string, rest: string)
    requires Bytes(uri) && GuardVideo(uri).Some?
    ensures Bytes(segment) && segment != "" && '/' !in segment && Canonical(segment) == GuardVideo(uri)
    ensures PathPart(uri) == "/hls/" + Escape(segment) + "/" + rest
  {
    var path := ParsedPath(uri).value;
    UnescapeGivesBytes(PathPart(uri));
    var tail;
    segment, tail := DecodedShape(path);
    EscapedShape(segment, tail);
    rest := Escape(tail);
    CleanIsCanonical(path);
  }

  lemma {:induction false} NothingToTrim(s: string)
    requires forall i :: 0 <= i < |s| ==> Plain(s[i]) || s[i] == '%'
    ensures TrimRight(TrimLeft(s)) == s
  {
    if s != "" {
      assert Plain(s[0]) || s[0] == '%';
      assert Plain(s[|s| - 1]) || s[|s| - 1] == '%';
      assert SpaceAtStart(s) == 0;
      assert |s| >= 2 ==> s[|s| - 2..][1] == s[|s| - 1];
      assert |s| >= 3 ==> s[|s| - 3..][2] == s[|s| - 1];
      assert SpaceAtEnd(s) == 0;
    }
  }

  /** The text of an escaped segment read as it stands. */
  lemma RawReading(segment: string)
    requires Bytes(segment) && Canonical(segment).Some?
    ensures Canonical(Escape(segment)) == if '%' in Escape(segment) then None else Canonical(segment)
  {
    EscapedText(segment);
    NothingToTrim(Escape(segment));
    if '%' in Escape(segment) {
      var i :| 0 <= i < |Escape(segment)| && Escape(segment)[i] == '%';
      assert !IsUuid(Escape(segment));
    }
  }

  /** Cutting the query off the URI with the range behind it leaves the path and, if there was no
      query, some of the range. */
  lemma RequestPathStartsWithPath(uri: string, range: string) returns (more: string)
    ensures PathPart(uri + range) == PathPart(uri) + more
  {
    var i := IndexOf(uri, '?');
    if i < |uri| {
      var a, b := uri[..i], uri[i + 1..];
      assert uri == a + ['?'] + b;
      CutInside(a, b, range);
      more := "";
    } else {
      CutBehind(uri, range);
      more := range[..IndexOf(range, '?')];
    }
  }

  lemma CutInside(a: string, b: string, range: string)
    requires '?' !in a
    ensures PathPart((a + ['?'] + b) + range) == PathPart(a + ['?'] + b) == a
  {
    Sorting.Associate(a + ['?'], b, range);
    FirstQuery(a, b + range);
    FirstQuery(a, b);
  }

  lemma FirstQuery(a: string, b: string)
    requires '?' !in a
    ensures PathPart(a + ['?'] + b) == a
  {
    IndexAfter(a, '?', b);
  }

  lemma CutBehind(uri: string, range: string)
    requires IndexOf(uri, '?') == |uri|
    ensures PathPart(uri + range) == uri + range[..IndexOf(range, '?')] && PathPart(uri) == uri
  {
    var j := IndexOf(range, '?');
    if j < |range| {
      var a, b := range[..j], range[j + 1..];
      assert range == a + ['?'] + b;
      Sorting.Associate(uri, a + ['?'], b);
      Sorting.Associate(uri, a, ['?']);
      FirstQuery(uri + a, b);
    } else {
      assert range[..j] == range;
      IndexAbsent(uri + range, '?');
    }
  }

  /** A raw path read by the sweep. */
  lemma RawShape(raw: string, after: string)
    requires raw != "" && '/' !in raw
    ensures var path := "/hls/" + raw + "/" + after; RawSegment(path) == raw && PathVideo(path) == Canonical(raw)
  {
    var path := "/hls/" + raw + "/" + after;
    assert path[5..] == raw + ['/'] + after;
    IndexAfter(raw, '/', after);
    assert path[5..][..|raw|] == raw;
  }

  /** ... and it reads no other paths. */
  lemma SweepReads(path: string) returns (raw: string, after: string)
    requires PathVideo(path).Some?
    ensures path == "/hls/" + raw + "/" + after && raw != "" && '/' !in raw && PathVideo(path) == Canonical(raw)
  {
    var remainder := path[5..];
    var slash := IndexOf(remainder, '/');
    raw, after := remainder[..slash], remainder[slash + 1..];
    assert remainder == raw + "/" + after;
    assert path == path[..5] + remainder;
  }

  lemma KeyPath(before: string, uri: string, range: string)
    requires '/' !in before && uri != "" && uri[0] == '/'
    ensures KeyVideo(CacheKey(before, uri, range)) == PathVideo(PathPart(uri + range))
  {
    var key := CacheKey(before, uri, range);
    assert key == before + ['/'] + (uri[1..] + range);
    IndexAfter(before, '/', uri[1..] + range);
    assert key[|before|..] == uri + range;
  }

  /** For every URI the guard accepts, the sweep finds the guard's video in the cache key of the
      request, unless the raw video segment holds a percent sign: then it finds none. */
  lemma ReadersAgreeExactly(uri: string, before: string, range: string)
    requires Bytes(uri) && GuardVideo(uri).Some? && '/' !in before
    ensures |uri| >= 5
    ensures KeyVideo(CacheKey(before, uri, range)) == if '%' in RawSegment(uri) then None else GuardVideo(uri)
  {
    var segment, rest := AcceptedShape(uri);
    var raw, query := Escape(segment), uri[|PathPart(uri)|..];
    EscapedText(segment);
    RawReading(segment);
    assert uri == PathPart(uri) + query;
    Sorting.Associate("/hls/" + raw + "/", rest, query);
    RawShape(raw, rest + query);
    KeyPath(before, uri, range);
    var more := RequestPathStartsWithPath(uri, range);
    Sorting.Associate("/hls/" + raw + "/", rest, more);
    RawShape(raw, rest + more);
  }

  /** So the sweep never takes a cached response for one of another video. */
  lemma NeverAnotherVideo(uri: string, before: string, range: string)
    requires Bytes(uri) && GuardVideo(uri).Some? && '/' !in before
    ensures KeyVideo(CacheKey(before, uri, range)) in {None, GuardVideo(uri)}
  {
    ReadersAgreeExactly(uri, before, range);
  }

  // ---- What the guard accepts ------------------------------------------------------------------

  /** The segments of a path that the guard reads as video `v`. */
  predicate Addresses(parts: seq<string>, v: string) {
    && |parts| >= 3 && parts[0] == "hls" && Canonical(parts[1]) == Some(v)
    && forall i :: 0 <= i < |parts| ==> Bytes(parts[i]) && Ordinary(parts[i]) && '/' !in parts[i] && '\\' !in parts[i]
  }

  /** The request is for these segments, in the default encoding, with or without a query. */
  ghost predicate Requests(uri: string, parts: seq<string>) {
    && (forall i :: 0 <= i < |uri| ==> !Control(uri[i]))
    && Bytes("/" + Join(parts)) && PathPart(uri) == Escape("/" + Join(parts))
  }

  /** The guard takes a request for video `v` exactly if it is for three or more proper segments,
      the first of them "hls" and the second one naming `v`. */
  lemma GuardAcceptsExactly(uri: string, v: string)
    requires Bytes(uri)
    ensures GuardVideo(uri) == Some(v) <==> exists parts :: Addresses(parts, v) && Requests(uri, parts)
  {
    if GuardVideo(uri) == Some(v) {
      AcceptedSegments(uri, v);
    }
    if exists parts :: Addresses(parts, v) && Requests(uri, parts) {
      var parts :| Addresses(parts, v) && Requests(uri, parts);
      SegmentsAccepted(uri, parts, v);
    }
  }

  lemma AcceptedSegments(uri: string, v: string)
    requires Bytes(uri) && GuardVideo(uri) == Some(v)
    ensures exists parts :: Addresses(parts, v) && Requests(uri, parts)
  {
    var path := ParsedPath(uri).value;
    UnescapeGivesBytes(PathPart(uri));
    var parts := Split(path[1..]);
    JoinSplit(path[1..]);
    CleanIsCanonical(path);
    assert path == "/" + path[1..];
    assert Bytes(path[1..]) && '\\' !in path[1..];
    forall i | 0 <= i < |parts|
      ensures Bytes(parts[i]) && '\\' !in parts[i]
    {
      PartOfJoin(parts, i);
    }
    assert Addresses(parts, v) && Requests(uri, parts);
  }

  /** What a segment holds, the path holds. */
  lemma {:induction false} PartOfJoin(parts: seq<string>, i: nat)
    requires i < |parts|
    ensures forall c :: c in parts[i] ==> c in Join(parts)
    ensures Bytes(Join(parts)) ==> Bytes(parts[i])
    decreases |parts|
  {
    if |parts| > 1 {
      var rest := Join(parts[1..]);
      assert Join(parts) == parts[0] + "/" + rest;
      if i > 0 {
        PartOfJoin(parts[1..], i - 1);
        assert forall c :: c in rest ==> c in parts[0] + "/" + rest;
        assert Bytes(Join(parts)) ==> Bytes(rest) by {
          if Bytes(Join(parts)) {
            BytesOfParts(parts[0] + "/", rest);
          }
        }
      } else if Bytes(Join(parts)) {
        assert Join(parts) == parts[0] + ("/" + rest);
        BytesOfParts(parts[0], "/" + rest);
      }
    }
  }

  lemma SegmentsAccepted(uri: string, parts: seq<string>, v: string)
    requires Bytes(uri) && Addresses(parts, v) && Requests(uri, parts)
    ensures GuardVideo(uri) == Some(v)
  {
    var path := "/" + Join(parts);
    EscapedPathParses(path);
    assert Escape(path)[0] == '/' by {
      assert Escape(path) == EscapeByte('/') + Escape(path[1..]);
    }
    UnescapeEscape(path);
    assert path[1..] == Join(parts);
    SplitJoin(parts);
    CleanIsCanonical(path);
    NoBackslash(parts);
    assert ParsedPath(uri) == Some(path);
  }

  lemma {:induction false} NoBackslash(parts: seq<string>)
    requires forall i :: 0 <= i < |parts| ==> '\\' !in parts[i]
    ensures '\\' !in Join(parts)
    decreases |parts|
  {
    if |parts| > 1 {
      NoBackslash(parts[1..]);
    }
  }

  /** So every asset of a video is let through to the look at its tombstone: any list of segments
      behind the id, in either case, with or without a query. */
  lemma AssetsAreAccepted(v: string, asset: seq<string>, query: string)
    requires IsUuid(v) && asset != []
    requires forall i :: 0 <= i < |asset| ==>
               Bytes(asset[i]) && Ordinary(asset[i]) && '/' !in asset[i] && '\\' !in asset[i]
    requires query == "" || query[0] == '?'
    requires Bytes(query) && forall i :: 0 <= i < |query| ==> !Control(query[i])
    ensures var path := "/" + Join(["hls", v] + asset);
            Bytes(path) && Bytes(Escape(path) + query) && GuardVideo(Escape(path) + query) == Some(LowerAll(v))
  {
    var parts := ["hls", v] + asset;
    AssetAddresses(v, asset);
    EscapedRequests(parts, LowerAll(v), query);
    SegmentsAccepted(Escape("/" + Join(parts)) + query, parts, LowerAll(v));
  }

  lemma EscapedRequests(parts: seq<string>, v: string, query: string)
    requires Addresses(parts, v) && (query == "" || query[0] == '?')
    requires Bytes(query) && forall i :: 0 <= i < |query| ==> !Control(query[i])
    ensures var path := "/" + Join(parts);
            Bytes(path) && Bytes(Escape(path) + query) && Requests(Escape(path) + query, parts)
  {
    JoinOfBytes(parts);
    EscapedWithQuery("/" + Join(parts), query);
  }

  lemma AssetAddresses(v: string, asset: seq<string>)
    requires IsUuid(v) && asset != []
    requires forall i :: 0 <= i < |asset| ==>
               Bytes(asset[i]) && Ordinary(asset[i]) && '/' !in asset[i] && '\\' !in asset[i]
    ensures Addresses(["hls", v] + asset, LowerAll(v))
  {
    var parts := ["hls", v] + asset;
    UuidIsPlain(v);
    NothingToTrim(v);
    assert forall i :: 2 <= i < |parts| ==> parts[i] == asset[i - 2];
  }

  lemma EscapedWithQuery(path: string, query: string)
    requires Bytes(path) && (query == "" || query[0] == '?')
    requires Bytes(query) && forall i :: 0 <= i < |query| ==> !Control(query[i])
    ensures var uri := Escape(path) + query;
            Bytes(uri) && PathPart(uri) == Escape(path) && forall i :: 0 <= i < |uri| ==> !Control(uri[i])
  {
    var uri := Escape(path) + query;
    EscapedText(path);
    PlainIsPrintable(Escape(path));
    if query == "" {
      assert uri == Escape(path);
      IndexAbsent(uri, '?');
    } else {
      assert query == ['?'] + query[1..];
      Sorting.Associate(Escape(path), ['?'], query[1..]);
      FirstQuery(Escape(path), query[1..]);
    }
  }

  lemma {:induction false} JoinOfBytes(parts: seq<string>)
    requires forall i :: 0 <= i < |parts| ==> Bytes(parts[i])
    ensures Bytes(Join(parts))
    decreases |parts|
  {
    if |parts| > 1 {
      JoinOfBytes(parts[1..]);
    }
  }

  lemma UuidIsPlain(v: string)
    requires IsUuid(v)
    ensures forall i :: 0 <= i < |v| ==> Plain(v[i]) && v[i] != '/' && v[i] != '\\'
    ensures Bytes(v) && '/' !in v && '\\' !in v
  {
    assert forall i :: 0 <= i < |v| ==> HexDigit(v[i]) || v[i] == '-';
  }

  lemma SpacedCanonical(v: string)
    requires IsUuid(v) && LowerAll(v) == v
    ensures Canonical(" " + v) == Some(v)
  {
    UuidIsPlain(v);
    NothingToTrim(v);
    assert (" " + v)[1..] == v;
    assert SpaceAtStart(" " + v) == 1;
  }

  lemma SpacedEscape(v: string)
    requires IsUuid(v)
    ensures Bytes(" " + v) && '/' !in " " + v && Escape(" " + v) == "%20" + v
  {
    UuidIsPlain(v);
    PlainText(v);
    assert EscapeByte(' ') == "%20";
    assert (" " + v)[1..] == v;
  }

  lemma SpacedParts(v: string)
    requires IsUuid(v)
    ensures Split("hls/" + (" " + v) + "/x") == ["hls", " " + v, "x"]
  {
    UuidIsPlain(v);
    var segment := " " + v;
    var parts := ["hls", segment, "x"];
    SplitJoin(parts);
    assert parts[1..] == [segment, "x"] && parts[1..][1..] == ["x"];
    assert Join(["x"]) == "x";
    assert Join([segment, "x"]) == segment + "/" + "x";
    assert Join(parts) == "hls" + "/" + (segment + "/" + "x");
    assert Join(parts) == "hls/" + segment + "/x";
  }

  lemma PlainIsPrintable(s: string)
    requires forall i :: 0 <= i < |s| ==> Plain(s[i]) || s[i] == '%'
    ensures Bytes(s) && '?' !in s && forall i :: 0 <= i < |s| ==> !Control(s[i])
  {
  }

  /** What the server would write is what it reads back. */
  lemma EscapedPathParses(path: string)
    requires Bytes(path) && path != "" && path[0] == '/'
    ensures Bytes(Escape(path)) && ParsedPath(Escape(path)) == Some(path)
    ensures PathPart(Escape(path)) == Escape(path)
  {
    var uri := Escape(path);
    EscapedText(path);
    PlainIsPrintable(uri);
    IndexAbsent(uri, '?');
    assert PathPart(uri) == uri;
    assert uri == EscapeByte('/') + Escape(path[1..]);
    UnescapeEscape(path);
  }

  lemma SpacedPathIsClean(v: string, path: string)
    requires IsUuid(v) && path == "/hls/" + (" " + v) + "/" + "x"
    ensures Split(path[1..]) == ["hls", " " + v, "x"] && Clean(path) == path && '\\' !in path
  {
    SpacedParts(v);
    assert path[1..] == "hls/" + (" " + v) + "/x";
    CleanIsCanonical(path);
    UuidIsPlain(v);
  }

  lemma SpacedSpellingIsAccepted(v: string)
    requires IsUuid(v) && LowerAll(v) == v
    ensures var uri := "/hls/" + ("%20" + v) + "/" + "x"; Bytes(uri) && GuardVideo(uri) == Some(v)
  {
    var path := "/hls/" + (" " + v) + "/" + "x";
    SpacedEscape(v);
    EscapedShape(" " + v, "x");
    PlainText("x");
    EscapedPathParses(path);
    SpacedPathIsClean(v, path);
    SpacedCanonical(v);
    assert ParsedPath(Escape(path)) == Some(path);
  }

  /** The readers do disagree: with an escaped space before the id, the guard takes the URI for
      the video, and the sweep takes the response cached under it for nobody's. */
  lemma SpacedSpellingIsMissed(v: string, before: string, range: string)
    requires IsUuid(v) && LowerAll(v) == v && '/' !in before
    ensures var uri := "/hls/" + ("%20" + v) + "/" + "x";
            Bytes(uri) && GuardVideo(uri) == Some(v) && KeyVideo(CacheKey(before, uri, range)) == None
  {
    var raw := "%20" + v;
    SpacedSpellingIsAccepted(v);
    UuidIsPlain(v);
    assert raw[0] == '%';
    RawShape(raw, "x");
    ReadersAgreeExactly("/hls/" + raw + "/" + "x", before, range);
  }
}
