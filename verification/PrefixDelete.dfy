/** Removing everything below one directory of a bucket, and why that is everything of one video
    and nothing of another. */
module PrefixDelete {

  import opened Common
  import opened Splitting
  import Fencing
  import P = CachePaths
  import Paths

  type Key = string

  // ---- Prefixes ------------------------------------------------------------------------------

  /** `path.Clean` on the segments of a relative path. */
  function CleanRelative(done: seq<string>, parts: seq<string>): seq<string>
    decreases |parts|
  {
    if parts == [] then done
    else if parts[0] == "" || parts[0] == "." then CleanRelative(done, parts[1..])
    else if parts[0] == ".." && done != [] && done[|done| - 1] != ".." then CleanRelative(done[..|done| - 1], parts[1..])
    else CleanRelative(done + [parts[0]], parts[1..])
  }

  function CleanPath(p: string): string {
    var parts := CleanRelative([], Paths.Split(p));
    if parts == [] then "." else Paths.Join(parts)
  }

  /** `validateDeletePrefix` */
  predicate ValidDeletePrefix(prefix: string) {
    && prefix != "" && prefix[0] != '/' && prefix[|prefix| - 1] == '/' && '\\' !in prefix
    && var trimmed := prefix[..|prefix| - 1];
       && CleanPath(trimmed) == trimmed
       && |Paths.Split(trimmed)| >= 2
       && forall i :: 0 <= i < |Paths.Split(trimmed)| ==> Paths.Ordinary(Paths.Split(trimmed)[i])
  }

  lemma {:induction false} CleanKeepsOrdinary(done: seq<string>, parts: seq<string>)
    requires forall i :: 0 <= i < |parts| ==> Paths.Ordinary(parts[i])
    ensures CleanRelative(done, parts) == done + parts
    decreases |parts|
  {
    if parts != [] {
      CleanKeepsOrdinary(done + [parts[0]], parts[1..]);
      assert (done + [parts[0]]) + parts[1..] == done + parts;
    }
  }

  /** A prefix of at least two ordinary segments is accepted. */
  lemma SegmentsMakeValidPrefix(parts: seq<string>)
    requires |parts| >= 2 && Paths.NoSlashes(parts)
    requires forall i :: 0 <= i < |parts| ==> Paths.Ordinary(parts[i]) && '\\' !in parts[i]
    ensures ValidDeletePrefix(Paths.Join(parts) + "/")
  {
    var trimmed := Paths.Join(parts);
    Paths.SplitJoin(parts);
    CleanKeepsOrdinary([], parts);
    assert [] + parts == parts;
    assert (trimmed + "/")[..|trimmed|] == trimmed;
    JoinStarts(parts);
    JoinHasNo(parts, '\\');
  }

  lemma JoinStarts(parts: seq<string>)
    requires parts != [] && parts[0] != ""
    ensures Paths.Join(parts) != "" && Paths.Join(parts)[0] == parts[0][0]
  {
  }

  lemma {:induction false} JoinHasNo(parts: seq<string>, c: char)
    requires c != '/' && forall i :: 0 <= i < |parts| ==> c !in parts[i]
    ensures c !in Paths.Join(parts)
    decreases |parts|
  {
    if |parts| > 1 {
      JoinHasNo(parts[1..], c);
    }
  }

  function RawPrefix(id: string): string {
    "raw/" + id + "/"
  }

  /** The prefix in the HLS bucket and in the thumbnail bucket. */
  function ShardPrefix(id: string): string
    requires |id| >= 2
  {
    id[..2] + "/" + id + "/"
  }

  predicate Within(prefix: string, key: Key) {
    prefix <= key
  }

  /** What `storagePrefixesForVideo` gives is always accepted. */
  lemma VideoPrefixesAreValid(id: string)
    requires P.IsUuid(id)
    ensures ValidDeletePrefix(RawPrefix(id)) && ValidDeletePrefix(ShardPrefix(id))
  {
    P.UuidIsPlain(id);
    PlainPart(id);
    assert '/' !in id[..2] && '\\' !in id[..2];
    assert id[..2][0] == id[0] && P.HexDigit(id[0]);
    SegmentsMakeValidPrefix(["raw", id]);
    SegmentsMakeValidPrefix([id[..2], id]);
    TwoSegments("raw", id);
    TwoSegments(id[..2], id);
    assert "raw" + "/" == "raw/";
    assert Paths.Join(["raw", id]) + "/" == RawPrefix(id);
    assert Paths.Join([id[..2], id]) + "/" == ShardPrefix(id);
  }

  lemma PlainPart(id: string)
    requires P.IsUuid(id)
    ensures Paths.Ordinary(id) && Paths.Ordinary(id[..2]) && Paths.Ordinary("raw")
  {
    assert P.HexDigit(id[0]);
    assert id[..2][0] == id[0];
  }

  lemma TwoSegments(a: string, b: string)
    ensures Paths.Join([a, b]) == a + "/" + b
  {
    assert [a, b][1..] == [b];
    assert Paths.Join([b]) == b;
  }

  /** No key lies below the prefixes of two videos: a deletion reaches no other video's objects. */
  lemma PrefixesSeparateVideos(a: string, b: string, key: Key)
    requires P.IsUuid(a) && P.IsUuid(b)
    requires (Within(RawPrefix(a), key) && Within(RawPrefix(b), key)) ||
             (Within(ShardPrefix(a), key) && Within(ShardPrefix(b), key))
    ensures a == b
  {
    if Within(RawPrefix(a), key) && Within(RawPrefix(b), key) {
      assert key[4..40] == RawPrefix(a)[4..40] == a;
      assert key[4..40] == RawPrefix(b)[4..40] == b;
    } else {
      assert key[3..39] == ShardPrefix(a)[3..39] == a;
      assert key[3..39] == ShardPrefix(b)[3..39] == b;
    }
  }

  /** The name of an uploaded source. */
  function UploadName(id: string, session: string, extension: string): Key {
    "raw/" + id + "/" + session + extension
  }

  /** `uuid.Parse(...).String()` of the uploading and the deleting service: the canonical layout,
      behind "urn:uuid:", between two characters meant to be braces, or without its hyphens. */
  function ParsedId(s: string): Option<string> {
    if |s| == 36 then Hyphenated(s)
    else if |s| == 45 && LowerAll(s[..9]) == "urn:uuid:" then Hyphenated(s[9..])
    else if |s| == 38 then Hyphenated(s[1..37])
    else if |s| == 32 then Hyphenated(s[..8] + "-" + s[8..12] + "-" + s[12..16] + "-" + s[16..20] + "-" + s[20..])
    else None
  }

  function Hyphenated(s: string): Option<string> {
    if P.IsUuid(s) then Some(LowerAll(s)) else None
  }

  /** What is parsed is what the id column gives back: lower case in the canonical layout; and the
      purger, which takes this layout alone, reads it as the same video. */
  lemma ParsedIsStored(requested: string)
    ensures ParsedId(requested).Some? ==>
              var id := ParsedId(requested).value;
              P.IsUuid(id) && LowerAll(id) == id && ParsedId(id) == Some(id) && P.Canonical(id) == Some(id)
    ensures P.Canonical(requested).Some? ==>
              ParsedId(P.TrimRight(P.TrimLeft(requested))) == P.Canonical(requested)
  {
    var s := requested;
    LowerIsStored(s);
    if |s| == 45 {
      LowerIsStored(s[9..]);
    } else if |s| == 38 {
      LowerIsStored(s[1..37]);
    } else if |s| == 32 {
      LowerIsStored(s[..8] + "-" + s[8..12] + "-" + s[12..16] + "-" + s[16..20] + "-" + s[20..]);
    }
  }

  function Hyphenless(u: string): string
    requires |u| == 36
  {
    u[..8] + u[9..13] + u[14..18] + u[19..23] + u[24..]
  }

  /** The spellings of an id: itself, behind "urn:uuid:" in any case, between any two characters,
      without hyphens. */
  ghost predicate Spells(s: string, u: string) {
    P.IsUuid(u) &&
    (|| s == u
     || (exists urn :: s == urn + u && LowerAll(urn) == "urn:uuid:")
     || (exists open, close :: s == [open] + u + [close])
     || s == Hyphenless(u))
  }

  /** Every spelling is read as the id it spells, and nothing else is read. */
  lemma SpellingsAreParsed(s: string, u: string)
    requires Spells(s, u)
    ensures ParsedId(s) == Some(LowerAll(u))
  {
    if urn :| s == urn + u && LowerAll(urn) == "urn:uuid:" {
      assert s[..9] == urn && s[9..] == u;
    } else if open, close :| s == [open] + u + [close] {
      assert s[1..37] == u;
    } else if s == Hyphenless(u) {
      assert s[..8] == u[..8] && s[8..12] == u[9..13] && s[12..16] == u[14..18];
      assert s[16..20] == u[19..23] && s[20..] == u[24..];
      assert u[..8] + "-" + u[9..13] + "-" + u[14..18] + "-" + u[19..23] + "-" + u[24..] == u;
    }
  }

  lemma OnlySpellingsAreParsed(s: string) returns (u: string)
    requires ParsedId(s).Some?
    ensures Spells(s, u)
  {
    if |s| == 36 {
      u := s;
    } else if |s| == 45 {
      u := s[9..];
      assert s == s[..9] + u;
    } else if |s| == 38 {
      u := s[1..37];
      assert s == [s[0]] + u + [s[37]];
    } else {
      u := s[..8] + "-" + s[8..12] + "-" + s[12..16] + "-" + s[16..20] + "-" + s[20..];
      assert u[9..13] == s[8..12] && u[14..18] == s[12..16] && u[19..23] == s[16..20] && u[24..] == s[20..];
      assert s == Hyphenless(u);
    }
  }

  lemma LowerIsStored(s: string)
    ensures Hyphenated(s).Some? ==>
              var id := Hyphenated(s).value;
              P.IsUuid(id) && LowerAll(id) == id && Hyphenated(id) == Some(id) && P.Canonical(id) == Some(id)
  {
    if P.IsUuid(s) {
      var id := LowerAll(s);
      assert forall i :: 0 <= i < 36 ==> id[i] == Lower(s[i]);
      assert LowerAll(id) == id;
      NothingAround(id);
    }
  }

  lemma NothingAround(id: string)
    requires P.IsUuid(id)
    ensures P.TrimRight(P.TrimLeft(id)) == id
  {
    assert P.HexDigit(id[0]) && P.HexDigit(id[35]);
  }

  /** However a request spells a video id, every object a writer creates for the video, in
      whatever version it is published, is below the prefixes its deletion removes. */
  lemma WritersStayBelowPrefix(
    requested: string, id: string, session: string, extension: string, version: string, file: seq<string>)
    requires ParsedId(requested) == Some(id)
    ensures P.IsUuid(id) && Within(RawPrefix(id), UploadName(id, session, extension))
    ensures var prefix := Fencing.PublishPrefix(id, version);
            prefix.Some? && file != [] ==> Within(ShardPrefix(id), Paths.Join(prefix.value + file))
  {
    ParsedIsStored(requested);
    assert LowerAll(id[..2]) == LowerAll(id)[..2];
    var prefix := Fencing.PublishPrefix(id, version);
    if prefix.Some? && file != [] {
      var rest := prefix.value[2..] + file;
      assert prefix.value + file == [id[..2], id] + rest;
      JoinTwo(id[..2], id, rest);
    }
  }

  lemma JoinTwo(a: string, b: string, rest: seq<string>)
    requires rest != []
    ensures Paths.Join([a, b] + rest) == a + "/" + b + "/" + Paths.Join(rest)
  {
    var all := [a, b] + rest;
    assert all[1..] == [b] + rest && all[1..][1..] == rest;
    assert a + "/" + (b + "/" + Paths.Join(rest)) == a + "/" + b + "/" + Paths.Join(rest);
  }

  // ---- Batches and pages ------------------------------------------------------------------------

  /** `partitionDeleteBatches`: every object in exactly one batch, in order, no batch too large. */
  method PartitionDeleteBatches(objects: seq<Key>, batchSize: int) returns (batches: seq<seq<Key>>)
    ensures batchSize <= 0 ==> batches == []
    ensures batchSize > 0 ==> Flat(batches) == objects
    ensures forall i :: 0 <= i < |batches| ==> 0 < |batches[i]| <= batchSize
  {
    if batchSize <= 0 || objects == [] {
      return [];
    }
    PiecesJoin(objects, batchSize);
    batches := Split(objects, batchSize);
  }

  datatype Upload = Upload(key: Key, id: string)

  datatype Marker = Marker(key: Key, id: string)

  /** One page of the bucket-wide listing; None is a request that failed. */
  datatype Page = Page(uploads: seq<Upload>, truncated: bool, next: Marker)

  function Below(prefix: string, uploads: seq<Upload>): seq<Upload> {
    if uploads == [] then []
    else (if Within(prefix, uploads[0].key) then [uploads[0]] else []) + Below(prefix, uploads[1..])
  }

  lemma {:induction false} BelowSplits(prefix: string, a: seq<Upload>, b: seq<Upload>)
    ensures Below(prefix, a + b) == Below(prefix, a) + Below(prefix, b)
    decreases |a|
  {
    if a == [] {
      assert a + b == b;
    } else {
      assert (a + b)[1..] == a[1..] + b;
      BelowSplits(prefix, a[1..], b);
    }
  }

  /** Everything on the pages up to and with the first complete one. */
  function Listed(pages: seq<Page>): seq<Upload> {
    if pages == [] then []
    else pages[0].uploads + if pages[0].truncated then Listed(pages[1..]) else []
  }

  /** Of a listing, exactly the uploads below the prefix are kept, in order and as often as listed. */
  lemma {:induction false} BelowExactly(prefix: string, uploads: seq<Upload>, u: Upload)
    ensures multiset(Below(prefix, uploads))[u] == if Within(prefix, u.key) then multiset(uploads)[u] else 0
    decreases |uploads|
  {
    if uploads != [] {
      assert uploads == [uploads[0]] + uploads[1..];
      BelowExactly(prefix, uploads[1..], u);
    }
  }

  /** An upload is listed exactly if it is on some page before which no page was the last. */
  lemma {:induction false} ListedExactly(pages: seq<Page>, u: Upload)
    ensures u in Listed(pages) <==>
            exists i :: 0 <= i < |pages| && u in pages[i].uploads && forall k :: 0 <= k < i ==> pages[k].truncated
    decreases |pages|
  {
    if pages != [] {
      var rest := pages[1..];
      ListedExactly(rest, u);
      assert forall i :: 0 < i < |pages| ==> rest[i - 1] == pages[i];
      assert forall i :: 0 <= i < |rest| ==> rest[i] == pages[i + 1];
      if u !in pages[0].uploads && u in Listed(pages) {
        var i :| 0 <= i < |rest| && u in rest[i].uploads && forall k :: 0 <= k < i ==> rest[k].truncated;
        assert u in pages[i + 1].uploads && forall k :: 0 <= k < i + 1 ==> pages[k].truncated;
      }
    }
  }

  /** A page that is the last one comes before the markers stop advancing. */
  predicate Advances(pages: seq<Page>, marker: Marker) {
    pages != [] && (!pages[0].truncated || (pages[0].next != marker && Advances(pages[1..], pages[0].next)))
  }

  /** The marker a page is asked for with. */
  function AskedWith(pages: seq<Page>, first: Marker, k: nat): Marker
    requires k < |pages|
  {
    if k == 0 then first else pages[k - 1].next
  }

  /** The listing comes to its end exactly if there is a last page and no page before it gives
      back the marker it was asked for with. */
  lemma {:induction false} AdvancesExactly(pages: seq<Page>, first: Marker, last: nat)
    requires last <= |pages| && forall k :: 0 <= k < last ==> pages[k].truncated
    requires last < |pages| ==> !pages[last].truncated
    ensures Advances(pages, first) <==>
            last < |pages| && forall k :: 0 <= k < last ==> pages[k].next != AskedWith(pages, first, k)
    decreases |pages|
  {
    if last > 0 {
      var rest := pages[1..];
      AdvancesExactly(rest, pages[0].next, last - 1);
      assert forall k :: 0 < k < last ==> AskedWith(pages, first, k) == AskedWith(rest, pages[0].next, k - 1);
      assert forall k :: 0 < k < last ==> pages[k] == rest[k - 1];
      assert AskedWith(pages, first, 0) == first;
    }
  }

  /** `listIncompleteUploads`: all uploads of the bucket that are below the prefix and no others,
      or an error; `pages` are the answers, and running out of them a request that failed. */
  method ListIncompleteUploads(prefix: string, pages: seq<Page>) returns (uploads: Option<seq<Upload>>)
    ensures uploads.Some? ==> uploads.value == Below(prefix, Listed(pages))
    ensures uploads.Some? <==> Advances(pages, Marker("", ""))
  {
    var found: seq<Upload> := [];
    var marker := Marker("", "");
    for i := 0 to |pages|
      invariant found + Below(prefix, Listed(pages[i..])) == Below(prefix, Listed(pages))
      invariant Advances(pages[i..], marker) <==> Advances(pages, Marker("", ""))
    {
      var page := pages[i];
      assert pages[i..][0] == page && pages[i..][1..] == pages[i + 1..];
      BelowSplits(prefix, page.uploads, if page.truncated then Listed(pages[i + 1..]) else []);
      found := found + Below(prefix, page.uploads);
      if !page.truncated {
        assert page.uploads + [] == page.uploads;
        return Some(found);
      }
      if page.next == marker {
        return None;
      }
      marker := page.next;
    }
    uploads := None;
  }
}
