/** The layout of a multipart upload: how many parts a file has, how large each is, which lists of
    stored parts are accepted as the whole file, and what completing the upload leaves behind. */
module Multipart {

  import opened Common
  import Arithmetic
  import Sorting

  const DEFAULT_PART: nat := 0x80_0000
  const MIN_PART: nat := 0x50_0000
  const MAX_PARTS: nat := 10000
  const MAX_UPLOAD: nat := 0x2_8000_0000

  datatype Part = Part(number: int, size: int, etag: string)

  // ---- Arithmetic ---------------------------------------------------------------------------

  /** Go's remainder, which has the sign of the dividend. */
  function Rem(a: int, b: int): int
    requires b > 0
  {
    if a >= 0 then a % b else -(-a % b)
  }

  /** `alignTo`: for sizes that are not negative, the least multiple that is not smaller. */
  function AlignTo(size: int, multiple: int): (aligned: int)
    ensures multiple <= 0 ==> aligned == size
    ensures multiple > 0 ==> aligned % multiple == 0 && size <= aligned
    ensures multiple > 0 ==> aligned < size + (if size >= 0 then multiple else 2 * multiple)
  {
    if multiple <= 0 then size
    else
      RoundsToMultiple(size, multiple);
      var rem := Rem(size, multiple);
      if rem == 0 then size else size + multiple - rem
  }

  lemma RoundsToMultiple(size: int, multiple: int)
    requires multiple > 0
    ensures (size - Rem(size, multiple)) % multiple == 0
    ensures (size + multiple - Rem(size, multiple)) % multiple == 0
  {
    var q := if size >= 0 then size / multiple else -(-size / multiple);
    assert size == multiple * q + Rem(size, multiple);
    assert size + multiple - Rem(size, multiple) == multiple * (q + 1);
    Arithmetic.MultipleHasNoRest(multiple, q);
    Arithmetic.MultipleHasNoRest(multiple, q + 1);
  }

  /** The part size that `CreateMultipartSession` chooses. */
  function ChosenPartSize(size: nat): (partSize: nat)
    requires size > 0
    ensures partSize >= MIN_PART
  {
    var needed := 1 + (size - 1) / MAX_PARTS;
    if needed > DEFAULT_PART then AlignTo(needed, MIN_PART) else DEFAULT_PART
  }

  function PartsIn(size: nat, partSize: nat): nat
    requires size > 0 && partSize > 0
  {
    1 + (size - 1) / partSize
  }

  /** `multipartPartCount` */
  function PartCount(size: int, partSize: int): Option<nat> {
    if size <= 0 || size > MAX_UPLOAD || partSize < MIN_PART || PartsIn(size, partSize) > MAX_PARTS then None
    else Some(PartsIn(size, partSize))
  }

  /** `multipartPartSize` */
  function PartSize(size: int, partSize: int, number: int): Option<int> {
    match PartCount(size, partSize)
    case None => None
    case Some(count) =>
      if number < 1 || number > count then None
      else if number < count then Some(partSize)
      else Some(size - (count - 1) * partSize)
  }

  /** The default part size while it is enough, and otherwise the least multiple of the minimum
      that is. */
  lemma ChosenIsLeast(size: nat)
    requires size > 0
    ensures size <= DEFAULT_PART * MAX_PARTS ==> ChosenPartSize(size) == DEFAULT_PART
    ensures size > DEFAULT_PART * MAX_PARTS ==>
              var chosen := ChosenPartSize(size);
              chosen % MIN_PART == 0 && (chosen - MIN_PART) * MAX_PARTS < size <= chosen * MAX_PARTS
  {
    var needed := PartsIn(size, MAX_PARTS);
    CountBounds(size, MAX_PARTS);
  }

  /** The file lies between count - 1 and count full parts. */
  lemma CountBounds(size: nat, partSize: nat)
    requires size > 0 && partSize > 0
    ensures (PartsIn(size, partSize) - 1) * partSize < size <= PartsIn(size, partSize) * partSize
  {
    var q, r := (size - 1) / partSize, (size - 1) % partSize;
    assert size - 1 == partSize * q + r;
    assert PartsIn(size, partSize) * partSize == partSize * q + partSize;
  }

  /** ... and that determines the count. */
  lemma CountIsUnique(size: nat, partSize: nat, n: nat)
    requires size > 0 && partSize > 0 && n > 0 && (n - 1) * partSize < size <= n * partSize
    ensures n == PartsIn(size, partSize)
  {
    var c := PartsIn(size, partSize);
    CountBounds(size, partSize);
    if n < c {
      Monotone(n, c - 1, partSize);
    } else if c < n {
      Monotone(c, n - 1, partSize);
    }
  }

  lemma Monotone(a: nat, b: nat, k: nat)
    requires a <= b
    ensures a * k <= b * k
  {
  }

  /** The chosen part size never needs more parts than storage allows, however large the file. */
  lemma ChosenSizeFits(size: nat)
    requires size > 0
    ensures PartsIn(size, ChosenPartSize(size)) <= MAX_PARTS
    ensures size <= MAX_UPLOAD ==> PartCount(size, ChosenPartSize(size)).Some?
  {
    var partSize := ChosenPartSize(size);
    CountBounds(size, MAX_PARTS);
    assert size <= partSize * MAX_PARTS;
    CountBounds(size, partSize);
    var c := PartsIn(size, partSize);
    if c > MAX_PARTS {
      Monotone(MAX_PARTS, c - 1, partSize);
    }
  }

  // ---- Layouts --------------------------------------------------------------------------------

  function Total(parts: seq<Part>): int {
    if parts == [] then 0 else Total(parts[..|parts| - 1]) + parts[|parts| - 1].size
  }

  /** Parts that make up exactly `size` bytes: full ones and then one that is not empty, numbered
      from 1, and all with an etag. */
  predicate Assembles(parts: seq<Part>, size: int, partSize: int) {
    && parts != [] && |parts| <= MAX_PARTS
    && (forall i :: 0 <= i < |parts| ==> parts[i].number == i + 1 && parts[i].etag != "")
    && (forall i :: 0 <= i < |parts| - 1 ==> parts[i].size == partSize)
    && 0 < parts[|parts| - 1].size <= partSize
    && Total(parts) == size
  }

  lemma {:induction false} FullPartsTotal(parts: seq<Part>, partSize: int)
    requires forall i :: 0 <= i < |parts| ==> parts[i].size == partSize
    ensures Total(parts) == |parts| * partSize
    decreases |parts|
  {
    if parts != [] {
      FullPartsTotal(parts[..|parts| - 1], partSize);
    }
  }

  /** What the validation loop has checked after `n` parts. */
  predicate AsExpected(parts: seq<Part>, size: int, partSize: int, n: nat) {
    n <= |parts| && forall i :: 0 <= i < n ==>
      && parts[i].number == i + 1 && PartSize(size, partSize, i + 1) == Some(parts[i].size) && parts[i].etag != ""
  }

  lemma LayoutAssembles(parts: seq<Part>, size: int, partSize: int)
    requires PartCount(size, partSize) == Some(|parts|) && AsExpected(parts, size, partSize, |parts|)
    ensures Assembles(parts, size, partSize)
  {
    var n := |parts|;
    CountBounds(size, partSize);
    var full, last := parts[..n - 1], parts[n - 1];
    forall i | 0 <= i < n - 1
      ensures full[i].size == partSize
    {
      assert PartSize(size, partSize, i + 1) == Some(partSize);
    }
    FullPartsTotal(full, partSize);
    assert PartSize(size, partSize, n) == Some(size - (n - 1) * partSize);
    assert n * partSize == (n - 1) * partSize + partSize;
  }

  lemma AssembledIsLayout(parts: seq<Part>, size: int, partSize: int)
    requires Assembles(parts, size, partSize) && 0 < size <= MAX_UPLOAD && partSize >= MIN_PART
    ensures PartCount(size, partSize) == Some(|parts|) && AsExpected(parts, size, partSize, |parts|)
  {
    var n := |parts|;
    FullPartsTotal(parts[..n - 1], partSize);
    assert n * partSize == (n - 1) * partSize + partSize;
    CountIsUnique(size, partSize, n);
  }

  /** `validateMultipartParts`: of all lists of parts it accepts exactly those that assemble to the
      session's size in the session's part size. */
  method ValidateMultipartParts(size: int, partSize: int, parts: seq<Part>) returns (ok: bool)
    ensures ok <==> 0 < size <= MAX_UPLOAD && partSize >= MIN_PART && Assembles(parts, size, partSize)
  {
    if 0 < size <= MAX_UPLOAD && partSize >= MIN_PART && Assembles(parts, size, partSize) {
      AssembledIsLayout(parts, size, partSize);
    }
    var count := PartCount(size, partSize);
    if count.None? || |parts| != count.value {
      return false;
    }
    for i := 0 to |parts|
      invariant AsExpected(parts, size, partSize, i)
    {
      if parts[i].number != i + 1 || PartSize(size, partSize, i + 1) != Some(parts[i].size) || parts[i].etag == "" {
        return false;
      }
    }
    LayoutAssembles(parts, size, partSize);
    ok := true;
  }

  /** There is always one layout to upload: the parts of the expected sizes. */
  lemma ExpectedPartsAreAccepted(size: nat, parts: seq<Part>)
    requires 0 < size <= MAX_UPLOAD
    requires PartCount(size, ChosenPartSize(size)) == Some(|parts|)
    requires AsExpected(parts, size, ChosenPartSize(size), |parts|)
    ensures Assembles(parts, size, ChosenPartSize(size)) && |parts| <= MAX_PARTS && Total(parts) == size
  {
    LayoutAssembles(parts, size, ChosenPartSize(size));
  }

  // ---- Listing ----------------------------------------------------------------------------------

  const PAGE: nat := 1000

  predicate Listable(stored: seq<Part>) {
    && (forall i :: 0 <= i < |stored| ==> stored[i].number >= 1)
    && (forall i, j :: 0 <= i < j < |stored| ==> stored[i].number < stored[j].number)
  }

  /** How many of the stored parts have a number up to the marker. */
  function Behind(stored: seq<Part>, marker: int): (n: nat)
    ensures n <= |stored| && (n < |stored| ==> stored[n].number > marker)
    ensures forall i :: 0 <= i < n ==> stored[i].number <= marker
  {
    if stored == [] || stored[0].number > marker then 0
    else
      assert forall i :: 0 < i < |stored| ==> stored[i] == stored[1..][i - 1];
      1 + Behind(stored[1..], marker)
  }

  datatype Page = Page(parts: seq<Part>, truncated: bool, next: int)

  /** One answer of storage: the parts behind the marker, `PAGE` of them at most. */
  function ListObjectParts(stored: seq<Part>, marker: int): Page {
    var from := Behind(stored, marker);
    if from + PAGE < |stored| then Page(stored[from..from + PAGE], true, stored[from + PAGE - 1].number)
    else Page(stored[from..], false, 0)
  }

  lemma BehindAt(stored: seq<Part>, k: nat)
    requires Listable(stored) && k < |stored|
    ensures Behind(stored, stored[k].number) == k + 1
  {
    assert forall i :: 0 <= i <= k ==> stored[i].number <= stored[k].number;
    assert forall i :: k < i < |stored| ==> stored[i].number > stored[k].number;
  }

  function ByNumber(p: Part): int {
    p.number
  }

  lemma FullPage(stored: seq<Part>, from: nat, marker: int)
    requires Listable(stored) && from == Behind(stored, marker) && ListObjectParts(stored, marker).truncated
    ensures var page := ListObjectParts(stored, marker);
            && page.next >= 1 && from + PAGE < |stored| && Behind(stored, page.next) == from + PAGE
            && stored[..from] + page.parts == stored[..from + PAGE]
  {
    BehindAt(stored, from + PAGE - 1);
  }

  lemma LastPage(stored: seq<Part>, from: nat, marker: int)
    requires from == Behind(stored, marker) && !ListObjectParts(stored, marker).truncated
    ensures stored[..from] + ListObjectParts(stored, marker).parts == stored
  {
  }

  /** The paging loop of `listMultipartParts`. */
  method ListPages(stored: seq<Part>) returns (parts: seq<Part>)
    requires Listable(stored)
    ensures parts == stored
  {
    parts := [];
    var marker, more := 0, true;
    ghost var from := Behind(stored, 0);
    assert from == 0;
    while more
      invariant if more then from == Behind(stored, marker) && parts == stored[..from] else parts == stored
      decreases |stored| - from, more
    {
      var page := ListObjectParts(stored, marker);
      if page.truncated {
        FullPage(stored, from, marker);
      } else {
        LastPage(stored, from, marker);
      }
      parts := parts + page.parts;
      marker := page.next;
      more := page.truncated && marker > 0;
      if more {
        from := from + PAGE;
      }
    }
  }

  /** `listMultipartParts`: all stored parts, in order. */
  method ListMultipartParts(stored: seq<Part>) returns (parts: seq<Part>)
    requires Listable(stored)
    ensures parts == stored
  {
    parts := ListPages(stored);
    Sorting.SortsNothing(stored, ByNumber);
    parts := Sorting.Sort(parts, ByNumber);
  }

  // ---- Completing ---------------------------------------------------------------------------------

  /** How the storage calls of one completion go: a look at the object or the listing may fail,
      and the completion may take effect and still report an error, or report no size. */
  datatype Faults = Faults(
    firstStat: bool, listing: bool, lost: bool, reported: bool, sized: bool, secondStat: bool, byOther: bool)

  /** The completion takes effect, by this request or by another one. */
  predicate Takes(faults: Faults) {
    faults.byOther || !faults.lost
  }

  /** A completion is asked for: no object was seen, and the listed parts are the whole file. */
  predicate Reaches(file: Option<int>, parts: Option<seq<Part>>, size: int, partSize: int, faults: Faults) {
    !(file.Some? && faults.firstStat) && faults.listing && Uploaded(parts, size, partSize)
  }

  predicate NothingFails(faults: Faults) {
    faults.firstStat && faults.listing && !faults.lost && faults.reported && faults.secondStat && !faults.byOther
  }

  predicate Uploaded(parts: Option<seq<Part>>, size: int, partSize: int) {
    parts.Some? && 0 < size <= MAX_UPLOAD && partSize >= MIN_PART && Assembles(parts.value, size, partSize)
  }

  datatype Completion = Completed(size: int) | Mismatch | Failed

  /** The object and the upload of one session. */
  class Upload {
    var file: Option<int>
    var parts: Option<seq<Part>>

    ghost predicate Valid()
      reads this
    {
      parts.Some? ==> Listable(parts.value)
    }

    constructor ()
      ensures Valid() && file == None && parts == Some([])
    {
      file, parts := None, Some([]);
    }

    /** `CompleteMultipartUpload`: storage puts the named parts together; it knows no upload that
        somebody else has completed meanwhile. */
    method CompleteUpload(named: seq<Part>, faults: Faults) returns (reported: Option<int>)
      requires Valid() && parts == Some(named)
      modifies this
      ensures Valid()
      ensures file == (if Takes(faults) then Some(Total(named)) else old(file))
      ensures parts == if Takes(faults) then None else old(parts)
      ensures reported == if !Takes(faults) || faults.byOther || !faults.reported then None
                          else Some(if faults.sized then Total(named) else 0)
      ensures reported.Some? ==> file == Some(Total(named)) && reported.value in {0, Total(named)}
      ensures NothingFails(faults) ==> reported.Some?
    {
      if faults.byOther {
        file, parts := Some(Total(named)), None;
        return None;
      }
      if faults.lost {
        return None;
      }
      file, parts := Some(Total(named)), None;
      reported := if !faults.reported then None else Some(if faults.sized then Total(named) else 0);
    }

    method Compare(size: int) returns (r: Completion)
      requires file.Some?
      ensures r == if file.value == size then Completed(size) else Mismatch
    {
      r := if file.value != size then Mismatch else Completed(file.value);
    }

    /** `ensureMultipartCompleted`: it succeeds only with the object stored at exactly the size of
        the session, also if the object was there before, if somebody else completed the upload,
        or if storage reported a failure for a completion that took effect. */
    method EnsureMultipartCompleted(size: int, partSize: int, faults: Faults) returns (r: Completion)
      requires Valid()
      modifies this
      ensures Valid()
      ensures r.Completed? ==> r.size == size && file == Some(size)
      ensures old(file).Some? ==> file.Some?
      // The object changes exactly if the completion of a correct list of parts takes effect, and
      // it succeeds exactly if it sees the object at the size of the session.
      ensures file == if Reaches(old(file), old(parts), size, partSize, faults) && Takes(faults) then Some(size)
                      else old(file)
      ensures r.Completed? <==>
                && file == Some(size)
                && if old(file).Some? && faults.firstStat then true
                   else
                     Reaches(old(file), old(parts), size, partSize, faults) &&
                     (faults.secondStat || (Takes(faults) && !faults.byOther && faults.reported && faults.sized))
      // Nothing but a failed call or a wrong list of parts keeps it from succeeding.
      ensures NothingFails(faults) && old(file) == Some(size) ==> r == Completed(size)
      ensures NothingFails(faults) && old(file).None? && Uploaded(old(parts), size, partSize) ==> r == Completed(size)
      // A mismatch means an object of another size that was there before, or a wrong list of parts.
      ensures r.Mismatch? <==>
                if old(file).Some? && faults.firstStat then old(file) != Some(size)
                else
                  old(parts).Some? && faults.listing &&
                  (!Uploaded(old(parts), size, partSize) ||
                   (file.Some? && file != Some(size) && faults.lost && !faults.byOther && faults.secondStat))
      ensures r.Mismatch? ==> file == old(file)
      ensures r.Mismatch? && file.Some? ==> file != Some(size) || !Uploaded(old(parts), size, partSize)
      ensures old(file) != file ==> file == Some(size)
    {
      if file.Some? && faults.firstStat {
        r := Compare(size);
        return;
      }
      if parts.None? || !faults.listing {
        return Failed;
      }
      var named := ListMultipartParts(parts.value);
      var ok := ValidateMultipartParts(size, partSize, named);
      if !ok {
        return Mismatch;
      }
      var reported := CompleteUpload(named, faults);
      if reported.None? {
        if file.None? || !faults.secondStat {
          return Failed;
        }
        r := Compare(size);
        return;
      }
      if reported.value == 0 {
        if !faults.secondStat {
          return Failed;
        }
        r := Compare(size);
        return;
      }
      r := if reported.value != size then Mismatch else Completed(reported.value);
    }
  }
}
