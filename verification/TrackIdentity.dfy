/** Path-safe, distinct identities and distinct display names for the tracks of one container,
    and finding an identity again in the path of a track's output. */
module TrackIdentity {

  import opened Common
  import opened Paths

  // ---- Decimal suffixes ------------------------------------------------------------------------

  function Digit(n: nat): char
    requires n < 10
  {
    ('0' as int + n) as char
  }

  function Decimal(n: nat): (s: string)
    ensures s != "" && forall i :: 0 <= i < |s| ==> '0' <= s[i] <= '9'
  {
    if n < 10 then [Digit(n)] else Decimal(n / 10) + [Digit(n % 10)]
  }

  lemma {:induction false} DecimalsDiffer(a: nat, b: nat)
    requires Decimal(a) == Decimal(b)
    ensures a == b
    decreases a
  {
    var s := Decimal(a);
    assert s[|s| - 1] == Digit(a % 10) == Digit(b % 10);
    assert s[..|s| - 1] == (if a < 10 then "" else Decimal(a / 10)) == if b < 10 then "" else Decimal(b / 10);
    if a >= 10 && b >= 10 {
      DecimalsDiffer(a / 10, b / 10);
    }
  }

  function Pow10(d: nat): nat {
    if d == 0 then 1 else 10 * Pow10(d - 1)
  }

  lemma {:induction false} DecimalLength(n: nat, d: nat)
    requires 0 < d && n < Pow10(d)
    ensures |Decimal(n)| <= d
    decreases d
  {
    if n >= 10 {
      assert d > 1;
      DecimalLength(n / 10, d - 1);
    }
  }

  // ---- Language tags and path tokens -------------------------------------------------------------

  predicate LowerAlnum(c: char) {
    '0' <= c <= '9' || 'a' <= c <= 'z'
  }

  predicate Alnum(c: char) {
    LowerAlnum(c) || 'A' <= c <= 'Z'
  }

  /** Words of lower-case letters and digits with single separators between them. */
  predicate IsWords(s: string, separator: char) {
    && s != "" && LowerAlnum(s[0]) && LowerAlnum(s[|s| - 1])
    && (forall i :: 0 <= i < |s| ==> LowerAlnum(s[i]) || s[i] == separator)
    && (forall i :: 0 < i < |s| && s[i] == separator ==> LowerAlnum(s[i - 1]))
  }

  /** The pattern of a track id. */
  predicate IsTrackId(s: string) {
    IsWords(s, '_')
  }

  function Parts(s: string): (parts: seq<string>)
    ensures parts != []
  {
    if s == "" then [""]
    else
      var rest := Parts(s[1..]);
      if s[0] == '-' || s[0] == '_' then [""] + rest else [[s[0]] + rest[0]] + rest[1..]
  }

  predicate ValidPart(part: string) {
    1 <= |part| <= 8 && forall i :: 0 <= i < |part| ==> Alnum(part[i])
  }

  /** As many of the parts, each behind a dash, as fit ten characters in all. */
  function FitTen(tag: string, parts: seq<string>): (r: string)
    requires |tag| <= 10
    ensures |r| <= 10 && tag <= r
    decreases |parts|
  {
    if parts == [] || |tag| + 1 + |parts[0]| > 10 then tag
    else
      var longer := tag + "-" + parts[0];
      assert tag <= longer;
      FitTen(longer, parts[1..])
  }

  /** `normalize_track_language`, on a value that is already stripped of white space. */
  function NormalizeLanguage(candidate: string): (tag: string)
    ensures |tag| <= 10
  {
    var parts := Parts(candidate);
    if exists i :: 0 <= i < |parts| && !ValidPart(parts[i]) then "und"
    else LowerAll(FitTen(parts[0], parts[1..]))
  }

  lemma {:induction false} FitTenIsWords(tag: string, parts: seq<string>)
    requires |tag| <= 10 && IsWords(LowerAll(tag), '-')
    requires forall i :: 0 <= i < |parts| ==> ValidPart(parts[i])
    ensures IsWords(LowerAll(FitTen(tag, parts)), '-')
    decreases |parts|
  {
    if parts != [] && |tag| + 1 + |parts[0]| <= 10 {
      var longer := tag + "-" + parts[0];
      WordAppended(tag, parts[0]);
      FitTenIsWords(longer, parts[1..]);
    }
  }

  lemma WordAppended(tag: string, part: string)
    requires IsWords(LowerAll(tag), '-') && ValidPart(part)
    ensures IsWords(LowerAll(tag + "-" + part), '-')
  {
    var s := LowerAll(tag + "-" + part);
    assert s == LowerAll(tag) + "-" + LowerAll(part);
    assert forall i :: 0 <= i < |part| ==> LowerAlnum(LowerAll(part)[i]);
    assert s[0] == LowerAll(tag)[0] && s[|s| - 1] == LowerAll(part)[|part| - 1];
    forall i | 0 <= i < |s|
      ensures LowerAlnum(s[i]) || s[i] == '-'
      ensures i > 0 && s[i] == '-' ==> LowerAlnum(s[i - 1])
    {
      if i < |tag| {
        assert s[i] == LowerAll(tag)[i] && (i > 0 ==> s[i - 1] == LowerAll(tag)[i - 1]);
      } else if i == |tag| {
        assert s[i - 1] == LowerAll(tag)[|tag| - 1];
      } else {
        assert s[i] == LowerAll(part)[i - |tag| - 1];
      }
    }
  }

  /** Every language that is stored is a well-formed lower-case tag of at most ten characters. */
  lemma LanguageIsWords(candidate: string)
    ensures IsWords(NormalizeLanguage(candidate), '-')
  {
    var parts := Parts(candidate);
    if forall i :: 0 <= i < |parts| ==> ValidPart(parts[i]) {
      assert ValidPart(parts[0]);
      assert forall i :: 0 <= i < |parts[0]| ==> LowerAlnum(LowerAll(parts[0])[i]);
      FitTenIsWords(parts[0], parts[1..]);
    }
  }

  predicate Separates(c: char) {
    c == '-' || c == '_'
  }

  function Dashed(s: string): string {
    seq(|s|, i requires 0 <= i < |s| => if s[i] == '_' then '-' else s[i])
  }

  function Joined(words: seq<string>, separator: char): string {
    if words == [] then ""
    else if |words| == 1 then words[0]
    else words[0] + [separator] + Joined(words[1..], separator)
  }

  /** The parts are what stands between the dashes and underscores. */
  lemma {:induction false} PartsBetweenDashes(s: string)
    ensures Joined(Parts(s), '-') == Dashed(s)
    ensures forall i, j :: 0 <= i < |Parts(s)| && 0 <= j < |Parts(s)[i]| ==> !Separates(Parts(s)[i][j])
    decreases |s|
  {
    if s != "" {
      var rest := Parts(s[1..]);
      PartsBetweenDashes(s[1..]);
      assert Dashed(s) == Dashed(s[..1]) + Dashed(s[1..]);
      if Separates(s[0]) {
        assert ([""] + rest)[1..] == rest;
        assert "" + "-" + Joined(rest, '-') == Dashed(s);
      } else {
        assert ([[s[0]] + rest[0]] + rest[1..])[1..] == rest[1..];
        assert |rest| > 1 ==>
                 [s[0]] + (rest[0] + "-" + Joined(rest[1..], '-')) == [s[0]] + rest[0] + "-" + Joined(rest[1..], '-');
      }
    }
  }

  /** Appending a part to the joined ones. */
  lemma {:induction false} JoinedAppends(words: seq<string>, word: string, separator: char)
    requires words != []
    ensures Joined(words + [word], separator) == Joined(words, separator) + [separator] + word
    decreases |words|
  {
    if |words| == 1 {
      assert words + [word] == [words[0], word];
      assert [words[0], word][1..] == [word];
    } else {
      JoinedAppends(words[1..], word, separator);
      assert (words + [word])[1..] == words[1..] + [word];
      assert words[0] + [separator] + (Joined(words[1..], separator) + [separator] + word) ==
             words[0] + [separator] + Joined(words[1..], separator) + [separator] + word;
    }
  }

  /** The first `taken` parts are kept, and one more would be too long. */
  predicate LongestTag(parts: seq<string>, taken: nat) {
    && 0 < taken <= |parts| && |Joined(parts[..taken], '-')| <= 10
    && (taken < |parts| ==> |Joined(parts[..taken + 1], '-')| > 10)
  }

  lemma {:induction false} FitTenTakes(parts: seq<string>, taken: nat) returns (kept: nat)
    requires 0 < taken <= |parts| && |Joined(parts[..taken], '-')| <= 10
    ensures LongestTag(parts, kept) && FitTen(Joined(parts[..taken], '-'), parts[taken..]) == Joined(parts[..kept], '-')
    decreases |parts| - taken
  {
    var tag := Joined(parts[..taken], '-');
    if taken < |parts| {
      JoinedAppends(parts[..taken], parts[taken], '-');
      assert parts[..taken + 1] == parts[..taken] + [parts[taken]];
      assert tag + "-" + parts[taken] == Joined(parts[..taken + 1], '-');
    }
    if taken == |parts| || |tag| + 1 + |parts[taken]| > 10 {
      kept := taken;
    } else {
      kept := FitTenTakes(parts, taken + 1);
      assert parts[taken..][1..] == parts[taken + 1..];
    }
  }

  /** The stored language has as many whole parts of a valid tag as fit the column, in lower
      case; anything else is "und". */
  lemma LanguageIsLongestTag(candidate: string) returns (kept: nat)
    ensures var parts := Parts(candidate);
            if forall i :: 0 <= i < |parts| ==> ValidPart(parts[i]) then
              LongestTag(parts, kept) && NormalizeLanguage(candidate) == LowerAll(Joined(parts[..kept], '-'))
            else NormalizeLanguage(candidate) == "und"
  {
    var parts := Parts(candidate);
    if forall i :: 0 <= i < |parts| ==> ValidPart(parts[i]) {
      assert ValidPart(parts[0]) && parts[..1] == [parts[0]];
      assert Joined(parts[..1], '-') == parts[0];
      kept := FitTenTakes(parts, 1);
    } else {
      kept := 0;
    }
  }

  // ---- Squeezing ---------------------------------------------------------------------------------

  /** Runs of unwanted characters become one separator, none at the ends. */
  function Squeezed(s: string, wanted: char -> bool, shown: char -> char, separator: char, afterWord: bool): string
    decreases |s|
  {
    if s == "" then ""
    else if wanted(s[0]) then [shown(s[0])] + Squeezed(s[1..], wanted, shown, separator, true)
    else if afterWord && (exists i :: 0 <= i < |s| && wanted(s[i])) then
      [separator] + Squeezed(s[1..], wanted, shown, separator, false)
    else Squeezed(s[1..], wanted, shown, separator, false)
  }

  /** One step, when there is a word to come. */
  lemma SqueezedStep(
    s: string, wanted: char -> bool, shown: char -> char, separator: char, afterWord: bool)
    requires s != "" && wanted(s[|s| - 1])
    ensures Squeezed(s, wanted, shown, separator, afterWord) ==
            (if wanted(s[0]) then [shown(s[0])] else if afterWord then [separator] else "") +
            Squeezed(s[1..], wanted, shown, separator, wanted(s[0]))
  {
  }

  function ShownAll(s: string, shown: char -> char): string {
    seq(|s|, i requires 0 <= i < |s| => shown(s[i]))
  }

  function ShownWords(words: seq<string>, shown: char -> char): seq<string> {
    seq(|words|, i requires 0 <= i < |words| => ShownAll(words[i], shown))
  }

  /** The words with the gaps around them. */
  function Spread(words: seq<string>, gaps: seq<string>): string
    requires |gaps| == |words| + 1
  {
    if words == [] then gaps[0] else gaps[0] + words[0] + Spread(words[1..], gaps[1..])
  }

  predicate AllOf(s: string, good: char -> bool) {
    forall i :: 0 <= i < |s| ==> good(s[i])
  }

  predicate NoneOf(s: string, good: char -> bool) {
    forall i :: 0 <= i < |s| ==> !good(s[i])
  }

  /** Text as words of wanted characters with gaps of the others, none of them empty but perhaps
      the first and the last. */
  predicate WordsAndGaps(words: seq<string>, gaps: seq<string>, wanted: char -> bool) {
    && |gaps| == |words| + 1
    && (forall i :: 0 <= i < |words| ==> words[i] != "" && AllOf(words[i], wanted))
    && (forall i :: 0 <= i < |gaps| ==> NoneOf(gaps[i], wanted) && (0 < i < |words| ==> gaps[i] != ""))
  }

  /** Any text is words and gaps. */
  lemma {:induction false} TextIsWords(s: string, wanted: char -> bool) returns (words: seq<string>, gaps: seq<string>)
    ensures WordsAndGaps(words, gaps, wanted) && Spread(words, gaps) == s
    decreases |s|
  {
    if s == "" {
      return [], [""];
    }
    var w, g := TextIsWords(s[1..], wanted);
    assert s == [s[0]] + s[1..];
    if !wanted(s[0]) {
      words, gaps := w, [[s[0]] + g[0]] + g[1..];
    } else if w != [] && g[0] == "" {
      words, gaps := [[s[0]] + w[0]] + w[1..], g;
    } else {
      words, gaps := [[s[0]]] + w, [""] + g;
      assert words[1..] == w && gaps[1..] == g;
    }
  }

  lemma {:induction false} SqueezedGap(
    gap: string, rest: string, wanted: char -> bool, shown: char -> char, separator: char)
    requires NoneOf(gap, wanted)
    ensures Squeezed(gap + rest, wanted, shown, separator, false) == Squeezed(rest, wanted, shown, separator, false)
    decreases |gap|
  {
    if gap == "" {
      assert gap + rest == rest;
    } else {
      assert (gap + rest)[1..] == gap[1..] + rest;
      SqueezedGap(gap[1..], rest, wanted, shown, separator);
    }
  }

  lemma {:induction false} SqueezedWord(
    word: string, rest: string, wanted: char -> bool, shown: char -> char, separator: char, afterWord: bool)
    requires word != "" && AllOf(word, wanted)
    ensures Squeezed(word + rest, wanted, shown, separator, afterWord) ==
            ShownAll(word, shown) + Squeezed(rest, wanted, shown, separator, true)
    decreases |word|
  {
    assert (word + rest)[1..] == word[1..] + rest;
    assert ShownAll(word, shown) == [shown(word[0])] + ShownAll(word[1..], shown);
    if |word| == 1 {
      assert word[1..] + rest == rest;
    } else {
      SqueezedWord(word[1..], rest, wanted, shown, separator, true);
    }
  }

  /** Squeezing keeps the words, each character as it is to be shown, and joins them with single
      separators. */
  lemma {:induction false} SqueezingJoinsWords(
    words: seq<string>, gaps: seq<string>, wanted: char -> bool, shown: char -> char, separator: char)
    requires WordsAndGaps(words, gaps, wanted)
    ensures Squeezed(Spread(words, gaps), wanted, shown, separator, false) == Joined(ShownWords(words, shown), separator)
    decreases |words|
  {
    if words == [] {
      assert gaps[0] + "" == gaps[0];
      SqueezedGap(gaps[0], "", wanted, shown, separator);
    } else {
      var rest := Spread(words[1..], gaps[1..]);
      SqueezingJoinsWords(words[1..], gaps[1..], wanted, shown, separator);
      assert gaps[0] + words[0] + rest == gaps[0] + (words[0] + rest);
      SqueezedGap(gaps[0], words[0] + rest, wanted, shown, separator);
      SqueezedWord(words[0], rest, wanted, shown, separator, false);
      assert ShownWords(words, shown)[1..] == ShownWords(words[1..], shown);
      if |words| == 1 {
        NothingFollows(rest, wanted, shown, separator);
      } else {
        assert rest == gaps[1] + words[1] + Spread(words[1..][1..], gaps[1..][1..]);
        assert rest[0] == gaps[1][0] && rest[|gaps[1]|] == words[1][0];
      }
    }
  }

  lemma {:induction false} NothingFollows(gap: string, wanted: char -> bool, shown: char -> char, separator: char)
    requires NoneOf(gap, wanted)
    ensures forall after :: Squeezed(gap, wanted, shown, separator, after) == ""
    decreases |gap|
  {
    if gap != "" {
      NothingFollows(gap[1..], wanted, shown, separator);
    }
  }

  function Itself(c: char): char {
    c
  }

  /** `_path_token` on text that is ASCII and lower-case already: runs of anything else become
      one underscore, none at the ends. */
  function Collapse(s: string): string {
    Squeezed(s, LowerAlnum, Itself, '_', false)
  }

  function PathToken(s: string): (token: string)
    ensures token != ""
  {
    var token := Collapse(s);
    var cut := if |token| > 64 then token[..64] else token;
    if cut == "" then "und" else cut
  }

  function Underscored(s: string): string {
    seq(|s|, i requires 0 <= i < |s| => if s[i] == '-' then '_' else s[i])
  }

  lemma {:induction false} CollapseWords(s: string, afterWord: bool)
    requires s != "" && LowerAlnum(s[|s| - 1])
    requires forall i :: 0 <= i < |s| ==> LowerAlnum(s[i]) || s[i] == '-'
    requires forall i :: 0 < i < |s| && s[i] == '-' ==> LowerAlnum(s[i - 1])
    requires afterWord || LowerAlnum(s[0])
    ensures Squeezed(s, LowerAlnum, Itself, '_', afterWord) == Underscored(s)
    decreases |s|
  {
    SqueezedStep(s, LowerAlnum, Itself, '_', afterWord);
    assert Underscored(s) == Underscored(s[..1]) + Underscored(s[1..]);
    if |s| > 1 {
      CollapseWords(s[1..], LowerAlnum(s[0]));
    }
  }

  lemma TokenOfLanguage(tag: string)
    requires IsWords(tag, '-') && |tag| <= 10
    ensures PathToken(tag) == Underscored(tag) && IsTrackId(PathToken(tag)) && |PathToken(tag)| <= 10
  {
    CollapseWords(tag, false);
  }

  // ---- Identities ----------------------------------------------------------------------------------

  function Candidate(base: string, suffix: nat): string {
    if suffix <= 1 then base else base + "_" + Decimal(suffix)
  }

  lemma CandidateIsTrackId(base: string, suffix: nat)
    requires IsTrackId(base)
    ensures IsTrackId(Candidate(base, suffix))
  {
    if suffix > 1 {
      var d := Decimal(suffix);
      var s := base + "_" + d;
      forall i | 0 <= i < |s|
        ensures LowerAlnum(s[i]) || s[i] == '_'
        ensures i > 0 && s[i] == '_' ==> LowerAlnum(s[i - 1])
      {
        if i > |base| {
          assert s[i] == d[i - |base| - 1];
        }
      }
      assert s[|s| - 1] == d[|d| - 1];
    }
  }

  lemma CandidatesDiffer(base: string, a: nat, b: nat)
    requires 1 <= a < b
    ensures Candidate(base, a) != Candidate(base, b)
  {
    var x, y := Candidate(base, a), Candidate(base, b);
    assert y[|base| + 1..] == Decimal(b);
    if a > 1 && x == y {
      assert x[|base| + 1..] == Decimal(a);
      DecimalsDiffer(a, b);
    }
  }

  /** The first suffix from `ordinal` on whose candidate is not taken. */
  ghost predicate FirstFree(taken: set<string>, base: string, ordinal: nat, suffix: nat) {
    && ordinal <= suffix && Candidate(base, suffix) !in taken
    && forall k :: ordinal <= k < suffix ==> Candidate(base, k) in taken
  }

  /** The first search of `assign_track_identities`. It ends because all candidates differ. */
  method FreeIdentity(used: set<string>, base: string, ordinal: nat) returns (id: string, suffix: nat)
    requires ordinal >= 1
    ensures FirstFree(used, base, ordinal, suffix) && id == Candidate(base, suffix)
    ensures suffix <= ordinal + |used|
  {
    suffix := ordinal;
    id := if ordinal == 1 then base else base + "_" + Decimal(ordinal);
    ghost var tried: set<string> := {};
    while id in used
      invariant suffix >= ordinal && id == Candidate(base, suffix)
      invariant tried <= used && |tried| == suffix - ordinal
      invariant forall k :: ordinal <= k < suffix ==> Candidate(base, k) in tried
      invariant forall t :: t in tried ==> exists k :: ordinal <= k < suffix && t == Candidate(base, k)
      decreases |used| - |tried|
    {
      if id in tried {
        var k :| ordinal <= k < suffix && id == Candidate(base, k);
        CandidatesDiffer(base, k, suffix);
        assert false;
      }
      SmallerSet(tried + {id}, used);
      tried := tried + {id};
      suffix := suffix + 1;
      id := base + "_" + Decimal(suffix);
    }
    SmallerSet(tried, used);
  }

  lemma SmallerSet<T>(a: set<T>, b: set<T>)
    requires a <= b
    ensures |a| <= |b|
  {
    if a != b {
      assert b == a + (b - a);
    }
  }

  /** `safe_track_identity` on stripped text. */
  function SafeTrackIdentity(value: string, language: string, streamIndex: Option<int>): string {
    var supplied := LowerAll(value);
    if supplied != "" && |supplied| <= 64 && IsTrackId(supplied) then supplied
    else
      var base := PathToken(NormalizeLanguage(language));
      if streamIndex.None? || streamIndex.value <= 0 then base
      else base + "_stream_" + Decimal(streamIndex.value + 1)
  }

  lemma LowerIdentity(id: string)
    requires IsTrackId(id)
    ensures LowerAll(id) == id
  {
    assert forall i :: 0 <= i < |id| ==> LowerAll(id)[i] == id[i];
  }

  /** The number behind a stream index has at most 46 digits, so that an id made up from it has
      at most 64 characters. */
  predicate SmallIndex(streamIndex: Option<int>) {
    streamIndex.None? || streamIndex.value + 1 < Pow10(46)
  }

  /** A dispatched identity is accepted as it is, whatever else the message says, exactly if it is
      not too long. */
  lemma FixedPoint(id: string, language: string, streamIndex: Option<int>)
    requires IsTrackId(id)
    ensures |id| <= 64 ==> SafeTrackIdentity(id, language, streamIndex) == id
    ensures |id| > 64 && SmallIndex(streamIndex) ==> SafeTrackIdentity(id, language, streamIndex) != id
  {
    LowerIdentity(id);
    LanguageIsWords(language);
    TokenOfLanguage(NormalizeLanguage(language));
    if |id| > 64 && SmallIndex(streamIndex) && streamIndex.Some? && streamIndex.value > 0 {
      DecimalLength(streamIndex.value + 1, 46);
    }
  }

  // ---- Display names -------------------------------------------------------------------------------

  const MAX_NAME: nat := 255

  /** What Python's `str.split()` splits at. */
  predicate IsSpace(c: char) {
    || '\t' <= c <= '\r' || '\U{1C}' <= c <= ' ' || c in {'\U{85}', '\U{A0}', '\U{1680}'}
    || '\U{2000}' <= c <= '\U{200A}' || c in {'\U{2028}', '\U{2029}', '\U{202F}', '\U{205F}', '\U{3000}'}
  }

  function Quoted(c: char): char {
    if c == '\\' then '/' else if c == '"' then '\'' else c
  }

  predicate InWord(c: char) {
    !IsSpace(c)
  }

  /** The words of the text with single blanks between them, backslashes and quotes replaced. */
  function Tidy(s: string): string {
    Squeezed(s, InWord, Quoted, ' ', false)
  }

  /** Safe inside the quotes of a playlist attribute. */
  predicate Quotable(s: string) {
    forall i :: 0 <= i < |s| ==> s[i] != '"' && s[i] != '\\' && (IsSpace(s[i]) ==> s[i] == ' ')
  }

  lemma {:induction false} SqueezedIsQuotable(s: string, afterWord: bool)
    ensures Quotable(Squeezed(s, InWord, Quoted, ' ', afterWord))
    decreases |s|
  {
    if s != "" {
      SqueezedIsQuotable(s[1..], true);
      SqueezedIsQuotable(s[1..], false);
    }
  }

  lemma TidyIsQuotable(s: string)
    ensures Quotable(Tidy(s))
  {
    SqueezedIsQuotable(s, false);
  }

  /** Python's `s[:n]`. */
  function Upto(s: string, n: int): (r: string)
    ensures r <= s && (n >= 0 ==> |r| <= n)
  {
    if n < 0 then (if |s| + n <= 0 then "" else s[..|s| + n])
    else if n < |s| then s[..n] else s
  }

  /** `hls_attribute` */
  function Attribute(value: string, fallback: string): string {
    var text := Upto(Tidy(if value == "" then fallback else value), MAX_NAME);
    if text == "" then fallback else text
  }

  /** An attribute has the words of its value, or of the fallback where there is no value, up to
      255 characters; without any word it is the fallback. */
  lemma AttributeKeepsWords(value: string, fallback: string, words: seq<string>, gaps: seq<string>)
    requires WordsAndGaps(words, gaps, InWord)
    requires Spread(words, gaps) == if value == "" then fallback else value
    ensures var text := Joined(ShownWords(words, Quoted), ' ');
            Attribute(value, fallback) == if text == "" then fallback else if |text| <= MAX_NAME then text else text[..MAX_NAME]
  {
    SqueezingJoinsWords(words, gaps, InWord, Quoted, ' ');
  }

  lemma {:induction false} SqueezedAlready(s: string, afterWord: bool)
    requires Quotable(s) && s != "" && InWord(s[|s| - 1])
    requires forall i :: 0 < i < |s| && IsSpace(s[i]) ==> InWord(s[i - 1])
    requires afterWord || InWord(s[0])
    ensures Squeezed(s, InWord, Quoted, ' ', afterWord) == s
    decreases |s|
  {
    SqueezedStep(s, InWord, Quoted, ' ', afterWord);
    if |s| > 1 {
      SqueezedAlready(s[1..], InWord(s[0]));
    }
  }

  /** A name of ASCII words with single blanks between them and no quote or backslash stays as it
      is. */
  lemma PlainNamesStay(name: string, fallback: string)
    requires 0 < |name| <= MAX_NAME && name[0] != ' ' && name[|name| - 1] != ' '
    requires forall i :: 0 <= i < |name| ==> ' ' <= name[i] <= '~' && name[i] != '"' && name[i] != '\\'
    requires forall i :: 0 < i < |name| && name[i] == ' ' ==> name[i - 1] != ' '
    ensures Attribute(name, fallback) == name
  {
    SqueezedAlready(name, false);
  }

  /** `suffixed_hls_name` */
  function Suffixed(value: string, suffix: nat): string {
    var text := " " + Decimal(suffix);
    Upto(Attribute(value, "TRACK"), MAX_NAME - |text|) + text
  }

  function NameCandidate(requested: string, suffix: nat): string {
    if suffix <= 1 then requested else Suffixed(requested, suffix)
  }

  /** Case folding works character by character and leaves spaces and digits alone. */
  ghost predicate FoldsText(fold: char -> string) {
    fold(' ') == " " && forall c :: '0' <= c <= '9' ==> fold(c) == [c]
  }

  function Folded(s: string, fold: char -> string): string {
    if s == "" then "" else fold(s[0]) + Folded(s[1..], fold)
  }

  lemma {:induction false} FoldSplits(a: string, b: string, fold: char -> string)
    ensures Folded(a + b, fold) == Folded(a, fold) + Folded(b, fold)
    decreases |a|
  {
    if a == "" {
      assert a + b == b;
    } else {
      assert (a + b)[1..] == a[1..] + b;
      FoldSplits(a[1..], b, fold);
    }
  }

  lemma {:induction false} FoldDigits(d: string, fold: char -> string)
    requires FoldsText(fold) && forall i :: 0 <= i < |d| ==> '0' <= d[i] <= '9'
    ensures Folded(d, fold) == d
    decreases |d|
  {
    if d != "" {
      FoldDigits(d[1..], fold);
    }
  }

  /** Two texts that end in a space and digits are equal only if the digits are. */
  lemma SameLastWord(x: string, c: string, y: string, d: string)
    requires x + (" " + c) == y + (" " + d)
    requires ' ' !in c && ' ' !in d
    ensures c == d
  {
    NotLater(x, c, y, d);
    NotLater(y, d, x, c);
    var s := x + (" " + c);
    assert s[|x| + 1..] == c && s[|y| + 1..] == d;
  }

  lemma NotLater(x: string, c: string, y: string, d: string)
    requires x + (" " + c) == y + (" " + d) && ' ' !in c
    ensures |y| <= |x|
  {
    var s := x + (" " + c);
    assert s == y + (" " + d) && s[|y|] == ' ';
    assert forall i :: |x| < i < |s| ==> s[i] == c[i - |x| - 1];
  }

  lemma SuffixedDiffer(requested: string, a: nat, b: nat, fold: char -> string)
    requires FoldsText(fold) && a < b
    ensures Folded(Suffixed(requested, a), fold) != Folded(Suffixed(requested, b), fold)
  {
    var c, d := Decimal(a), Decimal(b);
    var x := Upto(Attribute(requested, "TRACK"), MAX_NAME - |" " + c|);
    var y := Upto(Attribute(requested, "TRACK"), MAX_NAME - |" " + d|);
    FoldSuffix(x, c, fold);
    FoldSuffix(y, d, fold);
    if Folded(x + (" " + c), fold) == Folded(y + (" " + d), fold) {
      SameLastWord(Folded(x, fold), c, Folded(y, fold), d);
      DecimalsDiffer(a, b);
    }
  }

  lemma FoldSuffix(x: string, d: string, fold: char -> string)
    requires FoldsText(fold) && forall i :: 0 <= i < |d| ==> '0' <= d[i] <= '9'
    ensures Folded(x + (" " + d), fold) == Folded(x, fold) + (" " + d)
  {
    FoldSplits(x, " " + d, fold);
    FoldDigits(d, fold);
    assert (" " + d)[1..] == d;
  }

  /** The first name of the list requested, requested 2, requested 3 ... that no earlier track has,
      in any mix of cases. */
  ghost predicate FirstFreeName(taken: set<string>, requested: string, suffix: nat, fold: char -> string) {
    suffix >= 1 && Folded(NameCandidate(requested, suffix), fold) !in taken && AllTaken(taken, requested, suffix, fold)
  }

  /** The names tried and found taken: all different, so fewer than there are taken names. */
  ghost predicate Tried(tried: set<string>, used: set<string>, requested: string, suffix: nat, fold: char -> string) {
    && tried <= used && |tried| == (if suffix <= 2 then 0 else suffix - 2)
    && forall t :: t in tried ==> exists k :: 2 <= k < suffix && t == Folded(Suffixed(requested, k), fold)
  }

  lemma OneMoreTried(tried: set<string>, used: set<string>, requested: string, suffix: nat, fold: char -> string)
    requires FoldsText(fold) && suffix >= 2 && Tried(tried, used, requested, suffix, fold)
    requires Folded(Suffixed(requested, suffix), fold) in used
    ensures Tried(tried + {Folded(Suffixed(requested, suffix), fold)}, used, requested, suffix + 1, fold)
    ensures |tried| < |used|
  {
    var t := Folded(Suffixed(requested, suffix), fold);
    if t in tried {
      var k :| 2 <= k < suffix && t == Folded(Suffixed(requested, k), fold);
      SuffixedDiffer(requested, k, suffix, fold);
      assert false;
    }
    SmallerSet(tried + {t}, used);
  }

  ghost predicate AllTaken(taken: set<string>, requested: string, suffix: nat, fold: char -> string) {
    forall k :: 1 <= k < suffix ==> Folded(NameCandidate(requested, k), fold) in taken
  }

  lemma OneMoreTaken(taken: set<string>, requested: string, suffix: nat, fold: char -> string)
    requires suffix >= 1 && AllTaken(taken, requested, suffix, fold)
    requires Folded(NameCandidate(requested, suffix), fold) in taken
    ensures AllTaken(taken, requested, suffix + 1, fold)
    ensures NameCandidate(requested, suffix + 1) == Suffixed(requested, suffix + 1)
  {
  }

  /** The second search of `assign_track_identities`. */
  method FreeName(used: set<string>, requested: string, fold: char -> string) returns (name: string, suffix: nat)
    requires FoldsText(fold)
    ensures FirstFreeName(used, requested, suffix, fold) && name == NameCandidate(requested, suffix)
    ensures suffix <= |used| + 2
  {
    name := requested;
    suffix := 1;
    if Folded(requested, fold) in used {
      OneMoreTaken(used, requested, 1, fold);
      name, suffix := SuffixedName(used, requested, fold);
    }
  }

  method SuffixedName(used: set<string>, requested: string, fold: char -> string) returns (name: string, suffix: nat)
    requires FoldsText(fold) && AllTaken(used, requested, 2, fold)
    ensures FirstFreeName(used, requested, suffix, fold) && name == NameCandidate(requested, suffix)
    ensures suffix <= |used| + 2
  {
    suffix := 2;
    name := Suffixed(requested, 2);
    ghost var tried: set<string> := {};
    while Folded(name, fold) in used
      invariant suffix >= 2 && name == Suffixed(requested, suffix)
      invariant Tried(tried, used, requested, suffix, fold) && AllTaken(used, requested, suffix, fold)
      decreases |used| - |tried|
    {
      OneMoreTried(tried, used, requested, suffix, fold);
      OneMoreTaken(used, requested, suffix, fold);
      ghost var t := Folded(Suffixed(requested, suffix), fold);
      SmallerSet(tried + {t}, used);
      tried := tried + {t};
      suffix := suffix + 1;
      name := Suffixed(requested, suffix);
    }
    SmallerSet(tried, used);
  }

  // ---- A whole track list ---------------------------------------------------------------------------

  /** The metadata of one track; an absent or empty title is None, an index that is no number too. */
  datatype Track = Track(language: string, title: Option<string>, streamIndex: Option<int>)

  datatype Named = Named(language: string, trackId: string, name: string, streamIndex: nat)

  function UpperAll(s: string): string {
    seq(|s|, i requires 0 <= i < |s| => if 'a' <= s[i] <= 'z' then (s[i] as int - 32) as char else s[i])
  }

  /** `track_display_name` */
  function DisplayName(t: Track, language: string, ordinal: nat): string {
    if t.title.Some? then Attribute(t.title.value, "")
    else if ordinal <= 1 then UpperAll(language)
    else UpperAll(language) + " " + Decimal(ordinal)
  }

  /** Untitled tracks of a language: the first has its code in capitals, the others the number
      behind it. */
  lemma UntitledNames(t: Track, language: string, a: nat, b: nat)
    requires t.title.None? && 1 <= a && 1 <= b && LowerAll(language) == language
    ensures var name := DisplayName(t, language, a);
            && |language| <= |name| && LowerAll(name[..|language|]) == language
            && (forall i :: 0 <= i < |language| ==> !('a' <= name[i] <= 'z'))
            && (if a == 1 then |name| == |language| else name[|language|..] == " " + Decimal(a))
    ensures DisplayName(t, language, a) == DisplayName(t, language, b) ==> a == b
  {
    var name := DisplayName(t, language, a);
    assert forall i :: 0 <= i < |language| ==> LowerAll(name[..|language|])[i] == LowerAll(language)[i];
    assert LowerAll(name[..|language|]) == language;
    if a > 1 && b > 1 && name == DisplayName(t, language, b) {
      assert name[|language|..][1..] == Decimal(a);
      assert DisplayName(t, language, b)[|language|..] == " " + Decimal(b);
      DecimalsDiffer(a, b);
    }
  }

  function CountLanguage(named: seq<Named>, language: string): nat {
    if named == [] then 0
    else CountLanguage(named[..|named| - 1], language) + if named[|named| - 1].language == language then 1 else 0
  }

  function IdsOf(named: seq<Named>): set<string> {
    set n | n in named :: n.trackId
  }

  function FoldedNamesOf(named: seq<Named>, fold: char -> string): set<string> {
    set n | n in named :: Folded(n.name, fold)
  }

  /** What one track gets after the earlier ones: the first free id of its language and the first
      free name in its own sequence. */
  ghost predicate Assigned(t: Track, earlier: seq<Named>, n: Named, fold: char -> string) {
    var ordinal := CountLanguage(earlier, n.language) + 1;
    && n.language == NormalizeLanguage(t.language)
    && n.streamIndex == (if t.streamIndex.Some? && t.streamIndex.value > 0 then t.streamIndex.value else 0)
    && GetsId(n.trackId, earlier, PathToken(n.language), ordinal)
    && GetsName(n.name, earlier, DisplayName(t, n.language, ordinal), fold)
  }

  ghost predicate GetsId(id: string, earlier: seq<Named>, base: string, ordinal: nat) {
    exists k: nat :: k <= 2 * |earlier| + 1 && FirstFree(IdsOf(earlier), base, ordinal, k) && id == Candidate(base, k)
  }

  ghost predicate GetsName(name: string, earlier: seq<Named>, requested: string, fold: char -> string) {
    exists k: nat :: k <= |earlier| + 2 && FirstFreeName(FoldedNamesOf(earlier, fold), requested, k, fold) &&
                name == NameCandidate(requested, k)
  }

  ghost predicate AllAssigned(tracks: seq<Track>, named: seq<Named>, fold: char -> string) {
    |named| == |tracks| && forall i :: 0 <= i < |tracks| ==> Assigned(tracks[i], named[..i], named[i], fold)
  }

  lemma {:induction false} CountAtMost(named: seq<Named>, language: string)
    ensures CountLanguage(named, language) <= |named|
    decreases |named|
  {
    if named != [] {
      CountAtMost(named[..|named| - 1], language);
    }
  }

  lemma {:induction false} ImagesAtMost(named: seq<Named>, fold: char -> string)
    ensures |IdsOf(named)| <= |named| && |FoldedNamesOf(named, fold)| <= |named|
    decreases |named|
  {
    if named == [] {
      assert IdsOf(named) == {} && FoldedNamesOf(named, fold) == {};
    } else {
      var init, last := named[..|named| - 1], named[|named| - 1];
      assert named == init + [last];
      ImagesAtMost(init, fold);
      assert IdsOf(named) == IdsOf(init) + {last.trackId};
      assert FoldedNamesOf(named, fold) == FoldedNamesOf(init, fold) + {Folded(last.name, fold)};
    }
  }

  /** The two searches for one track. */
  method AssignOne(t: Track, ghost earlier: seq<Named>, ordinal: nat, usedIds: set<string>, usedNames: set<string>,
                   language: string, fold: char -> string)
    returns (n: Named)
    requires FoldsText(fold) && language == NormalizeLanguage(t.language)
    requires ordinal == CountLanguage(earlier, language) + 1
    requires usedIds == IdsOf(earlier) && usedNames == FoldedNamesOf(earlier, fold)
    ensures Assigned(t, earlier, n, fold) && n.language == language
  {
    CountAtMost(earlier, language);
    ImagesAtMost(earlier, fold);
    var id, k := FreeIdentity(usedIds, PathToken(language), ordinal);
    assert GetsId(id, earlier, PathToken(language), ordinal);
    var requested := DisplayName(t, language, ordinal);
    var name, j := FreeName(usedNames, requested, fold);
    assert GetsName(name, earlier, requested, fold);
    n := Named(language, id, name,
               if t.streamIndex.Some? && t.streamIndex.value > 0 then t.streamIndex.value else 0);
  }

  /** The loop's counters and sets. */
  datatype Tally = Tally(counts: map<string, nat>, usedIds: set<string>, usedNames: set<string>)

  /** They describe the tracks named so far. */
  ghost predicate Tallied(tally: Tally, named: seq<Named>, fold: char -> string) {
    && (forall l :: CountLanguage(named, l) == if l in tally.counts then tally.counts[l] else 0)
    && tally.usedIds == IdsOf(named) && tally.usedNames == FoldedNamesOf(named, fold)
  }

  function Counted(tally: Tally, n: Named, ordinal: nat, fold: char -> string): Tally {
    Tally(tally.counts[n.language := ordinal], tally.usedIds + {n.trackId}, tally.usedNames + {Folded(n.name, fold)})
  }

  lemma OneMoreTallied(tally: Tally, named: seq<Named>, n: Named, fold: char -> string)
    requires Tallied(tally, named, fold)
    ensures Tallied(Counted(tally, n, CountLanguage(named, n.language) + 1, fold), named + [n], fold)
  {
    assert (named + [n])[..|named|] == named;
    assert IdsOf(named + [n]) == IdsOf(named) + {n.trackId};
    assert FoldedNamesOf(named + [n], fold) == FoldedNamesOf(named, fold) + {Folded(n.name, fold)};
  }

  lemma SamePrefix(tracks: seq<Track>, t: Track, named: seq<Named>, n: Named, i: nat)
    requires i < |named| == |tracks|
    ensures (tracks + [t])[i] == tracks[i] && (named + [n])[..i] == named[..i] && (named + [n])[i] == named[i]
  {
  }

  lemma OneMoreAssigned(tracks: seq<Track>, named: seq<Named>, t: Track, n: Named, fold: char -> string)
    requires AllAssigned(tracks, named, fold) && Assigned(t, named, n, fold)
    ensures AllAssigned(tracks + [t], named + [n], fold)
  {
    forall i | 0 <= i < |named| + 1
      ensures Assigned((tracks + [t])[i], (named + [n])[..i], (named + [n])[i], fold)
    {
      if i < |named| {
        assert Assigned(tracks[i], named[..i], named[i], fold);
        SamePrefix(tracks, t, named, n, i);
      } else {
        assert (named + [n])[..i] == named;
      }
    }
  }

  /** One turn of the loop of `assign_track_identities`. */
  method AssignNext(ghost tracks: seq<Track>, t: Track, named: seq<Named>, before: Tally, fold: char -> string)
    returns (all: seq<Named>, tally: Tally)
    requires FoldsText(fold) && AllAssigned(tracks, named, fold) && Tallied(before, named, fold)
    ensures AllAssigned(tracks + [t], all, fold) && Tallied(tally, all, fold)
  {
    var language := NormalizeLanguage(t.language);
    var ordinal := (if language in before.counts then before.counts[language] else 0) + 1;
    var n := AssignOne(t, named, ordinal, before.usedIds, before.usedNames, language, fold);
    OneMoreAssigned(tracks, named, t, n, fold);
    OneMoreTallied(before, named, n, fold);
    tally := Counted(before, n, ordinal, fold);
    all := named + [n];
  }

  /** `assign_track_identities` */
  method AssignTrackIdentities(tracks: seq<Track>, fold: char -> string) returns (prepared: seq<Named>)
    requires FoldsText(fold)
    ensures AllAssigned(tracks, prepared, fold)
  {
    prepared := [];
    var tally := Tally(map[], {}, {});
    for i := 0 to |tracks|
      invariant AllAssigned(tracks[..i], prepared, fold) && Tallied(tally, prepared, fold)
    {
      assert tracks[..i + 1] == tracks[..i] + [tracks[i]];
      prepared, tally := AssignNext(tracks[..i], tracks[i], prepared, tally, fold);
    }
    assert tracks[..|tracks|] == tracks;
  }

  // ---- What the assignment promises -------------------------------------------------------------------

  lemma IdentitiesAreDistinct(tracks: seq<Track>, named: seq<Named>, fold: char -> string, i: nat, j: nat)
    requires AllAssigned(tracks, named, fold) && i < j < |named|
    ensures named[i].trackId != named[j].trackId
    ensures Folded(named[i].name, fold) != Folded(named[j].name, fold)
  {
    assert Assigned(tracks[j], named[..j], named[j], fold);
    assert named[..j][i] == named[i];
    assert named[i].trackId in IdsOf(named[..j]);
    assert Folded(named[i].name, fold) in FoldedNamesOf(named[..j], fold);
  }

  /** Every assigned id has the form of a track id, and `safe_track_identity` accepts it as it is
      for every list of tracks whose numbers have at most 53 digits. */
  lemma IdentitiesAreSafe(
    tracks: seq<Track>, named: seq<Named>, fold: char -> string, i: nat, digits: nat,
    language: string, streamIndex: Option<int>)
    requires AllAssigned(tracks, named, fold) && i < |named|
    requires 0 < digits <= 53 && 2 * |tracks| < Pow10(digits)
    ensures IsTrackId(named[i].trackId) && |named[i].trackId| <= 11 + digits
    ensures SafeTrackIdentity(named[i].trackId, language, streamIndex) == named[i].trackId
  {
    var n, base := named[i], PathToken(named[i].language);
    assert Assigned(tracks[i], named[..i], n, fold);
    LanguageIsWords(tracks[i].language);
    TokenOfLanguage(n.language);
    var k := NumberOf(n.trackId, named[..i], base, CountLanguage(named[..i], n.language) + 1);
    CandidateIsTrackId(base, k);
    DecimalLength(k, digits);
    FixedPoint(n.trackId, language, streamIndex);
  }

  lemma NumberOf(id: string, earlier: seq<Named>, base: string, ordinal: nat) returns (k: nat)
    requires GetsId(id, earlier, base, ordinal)
    ensures k <= 2 * |earlier| + 1 && id == Candidate(base, k)
  {
    k :| k <= 2 * |earlier| + 1 && FirstFree(IdsOf(earlier), base, ordinal, k) && id == Candidate(base, k);
  }

  // ---- Back from the path ------------------------------------------------------------------------------

  /** The index of the last `c`, or -1. */
  function LastIndex(s: string, c: char): (i: int)
    ensures -1 <= i < |s| && (i >= 0 ==> s[i] == c) && forall k :: i < k < |s| ==> s[k] != c
  {
    if s == "" then -1
    else if s[|s| - 1] == c then |s| - 1
    else LastIndex(s[..|s| - 1], c)
  }

  lemma {:induction false} LastIndexAt(a: string, c: char, b: string)
    requires c !in b
    ensures LastIndex(a + [c] + b, c) == |a|
    decreases |b|
  {
    var s := a + [c] + b;
    if b == "" {
      assert s[|s| - 1] == c;
    } else {
      assert s[|s| - 1] == b[|b| - 1];
      assert s[..|s| - 1] == a + [c] + b[..|b| - 1];
      LastIndexAt(a, c, b[..|b| - 1]);
    }
  }

  function TrimSlashes(s: string): string {
    if s != "" && s[|s| - 1] == '/' then TrimSlashes(s[..|s| - 1]) else s
  }

  /** The name behind the last slash. */
  function LastName(s: string): string {
    s[LastIndex(s, '/') + 1..]
  }

  /** What a lower-case directory name, below `above`, tells about a track of this kind. */
  function FromDirectory(above: Option<string>, directory: string, kind: string): (id: Option<string>)
    ensures id.Some? ==> IsTrackId(id.value)
  {
    var prefix := kind + "_";
    var candidate :=
      if prefix <= directory then Some(directory[|prefix|..])
      else if above.Some? && LowerAll(LastName(TrimSlashes(above.value))) == kind then Some(directory)
      else None;
    if candidate.Some? && candidate.value != "" && IsTrackId(candidate.value) then candidate else None
  }

  function IdentityIn(path: string, kind: string): Option<string> {
    var p := TrimSlashes(Slashed(path));
    var file := LastIndex(p, '/');
    if file < 0 then None
    else
      var above := LastIndex(p[..file], '/');
      FromDirectory(if above < 0 then None else Some(p[..above]), LowerAll(p[above + 1..file]), kind)
  }

  /** `track_identity_from_path`; a path that is absent or empty is None. */
  function IdentityFromPath(playlist: Option<string>, file: Option<string>, language: string, kind: string): string {
    var first := if playlist.Some? then IdentityIn(playlist.value, kind) else None;
    var second := if file.Some? then IdentityIn(file.value, kind) else None;
    if first.Some? then first.value
    else if second.Some? then second.value
    else SafeTrackIdentity("", language, Some(0))
  }

  predicate PlainName(name: string) {
    name != "" && '/' !in name && '\\' !in name
  }

  /** A path below `above`, up to the kind of its slashes. */
  predicate Spells(path: string, above: string, directory: string, file: string) {
    Slashed(path) == above + "/" + directory + "/" + file
  }

  lemma SplitPath(path: string, above: string, directory: string, file: string)
    requires PlainName(directory) && PlainName(file) && Spells(path, above, directory, file)
    ensures var p := Slashed(path);
            && TrimSlashes(p) == p
            && LastIndex(p, '/') == |above| + 1 + |directory|
            && LastIndex(p[..|above| + 1 + |directory|], '/') == |above|
            && p[|above| + 1..|above| + 1 + |directory|] == directory && p[..|above|] == above
  {
    var p := Slashed(path);
    var parent := above + "/" + directory;
    assert p == parent + ['/'] + file;
    LastIndexAt(parent, '/', file);
    assert p[..|parent|] == parent && parent == above + ['/'] + directory;
    LastIndexAt(above, '/', directory);
    assert p[|p| - 1] == file[|file| - 1];
  }

  lemma PathReads(path: string, above: string, directory: string, file: string, kind: string)
    requires PlainName(directory) && PlainName(file) && Spells(path, above, directory, file)
    ensures IdentityIn(path, kind) == FromDirectory(Some(above), LowerAll(directory), kind)
  {
    SplitPath(path, above, directory, file);
    var p := Slashed(path);
    var end := |above| + 1 + |directory|;
    assert LastIndex(p, '/') == end && LastIndex(p[..end], '/') == |above|;
    assert p[|above| + 1..end] == directory && p[..|above|] == above;
  }

  /** Like the two kinds, "audio" and "subtitles". */
  predicate IsWord(s: string) {
    s != "" && forall i :: 0 <= i < |s| ==> LowerAlnum(s[i])
  }

  lemma LowerIsPlain(s: string)
    requires s != "" && forall i :: 0 <= i < |s| ==> LowerAlnum(s[i]) || s[i] == '_'
    ensures PlainName(s) && LowerAll(s) == s
  {
  }

  lemma KindAndId(kind: string, id: string)
    requires IsWord(kind) && IsTrackId(id)
    ensures PlainName(kind + "_" + id) && LowerAll(kind + "_" + id) == kind + "_" + id
    ensures kind + "_" <= kind + "_" + id && (kind + "_" + id)[|kind + "_"|..] == id
  {
    var s := kind + "_" + id;
    forall i | 0 <= i < |s|
      ensures LowerAlnum(s[i]) || s[i] == '_'
    {
      if i > |kind| {
        assert s[i] == id[i - |kind| - 1];
      }
    }
    LowerIsPlain(s);
  }

  /** The identity of a track is found again in the path of its packaged output, whatever kind
      of slashes it has. */
  lemma OutputPathKeepsIdentity(
    path: string, above: string, kind: string, id: string, playlist: string, file: Option<string>, language: string)
    requires IsTrackId(id) && IsWord(kind) && PlainName(playlist) && Spells(path, above, kind + "_" + id, playlist)
    ensures IdentityFromPath(Some(path), file, language, kind) == id
  {
    KindAndId(kind, id);
    PathReads(path, above, kind + "_" + id, playlist, kind);
  }

  /** In the path of a raw file, whose directory is the bare id, it is found again exactly if the
      id does not itself start with the kind and an underscore. */
  lemma RawPathKeepsIdentity(path: string, root: string, kind: string, id: string, file: string, language: string)
    requires IsTrackId(id) && IsWord(kind) && PlainName(file) && Spells(path, root + "/" + kind, id, file)
    ensures IdentityFromPath(None, Some(path), language, kind) == id <==> !(kind + "_" <= id)
  {
    LowerIsPlain(id);
    LowerIsPlain(kind);
    PathReads(path, root + "/" + kind, id, file, kind);
    KindDirectory(root, kind);
    RawDirectory(root + "/" + kind, kind, id);
  }

  lemma RawDirectory(above: string, kind: string, id: string)
    requires IsTrackId(id) && IsWord(kind) && LastName(TrimSlashes(above)) == kind && LowerAll(kind) == kind
    ensures FromDirectory(Some(above), id, kind) ==
            if kind + "_" <= id then Some(id[|kind| + 1..]) else Some(id)
  {
    var prefix := kind + "_";
    assert |prefix| == |kind| + 1 && prefix[|kind|] == '_';
    if prefix <= id {
      RestIsTrackId(id, |kind|);
      assert id[|prefix|..] != "";
    } else {
      assert id != "";
    }
  }

  lemma KindDirectory(root: string, kind: string)
    requires IsWord(kind)
    ensures LastName(TrimSlashes(root + "/" + kind)) == kind
  {
    var s := root + "/" + kind;
    LowerIsPlain(kind);
    assert s == root + ['/'] + kind && s[|s| - 1] == kind[|kind| - 1];
    LastIndexAt(root, '/', kind);
  }

  lemma RestIsTrackId(id: string, k: nat)
    requires IsTrackId(id) && k < |id| && id[k] == '_'
    ensures IsTrackId(id[k + 1..])
  {
    var rest := id[k + 1..];
    assert k + 1 < |id| && id[k + 1] != '_';
    assert forall i :: 0 <= i < |rest| ==> rest[i] == id[k + 1 + i];
  }

  /** Such ids do occur: of two tracks tagged with the language "audio", the second gets one, and
      its raw file is taken for a track with the identity 2. */
  lemma AudioLanguageIsAmbiguous(
    tracks: seq<Track>, named: seq<Named>, fold: char -> string, path: string, root: string, file: string, language: string)
    requires |tracks| == 2 && tracks[0].language == tracks[1].language == "audio"
    requires AllAssigned(tracks, named, fold)
    requires PlainName(file) && Spells(path, root + "/" + "audio", named[1].trackId, file)
    ensures named[1].trackId == "audio_2"
    ensures IdentityFromPath(None, Some(path), language, "audio") == "2"
  {
    TwoAudios(tracks, named, fold);
    SecondAudioReads(path, root, file, language);
  }

  lemma SecondAudioReads(path: string, root: string, file: string, language: string)
    requires PlainName(file) && Spells(path, root + "/" + "audio", "audio_2", file)
    ensures IdentityFromPath(None, Some(path), language, "audio") == "2"
  {
    SecondIsTrackId();
    LowerIsPlain("audio_2");
    LowerIsPlain("audio");
    PathReads(path, root + "/" + "audio", "audio_2", file, "audio");
    KindDirectory(root, "audio");
    RawDirectory(root + "/" + "audio", "audio", "audio_2");
    assert IdentityIn(path, "audio") == Some("2");
  }

  lemma SecondIsTrackId()
    ensures IsTrackId("audio_2") && "audio" + "_" == "audio_" && "audio_" <= "audio_2" && "audio_2"[6..] == "2"
  {
  }

  lemma TwoAudios(tracks: seq<Track>, named: seq<Named>, fold: char -> string)
    requires |tracks| == 2 && tracks[0].language == tracks[1].language == "audio"
    requires AllAssigned(tracks, named, fold)
    ensures named[1].trackId == "audio_2"
  {
    AudioIsALanguage();
    assert named[..0] == [] && named[..1] == [named[0]];
    assert Assigned(tracks[0], named[..0], named[0], fold);
    assert Assigned(tracks[1], named[..1], named[1], fold);
    OneBefore(named[0]);
    FirstAudio(named[0].trackId);
    SecondAudio(named[0], named[1].trackId);
  }

  lemma OneBefore(n: Named)
    ensures CountLanguage([], n.language) == 0 && CountLanguage([n], n.language) == 1
    ensures IdsOf([]) == {} && IdsOf([n]) == {n.trackId}
  {
    assert [n][..0] == [];
  }

  lemma FirstAudio(id: string)
    requires GetsId(id, [], "audio", 1)
    ensures id == "audio"
  {
    var k := NumberOf(id, [], "audio", 1);
  }

  lemma SecondAudio(n: Named, id: string)
    requires n.trackId == "audio" && GetsId(id, [n], "audio", 2)
    ensures id == "audio_2"
  {
    OneBefore(n);
    var k: nat :| k <= 3 && FirstFree(IdsOf([n]), "audio", 2, k) && id == Candidate("audio", k);
    assert Decimal(2) == "2";
    assert Candidate("audio", 2) == "audio_2";
  }

  lemma AudioIsALanguage()
    ensures NormalizeLanguage("audio") == "audio" && PathToken("audio") == "audio"
  {
    OneWord("audio");
    TokenOfLanguage("audio");
    WordStays("audio");
  }

  lemma {:induction false} OneWord(w: string)
    requires forall i :: 0 <= i < |w| ==> LowerAlnum(w[i])
    ensures Parts(w) == [w]
    decreases |w|
  {
    if w != "" {
      OneWord(w[1..]);
      assert [w[0]] + w[1..] == w;
    }
  }

  lemma WordStays(w: string)
    requires IsWord(w) && |w| <= 8
    ensures LowerAll(w) == w && Underscored(w) == w
    ensures NormalizeLanguage(w) == w && IsWords(w, '-')
  {
    OneWord(w);
  }
}
