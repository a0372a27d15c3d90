/** Slash-separated paths as lists of segments. */
module Paths {

  function Slashed(s: string): string {
    seq(|s|, i requires 0 <= i < |s| => if s[i] == '\\' then '/' else s[i])
  }

  predicate IsSlash(c: char) {
    c == '/' || c == '\\'
  }

  /** Two texts are the same path exactly if they differ in the direction of slashes only; and one
      with forward slashes stays as it is. */
  lemma SlashedExactly(s: string, t: string)
    ensures Slashed(s) == Slashed(t) <==>
            |s| == |t| && forall i :: 0 <= i < |s| ==> s[i] == t[i] || (IsSlash(s[i]) && IsSlash(t[i]))
    ensures '\\' !in s ==> Slashed(s) == s
  {
    if Slashed(s) == Slashed(t) {
      assert |Slashed(s)| == |Slashed(t)|;
      forall i | 0 <= i < |s|
        ensures s[i] == t[i] || (IsSlash(s[i]) && IsSlash(t[i]))
      {
        assert Slashed(s)[i] == Slashed(t)[i];
      }
    }
  }

  predicate Ordinary(part: string) {
    part != "" && part != "." && part != ".."
  }

  function Split(s: string): (parts: seq<string>)
    ensures |parts| >= 1
  {
    if s == "" then [""]
    else
      var rest := Split(s[1..]);
      if s[0] == '/' then [""] + rest else [[s[0]] + rest[0]] + rest[1..]
  }

  function Join(parts: seq<string>): string {
    if parts == [] then ""
    else if |parts| == 1 then parts[0]
    else parts[0] + "/" + Join(parts[1..])
  }

  predicate NoSlashes(parts: seq<string>) {
    forall i :: 0 <= i < |parts| ==> '/' !in parts[i]
  }

  lemma {:induction false} JoinSplit(s: string)
    ensures Join(Split(s)) == s && NoSlashes(Split(s))
    decreases |s|
  {
    if s != "" {
      JoinSplit(s[1..]);
      var rest := Split(s[1..]);
      if s[0] == '/' {
        assert ([""] + rest)[1..] == rest;
        assert "" + "/" + s[1..] == s;
      } else {
        var parts := [[s[0]] + rest[0]] + rest[1..];
        assert |rest| > 1 ==> parts[1..] == rest[1..];
        assert [s[0]] + s[1..] == s;
        assert |rest| > 1 ==> ([s[0]] + rest[0]) + "/" + Join(rest[1..]) == [s[0]] + (rest[0] + "/" + Join(rest[1..]));
      }
    }
  }

  lemma {:induction false} SplitJoin(parts: seq<string>)
    requires parts != [] && NoSlashes(parts)
    ensures Split(Join(parts)) == parts
    decreases |parts|
  {
    if |parts| == 1 {
      SplitWord(parts[0]);
    } else {
      SplitJoin(parts[1..]);
      SplitPrefix(parts[0], Join(parts[1..]));
      assert [parts[0]] + parts[1..] == parts;
    }
  }

  lemma {:induction false} SplitWithSlash(s: string)
    ensures Split(s + "/") == Split(s) + [""]
    decreases |s|
  {
    if s == "" {
      assert (s + "/")[1..] == "";
    } else {
      assert (s + "/")[1..] == s[1..] + "/";
      SplitWithSlash(s[1..]);
    }
  }

  lemma {:induction false} SplitWord(w: string)
    requires '/' !in w
    ensures Split(w) == [w]
    decreases |w|
  {
    if w != "" {
      SplitWord(w[1..]);
      assert [w[0]] + w[1..] == w;
    }
  }

  lemma {:induction false} SplitPrefix(w: string, t: string)
    requires '/' !in w
    ensures Split(w + "/" + t) == [w] + Split(t)
    decreases |w|
  {
    var s := w + "/" + t;
    if w == "" {
      assert s[1..] == t;
    } else {
      assert s[1..] == w[1..] + "/" + t;
      SplitPrefix(w[1..], t);
      assert [w[0]] + w[1..] == w;
    }
  }
}
