/** Cutting a list into consecutive pieces of bounded size, last one possibly shorter. */
module Splitting {

  function Flat<T>(parts: seq<seq<T>>): seq<T> {
    if parts == [] then [] else parts[0] + Flat(parts[1..])
  }

  /** A bucket in pieces of at most `size`. */
  function Pieces<T>(s: seq<T>, size: nat): (pieces: seq<seq<T>>)
    requires size > 0
    ensures forall i :: 0 <= i < |pieces| ==> 0 < |pieces[i]| <= size
    ensures forall i :: 0 <= i < |pieces| - 1 ==> |pieces[i]| == size
    decreases |s|
  {
    if s == [] then []
    else if |s| <= size then [s]
    else [s[..size]] + Pieces(s[size..], size)
  }

  lemma {:induction false} PiecesJoin<T>(s: seq<T>, size: nat)
    requires size > 0
    ensures Flat(Pieces(s, size)) == s
    decreases |s|
  {
    if |s| > size {
      PiecesJoin(s[size..], size);
      assert s[..size] + s[size..] == s;
    } else if s != [] {
      assert Flat([s]) == s + Flat([]);
    }
  }

  /** The loop that both callers have: a start that advances by the size. */
  method Split<T>(s: seq<T>, size: nat) returns (pieces: seq<seq<T>>)
    requires size > 0
    ensures pieces == Pieces(s, size)
  {
    pieces := [];
    var offset := 0;
    while offset < |s|
      invariant 0 <= offset
      invariant pieces + (if offset < |s| then Pieces(s[offset..], size) else []) ==
                Pieces(s, size)
    {
      var end := if offset + size < |s| then offset + size else |s|;
      var rest := s[offset..];
      assert end < |s| ==> rest[..size] == s[offset..end] && rest[size..] == s[end..];
      assert end == |s| ==> rest == s[offset..end];
      pieces := pieces + [s[offset..end]];
      offset := offset + size;
    }
  }
}
