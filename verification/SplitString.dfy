/** The step definitions' hand-written splitter, whose loop moves its own index forward past a separator. */
module SplitString {

  predicate OccursAt(s: string, sep: string, i: int) {
    0 <= i <= |s| - |sep| && s[i..i + |sep|] == sep
  }

  ghost predicate Contains(s: string, sep: string) {
    exists i :: OccursAt(s, sep, i)
  }

  function Join(pieces: seq<string>, sep: string): string
    requires pieces != []
  {
    if |pieces| == 1 then pieces[0] else pieces[0] + sep + Join(pieces[1..], sep)
  }

  /** The piece ends where the separator first occurs. */
  ghost predicate EndsAtFirst(piece: string, sep: string) {
    forall i :: 0 <= i < |piece| ==> !OccursAt(piece + sep, sep, i)
  }

  /** Joining the pieces gives `s` back, and every cut is at the first separator of what was left. */
  ghost predicate IsSplit(s: string, sep: string, pieces: seq<string>) {
    && pieces != []
    && Join(pieces, sep) == s
    && (forall k :: 0 <= k < |pieces| - 1 ==> EndsAtFirst(pieces[k], sep))
    && !Contains(pieces[|pieces| - 1], sep)
  }

  lemma {:induction false} JoinMore(pieces: seq<string>, sep: string, piece: string)
    requires pieces != []
    ensures Join(pieces + [piece], sep) == Join(pieces, sep) + sep + piece
  {
    if |pieces| > 1 {
      assert (pieces + [piece])[1..] == pieces[1..] + [piece];
      JoinMore(pieces[1..], sep, piece);
      assert pieces[0] + sep + (Join(pieces[1..], sep) + sep + piece) ==
             pieces[0] + sep + Join(pieces[1..], sep) + sep + piece;
    } else {
      assert (pieces + [piece])[1..] == [piece];
    }
  }

  ghost predicate NoneIn(s: string, sep: string, lo: int, hi: int) {
    forall j :: lo <= j < hi ==> !OccursAt(s, sep, j)
  }

  /** The pieces cut so far account for everything before `start`. */
  ghost predicate CutUpTo(s: string, sep: string, pieces: seq<string>, start: nat) {
    && start <= |s|
    && (if pieces == [] then start == 0 else Join(pieces, sep) + sep == s[..start])
    && forall k :: 0 <= k < |pieces| ==> EndsAtFirst(pieces[k], sep)
  }

  lemma SliceOfSlice(s: string, lo: nat, hi: nat, j: nat, k: nat)
    requires lo <= hi <= |s| && j <= k <= hi - lo
    ensures s[lo..hi][j..k] == s[lo + j..lo + k]
  {
    var inner, outer := s[lo..hi][j..k], s[lo + j..lo + k];
    assert |inner| == |outer| && forall t :: 0 <= t < |inner| ==> inner[t] == outer[t];
  }

  lemma CutIsFirst(s: string, sep: string, start: nat, i: nat)
    requires start <= i && OccursAt(s, sep, i) && NoneIn(s, sep, start, i)
    ensures EndsAtFirst(s[start..i], sep)
    ensures s[start..i] + sep == s[start..i + |sep|]
  {
    var piece := s[start..i];
    assert piece + sep == s[start..i + |sep|];
    forall j | 0 <= j < |piece|
      ensures !OccursAt(piece + sep, sep, j)
    {
      assert !OccursAt(s, sep, start + j);
      if j + |sep| <= |piece + sep| {
        SliceOfSlice(s, start, i + |sep|, j, j + |sep|);
      }
    }
  }

  lemma CutNext(s: string, sep: string, pieces: seq<string>, start: nat, i: nat)
    requires CutUpTo(s, sep, pieces, start)
    requires start <= i && OccursAt(s, sep, i) && NoneIn(s, sep, start, i)
    ensures CutUpTo(s, sep, pieces + [s[start..i]], i + |sep|)
  {
    var piece := s[start..i];
    CutIsFirst(s, sep, start, i);
    if pieces != [] {
      JoinMore(pieces, sep, piece);
      assert s[..start] + piece == s[..i];
    }
    assert s[..i] + sep == s[..i + |sep|];
  }

  lemma CutRest(s: string, sep: string, pieces: seq<string>, start: nat)
    requires CutUpTo(s, sep, pieces, start) && NoneIn(s, sep, start, |s| - |sep| + 1)
    ensures IsSplit(s, sep, pieces + [s[start..]])
  {
    if pieces != [] {
      JoinMore(pieces, sep, s[start..]);
    }
    assert s[..start] + s[start..] == s;
    forall j
      ensures !OccursAt(s[start..], sep, j)
    {
      if 0 <= j <= |s| - start - |sep| {
        assert !OccursAt(s, sep, start + j);
        SliceOfSlice(s, start, |s|, j, j + |sep|);
      }
    }
  }

  /** With an empty separator the source's loop would stay at the same index for ever. */
  method Split(s: string, sep: string) returns (result: seq<string>)
    requires sep != ""
    ensures IsSplit(s, sep, result)
  {
    result := [];
    var start, i := 0, 0;
    while i <= |s| - |sep|
      invariant 0 <= start <= i
      invariant CutUpTo(s, sep, result, start) && NoneIn(s, sep, start, i)
      decreases |s| - i
    {
      if s[i..i + |sep|] == sep {
        CutNext(s, sep, result, start, i);
        result := result + [s[start..i]];
        start := i + |sep|;
        i := i + |sep| - 1;
      }
      i := i + 1;
    }
    CutRest(s, sep, result, start);
    result := result + [s[start..]];
  }

  /** No piece contains the separator. */
  lemma PiecesAvoidSeparator(s: string, sep: string, pieces: seq<string>, k: nat)
    requires sep != "" && IsSplit(s, sep, pieces) && k < |pieces|
    ensures !Contains(pieces[k], sep)
  {
    if k < |pieces| - 1 {
      forall i
        ensures !OccursAt(pieces[k], sep, i)
      {
        if 0 <= i <= |pieces[k]| - |sep| {
          assert !OccursAt(pieces[k] + sep, sep, i);
          assert (pieces[k] + sep)[i..i + |sep|] == pieces[k][i..i + |sep|];
        }
      }
    }
  }

  /** The first piece of two splits of the same string is the same: neither can be longer. */
  lemma FirstPieceNotLonger(p: string, q: string, restP: string, restQ: string, sep: string)
    requires p + sep + restP == q + sep + restQ && EndsAtFirst(q, sep)
    ensures |p| >= |q|
  {
    if |p| < |q| {
      var s := p + sep + restP;
      assert s[|p|..|p| + |sep|] == sep;
      assert (q + sep)[|p|..|p| + |sep|] == s[|p|..|p| + |sep|];
      assert OccursAt(q + sep, sep, |p|);
    }
  }

  lemma SplitContains(pieces: seq<string>, sep: string)
    requires |pieces| > 1
    ensures Contains(Join(pieces, sep), sep)
  {
    assert OccursAt(Join(pieces, sep), sep, |pieces[0]|);
  }

  /** A string has only one split, so the property pins the result down. */
  lemma {:induction false} SplitUnique(s: string, sep: string, p: seq<string>, q: seq<string>)
    requires IsSplit(s, sep, p) && IsSplit(s, sep, q)
    ensures p == q
    decreases |p|
  {
    if |p| == 1 || |q| == 1 {
      if |p| > 1 {
        SplitContains(p, sep);
      }
      if |q| > 1 {
        SplitContains(q, sep);
      }
    } else {
      FirstPieceNotLonger(p[0], q[0], Join(p[1..], sep), Join(q[1..], sep), sep);
      FirstPieceNotLonger(q[0], p[0], Join(q[1..], sep), Join(p[1..], sep), sep);
      var n := |p[0]|;
      assert p[0] == s[..n] == q[0];
      assert Join(p[1..], sep) == s[n + |sep|..] == Join(q[1..], sep);
      SplitUnique(s[n + |sep|..], sep, p[1..], q[1..]);
    }
  }
}
