/** Which pages the step definitions' state builder applies on top of a snapshot. It compares sequences as int32. */
module SnapshotFilter {
  import opened Proto

  /** Go's conversion from uint32 to int32. */
  function ToInt32(x: Uint32): int {
    if x < 0x8000_0000 then x else x - 0x1_0000_0000
  }

  function SequenceOf(page: EventPage): Uint32 {
    if page.GetHeader().Some? then page.GetHeader().value.GetSequence() else 0
  }

  function StartSequence(book: EventBook): int {
    if book.snapshot.Some? && book.snapshot.value.sequence > 0 then ToInt32(book.snapshot.value.sequence) else -1
  }

  function AppliedPages(start: int, pages: seq<EventPage>): seq<EventPage> {
    if pages == [] then []
    else
      var last := pages[|pages| - 1];
      AppliedPages(start, pages[..|pages| - 1]) + (if ToInt32(SequenceOf(last)) <= start then [] else [last])
  }

  method EventsApplied(book: Option<EventBook>) returns (applied: seq<EventPage>)
    ensures applied == if book.Some? then AppliedPages(StartSequence(book.value), book.value.pages) else []
  {
    applied := [];
    var startSeq := -1;
    if book.Some? && book.value.snapshot.Some? && book.value.snapshot.value.sequence > 0 {
      startSeq := ToInt32(book.value.snapshot.value.sequence);
    }
    if book.Some? {
      var pages := book.value.pages;
      for i := 0 to |pages|
        invariant applied == AppliedPages(startSeq, pages[..i])
      {
        assert pages[..i + 1][..i] == pages[..i];
        if ToInt32(SequenceOf(pages[i])) > startSeq {
          applied := applied + [pages[i]];
        }
      }
      assert pages[..|pages|] == pages;
    }
  }

  /** The pages with a sequence past the snapshot's, or all pages without one. */
  function PagesPast(snapshot: Uint32, pages: seq<EventPage>): seq<EventPage> {
    if pages == [] then []
    else
      var last := pages[|pages| - 1];
      PagesPast(snapshot, pages[..|pages| - 1]) +
      (if snapshot > 0 && SequenceOf(last) <= snapshot then [] else [last])
  }

  /** The int32 comparison decides a page as the sequence numbers do exactly when page and snapshot are on the same
      side of 2^31; without a snapshot, exactly when the page is below 2^31. */
  lemma PageDecidedRightly(snapshot: Uint32, sequence: Uint32)
    ensures snapshot > 0 ==>
              ((ToInt32(sequence) <= ToInt32(snapshot) <==> sequence <= snapshot) <==>
               (sequence < 0x8000_0000 <==> snapshot < 0x8000_0000))
    ensures ToInt32(sequence) > -1 <==> sequence < 0x8000_0000
  {
  }

  function SnapshotSequence(book: EventBook): Uint32 {
    if book.snapshot.Some? then book.snapshot.value.sequence else 0
  }

  lemma {:induction false} FilteredIn(book: EventBook, page: EventPage)
    ensures page in AppliedPages(StartSequence(book), book.pages) ==> ToInt32(SequenceOf(page)) > StartSequence(book)
    ensures page in PagesPast(SnapshotSequence(book), book.pages) ==>
              SnapshotSequence(book) == 0 || SequenceOf(page) > SnapshotSequence(book)
    decreases |book.pages|
  {
    if book.pages != [] {
      FilteredIn(book.(pages := book.pages[..|book.pages| - 1]), page);
    }
  }

  /** For every book: the applied pages are those past the snapshot exactly when every page is on the snapshot's side
      of 2^31, a missing snapshot counting as 0. */
  lemma {:induction false} AppliedArePast(book: EventBook)
    ensures AppliedPages(StartSequence(book), book.pages) == PagesPast(SnapshotSequence(book), book.pages) <==>
            forall i :: 0 <= i < |book.pages| ==>
              (SequenceOf(book.pages[i]) < 0x8000_0000 <==> SnapshotSequence(book) < 0x8000_0000)
    decreases |book.pages|
  {
    if book.pages != [] {
      var n := |book.pages| - 1;
      var front, last := book.(pages := book.pages[..n]), book.pages[n];
      AppliedArePast(front);
      PageDecidedRightly(SnapshotSequence(book), SequenceOf(last));
      var applied, past := AppliedPages(StartSequence(book), book.pages), PagesPast(SnapshotSequence(book), book.pages);
      var applied', past' := AppliedPages(StartSequence(book), front.pages), PagesPast(SnapshotSequence(book), front.pages);
      if SequenceOf(last) < 0x8000_0000 <==> SnapshotSequence(book) < 0x8000_0000 {
        SameLast(applied', past', last);
        assert applied' + [] == applied' && past' + [] == past';
      } else {
        FilteredIn(book, last);
        assert applied == applied' + [last] ==> last in applied;
        assert past == past' + [last] ==> last in past;
      }
    }
  }

  lemma SameLast<T>(xs: seq<T>, ys: seq<T>, z: T)
    ensures xs + [z] == ys + [z] <==> xs == ys
  {
    if xs + [z] == ys + [z] {
      assert xs == (xs + [z])[..|xs|] == (ys + [z])[..|ys|] == ys;
    }
  }

  // ---------- Page by page ----------

  /** Anywhere in a book, a page is applied exactly when its sequence, read as int32, is past the start; a page
      without a numbered header counts as 0. */
  lemma {:induction false} PageApplied(start: int, p: seq<EventPage>, page: EventPage, q: seq<EventPage>)
    ensures var n := if page.EventPage? && page.header.Some? && page.header.value.sequenceType.Sequence?
                     then page.header.value.sequenceType.sequence else 0;
            AppliedPages(start, p + [page] + q) ==
            AppliedPages(start, p) +
            (if (if n < 0x8000_0000 then n else n - 0x1_0000_0000) > start then [page] else []) +
            AppliedPages(start, q)
    ensures AppliedPages(start, []) == []
    decreases |q|
  {
    var all := p + [page] + q;
    if q == [] {
      assert all == p + [page] && all[..|all| - 1] == p;
    } else {
      var m := |q| - 1;
      assert all[..|all| - 1] == p + [page] + q[..m];
      PageApplied(start, p, page, q[..m]);
    }
  }

  /** The start is the snapshot's sequence, read as int32, and -1 without a snapshot or with one at 0. */
  lemma StartIs(book: EventBook)
    ensures book.snapshot.None? ==> StartSequence(book) == -1
    ensures book.snapshot.Some? ==>
              var n := book.snapshot.value.sequence;
              StartSequence(book) == if n == 0 then -1 else if n < 0x8000_0000 then n else n - 0x1_0000_0000
  {
  }
}
