/** State reconstruction: the left fold of the registered appliers over the event-bearing pages. An event of an
    unregistered type leaves the state alone. */
module Replay {
  import opened Proto
  import opened Dispatch

  type Applier<!S> = (S, seq<Byte>) -> S

  function ApplyEvent<S>(appliers: Table<Applier<S>>, state: S, event: TypedAny): S {
    match appliers.Find(event.typeUrl)
    case Some(apply) => apply(state, event.value)
    case None => state
  }

  function ApplyPage<S>(appliers: Table<Applier<S>>, state: S, page: EventPage): S {
    match page.GetEvent()
    case Some(event) => ApplyEvent(appliers, state, event)
    case None => state
  }

  function Fold<S>(appliers: Table<Applier<S>>, state: S, pages: seq<EventPage>): S {
    if pages == [] then state
    else ApplyPage(appliers, Fold(appliers, state, pages[..|pages| - 1]), pages[|pages| - 1])
  }

  lemma FoldStep<S>(appliers: Table<Applier<S>>, state: S, pages: seq<EventPage>, i: nat)
    requires i < |pages|
    ensures Fold(appliers, state, pages[..i + 1]) ==
            ApplyPage(appliers, Fold(appliers, state, pages[..i]), pages[i])
  {
    assert pages[..i + 1][..i] == pages[..i];
  }

  /** Replaying a log in two pieces is replaying it whole. */
  lemma {:induction false} FoldConcat<S>(appliers: Table<Applier<S>>, state: S, p: seq<EventPage>, q: seq<EventPage>)
    ensures Fold(appliers, state, p + q) == Fold(appliers, Fold(appliers, state, p), q)
    decreases |q|
  {
    if q == [] {
      assert p + q == p;
    } else {
      assert (p + q)[..|p + q| - 1] == p + q[..|q| - 1];
      FoldConcat(appliers, state, p, q[..|q| - 1]);
    }
  }

  /** Only the dispatch table matters to a replay, not how it is stored. */
  lemma {:induction false} FoldSameTable<S>(a: Table<Applier<S>>, b: Table<Applier<S>>, state: S, pages: seq<EventPage>)
    requires forall url :: a.Find(url) == b.Find(url)
    ensures Fold(a, state, pages) == Fold(b, state, pages)
    decreases |pages|
  {
    if pages != [] {
      FoldSameTable(a, b, state, pages[..|pages| - 1]);
    }
  }

  // ---------- What one page does ----------

  /** Anywhere in a log, an event of a registered type is handed, with its bytes, to the type's applier, on the state
      that the pages before it give. */
  lemma ReplayOfEvent<S>(appliers: map<string, Applier<S>>, state: S, p: seq<EventPage>, header: Option<PageHeader>,
                         name: string, value: seq<Byte>, createdAt: Option<int>, q: seq<EventPage>)
    requires name in appliers
    ensures Fold(ByMap(appliers), state, p + [TypedPage(header, name, value, createdAt)] + q) ==
            Fold(ByMap(appliers), appliers[name](Fold(ByMap(appliers), state, p), value), q)
  {
    FindsEntry(appliers, name);
    FoldAround(ByMap(appliers), state, p, TypedPage(header, name, value, createdAt), q);
  }

  /** The same for a slice of registrations: the first one of the type applies. */
  lemma ReplayOfEventByFirst<S>(regs: seq<Registration<Applier<S>>>, state: S, p: seq<EventPage>,
                                header: Option<PageHeader>, name: string, value: seq<Byte>, createdAt: Option<int>,
                                q: seq<EventPage>, i: nat)
    requires FirstAt(regs, name, i)
    ensures Fold(BySlice(regs), state, p + [TypedPage(header, name, value, createdAt)] + q) ==
            Fold(BySlice(regs), regs[i].handler(Fold(BySlice(regs), state, p), value), q)
  {
    FindsFirst(regs, name, i);
    FoldAround(BySlice(regs), state, p, TypedPage(header, name, value, createdAt), q);
  }

  /** A page without an event, or with one of an unregistered type, changes nothing; neither does the empty log. */
  lemma ReplayOfOther<S>(appliers: Table<Applier<S>>, state: S, p: seq<EventPage>, page: EventPage, q: seq<EventPage>)
    requires !Reaches(appliers, page)
    ensures Fold(appliers, state, p + [page] + q) == Fold(appliers, state, p + q)
    ensures Fold(appliers, state, []) == state
  {
    FindsNothing(appliers, page);
    FoldAround(appliers, state, p, page, q);
    FoldConcat(appliers, state, p, q);
  }

  lemma FoldAround<S>(appliers: Table<Applier<S>>, state: S, p: seq<EventPage>, page: EventPage, q: seq<EventPage>)
    ensures Fold(appliers, state, p + [page] + q) ==
            Fold(appliers, ApplyPage(appliers, Fold(appliers, state, p), page), q)
  {
    FoldConcat(appliers, state, p + [page], q);
    assert (p + [page])[..|p|] == p;
  }

  /** One event on its own: the applier registered for its type is given its bytes; without one nothing changes. */
  lemma EventApplied<S>(appliers: map<string, Applier<S>>, state: S, event: TypedAny)
    ensures forall name :: name in appliers && event.typeUrl == TYPE_URL_PREFIX + name ==>
              ApplyEvent(ByMap(appliers), state, event) == appliers[name](state, event.value)
    ensures (forall name :: name in appliers ==> event.typeUrl != TYPE_URL_PREFIX + name) ==>
              ApplyEvent(ByMap(appliers), state, event) == state
  {
    forall name | name in appliers && event.typeUrl == TYPE_URL_PREFIX + name
      ensures ApplyEvent(ByMap(appliers), state, event) == appliers[name](state, event.value)
    {
      FindsEntry(appliers, name);
    }
    if forall name :: name in appliers ==> event.typeUrl != TYPE_URL_PREFIX + name {
      FindsNothing(ByMap(appliers), EventPage(None, Event(Some(event)), None));
    }
  }

  lemma EventAppliedByFirst<S>(regs: seq<Registration<Applier<S>>>, state: S, event: TypedAny)
    ensures forall i :: 0 <= i < |regs| && FirstAt(regs, regs[i].fullName, i) &&
                        event.typeUrl == TYPE_URL_PREFIX + regs[i].fullName ==>
              ApplyEvent(BySlice(regs), state, event) == regs[i].handler(state, event.value)
    ensures (forall i :: 0 <= i < |regs| ==> event.typeUrl != TYPE_URL_PREFIX + regs[i].fullName) ==>
              ApplyEvent(BySlice(regs), state, event) == state
  {
    forall i | 0 <= i < |regs| && FirstAt(regs, regs[i].fullName, i) &&
               event.typeUrl == TYPE_URL_PREFIX + regs[i].fullName
      ensures ApplyEvent(BySlice(regs), state, event) == regs[i].handler(state, event.value)
    {
      FindsFirst(regs, regs[i].fullName, i);
    }
    if forall i :: 0 <= i < |regs| ==> event.typeUrl != TYPE_URL_PREFIX + regs[i].fullName {
      FindsNothing(BySlice(regs), EventPage(None, Event(Some(event)), None));
    }
  }
}
