/** Upcasting: old event versions are replaced, page by page, before the log is replayed. */
module Upcaster {
  import opened Proto
  import opened Dispatch
  import opened Replay

  /** A handler may return nil. */
  type UpcasterHandler = TypedAny -> Option<TypedAny>

  /** The current version of an event: the answer of the first matching upcaster, else the event itself. */
  function Current(upcasters: Table<UpcasterHandler>, event: TypedAny): Option<TypedAny> {
    match upcasters.Find(event.typeUrl)
    case Some(upcast) => upcast(event)
    case None => Some(event)
  }

  function UpcastPage(upcasters: Table<UpcasterHandler>, page: EventPage): EventPage {
    match page.GetEvent()
    case Some(event) => if upcasters.Find(event.typeUrl).None? then page
                        else page.(payload := Event(Current(upcasters, event)))
    case None => page
  }

  function UpcastAll(upcasters: Table<UpcasterHandler>, pages: seq<EventPage>): seq<EventPage> {
    seq(|pages|, i requires 0 <= i < |pages| => UpcastPage(upcasters, pages[i]))
  }

  /** A `*pb.EventPage`; nil entries are allowed. */
  class PageRef {
    var page: EventPage

    constructor (page: EventPage)
      ensures this.page == page
    {
      this.page := page;
    }
  }

  ghost function PageOf(ref: PageRef?): EventPage
    reads ref
  {
    if ref == null then NilPage else ref.page
  }

  ghost function Pages(refs: seq<PageRef?>): seq<EventPage>
    reads set ref | ref in refs
  {
    seq(|refs|, i requires 0 <= i < |refs| reads set ref | ref in refs => PageOf(refs[i]))
  }

  class UpcasterRouter {
    var handlers: seq<Registration<UpcasterHandler>>

    constructor ()
      ensures handlers == []
    {
      handlers := [];
    }

    method On(fullName: string, handler: UpcasterHandler)
      modifies this
      ensures handlers == old(handlers) + [Registration(fullName, handler)]
    {
      handlers := handlers + [Registration(fullName, handler)];
    }

    /** A transformed page is a new object; any other page is passed through by reference. No input page is
        written to: the method modifies nothing. */
    method Upcast(events: seq<PageRef?>) returns (result: seq<PageRef?>)
      ensures Pages(result) == UpcastAll(BySlice(handlers), Pages(events))
      ensures |result| == |events|
      ensures forall i :: 0 <= i < |events| ==>
                var event := PageOf(events[i]).GetEvent();
                if event.Some? && BySlice(handlers).Find(event.value.typeUrl).Some?
                then result[i] != null && fresh(result[i])
                else result[i] == events[i]
    {
      result := [];
      for i := 0 to |events|
        invariant |result| == i
        invariant forall k :: 0 <= k < i ==>
                    && (result[k] != null ==> allocated(result[k]))
                    && PageOf(result[k]) == UpcastPage(BySlice(handlers), PageOf(events[k]))
                    && var event := PageOf(events[k]).GetEvent();
                       if event.Some? && BySlice(handlers).Find(event.value.typeUrl).Some?
                       then result[k] != null && fresh(result[k])
                       else result[k] == events[k]
      {
        var page := events[i];
        var event := if page == null then None else page.page.GetEvent();
        if event.None? {
          result := result + [page];
        } else {
          var handler := ScanSlice(handlers, event.value.typeUrl);
          if handler.Some? {
            var newEvent := handler.value(event.value);
            var newPage := new PageRef(page.page.(payload := Event(newEvent)));
            result := result + [newPage];
          } else {
            result := result + [page];
          }
        }
      }
    }
  }

  // ---------- Upcasting and replay ----------

  /** Replay with every event brought up to date on the way in. */
  function FoldCurrent<S>(upcasters: Table<UpcasterHandler>, appliers: Table<Applier<S>>, state: S,
                          pages: seq<EventPage>): S {
    if pages == [] then state
    else
      var before := FoldCurrent(upcasters, appliers, state, pages[..|pages| - 1]);
      match pages[|pages| - 1].GetEvent()
      case None => before
      case Some(event) =>
        match Current(upcasters, event)
        case None => before
        case Some(current) => ApplyEvent(appliers, before, current)
  }

  /** Replaying an upcast log is replaying the stored log with "first matching upcaster, then apply", also for
      upcasters that return nil, whose event then has no effect. */
  lemma {:induction false} UpcastThenReplay<S>(upcasters: Table<UpcasterHandler>, appliers: Table<Applier<S>>, state: S,
                                               pages: seq<EventPage>)
    ensures Fold(appliers, state, UpcastAll(upcasters, pages)) == FoldCurrent(upcasters, appliers, state, pages)
  {
    if pages != [] {
      var n := |pages| - 1;
      assert UpcastAll(upcasters, pages)[..n] == UpcastAll(upcasters, pages[..n]);
      UpcastThenReplay(upcasters, appliers, state, pages[..n]);
    }
  }

  /** Length, order, headers and dates are kept; only event payloads change, and only from event to event. */
  lemma UpcastKeepsEnvelope(upcasters: Table<UpcasterHandler>, pages: seq<EventPage>, i: nat)
    requires i < |pages|
    ensures |UpcastAll(upcasters, pages)| == |pages|
    ensures var page := UpcastAll(upcasters, pages)[i];
            && page.GetHeader() == pages[i].GetHeader()
            && (page.NilPage? <==> pages[i].NilPage?)
            && (page.EventPage? ==> page.createdAt == pages[i].createdAt)
            && (pages[i].GetEvent().None? ==> page == pages[i])
            && (forall event :: pages[i].GetEvent() == Some(event) ==> page.GetEvent() == Current(upcasters, event))
  {
  }

  /** A log can be upcast in pieces, as it grows. */
  lemma UpcastConcat(upcasters: Table<UpcasterHandler>, p: seq<EventPage>, q: seq<EventPage>)
    ensures UpcastAll(upcasters, p + q) == UpcastAll(upcasters, p) + UpcastAll(upcasters, q)
  {
  }

  /** The event's own upcaster leaves it as it is. */
  predicate Settled(upcasters: Table<UpcasterHandler>, event: TypedAny) {
    Current(upcasters, event) == Some(event)
  }

  /** Upcasting is a single pass: doing it twice is doing it once, on every log, exactly when every upcaster's
      output is either nil or an event that a second pass would leave alone. */
  lemma UpcastIdempotent(upcasters: Table<UpcasterHandler>)
    ensures (forall pages :: UpcastAll(upcasters, UpcastAll(upcasters, pages)) == UpcastAll(upcasters, pages)) <==>
            (forall event: TypedAny ::
               Current(upcasters, event).Some? ==> Settled(upcasters, Current(upcasters, event).value))
  {
    if forall event: TypedAny :: Current(upcasters, event).Some? ==> Settled(upcasters, Current(upcasters, event).value) {
      forall pages: seq<EventPage>
        ensures UpcastAll(upcasters, UpcastAll(upcasters, pages)) == UpcastAll(upcasters, pages)
      {
        forall i | 0 <= i < |pages|
          ensures UpcastPage(upcasters, UpcastPage(upcasters, pages[i])) == UpcastPage(upcasters, pages[i])
        {
        }
      }
    }
    if forall pages :: UpcastAll(upcasters, UpcastAll(upcasters, pages)) == UpcastAll(upcasters, pages) {
      forall event: TypedAny | Current(upcasters, event).Some?
        ensures Settled(upcasters, Current(upcasters, event).value)
      {
        var page := EventPage(None, Event(Some(event)), None);
        var once := UpcastAll(upcasters, [page]);
        assert UpcastAll(upcasters, once)[0] == once[0];
        assert once[0].GetEvent() == Current(upcasters, event);
      }
    }
  }

  /** In particular when no upcaster produces a type that has an upcaster itself. */
  lemma CurrentTypesUnregistered(upcasters: Table<UpcasterHandler>, pages: seq<EventPage>)
    requires forall event: TypedAny :: upcasters.Find(event.typeUrl).Some? && Current(upcasters, event).Some? ==>
               upcasters.Find(Current(upcasters, event).value.typeUrl).None?
    ensures UpcastAll(upcasters, UpcastAll(upcasters, pages)) == UpcastAll(upcasters, pages)
  {
    UpcastIdempotent(upcasters);
  }

  function Renamed(fullName: string): UpcasterHandler {
    (event: TypedAny) => Some(TypedAny(TYPE_URL_PREFIX + fullName, event.value))
  }

  function OfType(fullName: string, value: seq<Byte>): TypedAny {
    TypedAny(TYPE_URL_PREFIX + fullName, value)
  }

  /** Two chained versions are not reached in one pass: with upcasters from V1 to V2 and from V2 to V3, a V1 event
      stops at V2, and only a second pass moves it on. */
  lemma ChainNeedsTwoPasses(v1: string, v2: string, v3: string, value: seq<Byte>)
    requires v1 != v2
    ensures var t := BySlice([Registration(v1, Renamed(v2)), Registration(v2, Renamed(v3))]);
            && Current(t, OfType(v1, value)) == Some(OfType(v2, value))
            && Current(t, OfType(v2, value)) == Some(OfType(v3, value))
  {
    var regs := [Registration(v1, Renamed(v2)), Registration(v2, Renamed(v3))];
    PrefixedUrl(v1);
    PrefixedUrl(v2);
    assert First(regs[1..], v2) == Some(Renamed(v3));
    assert First(regs, v2) == Some(Renamed(v3));
  }

  // ---------- What one page becomes ----------

  /** Anywhere in a log, an event with an upcaster becomes what its type's first upcaster makes of it, under the same
      header and date. */
  lemma EventUpcast(regs: seq<Registration<UpcasterHandler>>, p: seq<EventPage>, header: Option<PageHeader>,
                    name: string, value: seq<Byte>, createdAt: Option<int>, q: seq<EventPage>, i: nat)
    requires FirstAt(regs, name, i)
    ensures UpcastAll(BySlice(regs), p + [TypedPage(header, name, value, createdAt)] + q) ==
            UpcastAll(BySlice(regs), p) +
            [EventPage(header, Event(regs[i].handler(TypedAny(TYPE_URL_PREFIX + name, value))), createdAt)] +
            UpcastAll(BySlice(regs), q)
  {
    FindsFirst(regs, name, i);
  }

  /** Any other page stays as it is, and so does the empty log. */
  lemma OtherPageKept(upcasters: Table<UpcasterHandler>, p: seq<EventPage>, page: EventPage, q: seq<EventPage>)
    requires !Reaches(upcasters, page)
    ensures UpcastAll(upcasters, p + [page] + q) == UpcastAll(upcasters, p) + [page] + UpcastAll(upcasters, q)
    ensures UpcastAll(upcasters, []) == []
  {
    FindsNothing(upcasters, page);
  }
}
