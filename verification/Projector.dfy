/** The OO projector: the first page whose handler yields a projection decides. */
module Projectors {
  import opened Proto
  import opened Dispatch

  datatype Projection = Projection(cover: Option<Cover>, projector: string, sequence: Uint32, content: Option<TypedAny>)

  /** A handler sees the bytes; nil means that it leaves the projection to others. */
  type ProjectionHandler = seq<Byte> -> Option<Projection>

  function PageProjection(handlers: Table<ProjectionHandler>, page: EventPage): Option<Projection> {
    match page.GetEvent()
    case None => None
    case Some(event) =>
      match handlers.Find(event.typeUrl)
      case Some(h) => h(event.value)
      case None => None
  }

  /** Whether the page sets the sequence of the default projection. */
  predicate Numbered(page: EventPage) {
    page.GetEvent().Some? && page.GetHeader().Some?
  }

  function LastSequence(pages: seq<EventPage>): Uint32 {
    if pages == [] then 0
    else if Numbered(pages[|pages| - 1]) then pages[|pages| - 1].GetHeader().value.GetSequence()
    else LastSequence(pages[..|pages| - 1])
  }

  /** The default projection carries the sequence of the last event-bearing page with a header. A deferred header has
      no sequence and counts as 0. */
  lemma {:induction false} LastSequenceIs(pages: seq<EventPage>, i: nat)
    requires i < |pages| && Numbered(pages[i]) && forall j :: i < j < |pages| ==> !Numbered(pages[j])
    ensures LastSequence(pages) == pages[i].GetHeader().value.GetSequence()
  {
    if i < |pages| - 1 {
      LastSequenceIs(pages[..|pages| - 1], i);
    }
  }

  lemma {:induction false} NoSequence(pages: seq<EventPage>)
    requires forall i :: 0 <= i < |pages| ==> !Numbered(pages[i])
    ensures LastSequence(pages) == 0
  {
    if pages != [] {
      NoSequence(pages[..|pages| - 1]);
    }
  }

  class ProjectorBase {
    const name: string
    var handlers: map<string, ProjectionHandler>

    constructor (name: string)
      ensures this.name == name && handlers == map[]
    {
      this.name, handlers := name, map[];
    }

    method Projects(fullName: string, handler: ProjectionHandler)
      modifies this
      ensures handlers == old(handlers)[fullName := handler]
    {
      handlers := handlers[fullName := handler];
    }

    /** `visited` counts the pages whose handlers were consulted: none after the one that yields the result. */
    method Handle(events: Option<EventBook>) returns (r: Projection, visited: nat)
      ensures events.None? || events.value.cover.None? ==> r == Projection(None, name, 0, None) && visited == 0
      ensures events.Some? && events.value.cover.Some? ==>
                var pages, table := events.value.pages, ByMap(handlers);
                && visited <= |pages|
                && (forall j :: 0 <= j < visited - 1 ==> PageProjection(table, pages[j]).None?)
                && ((exists i :: 0 <= i < |pages| && PageProjection(table, pages[i]).Some?) ==>
                      visited > 0 && PageProjection(table, pages[visited - 1]) == Some(r))
                && ((forall i :: 0 <= i < |pages| ==> PageProjection(table, pages[i]).None?) ==>
                      visited == |pages| && r == Projection(events.value.cover, name, LastSequence(pages), None))
    {
      if events.None? || events.value.cover.None? {
        return Projection(None, name, 0, None), 0;
      }
      var pages := events.value.pages;
      var lastSeq: Uint32 := 0;
      visited := 0;
      for i := 0 to |pages|
        invariant visited == i
        invariant forall j :: 0 <= j < i ==> PageProjection(ByMap(handlers), pages[j]).None?
        invariant lastSeq == LastSequence(pages[..i])
      {
        assert pages[..i + 1][..i] == pages[..i];
        visited := visited + 1;
        var event := pages[i].GetEvent();
        if event.Some? {
          var header := pages[i].GetHeader();
          if header.Some? {
            lastSeq := header.value.GetSequence();
          }
          var handler := RangeMap(handlers, event.value.typeUrl);
          if handler.Some? {
            var projection := handler.value(event.value.value);
            if projection.Some? {
              return projection.value, visited;
            }
          }
        }
      }
      assert pages[..|pages|] == pages;
      r := Projection(events.value.cover, name, lastSeq, None);
    }
  }

  // ---------- What one page yields ----------

  /** An event of a registered type is handed, with its bytes, to the type's handler. */
  lemma EventProjected(handlers: map<string, ProjectionHandler>, header: Option<PageHeader>, name: string,
                       value: seq<Byte>, createdAt: Option<int>)
    requires name in handlers
    ensures PageProjection(ByMap(handlers), TypedPage(header, name, value, createdAt)) == handlers[name](value)
  {
    FindsEntry(handlers, name);
  }

  lemma OtherPageNotProjected(handlers: Table<ProjectionHandler>, page: EventPage)
    requires !Reaches(handlers, page)
    ensures PageProjection(handlers, page) == None
  {
    FindsNothing(handlers, page);
  }

  /** One page more: an event under a header sets the sequence, to 0 if the header has none; anything else keeps it. */
  lemma SequenceFollows(pages: seq<EventPage>, page: EventPage)
    ensures LastSequence(pages + [page]) ==
            if page.EventPage? && page.header.Some? && page.payload.Event? && page.payload.event.Some? then
              match page.header.value.sequenceType
              case Sequence(n) => n
              case NoSequence => 0
              case AngzarrDeferred(_, _) => 0
            else LastSequence(pages)
    ensures LastSequence([]) == 0
  {
    assert (pages + [page])[..|pages|] == pages;
  }
}
