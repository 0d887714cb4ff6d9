/** CloudEvents projection. `On` (full type names) and `OnSuffix` (simple names) write to one table, and every event
    is looked up in it twice. */
module CloudEvents {
  import opened Proto
  import opened Dispatch
  import opened Keys

  datatype CloudEvent = CloudEvent(eventType: string, data: Option<TypedAny>)

  /** A handler sees the bytes; nil means that nothing is published. */
  type CloudHandler = seq<Byte> -> Option<CloudEvent>

  /** What follows the last slash, and then the last dot. */
  function SimpleName(typeUrl: string): string {
    After(After(typeUrl, '/'), '.')
  }

  function Published(result: Option<CloudEvent>): seq<CloudEvent> {
    if result.Some? then [result.value] else []
  }

  function ByFullName(handlers: map<string, CloudHandler>, event: TypedAny): Option<CloudEvent> {
    match ByMap(handlers).Find(event.typeUrl)
    case Some(h) => h(event.value)
    case None => None
  }

  function BySimpleName(handlers: map<string, CloudHandler>, event: TypedAny): Option<CloudEvent> {
    var name := SimpleName(event.typeUrl);
    if name in handlers then handlers[name](event.value) else None
  }

  function EventOutput(handlers: map<string, CloudHandler>, event: TypedAny): seq<CloudEvent> {
    Published(ByFullName(handlers, event)) + Published(BySimpleName(handlers, event))
  }

  function PageOutput(handlers: map<string, CloudHandler>, page: EventPage): seq<CloudEvent> {
    var event := page.GetEvent();
    if event.Some? then EventOutput(handlers, event.value) else []
  }

  function Projected(handlers: map<string, CloudHandler>, pages: seq<EventPage>): seq<CloudEvent> {
    if pages == [] then []
    else Projected(handlers, pages[..|pages| - 1]) + PageOutput(handlers, pages[|pages| - 1])
  }

  lemma ProjectedStep(handlers: map<string, CloudHandler>, pages: seq<EventPage>, i: nat)
    requires i < |pages|
    ensures Projected(handlers, pages[..i + 1]) == Projected(handlers, pages[..i]) + PageOutput(handlers, pages[i])
    ensures pages[i].GetEvent().None? ==> Projected(handlers, pages[..i + 1]) == Projected(handlers, pages[..i])
  {
    assert pages[..i + 1][..i] == pages[..i];
  }

  class CloudEventsRouter {
    var handlers: map<string, CloudHandler>

    constructor ()
      ensures handlers == map[]
    {
      handlers := map[];
    }

    method On(fullName: string, handler: CloudHandler)
      modifies this
      ensures handlers == old(handlers)[fullName := handler]
    {
      handlers := handlers[fullName := handler];
    }

    /** The handler is given an Any that carries the bytes and no type URL. */
    method OnSuffix(suffix: string, handler: TypedAny -> Option<CloudEvent>)
      modifies this
      ensures handlers.Keys == old(handlers).Keys + {suffix}
      ensures forall k :: k in old(handlers) && k != suffix ==> handlers[k] == old(handlers)[k]
      ensures forall data :: handlers[suffix](data) == handler(TypedAny("", data))
    {
      var wrapper := (data: seq<Byte>) => handler(TypedAny("", data));
      handlers := handlers[suffix := wrapper];
    }

    /** The two lookups that one event goes through. */
    method ProjectEvent(event: TypedAny) returns (events: seq<CloudEvent>)
      ensures events == EventOutput(handlers, event)
    {
      events := [];
      var exact := RangeMap(handlers, event.typeUrl);
      if exact.Some? {
        var ce := exact.value(event.value);
        if ce.Some? {
          events := events + [ce.value];
        }
      }
      var suffix := SimpleName(event.typeUrl);
      if suffix in handlers {
        var ce := handlers[suffix](event.value);
        if ce.Some? {
          events := events + [ce.value];
        }
      }
    }

    method Project(source: Option<EventBook>) returns (events: seq<CloudEvent>)
      ensures events == if source.Some? then Projected(handlers, source.value.pages) else []
    {
      events := [];
      if source.None? {
        return;
      }
      var pages := source.value.pages;
      for i := 0 to |pages|
        invariant events == Projected(handlers, pages[..i])
      {
        ProjectedStep(handlers, pages, i);
        var event := pages[i].GetEvent();
        if event.Some? {
          var more := ProjectEvent(event.value);
          events := events + more;
        }
      }
      assert pages[..|pages|] == pages;
    }
  }

  /** The output is the concatenation over the pages, so a book can be projected in parts. */
  lemma {:induction false} ProjectedConcat(handlers: map<string, CloudHandler>, p: seq<EventPage>, q: seq<EventPage>)
    ensures Projected(handlers, p + q) == Projected(handlers, p) + Projected(handlers, q)
    decreases |q|
  {
    if q == [] {
      assert p + q == p;
    } else {
      var n := |q| - 1;
      assert (p + q)[..|p| + n] == p + q[..n];
      ProjectedConcat(handlers, p, q[..n]);
      ConcatAssoc(Projected(handlers, p), Projected(handlers, q[..n]), PageOutput(handlers, q[n]));
    }
  }

  // ---------- When an event is published twice ----------

  /** Two registered names that one event can hit, with handlers that both publish its data. */
  predicate Overlap(handlers: map<string, CloudHandler>, name: string, data: seq<Byte>) {
    && name in handlers
    && SimpleName(TYPE_URL_PREFIX + name) in handlers
    && handlers[name](data).Some?
    && handlers[SimpleName(TYPE_URL_PREFIX + name)](data).Some?
  }

  lemma TwiceIffOverlap(handlers: map<string, CloudHandler>, event: TypedAny)
    ensures |EventOutput(handlers, event)| <= 2
    ensures |EventOutput(handlers, event)| == 2 <==>
            exists name :: event.typeUrl == TYPE_URL_PREFIX + name && Overlap(handlers, name, event.value)
  {
    if TYPE_URL_PREFIX <= event.typeUrl {
      var name := event.typeUrl[|TYPE_URL_PREFIX|..];
      assert event.typeUrl == TYPE_URL_PREFIX + name;
    }
    forall name | event.typeUrl == TYPE_URL_PREFIX + name && Overlap(handlers, name, event.value)
      ensures |EventOutput(handlers, event)| == 2
    {
      PrefixedUrl(name);
    }
  }

  lemma OnceIffNoOverlap(handlers: map<string, CloudHandler>, event: TypedAny)
    ensures |EventOutput(handlers, event)| <= 1 <==>
            forall name :: event.typeUrl == TYPE_URL_PREFIX + name ==> !Overlap(handlers, name, event.value)
  {
    TwiceIffOverlap(handlers, event);
  }

  /** The simple-name lookup is described as a fall-back, which would publish an event at most once. It is one on
      all events exactly when no registered name overlaps with the registered simple name it ends in. */
  lemma FallBackIff(handlers: map<string, CloudHandler>)
    ensures (forall event :: |EventOutput(handlers, event)| <= 1) <==>
            (forall name, data :: !Overlap(handlers, name, data))
  {
    forall event
      ensures |EventOutput(handlers, event)| <= 1 <==>
              forall name :: event.typeUrl == TYPE_URL_PREFIX + name ==> !Overlap(handlers, name, event.value)
    {
      OnceIffNoOverlap(handlers, event);
    }
    if forall event :: |EventOutput(handlers, event)| <= 1 {
      forall name, data
        ensures !Overlap(handlers, name, data)
      {
        OnceIffNoOverlap(handlers, TypedAny(TYPE_URL_PREFIX + name, data));
        assert |EventOutput(handlers, TypedAny(TYPE_URL_PREFIX + name, data))| <= 1;
      }
    }
  }

  lemma SimpleNameOfFullName(name: string)
    requires '/' !in name
    ensures SimpleName(TYPE_URL_PREFIX + name) == After(name, '.')
  {
    TypeNameRoundTrip(name);
  }

  /** A message type without a package is its own simple name: its one handler publishes the event twice. */
  lemma UnpackagedTypePublishedTwice(handlers: map<string, CloudHandler>, name: string, data: seq<Byte>)
    requires '/' !in name && '.' !in name && name in handlers && handlers[name](data).Some?
    ensures var ce := handlers[name](data).value;
            EventOutput(handlers, TypedAny(TYPE_URL_PREFIX + name, data)) == [ce, ce]
  {
    SimpleNameOfFullName(name);
    assert After(name, '.') == name;
    PrefixedUrl(name);
  }

  /** The event's type name has a package. */
  predicate Packaged(event: TypedAny) {
    TYPE_URL_PREFIX <= event.typeUrl ==> '.' in event.typeUrl[|TYPE_URL_PREFIX|..]
  }

  /** On events of packaged types the fall-back is one exactly when no dotted name overlaps; full names and simple
      names may be mixed in the table. */
  lemma PackagedFallBackIff(handlers: map<string, CloudHandler>)
    ensures (forall event :: Packaged(event) ==> |EventOutput(handlers, event)| <= 1) <==>
            (forall name, data :: '.' in name ==> !Overlap(handlers, name, data))
  {
    if forall event :: Packaged(event) ==> |EventOutput(handlers, event)| <= 1 {
      forall name, data | '.' in name
        ensures !Overlap(handlers, name, data)
      {
        var event := TypedAny(TYPE_URL_PREFIX + name, data);
        PrefixedUrl(name);
        OnceIffNoOverlap(handlers, event);
        assert Packaged(event);
      }
    }
    if forall name, data :: '.' in name ==> !Overlap(handlers, name, data) {
      forall event | Packaged(event)
        ensures |EventOutput(handlers, event)| <= 1
      {
        PackagedOnce(handlers, event);
      }
    }
  }

  lemma PackagedOnce(handlers: map<string, CloudHandler>, event: TypedAny)
    requires Packaged(event) && forall name, data :: '.' in name ==> !Overlap(handlers, name, data)
    ensures |EventOutput(handlers, event)| <= 1
  {
    forall name | event.typeUrl == TYPE_URL_PREFIX + name
      ensures !Overlap(handlers, name, event.value)
    {
      PrefixedUrl(name);
    }
    OnceIffNoOverlap(handlers, event);
  }

  /** An event is published at most once if no registered dotted name ends in a registered name, and either the
      event's type has a package or no simple name is registered at all. */
  lemma PackagedNamesNeverOverlap(handlers: map<string, CloudHandler>, event: TypedAny)
    requires forall name :: name in handlers && '.' in name ==> SimpleName(TYPE_URL_PREFIX + name) !in handlers
    requires Packaged(event) || forall name :: name in handlers ==> '.' in name
    ensures |EventOutput(handlers, event)| <= 1
  {
    if Packaged(event) {
      PackagedOnce(handlers, event);
    } else {
      OnceIffNoOverlap(handlers, event);
    }
  }

  // ---------- What one page publishes ----------

  /** `short` is all that follows the last slash or dot. */
  ghost predicate EndsInName(typeUrl: string, short: string) {
    var n := |typeUrl| - |short|;
    && 0 <= n && typeUrl[n..] == short
    && '/' !in short && '.' !in short
    && (n > 0 ==> typeUrl[n - 1] == '/' || typeUrl[n - 1] == '.')
  }

  lemma SuffixAvoids(s: string, j: nat, c: char)
    requires j <= |s| && c !in s
    ensures c !in s[j..]
  {
  }

  lemma SuffixOfSuffix(s: string, i: nat, j: nat)
    requires i + j <= |s|
    ensures s[i..][j..] == s[i + j..] && (j > 0 ==> s[i..][j - 1] == s[i + j - 1])
  {
  }

  lemma SimpleNameEnds(typeUrl: string)
    ensures EndsInName(typeUrl, SimpleName(typeUrl))
  {
    var i := LastIndex(typeUrl, '/') + 1;
    var tail := typeUrl[i..];
    var j := LastIndex(tail, '.') + 1;
    assert tail == After(typeUrl, '/') && tail[j..] == After(tail, '.');
    SuffixAvoids(tail, j, '/');
    SuffixOfSuffix(typeUrl, i, j);
  }

  lemma SimpleNameIs(typeUrl: string, short: string)
    ensures SimpleName(typeUrl) == short <==> EndsInName(typeUrl, short)
  {
    SimpleNameEnds(typeUrl);
    if EndsInName(typeUrl, short) {
      SameEnding(typeUrl, short, SimpleName(typeUrl));
      SameEnding(typeUrl, SimpleName(typeUrl), short);
    }
  }

  lemma SameEnding(typeUrl: string, short: string, other: string)
    requires EndsInName(typeUrl, short) && EndsInName(typeUrl, other)
    ensures |other| <= |short|
  {
    assert forall k :: 0 <= k < |other| ==> other[k] == typeUrl[|typeUrl| - |other| + k];
    assert forall k :: |typeUrl| - |other| <= k < |typeUrl| ==> typeUrl[k] == other[k - (|typeUrl| - |other|)];
  }

  lemma OutputOfNamed(handlers: map<string, CloudHandler>, name: string, value: seq<Byte>, short: string)
    requires EndsInName(TYPE_URL_PREFIX + name, short)
    ensures EventOutput(handlers, TypedAny(TYPE_URL_PREFIX + name, value)) ==
            Published(if name in handlers then handlers[name](value) else None) +
            Published(if short in handlers then handlers[short](value) else None)
  {
    FindsEntry(handlers, name);
    SimpleNameIs(TYPE_URL_PREFIX + name, short);
  }

  lemma OutputOfForeign(handlers: map<string, CloudHandler>, event: TypedAny, short: string)
    requires !(TYPE_URL_PREFIX <= event.typeUrl) && EndsInName(event.typeUrl, short)
    ensures EventOutput(handlers, event) == Published(if short in handlers then handlers[short](event.value) else None)
  {
    SimpleNameIs(event.typeUrl, short);
  }

  lemma EventAround(handlers: map<string, CloudHandler>, p: seq<EventPage>, page: EventPage, event: TypedAny,
                    q: seq<EventPage>)
    requires page.GetEvent() == Some(event)
    ensures Projected(handlers, p + [page] + q) ==
            Projected(handlers, p) + EventOutput(handlers, event) + Projected(handlers, q)
  {
    OutputAround(handlers, p, page, q);
  }

  /** Anywhere in a book, an event publishes first what the handler under its full name makes of its bytes, then what
      the handler under its simple name does; either may be missing or publish nothing. */
  lemma EventPublishes(handlers: map<string, CloudHandler>, p: seq<EventPage>, header: Option<PageHeader>, name: string,
                       value: seq<Byte>, createdAt: Option<int>, q: seq<EventPage>, short: string)
    requires EndsInName(TYPE_URL_PREFIX + name, short)
    ensures var exact := if name in handlers then handlers[name](value) else None;
            var simple := if short in handlers then handlers[short](value) else None;
            Projected(handlers, p + [TypedPage(header, name, value, createdAt)] + q) ==
            Projected(handlers, p) + (if exact.Some? then [exact.value] else []) +
            (if simple.Some? then [simple.value] else []) + Projected(handlers, q)
  {
    var event := TypedAny(TYPE_URL_PREFIX + name, value);
    var exact := if name in handlers then handlers[name](value) else None;
    var simple := if short in handlers then handlers[short](value) else None;
    OutputOfNamed(handlers, name, value, short);
    EventAround(handlers, p, TypedPage(header, name, value, createdAt), event, q);
    ConcatAssoc(Projected(handlers, p), Published(exact), Published(simple));
  }

  /** An event under another type URL prefix can only be hit by its simple name. */
  lemma ForeignEventPublishes(handlers: map<string, CloudHandler>, p: seq<EventPage>, header: Option<PageHeader>,
                              event: TypedAny, createdAt: Option<int>, q: seq<EventPage>, short: string)
    requires !(TYPE_URL_PREFIX <= event.typeUrl) && EndsInName(event.typeUrl, short)
    ensures var simple := if short in handlers then handlers[short](event.value) else None;
            Projected(handlers, p + [EventPage(header, Event(Some(event)), createdAt)] + q) ==
            Projected(handlers, p) + (if simple.Some? then [simple.value] else []) + Projected(handlers, q)
  {
    OutputOfForeign(handlers, event, short);
    EventAround(handlers, p, EventPage(header, Event(Some(event)), createdAt), event, q);
  }

  /** A page without an event publishes nothing, and so does the empty book. */
  lemma PageWithoutEvent(handlers: map<string, CloudHandler>, p: seq<EventPage>, page: EventPage, q: seq<EventPage>)
    requires page.NilPage? || !page.payload.Event? || page.payload.event.None?
    ensures Projected(handlers, p + [page] + q) == Projected(handlers, p) + Projected(handlers, q)
    ensures Projected(handlers, []) == []
  {
    OutputAround(handlers, p, page, q);
    assert Projected(handlers, p) + [] == Projected(handlers, p);
  }

  lemma OutputAround(handlers: map<string, CloudHandler>, p: seq<EventPage>, page: EventPage, q: seq<EventPage>)
    ensures Projected(handlers, p + [page] + q) ==
            Projected(handlers, p) + PageOutput(handlers, page) + Projected(handlers, q)
  {
    ProjectedConcat(handlers, p + [page], q);
    assert (p + [page])[..|p|] == p;
  }
}
