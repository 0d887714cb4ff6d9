/** The OO aggregate itself: a mutable object over the request's own event book. */
module Aggregate {
  import opened Proto
  import opened Dispatch
  import opened Replay
  import opened AggregateSpec
  import opened Keys
  import opened Rejections

  type RejectionHandler<!S> = (View<S>, Notification) -> BusinessResponse

  /** How a rejection is answered: by the handler registered for its key, else by delegating to the framework. */
  function RejectionAnswer<S>(codec: Codec, handlers: map<string, RejectionHandler<S>>, domain: string,
                              v: View<S>, cmd: TypedAny): Result<BusinessResponse> {
    match RouteRejection(codec, handlers, cmd)
    case Err(e) => Err(e)
    case Ok(Route(notification, key, handler)) =>
      Ok(if handler.Some? then handler.value(v, notification) else NoCompensation(domain, key))
  }

  predicate RejectionRouted<S>(codec: Codec, handlers: map<string, RejectionHandler<S>>, cmd: TypedAny) {
    var route := RouteRejection(codec, handlers, cmd);
    route.Ok? && route.value.handler.Some?
  }

  /** What `Handle` leaves of an instance. */
  function HandleCore<S>(b: Behaviour<S>, codec: Codec, rejections: map<string, RejectionHandler<S>>, c: Core<S>,
                         command: CommandBook): Core<S> {
    var cmd := RequestCommand(command);
    if cmd.None? then c
    else if !IsNotification(cmd.value) then DispatchStep(b, c, cmd).core
    else if RejectionRouted(codec, rejections, cmd.value) then Rebuilt(b, c)
    else c
  }

  /** What `Handle` answers; the events of a success are the instance's book with its pages as dispatch left them. */
  function HandleAnswer<S>(b: Behaviour<S>, codec: Codec, rejections: map<string, RejectionHandler<S>>, domain: string,
                           book: EventBook, c: Core<S>, command: CommandBook): Result<BusinessResponse> {
    var cmd := RequestCommand(command);
    if cmd.None? then Err(NoCommandPages)
    else if IsNotification(cmd.value) then
      RejectionAnswer(codec, rejections, domain, ViewOf(Rebuilt(b, c)), cmd.value)
    else
      var step := DispatchStep(b, c, cmd);
      if step.error.Some? then Err(step.error.value) else Ok(Events(book.(pages := step.core.pages)))
  }

  /** A nil book becomes a new empty one; otherwise the caller's book is shared, not copied. */
  method ShareOrCreate(book: EventBookRef?) returns (shared: EventBookRef)
    ensures shared.book == BookOf(book)
    ensures if book != null then shared == book else fresh(shared)
  {
    if book == null {
      shared := new EventBookRef(EMPTY_BOOK);
    } else {
      shared := book;
    }
  }

  class CommandHandlerBase<S(!new)> {
    const codec: Codec
    const factory: () -> S
    var eventBook: EventBookRef
    var state: Option<S>
    var stateSet: bool
    var nextSeq: Uint32
    var handlers: map<string, SingleHandler<S>>
    var multiHandlers: map<string, MultiHandler<S>>
    var appliers: map<string, Applier<S>>
    var rejectionHandlers: map<string, RejectionHandler<S>>
    var domain: string

    // The log that the instance was created over, and the events recorded since its state was rebuilt.
    ghost var prior: seq<EventPage>
    ghost var recorded: seq<TypedAny>

    ghost function Behaves(): Behaviour<S>
      reads this
    {
      Behaviour(factory, handlers, multiHandlers, appliers)
    }

    ghost function ToCore(): Core<S>
      reads this, eventBook
    {
      Core(state, nextSeq, eventBook.book.pages, eventBook.book.nextSequence)
    }

    /** Before the rebuild the book holds the prior log. Afterwards it holds exactly the recorded events, numbered
        on from the book's next sequence, and the counter is just past them. */
    ghost predicate Valid()
      reads this, eventBook
    {
      stateSet == state.Some? && Counted(ToCore(), prior, recorded)
    }

    /** The cached state is what replaying prior log and recorded events would give. Registering an applier for a
        type that is already in the log of a rebuilt instance may break this; nothing else does. */
    ghost predicate CacheAgreesWithReplay()
      reads this, eventBook
    {
      Replayed(Behaves(), ToCore(), prior)
    }

    /** Everything but the cached state, the counter and the pages stays as it was. */
    twostate predicate RegistrationsKept()
      reads this, eventBook
    {
      && Behaves() == old(Behaves()) && rejectionHandlers == old(rejectionHandlers) && domain == old(domain)
      && eventBook == old(eventBook) && prior == old(prior)
      && eventBook.book == old(eventBook.book).(pages := eventBook.book.pages)
    }

    /** `Init`. */
    constructor (book: EventBookRef?, factory: () -> S, codec: Codec)
      ensures Valid() && CacheAgreesWithReplay()
      ensures ToCore() == Fresh(BookOf(book).pages, BookOf(book).nextSequence)
      ensures eventBook.book == BookOf(book)
      ensures if book != null then eventBook == book else fresh(eventBook)
      ensures prior == BookOf(book).pages
      ensures this.factory == factory && this.codec == codec
      ensures Behaves() == Behaviour(factory, map[], map[], map[]) && rejectionHandlers == map[] && domain == ""
    {
      this.factory, this.codec := factory, codec;
      var shared := ShareOrCreate(book);
      eventBook, prior, recorded := shared, shared.book.pages, [];
      state, stateSet, nextSeq := None, false, 0;
      handlers, multiHandlers, appliers, rejectionHandlers, domain := map[], map[], map[], map[], "";
    }

    /** What a developer's factory returns: `Init` over the request's events, then the registrations. */
    constructor Registered(book: EventBookRef?, b: Behaviour<S>, rejections: map<string, RejectionHandler<S>>,
                           domain: string, codec: Codec)
      ensures Valid() && CacheAgreesWithReplay()
      ensures ToCore() == Fresh(BookOf(book).pages, BookOf(book).nextSequence)
      ensures eventBook.book == BookOf(book)
      ensures if book != null then eventBook == book else fresh(eventBook)
      ensures Behaves() == b && rejectionHandlers == rejections && this.domain == domain && this.codec == codec
    {
      this.factory, this.codec := b.factory, codec;
      var shared := ShareOrCreate(book);
      eventBook, prior, recorded := shared, shared.book.pages, [];
      state, stateSet, nextSeq := None, false, 0;
      handlers, multiHandlers, appliers := b.handlers, b.multiHandlers, b.appliers;
      rejectionHandlers, this.domain := rejections, domain;
    }

    method SetDomain(domain: string)
      requires Valid()
      modifies this`domain
      ensures Valid() && old(CacheAgreesWithReplay()) ==> CacheAgreesWithReplay()
      ensures this.domain == domain
    {
      this.domain := domain;
    }

    method Handles(fullName: string, handler: SingleHandler<S>)
      requires Valid()
      modifies this`handlers
      ensures Valid() && old(CacheAgreesWithReplay()) ==> CacheAgreesWithReplay()
      ensures handlers == old(handlers)[fullName := handler]
    {
      handlers := handlers[fullName := handler];
    }

    method HandlesMulti(fullName: string, handler: MultiHandler<S>)
      requires Valid()
      modifies this`multiHandlers
      ensures Valid() && old(CacheAgreesWithReplay()) ==> CacheAgreesWithReplay()
      ensures multiHandlers == old(multiHandlers)[fullName := handler]
    {
      multiHandlers := multiHandlers[fullName := handler];
    }

    method Applies(fullName: string, applier: Applier<S>)
      requires Valid()
      modifies this`appliers
      ensures Valid()
      ensures !stateSet ==> CacheAgreesWithReplay()
      ensures old(CacheAgreesWithReplay()) && NoEventOf(prior + eventBook.book.pages, fullName) ==>
                CacheAgreesWithReplay()
      ensures appliers == old(appliers)[fullName := applier]
    {
      if CacheAgreesWithReplay() && NoEventOf(prior + eventBook.book.pages, fullName) {
        LateApplierKeepsReplay(Behaves(), ToCore(), prior, fullName, applier);
      }
      appliers := appliers[fullName := applier];
    }

    method HandlesRejection(domain: string, command: string, handler: RejectionHandler<S>)
      requires Valid()
      modifies this`rejectionHandlers
      ensures Valid() && old(CacheAgreesWithReplay()) ==> CacheAgreesWithReplay()
      ensures rejectionHandlers == old(rejectionHandlers)[RejectionKey(domain, command) := handler]
    {
      rejectionHandlers := rejectionHandlers[RejectionKey(domain, command) := handler];
    }

    /** `applyEvent` on the cached state. */
    method ApplyToState(event: TypedAny)
      requires Valid() && state.Some?
      modifies this`state
      ensures state == Some(ApplyEvent(ByMap(appliers), old(state).value, event))
      ensures forall name :: name in appliers && event.typeUrl == TYPE_URL_PREFIX + name ==>
                state == Some(appliers[name](old(state).value, event.value))
      ensures (forall name :: name in appliers ==> event.typeUrl != TYPE_URL_PREFIX + name) ==> state == old(state)
    {
      EventApplied(appliers, state.value, event);
      var applier := RangeMap(appliers, event.typeUrl);
      if applier.Some? {
        state := Some(applier.value(state.value, event.value));
      }
    }

    method Rebuild()
      requires Valid() && !stateSet
      modifies this, eventBook
      ensures Valid() && CacheAgreesWithReplay() && RegistrationsKept()
      ensures ToCore() == Rebuilt(Behaves(), old(ToCore()))
      ensures recorded == []
    {
      state, stateSet := Some(factory()), true;
      nextSeq := eventBook.book.nextSequence;
      var pages := eventBook.book.pages;
      ghost var table := ByMap(appliers);
      for i := 0 to |pages|
        invariant state == Some(Fold(table, factory(), pages[..i]))
        invariant stateSet && table == ByMap(appliers) && eventBook.book == old(eventBook.book)
        invariant RegistrationsKept() && recorded == []
        invariant nextSeq == eventBook.book.nextSequence
      {
        FoldStep(table, factory(), pages, i);
        var event := pages[i].GetEvent();
        if event.Some? {
          var applier := RangeMap(appliers, event.value.typeUrl);
          if applier.Some? {
            state := Some(applier.value(state.value, event.value.value));
          }
        }
      }
      assert pages[..|pages|] == pages;
      eventBook.book := eventBook.book.(pages := []);
      assert prior + [] == prior;
    }

    /** `State()`. */
    method State() returns (s: S)
      requires Valid()
      modifies this, eventBook
      ensures Valid() && RegistrationsKept()
      ensures old(CacheAgreesWithReplay()) ==> CacheAgreesWithReplay()
      ensures ToCore() == Rebuilt(Behaves(), old(ToCore())) && state == Some(s)
      ensures recorded == old(recorded)
    {
      if !stateSet {
        Rebuild();
      }
      s := state.value;
    }

    /** `Exists()`. It looks at the pages only after `State()` has consumed the prior ones. */
    method Exists() returns (r: bool)
      requires Valid()
      modifies this, eventBook
      ensures Valid() && RegistrationsKept()
      ensures old(CacheAgreesWithReplay()) ==> CacheAgreesWithReplay()
      ensures ToCore() == Rebuilt(Behaves(), old(ToCore()))
      ensures r <==> old(recorded) != []
    {
      var _ := State();
      r := stateSet && |eventBook.book.pages| > 0;
    }

    method ApplyAndRecord(event: TypedAny)
      requires Valid() && stateSet
      modifies this, eventBook
      ensures Valid() && RegistrationsKept()
      ensures old(CacheAgreesWithReplay()) ==> CacheAgreesWithReplay()
      ensures ToCore() == Record(Behaves(), old(ToCore()), [event])
      ensures recorded == old(recorded) + [event]
      ensures nextSeq == (old(nextSeq) + 1) % 0x1_0000_0000
      ensures eventBook.book.pages == old(eventBook.book.pages) +
                [EventPage(Some(PageHeader(Sequence(old(nextSeq)))), Event(Some(event)), None)]
    {
      ghost var b, c := Behaves(), ToCore();
      ApplyToState(event);
      var seqNo := nextSeq;
      nextSeq := Add32(nextSeq, 1);
      eventBook.book := eventBook.book.(pages := eventBook.book.pages + [NewPage(seqNo, event)]);
      RecordOne(b, c, event);
      RecordStamps(b, c, prior, recorded, [event]);
      recorded := recorded + [event];
      if Replayed(b, c, prior) {
        RecordReplayed(b, c, prior, [event]);
      }
    }

    method Dispatch(cmd: Option<TypedAny>) returns (error: Option<Error>)
      requires Valid()
      modifies this, eventBook
      ensures Valid() && RegistrationsKept()
      ensures old(CacheAgreesWithReplay()) ==> CacheAgreesWithReplay()
      ensures Step(ToCore(), error) == DispatchStep(Behaves(), old(ToCore()), cmd)
      ensures old(recorded) <= recorded
    {
      if cmd.None? || cmd.value.typeUrl == "" {
        return Some(NoCommandProvided);
      }
      var single := RangeMap(handlers, cmd.value.typeUrl);
      if single.Some? {
        var s := State();
        var answer := single.value(View(s, |eventBook.book.pages| > 0), cmd.value);
        if answer.Err? {
          return Some(answer.error);
        }
        RecordSingle(Behaves(), ToCore(), answer.value);
        if answer.value.Some? {
          ApplyAndRecord(answer.value.value);
        }
        return None;
      }
      var multi := RangeMap(multiHandlers, cmd.value.typeUrl);
      if multi.Some? {
        var s := State();
        var answer := multi.value(View(s, |eventBook.book.pages| > 0), cmd.value);
        if answer.Err? {
          return Some(answer.error);
        }
        RecordAll(answer.value);
        return None;
      }
      error := Some(UnknownCommand(cmd.value.typeUrl));
    }

    /** The loop over a multi-event handler's events. */
    method RecordAll(events: seq<Option<TypedAny>>)
      requires Valid() && stateSet
      modifies this, eventBook
      ensures Valid() && RegistrationsKept()
      ensures old(CacheAgreesWithReplay()) ==> CacheAgreesWithReplay()
      ensures ToCore() == Record(Behaves(), old(ToCore()), Present(events))
      ensures recorded == old(recorded) + Present(events)
    {
      ghost var start, b := ToCore(), Behaves();
      RecordNothing(b, start);
      for i := 0 to |events|
        invariant Valid() && stateSet && RegistrationsKept()
        invariant old(CacheAgreesWithReplay()) ==> CacheAgreesWithReplay()
        invariant Behaves() == b && ToCore() == Record(b, start, Present(events[..i]))
        invariant recorded == old(recorded) + Present(events[..i])
      {
        RecordNext(b, start, events, i);
        if events[i].Some? {
          ApplyAndRecord(events[i].value);
        }
      }
      assert events[..|events|] == events;
    }

    method DispatchRejection(cmd: TypedAny) returns (r: Result<BusinessResponse>)
      requires Valid()
      modifies this, eventBook
      ensures Valid() && RegistrationsKept()
      ensures old(CacheAgreesWithReplay()) ==> CacheAgreesWithReplay()
      ensures r == RejectionAnswer(codec, rejectionHandlers, domain, ViewOf(Rebuilt(Behaves(), old(ToCore()))), cmd)
      ensures ToCore() == if RejectionRouted(codec, rejectionHandlers, cmd) then Rebuilt(Behaves(), old(ToCore()))
                          else old(ToCore())
    {
      var notification := UnmarshalTo(cmd, NOTIFICATION, codec.notification);
      if notification.None? {
        return Err(BadNotification);
      }
      var rejection := RejectionOf(codec, notification.value);
      if rejection.None? {
        return Err(BadRejection);
      }
      var (d, c) := InlineKeyParts(rejection.value);
      var key := RejectionKey(d, c);
      if key in rejectionHandlers {
        var s := State();
        return Ok(rejectionHandlers[key](View(s, |eventBook.book.pages| > 0), notification.value));
      }
      r := Ok(NoCompensation(domain, key));
    }

    /** `Handle`. The events of a successful response are the aggregate's own book, the one of the request. */
    method Handle(command: CommandBook) returns (r: Result<BusinessResponse>)
      requires Valid()
      modifies this, eventBook
      ensures Valid() && RegistrationsKept()
      ensures old(CacheAgreesWithReplay()) ==> CacheAgreesWithReplay()
      ensures ToCore() == HandleCore(Behaves(), codec, rejectionHandlers, old(ToCore()), command)
      ensures r == HandleAnswer(Behaves(), codec, rejectionHandlers, domain, old(eventBook.book), old(ToCore()), command)
    {
      if |command.pages| == 0 {
        return Err(NoCommandPages);
      }
      var cmd := command.pages[0].GetCommand();
      if cmd.None? || cmd.value.typeUrl == "" {
        return Err(NoCommandPages);
      }
      if cmd.value.typeUrl == TYPE_URL_PREFIX + NOTIFICATION {
        r := DispatchRejection(cmd.value);
        return;
      }
      var error := Dispatch(cmd);
      if error.Some? {
        return Err(error.value);
      }
      r := Ok(Events(eventBook.book));
    }
  }

  // ---------- The gRPC wrapper: a new instance for every request ----------

  datatype Status = InvalidArgument(error: Error) | FailedPrecondition(message: string)

  datatype Reply = Response(response: BusinessResponse) | Failure(status: Status)

  function StatusOf(e: Error): Status {
    if e.HandlerFailed? && e.rejected then FailedPrecondition(e.message) else InvalidArgument(e)
  }

  function ReplyTo(r: Result<BusinessResponse>): Reply {
    match r
    case Ok(response) => Response(response)
    case Err(e) => Failure(StatusOf(e))
  }

  /** `dispatch`: a new instance handles the command. The request's own book is updated in place, so after a success
      it is the response. */
  method DispatchRequest<S(!new)>(b: Behaviour<S>, rejections: map<string, RejectionHandler<S>>, domain: string,
                                  codec: Codec, command: Option<CommandBook>, events: EventBookRef?)
    returns (reply: Reply)
    modifies events
    ensures command.None? ==>
              reply == Failure(InvalidArgument(NoCommandProvided)) && BookOf(events) == old(BookOf(events))
    ensures command.Some? ==>
              var book := old(BookOf(events));
              var c := Fresh(book.pages, book.nextSequence);
              && reply == ReplyTo(HandleAnswer(b, codec, rejections, domain, book, c, command.value))
              && reply == (match HandleAnswer(b, codec, rejections, domain, book, c, command.value)
                           case Ok(response) => Response(response)
                           case Err(HandlerFailed(message, true)) => Failure(FailedPrecondition(message))
                           case Err(e) => Failure(InvalidArgument(e)))
              && (events != null ==>
                    events.book == book.(pages := HandleCore(b, codec, rejections, c, command.value).pages))
  {
    if command.None? {
      return Failure(InvalidArgument(NoCommandProvided));
    }
    var instance := new CommandHandlerBase.Registered(events, b, rejections, domain, codec);
    var r := instance.Handle(command.value);
    reply := ReplyTo(r);
  }

  // ---------- Answers to rejections, written out ----------

  /** A carried rejection is answered by the handler of its domain and command, on the rebuilt state, or delegated to
      the framework with a message that names the aggregate's domain and the key. */
  lemma RejectionCompensated<S>(codec: Codec, handlers: map<string, RejectionHandler<S>>, domain: string, v: View<S>,
                                value: seq<Byte>, notification: Notification, rejection: Rejection)
    requires Carries(codec, value, notification, rejection)
    ensures var cmd := TypedAny(TYPE_URL_PREFIX + NOTIFICATION, value);
            var key := InlineKeyParts(rejection).0 + "/" + InlineKeyParts(rejection).1;
            && (RejectionRouted(codec, handlers, cmd) <==> key in handlers)
            && RejectionAnswer(codec, handlers, domain, v, cmd) ==
               Ok(if key in handlers then handlers[key](v, notification)
                  else Revocation(true, "CommandHandler " + domain + " has no custom compensation for " + key))
  {
    RoutesCarried(codec, handlers, value, notification, rejection);
  }

  lemma RejectionRefused<S>(codec: Codec, handlers: map<string, RejectionHandler<S>>, domain: string, v: View<S>,
                            value: seq<Byte>)
    requires forall notification, rejection :: !Carries(codec, value, notification, rejection)
    ensures var cmd := TypedAny(TYPE_URL_PREFIX + NOTIFICATION, value);
            && !RejectionRouted(codec, handlers, cmd)
            && RejectionAnswer(codec, handlers, domain, v, cmd) ==
               Err(if codec.notification(value).None? then BadNotification else BadRejection)
  {
    RoutesNothing(codec, handlers, value);
  }
}
