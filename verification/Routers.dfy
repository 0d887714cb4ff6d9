/** The functional counterpart of the OO aggregate: explicit state rebuilding, slice-based dispatch, and handlers
    that build the response's event book themselves. */
module Routers {
  import opened Proto
  import opened Dispatch
  import opened Replay
  import opened AggregateSpec
  import opened Keys
  import opened Rejections

  function NextSequence(book: Option<EventBook>): Uint32 {
    if book.Some? then book.value.nextSequence else 0
  }

  // ---------- StateRouter ----------

  function RebuildFrom<S>(factory: () -> S, appliers: Table<Applier<S>>, book: Option<EventBook>): S {
    Fold(appliers, factory(), if book.Some? then book.value.pages else [])
  }

  class StateRouter<S(!new)> {
    const factory: () -> S
    var handlers: seq<Registration<Applier<S>>>

    constructor (factory: () -> S)
      ensures this.factory == factory && handlers == []
    {
      this.factory, handlers := factory, [];
    }

    method On(fullName: string, applier: Applier<S>)
      modifies this
      ensures handlers == old(handlers) + [Registration(fullName, applier)]
    {
      handlers := handlers + [Registration(fullName, applier)];
    }

    /** The state behind the pointer is passed in and handed back. */
    method ApplySingle(state: S, event: TypedAny) returns (s: S)
      ensures s == ApplyEvent(BySlice(handlers), state, event)
      ensures forall i :: 0 <= i < |handlers| && FirstAt(handlers, handlers[i].fullName, i) &&
                          event.typeUrl == TYPE_URL_PREFIX + handlers[i].fullName ==>
                s == handlers[i].handler(state, event.value)
      ensures (forall i :: 0 <= i < |handlers| ==> event.typeUrl != TYPE_URL_PREFIX + handlers[i].fullName) ==>
                s == state
    {
      EventAppliedByFirst(handlers, state, event);
      s := state;
      var applier := ScanSlice(handlers, event.typeUrl);
      if applier.Some? {
        s := applier.value(state, event.value);
      }
    }

    method WithEvents(pages: seq<EventPage>) returns (state: S)
      ensures state == Fold(BySlice(handlers), factory(), pages)
    {
      state := factory();
      for i := 0 to |pages|
        invariant state == Fold(BySlice(handlers), factory(), pages[..i])
      {
        FoldStep(BySlice(handlers), factory(), pages, i);
        var event := pages[i].GetEvent();
        if event.Some? {
          state := ApplySingle(state, event.value);
        }
      }
      assert pages[..|pages|] == pages;
    }

    method WithEventBook(book: Option<EventBook>) returns (state: S)
      ensures state == RebuildFrom(factory, BySlice(handlers), book)
      ensures state == if book.Some? then Fold(BySlice(handlers), factory(), book.value.pages) else factory()
    {
      if book.None? {
        return factory();
      }
      state := WithEvents(book.value.pages);
    }

    /** The rebuilder keeps the router, not a copy of its registrations. */
    function ToRebuilder(): (rebuild: Rebuilder<S>)
      reads this
      ensures forall book :: StateFrom(rebuild, book) == RebuildFrom(factory, BySlice(handlers), book)
    {
      OfRouter(this)
    }
  }

  /** A rebuilder function: a function of the book alone, or the closure that a state router hands out, which reads
      the router's registrations whenever it is called. */
  datatype Rebuilder<!S(!new)> = Plain(rebuild: Option<EventBook> -> S) | OfRouter(router: StateRouter<S>)

  ghost function StateFrom<S(!new)>(rebuild: Rebuilder<S>, book: Option<EventBook>): S
    reads if rebuild.OfRouter? then {rebuild.router} else {}
  {
    match rebuild
    case Plain(f) => f(book)
    case OfRouter(router) => RebuildFrom(router.factory, BySlice(router.handlers), book)
  }

  /** Calling a rebuilder. */
  method CallRebuilder<S(!new)>(rebuild: Rebuilder<S>, book: Option<EventBook>) returns (state: S)
    ensures state == StateFrom(rebuild, book)
  {
    match rebuild {
      case Plain(f) => state := f(book);
      case OfRouter(router) => state := router.WithEventBook(book);
    }
  }

  /** A registration made after `ToRebuilder` was called takes part in later rebuilds. */
  method RegisterLate<S(!new)>(router: StateRouter<S>, fullName: string, applier: Applier<S>, book: Option<EventBook>)
    returns (state: S)
    modifies router
    ensures state ==
            RebuildFrom(router.factory, BySlice(old(router.handlers) + [Registration(fullName, applier)]), book)
  {
    var rebuild := router.ToRebuilder();
    router.On(fullName, applier);
    state := CallRebuilder(rebuild, book);
  }

  // ---------- CommandRouter ----------

  type CommandHandler<!S> = (CommandBook, TypedAny, S, Uint32) -> Result<EventBook>
  type RevocationHandler<!S> = (Notification, S) -> BusinessResponse

  /** The router's answer, given the state rebuilt from the prior book. */
  function RouterAnswer<S>(domain: string, state: S, handlers: Table<CommandHandler<S>>,
                           revocations: map<string, RevocationHandler<S>>, codec: Codec, command: Option<CommandBook>,
                           prior: Option<EventBook>): Result<BusinessResponse> {
    if command.None? || RequestCommand(command.value).None? then Err(NoCommandPages)
    else
      var cmd := RequestCommand(command.value).value;
      if IsNotification(cmd) then
        match RouteRejection(codec, revocations, cmd)
        case Err(e) => Err(e)
        case Ok(Route(notification, key, handler)) =>
          Ok(if handler.Some? then handler.value(notification, state) else NoCompensation(domain, key))
      else
        match handlers.Find(cmd.typeUrl)
        case None => Err(UnknownCommand(cmd.typeUrl))
        case Some(h) =>
          match h(command.value, cmd, state, NextSequence(prior))
          case Ok(book) => Ok(Events(book))
          case Err(e) => Err(e)
  }

  class CommandRouter<S(!new)> {
    const domain: string
    const rebuild: Rebuilder<S>
    const codec: Codec
    var handlers: seq<Registration<CommandHandler<S>>>
    var rejectionHandlers: map<string, RevocationHandler<S>>

    constructor (domain: string, rebuild: Rebuilder<S>, codec: Codec)
      ensures this.domain == domain && this.rebuild == rebuild && this.codec == codec
      ensures handlers == [] && rejectionHandlers == map[]
    {
      this.domain, this.rebuild, this.codec := domain, rebuild, codec;
      handlers, rejectionHandlers := [], map[];
    }

    method On(fullName: string, handler: CommandHandler<S>)
      modifies this`handlers
      ensures handlers == old(handlers) + [Registration(fullName, handler)]
    {
      handlers := handlers + [Registration(fullName, handler)];
    }

    method OnRejected(domain: string, command: string, handler: RevocationHandler<S>)
      modifies this`rejectionHandlers
      ensures rejectionHandlers == old(rejectionHandlers)[RejectionKey(domain, command) := handler]
    {
      rejectionHandlers := rejectionHandlers[RejectionKey(domain, command) := handler];
    }

    method Dispatch(command: Option<CommandBook>, priorEvents: Option<EventBook>) returns (r: Result<BusinessResponse>)
      ensures r == RouterAnswer(domain, StateFrom(rebuild, priorEvents), BySlice(handlers), rejectionHandlers, codec, command,
                                priorEvents)
    {
      if command.None? {
        return Err(NoCommandPages);
      }
      var state := CallRebuilder(rebuild, priorEvents);
      var seqNo := NextSequence(priorEvents);
      if |command.value.pages| == 0 {
        return Err(NoCommandPages);
      }
      var cmd := command.value.pages[0].GetCommand();
      if cmd.None? || cmd.value.typeUrl == "" {
        return Err(NoCommandPages);
      }
      if cmd.value.typeUrl == TYPE_URL_PREFIX + NOTIFICATION {
        var notification := UnmarshalTo(cmd.value, NOTIFICATION, codec.notification);
        if notification.None? {
          return Err(BadNotification);
        }
        r := DispatchRejection(notification.value, state);
        return;
      }
      var handler := ScanSlice(handlers, cmd.value.typeUrl);
      if handler.Some? {
        var answer := handler.value(command.value, cmd.value, state, seqNo);
        if answer.Err? {
          return Err(answer.error);
        }
        return Ok(Events(answer.value));
      }
      r := Err(UnknownCommand(cmd.value.typeUrl));
    }

    method DispatchRejection(notification: Notification, state: S) returns (r: Result<BusinessResponse>)
      ensures r == match RejectionOf(codec, notification)
                   case None => Err(BadRejection)
                   case Some(rejection) =>
                     var key := RejectionKey(InlineKeyParts(rejection).0, InlineKeyParts(rejection).1);
                     Ok(if key in rejectionHandlers then rejectionHandlers[key](notification, state)
                        else NoCompensation(domain, key))
    {
      var rejection := RejectionOf(codec, notification);
      if rejection.None? {
        return Err(BadRejection);
      }
      var (d, c) := InlineKeyParts(rejection.value);
      var key := RejectionKey(d, c);
      if key in rejectionHandlers {
        return Ok(rejectionHandlers[key](notification, state));
      }
      r := Ok(NoCompensation(domain, key));
    }
  }

  // ---------- NewEventBookMulti ----------

  /** A page as the helper builds it; unlike the aggregate's, it is dated, and its event may be nil. */
  function DatedPage(sequence: Uint32, event: Option<TypedAny>, now: int): EventPage {
    EventPage(Some(PageHeader(Sequence(sequence))), Event(event), Some(now))
  }

  function MultiBook(cover: Option<Cover>, startSeq: Uint32, events: seq<Option<TypedAny>>, now: int): EventBook {
    EventBook(cover, seq(|events|, i requires 0 <= i < |events| => DatedPage(Add32(startSeq, i), events[i], now)),
              None, 0)
  }

  method NewEventBookMulti(cover: Option<Cover>, startSeq: Uint32, events: seq<Option<TypedAny>>, now: int)
    returns (book: EventBook)
    ensures book == MultiBook(cover, startSeq, events, now)
    ensures book.cover == cover && book.snapshot == None && book.nextSequence == 0 && |book.pages| == |events|
    ensures forall i :: 0 <= i < |events| ==>
              book.pages[i] == EventPage(Some(PageHeader(Sequence((startSeq + i) % 0x1_0000_0000))),
                                         Event(events[i]), Some(now))
  {
    var pages := new EventPage[|events|];
    for i := 0 to |events|
      invariant forall k :: 0 <= k < i ==> pages[k] == DatedPage(Add32(startSeq, k), events[k], now)
    {
      pages[i] := DatedPage(Add32(startSeq, i), events[i], now);
    }
    assert pages[..] == MultiBook(cover, startSeq, events, now).pages;
    book := EventBook(cover, pages[..], None, 0);
  }

  // ---------- The router's answers, written out ----------

  /** A command whose type is registered goes to the first registration of the type, with the state and the prior
      book's next sequence. */
  lemma RouterDispatches<S>(domain: string, state: S, regs: seq<Registration<CommandHandler<S>>>,
                            revocations: map<string, RevocationHandler<S>>, codec: Codec, command: CommandBook,
                            header: Option<PageHeader>, name: string, value: seq<Byte>, prior: Option<EventBook>,
                            i: nat)
    requires name != NOTIFICATION && FirstAt(regs, name, i)
    requires command.pages != [] && command.pages[0] == CommandPage(header, Some(TypedAny(TYPE_URL_PREFIX + name, value)))
    ensures RouterAnswer(domain, state, BySlice(regs), revocations, codec, Some(command), prior) ==
            match regs[i].handler(command, TypedAny(TYPE_URL_PREFIX + name, value), state,
                                  if prior.Some? then prior.value.nextSequence else 0)
            case Ok(book) => Ok(Events(book))
            case Err(e) => Err(e)
  {
    FindsFirst(regs, name, i);
    PrefixedUrl(name);
    PrefixedUrl(NOTIFICATION);
  }

  lemma RouterRefuses<S>(domain: string, state: S, regs: seq<Registration<CommandHandler<S>>>,
                         revocations: map<string, RevocationHandler<S>>, codec: Codec, command: CommandBook,
                         header: Option<PageHeader>, cmd: TypedAny, prior: Option<EventBook>)
    requires cmd.typeUrl != "" && cmd.typeUrl != TYPE_URL_PREFIX + NOTIFICATION
    requires forall i :: 0 <= i < |regs| ==> cmd.typeUrl != TYPE_URL_PREFIX + regs[i].fullName
    requires command.pages != [] && command.pages[0] == CommandPage(header, Some(cmd))
    ensures RouterAnswer(domain, state, BySlice(regs), revocations, codec, Some(command), prior) ==
            Err(UnknownCommand(cmd.typeUrl))
  {
    FindsNothing(BySlice(regs), EventPage(None, Event(Some(cmd)), None));
  }

  lemma RouterWithoutCommand<S>(domain: string, state: S, handlers: Table<CommandHandler<S>>,
                                revocations: map<string, RevocationHandler<S>>, codec: Codec,
                                command: Option<CommandBook>, prior: Option<EventBook>)
    requires command.None? || command.value.pages == [] || command.value.pages[0].NilCommandPage? ||
             command.value.pages[0].command.None? || command.value.pages[0].command.value.typeUrl == ""
    ensures RouterAnswer(domain, state, handlers, revocations, codec, command, prior) == Err(NoCommandPages)
  {
  }

  lemma RouterRoutes<S>(domain: string, state: S, handlers: Table<CommandHandler<S>>,
                        revocations: map<string, RevocationHandler<S>>, codec: Codec, command: CommandBook, cmd: TypedAny,
                        prior: Option<EventBook>)
    requires RequestCommand(command) == Some(cmd) && IsNotification(cmd)
    ensures RouterAnswer(domain, state, handlers, revocations, codec, Some(command), prior) ==
            match RouteRejection(codec, revocations, cmd)
            case Err(e) => Err(e)
            case Ok(Route(notification, key, handler)) =>
              Ok(if handler.Some? then handler.value(notification, state) else NoCompensation(domain, key))
  {
  }

  /** A notification goes to the handler registered for its rejection's domain and command, or is delegated. */
  lemma RouterCompensates<S>(domain: string, state: S, handlers: Table<CommandHandler<S>>,
                             revocations: map<string, RevocationHandler<S>>, codec: Codec, command: CommandBook,
                             header: Option<PageHeader>, value: seq<Byte>, prior: Option<EventBook>,
                             notification: Notification, rejection: Rejection)
    requires Carries(codec, value, notification, rejection)
    requires command.pages != []
    requires command.pages[0] == CommandPage(header, Some(TypedAny(TYPE_URL_PREFIX + NOTIFICATION, value)))
    ensures var key := InlineKeyParts(rejection).0 + "/" + InlineKeyParts(rejection).1;
            RouterAnswer(domain, state, handlers, revocations, codec, Some(command), prior) ==
            Ok(if key in revocations then revocations[key](notification, state)
               else Revocation(true, "CommandHandler " + domain + " has no custom compensation for " + key))
  {
    var cmd := TypedAny(TYPE_URL_PREFIX + NOTIFICATION, value);
    RouterRoutes(domain, state, handlers, revocations, codec, command, cmd, prior);
    RoutesCarried(codec, revocations, value, notification, rejection);
  }

  lemma RouterRefusesNotification<S>(domain: string, state: S, handlers: Table<CommandHandler<S>>,
                                     revocations: map<string, RevocationHandler<S>>, codec: Codec,
                                     command: CommandBook, header: Option<PageHeader>, value: seq<Byte>,
                                     prior: Option<EventBook>)
    requires forall notification, rejection :: !Carries(codec, value, notification, rejection)
    requires command.pages != []
    requires command.pages[0] == CommandPage(header, Some(TypedAny(TYPE_URL_PREFIX + NOTIFICATION, value)))
    ensures RouterAnswer(domain, state, handlers, revocations, codec, Some(command), prior) ==
            Err(if codec.notification(value).None? then BadNotification else BadRejection)
  {
    var cmd := TypedAny(TYPE_URL_PREFIX + NOTIFICATION, value);
    RouterRoutes(domain, state, handlers, revocations, codec, command, cmd, prior);
    RoutesNothing(codec, revocations, value);
  }
}
