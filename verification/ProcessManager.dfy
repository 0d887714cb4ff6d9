/** The process manager: state rebuilt from its own book, then one pass over the trigger's pages that gathers
    commands, process events and the last notification. */
module ProcessManagers {
  import opened Proto
  import opened Dispatch
  import opened Replay
  import opened Collect
  import opened Keys
  import opened Rejections

  type Sequences = map<string, Uint32>

  datatype HandlerOutput = HandlerOutput(commands: seq<CommandBook>, events: Option<EventBook>)

  type EventHandler<!S> = (EventBook, S, TypedAny, Sequences) -> Result<HandlerOutput>

  datatype RejectionResponse = RejectionResponse(events: Option<EventBook>, notification: Option<Notification>)

  type PMRejectionHandler<!S> = (S, Notification) -> Option<RejectionResponse>

  /** What one page yields. */
  datatype Effect = Effect(commands: seq<CommandBook>, pages: seq<EventPage>, notification: Option<Notification>)

  datatype PassResult =
    PassResult(commands: seq<CommandBook>, book: Option<EventBook>, notification: Option<Notification>)

  datatype Wiring<!S> = Wiring(
    handlers: map<string, EventHandler<S>>,
    rejections: map<string, PMRejectionHandler<S>>,
    codec: Codec)

  function PagesOf(book: Option<EventBook>): seq<EventPage> {
    if book.Some? then book.value.pages else []
  }

  /** `handleNotification`: unlike the aggregate it decodes the payload's bytes whatever their declared type, and
      every failure is silent. */
  function NotificationResponse<S>(w: Wiring<S>, state: S, event: TypedAny): Option<RejectionResponse> {
    match UnmarshalTo(event, NOTIFICATION, w.codec.notification)
    case None => None
    case Some(notification) =>
      match (if notification.payload.Some? then w.codec.rejection(notification.payload.value.value)
             else Some(Rejection(None, "")))
      case None => None
      case Some(rejection) =>
        var (domain, suffix) := ExtractRejectionKey(rejection);
        var key := RejectionKey(domain, suffix);
        if key in w.rejections then w.rejections[key](state, notification) else None
  }

  function PageEffect<S>(w: Wiring<S>, trigger: EventBook, state: S, sequences: Sequences, page: EventPage)
    : Result<seq<Effect>>
  {
    match page.GetEvent()
    case None => Ok([])
    case Some(event) =>
      if event.typeUrl == TYPE_URL_PREFIX + NOTIFICATION then
        match NotificationResponse(w, state, event)
        case None => Ok([])
        case Some(response) => Ok([Effect([], PagesOf(response.events), response.notification)])
      else
        match ByMap(w.handlers).Find(event.typeUrl)
        case None => Ok([])
        case Some(h) =>
          match h(trigger, state, event, sequences)
          case Err(e) => Err(e)
          case Ok(output) => Ok([Effect(output.commands, PagesOf(output.events), None)])
  }

  function PageEffects<S>(w: Wiring<S>, trigger: EventBook, state: S, sequences: Sequences, pages: seq<EventPage>)
    : seq<Result<seq<Effect>>>
  {
    seq(|pages|, i requires 0 <= i < |pages| => PageEffect(w, trigger, state, sequences, pages[i]))
  }

  // ---------- Summing up effects ----------

  function Commands(effects: seq<Effect>): seq<CommandBook> {
    if effects == [] then [] else Commands(effects[..|effects| - 1]) + effects[|effects| - 1].commands
  }

  function PMPages(effects: seq<Effect>): seq<EventPage> {
    if effects == [] then [] else PMPages(effects[..|effects| - 1]) + effects[|effects| - 1].pages
  }

  function LastNotification(effects: seq<Effect>): Option<Notification> {
    if effects == [] then None
    else if effects[|effects| - 1].notification.Some? then effects[|effects| - 1].notification
    else LastNotification(effects[..|effects| - 1])
  }

  function Summary(effects: seq<Effect>): PassResult {
    PassResult(Commands(effects),
               if PMPages(effects) == [] then None else Some(EMPTY_BOOK.(pages := PMPages(effects))),
               LastNotification(effects))
  }

  /** The pass over `pages` of the trigger; handlers are given the whole trigger. */
  function PassOver<S>(w: Wiring<S>, trigger: EventBook, state: S, sequences: Sequences, pages: seq<EventPage>)
    : Result<PassResult>
  {
    match Collected(PageEffects(w, trigger, state, sequences, pages))
    case Err(e) => Err(e)
    case Ok(effects) => Ok(Summary(effects))
  }

  lemma SummaryOfNothing()
    ensures Summary([]) == PassResult([], None, None)
  {
  }

  class ProcessManagerBase<S(!new)> {
    const codec: Codec
    const zero: S
    var stateFactory: Option<() -> S>
    var handlers: map<string, EventHandler<S>>
    var appliers: map<string, Applier<S>>
    var rejections: map<string, PMRejectionHandler<S>>

    ghost function Wired(): Wiring<S>
      reads this
    {
      Wiring(handlers, rejections, codec)
    }

    function InitialState(): S
      reads this
    {
      if stateFactory.Some? then stateFactory.value() else zero
    }

    constructor (codec: Codec, zero: S)
      ensures this.codec == codec && this.zero == zero
      ensures stateFactory == None && handlers == map[] && appliers == map[] && rejections == map[]
    {
      this.codec, this.zero, stateFactory := codec, zero, None;
      handlers, appliers, rejections := map[], map[], map[];
    }

    method WithStateFactory(factory: () -> S)
      modifies this`stateFactory
      ensures stateFactory == Some(factory)
    {
      stateFactory := Some(factory);
    }

    method Handles(fullName: string, handler: EventHandler<S>)
      modifies this`handlers
      ensures handlers == old(handlers)[fullName := handler]
    {
      handlers := handlers[fullName := handler];
    }

    method Applies(fullName: string, applier: Applier<S>)
      modifies this`appliers
      ensures appliers == old(appliers)[fullName := applier]
    {
      appliers := appliers[fullName := applier];
    }

    method OnRejected(domain: string, command: string, handler: PMRejectionHandler<S>)
      modifies this`rejections
      ensures rejections == old(rejections)[RejectionKey(domain, command) := handler]
    {
      rejections := rejections[RejectionKey(domain, command) := handler];
    }

    method RebuildState(processState: Option<EventBook>) returns (state: S)
      ensures state == Fold(ByMap(appliers), InitialState(), PagesOf(processState))
      ensures var initial := if stateFactory.Some? then stateFactory.value() else zero;
              state == Fold(ByMap(appliers), initial, if processState.Some? then processState.value.pages else [])
    {
      state := InitialState();
      if processState.None? || |processState.value.pages| == 0 {
        return;
      }
      var pages := processState.value.pages;
      for i := 0 to |pages|
        invariant state == Fold(ByMap(appliers), InitialState(), pages[..i])
      {
        FoldStep(ByMap(appliers), InitialState(), pages, i);
        var event := pages[i].GetEvent();
        if event.Some? {
          var applier := RangeMap(appliers, event.value.typeUrl);
          if applier.Some? {
            state := applier.value(state, event.value.value);
          }
        }
      }
      assert pages[..|pages|] == pages;
    }

    method HandleNotification(state: S, event: TypedAny) returns (r: Option<RejectionResponse>)
      ensures r == NotificationResponse(Wired(), state, event)
    {
      var notification := UnmarshalTo(event, NOTIFICATION, codec.notification);
      if notification.None? {
        return None;
      }
      var rejection := Rejection(None, "");
      if notification.value.payload.Some? {
        var decoded := codec.rejection(notification.value.payload.value.value);
        if decoded.None? {
          return None;
        }
        rejection := decoded.value;
      }
      var (domain, suffix) := ExtractRejectionKey(rejection);
      var key := RejectionKey(domain, suffix);
      if key in rejections {
        return rejections[key](state, notification.value);
      }
      r := None;
    }

    /** The state that every page sees is the one rebuilt from `processState` before the pass. */
    method Handle(trigger: Option<EventBook>, processState: Option<EventBook>, sequences: Sequences)
      returns (r: Result<PassResult>)
      ensures r == if trigger.None? then Ok(PassResult([], None, None))
                   else PassOver(Wired(), trigger.value,
                                 Fold(ByMap(appliers), InitialState(), PagesOf(processState)), sequences,
                                 trigger.value.pages)
    {
      if trigger.None? || |trigger.value.pages| == 0 {
        SummaryOfNothing();
        return Ok(PassResult([], None, None));
      }
      var state := RebuildState(processState);
      var commands: seq<CommandBook> := [];
      var allPMEvents: seq<EventPage> := [];
      var notification: Option<Notification> := None;
      var pages := trigger.value.pages;
      ghost var results := PageEffects(Wired(), trigger.value, state, sequences, pages);
      ghost var effects: seq<Effect> := [];
      for i := 0 to |pages|
        invariant Collected(results[..i]) == Ok(effects)
        invariant commands == Commands(effects) && allPMEvents == PMPages(effects)
        invariant notification == LastNotification(effects)
      {
        CollectedStep(results, i);
        assert effects + [] == effects;
        var event := pages[i].GetEvent();
        if event.Some? {
          if event.value.typeUrl == TYPE_URL_PREFIX + NOTIFICATION {
            var response := HandleNotification(state, event.value);
            if response.Some? {
              ghost var effect := Effect([], PagesOf(response.value.events), response.value.notification);
              SumStep(effects, effect);
              effects := effects + [effect];
              if response.value.events.Some? {
                allPMEvents := allPMEvents + response.value.events.value.pages;
              }
              if response.value.notification.Some? {
                notification := response.value.notification;
              }
            }
          } else {
            var handler := RangeMap(handlers, event.value.typeUrl);
            if handler.Some? {
              var answer := handler.value(trigger.value, state, event.value, sequences);
              if answer.Err? {
                FailedPrefix(results, i + 1);
                return Err(answer.error);
              }
              ghost var effect := Effect(answer.value.commands, PagesOf(answer.value.events), None);
              SumStep(effects, effect);
              effects := effects + [effect];
              commands := commands + answer.value.commands;
              if answer.value.events.Some? {
                allPMEvents := allPMEvents + answer.value.events.value.pages;
              }
            }
          }
        }
      }
      assert results[..|pages|] == results;
      var book := None;
      if |allPMEvents| > 0 {
        book := Some(EMPTY_BOOK.(pages := allPMEvents));
      }
      r := Ok(PassResult(commands, book, notification));
    }
  }

  lemma SumStep(effects: seq<Effect>, effect: Effect)
    ensures Commands(effects + [effect]) == Commands(effects) + effect.commands
    ensures PMPages(effects + [effect]) == PMPages(effects) + effect.pages
    ensures LastNotification(effects + [effect]) ==
            if effect.notification.Some? then effect.notification else LastNotification(effects)
    ensures effect.commands == [] ==> Commands(effects + [effect]) == Commands(effects)
    ensures effect.pages == [] ==> PMPages(effects + [effect]) == PMPages(effects)
  {
    assert (effects + [effect])[..|effects|] == effects;
  }

  // ---------- A pass in two parts ----------

  lemma {:induction false} SumConcat(p: seq<Effect>, q: seq<Effect>)
    ensures Commands(p + q) == Commands(p) + Commands(q)
    ensures PMPages(p + q) == PMPages(p) + PMPages(q)
    ensures LastNotification(p + q) == if LastNotification(q).Some? then LastNotification(q) else LastNotification(p)
    decreases |q|
  {
    if q == [] {
      assert p + q == p;
    } else {
      var n := |q| - 1;
      SumConcat(p, q[..n]);
      assert p + q == (p + q[..n]) + [q[n]] && q == q[..n] + [q[n]];
      SumStep(p + q[..n], q[n]);
      SumStep(q[..n], q[n]);
      ConcatAssoc(Commands(p), Commands(q[..n]), q[n].commands);
      ConcatAssoc(PMPages(p), PMPages(q[..n]), q[n].pages);
    }
  }

  function ThenPass(a: Result<PassResult>, b: Result<PassResult>): Result<PassResult> {
    match a
    case Err(e) => Err(e)
    case Ok(x) =>
      match b
      case Err(e) => Err(e)
      case Ok(y) =>
        var pages := PagesOf(x.book) + PagesOf(y.book);
        Ok(PassResult(x.commands + y.commands,
                      if pages == [] then None else Some(EMPTY_BOOK.(pages := pages)),
                      if y.notification.Some? then y.notification else x.notification))
  }

  /** Handlers may look at the trigger, but not at its pages. */
  ghost predicate IgnoresTriggerPages<S(!new)>(w: Wiring<S>) {
    forall name, trigger: EventBook, pages, state: S, event, sequences :: name in w.handlers ==>
      w.handlers[name](trigger, state, event, sequences) ==
      w.handlers[name](trigger.(pages := pages), state, event, sequences)
  }

  lemma EffectIgnoresPages<S(!new)>(w: Wiring<S>, trigger: EventBook, pages: seq<EventPage>, state: S,
                                    sequences: Sequences, page: EventPage)
    requires IgnoresTriggerPages(w)
    ensures PageEffect(w, trigger, state, sequences, page) ==
            PageEffect(w, trigger.(pages := pages), state, sequences, page)
  {
    if page.GetEvent().Some? {
      var event := page.GetEvent().value;
      if ByMap(w.handlers).Find(event.typeUrl).Some? {
        var name := event.typeUrl[|TYPE_URL_PREFIX|..];
        assert w.handlers[name](trigger, state, event, sequences) ==
               w.handlers[name](trigger.(pages := pages), state, event, sequences);
      }
    }
  }

  lemma EffectsIgnorePages<S(!new)>(w: Wiring<S>, trigger: EventBook, pages: seq<EventPage>, state: S,
                                    sequences: Sequences, own: seq<EventPage>)
    requires IgnoresTriggerPages(w)
    ensures PageEffects(w, trigger, state, sequences, own) ==
            PageEffects(w, trigger.(pages := pages), state, sequences, own)
  {
    forall i | 0 <= i < |own|
      ensures PageEffect(w, trigger, state, sequences, own[i]) ==
              PageEffect(w, trigger.(pages := pages), state, sequences, own[i])
    {
      EffectIgnoresPages(w, trigger, pages, state, sequences, own[i]);
    }
  }

  lemma SummarySplits(p: seq<Effect>, q: seq<Effect>)
    ensures ThenPass(Ok(Summary(p)), Ok(Summary(q))) == Ok(Summary(p + q))
  {
    SumConcat(p, q);
    assert PagesOf(Summary(p).book) == PMPages(p) && PagesOf(Summary(q).book) == PMPages(q);
  }

  lemma PassOverConcat<S>(w: Wiring<S>, trigger: EventBook, state: S, sequences: Sequences, p: seq<EventPage>,
                          q: seq<EventPage>)
    ensures PassOver(w, trigger, state, sequences, p + q) ==
            ThenPass(PassOver(w, trigger, state, sequences, p), PassOver(w, trigger, state, sequences, q))
  {
    var first, second := PageEffects(w, trigger, state, sequences, p), PageEffects(w, trigger, state, sequences, q);
    assert PageEffects(w, trigger, state, sequences, p + q) == first + second;
    CollectedConcat(first, second);
    if Collected(first).Ok? && Collected(second).Ok? {
      SummarySplits(Collected(first).value, Collected(second).value);
    }
  }

  /** Handling a trigger is handling its pages in two consecutive parts against the same rebuilt state: commands and
      process events are concatenated, the later notification wins, and the first error of either part discards
      everything, also what earlier pages produced. */
  lemma PassSplits<S(!new)>(w: Wiring<S>, trigger: EventBook, p: seq<EventPage>, q: seq<EventPage>, state: S,
                            sequences: Sequences)
    requires IgnoresTriggerPages(w)
    ensures PassOver(w, trigger.(pages := p + q), state, sequences, p + q) ==
            ThenPass(PassOver(w, trigger.(pages := p), state, sequences, p),
                     PassOver(w, trigger.(pages := q), state, sequences, q))
  {
    EffectsIgnorePages(w, trigger.(pages := p + q), p, state, sequences, p);
    EffectsIgnorePages(w, trigger.(pages := p + q), q, state, sequences, q);
    PassOverConcat(w, trigger.(pages := p + q), state, sequences, p, q);
  }

  /** There is a process book exactly when some page that was handled produced a process event. */
  lemma {:induction false} BookIffEvents(effects: seq<Effect>)
    ensures Summary(effects).book.Some? <==> exists i :: 0 <= i < |effects| && effects[i].pages != []
    ensures Summary(effects).book.Some? ==> Summary(effects).book.value.pages != []
  {
    if effects != [] {
      BookIffEvents(effects[..|effects| - 1]);
    }
  }

  // ---------- What one page yields ----------

  /** The process events of an optional book. */
  function BookWith(pages: seq<EventPage>): Option<EventBook> {
    if pages == [] then None else Some(EventBook(None, pages, None, 0))
  }

  /** A page that yields `commands`, `pages` and `notification` adds exactly these, in its place. */
  ghost predicate Adds(whole: Result<PassResult>, before: Result<PassResult>, commands: seq<CommandBook>,
                       pages: seq<EventPage>, notification: Option<Notification>, after: Result<PassResult>) {
    match before
    case Err(e) => whole == Err(e)
    case Ok(a) =>
      match after
      case Err(e) => whole == Err(e)
      case Ok(z) =>
        && whole.Ok?
        && whole.value.commands == a.commands + commands + z.commands
        && whole.value.book == BookWith((if a.book.Some? then a.book.value.pages else []) + pages +
                                        (if z.book.Some? then z.book.value.pages else []))
        && whole.value.notification ==
             (if z.notification.Some? then z.notification
              else if notification.Some? then notification
              else a.notification)
  }

  lemma EffectsAround<S>(w: Wiring<S>, trigger: EventBook, state: S, sequences: Sequences, p: seq<EventPage>,
                         page: EventPage, q: seq<EventPage>)
    ensures PageEffects(w, trigger, state, sequences, p + [page] + q) ==
            PageEffects(w, trigger, state, sequences, p) + [PageEffect(w, trigger, state, sequences, page)] +
            PageEffects(w, trigger, state, sequences, q)
  {
  }

  lemma SummaryAround(p: seq<Effect>, effect: Effect, q: seq<Effect>)
    ensures Adds(Ok(Summary(p + [effect] + q)), Ok(Summary(p)), effect.commands, effect.pages, effect.notification,
                 Ok(Summary(q)))
  {
    SumConcat(p + [effect], q);
    SumStep(p, effect);
  }

  lemma SummaryWithout(p: seq<Effect>, q: seq<Effect>)
    ensures Adds(Ok(Summary(p + [] + q)), Ok(Summary(p)), [], [], None, Ok(Summary(q)))
  {
    assert p + [] == p && Commands(p) + [] == Commands(p) && PMPages(p) + [] == PMPages(p);
    SumConcat(p, q);
  }

  lemma PassAround<S>(w: Wiring<S>, trigger: EventBook, state: S, sequences: Sequences, p: seq<EventPage>,
                      page: EventPage, q: seq<EventPage>, effects: seq<Effect>)
    requires PageEffect(w, trigger, state, sequences, page) == Ok(effects) && |effects| <= 1
    ensures var effect := if effects == [] then Effect([], [], None) else effects[0];
            Adds(PassOver(w, trigger, state, sequences, p + [page] + q), PassOver(w, trigger, state, sequences, p),
                 effect.commands, effect.pages, effect.notification, PassOver(w, trigger, state, sequences, q))
  {
    var first, second := PageEffects(w, trigger, state, sequences, p), PageEffects(w, trigger, state, sequences, q);
    EffectsAround(w, trigger, state, sequences, p, page, q);
    CollectedAround(first, Ok(effects), second);
    if Collected(first).Ok? && Collected(second).Ok? {
      if effects == [] {
        SummaryWithout(Collected(first).value, Collected(second).value);
      } else {
        assert effects == [effects[0]];
        SummaryAround(Collected(first).value, effects[0], Collected(second).value);
      }
    }
  }

  /** Anywhere in a trigger, an event of a registered type yields exactly its handler's commands and process pages;
      the handler's error ends the pass with nothing else. */
  lemma EventYields<S>(w: Wiring<S>, trigger: EventBook, state: S, sequences: Sequences, p: seq<EventPage>,
                       header: Option<PageHeader>, name: string, value: seq<Byte>, createdAt: Option<int>,
                       q: seq<EventPage>)
    requires name in w.handlers && name != NOTIFICATION
    ensures var before := PassOver(w, trigger, state, sequences, p);
            var whole := PassOver(w, trigger, state, sequences, p + [TypedPage(header, name, value, createdAt)] + q);
            match w.handlers[name](trigger, state, TypedAny(TYPE_URL_PREFIX + name, value), sequences)
            case Err(e) => whole == Err(if before.Err? then before.error else e)
            case Ok(output) =>
              Adds(whole, before, output.commands, if output.events.Some? then output.events.value.pages else [], None,
                   PassOver(w, trigger, state, sequences, q))
  {
    var page := TypedPage(header, name, value, createdAt);
    FindsEntry(w.handlers, name);
    PrefixedUrl(name);
    PrefixedUrl(NOTIFICATION);
    var own := PageEffect(w, trigger, state, sequences, page);
    if own.Ok? {
      PassAround(w, trigger, state, sequences, p, page, q, own.value);
    } else {
      EffectsAround(w, trigger, state, sequences, p, page, q);
      CollectedAround(PageEffects(w, trigger, state, sequences, p), own, PageEffects(w, trigger, state, sequences, q));
    }
  }

  /** The rejection that a notification event carries: its payload's bytes decoded whatever their declared type, and
      an empty rejection without a payload. */
  ghost predicate DecodesTo(codec: Codec, value: seq<Byte>, notification: Notification, rejection: Rejection) {
    && codec.notification(value) == Some(notification)
    && match notification.payload
       case Some(payload) => codec.rejection(payload.value) == Some(rejection)
       case None => rejection == Rejection(None, "")
  }

  /** Anywhere in a trigger, a notification yields no commands and exactly the process pages and the notification of
      the handler registered for the rejection's domain and command. */
  lemma NotificationYields<S>(w: Wiring<S>, trigger: EventBook, state: S, sequences: Sequences, p: seq<EventPage>,
                              header: Option<PageHeader>, value: seq<Byte>, createdAt: Option<int>, q: seq<EventPage>,
                              notification: Notification, rejection: Rejection)
    requires DecodesTo(w.codec, value, notification, rejection)
    ensures var key := ExtractRejectionKey(rejection).0 + "/" + ExtractRejectionKey(rejection).1;
            var response := if key in w.rejections then w.rejections[key](state, notification) else None;
            Adds(PassOver(w, trigger, state, sequences, p + [TypedPage(header, NOTIFICATION, value, createdAt)] + q),
                 PassOver(w, trigger, state, sequences, p), [],
                 if response.Some? && response.value.events.Some? then response.value.events.value.pages else [],
                 if response.Some? then response.value.notification else None,
                 PassOver(w, trigger, state, sequences, q))
  {
    var page := TypedPage(header, NOTIFICATION, value, createdAt);
    NotificationDecoded(w.codec, value);
    var (domain, suffix) := ExtractRejectionKey(rejection);
    assert RejectionKey(domain, suffix) == domain + "/" + suffix;
    PassAround(w, trigger, state, sequences, p, page, q, PageEffect(w, trigger, state, sequences, page).value);
  }

  /** A notification that cannot be decoded yields nothing. */
  lemma UndecodableYieldsNothing<S>(w: Wiring<S>, trigger: EventBook, state: S, sequences: Sequences, p: seq<EventPage>,
                                    header: Option<PageHeader>, value: seq<Byte>, createdAt: Option<int>,
                                    q: seq<EventPage>)
    requires forall notification, rejection :: !DecodesTo(w.codec, value, notification, rejection)
    ensures Adds(PassOver(w, trigger, state, sequences, p + [TypedPage(header, NOTIFICATION, value, createdAt)] + q),
                 PassOver(w, trigger, state, sequences, p), [], [], None, PassOver(w, trigger, state, sequences, q))
  {
    var page := TypedPage(header, NOTIFICATION, value, createdAt);
    NotificationDecoded(w.codec, value);
    var decoded := w.codec.notification(value);
    if decoded.Some? {
      assert decoded.value.payload.Some? by {
        assert !DecodesTo(w.codec, value, decoded.value, Rejection(None, ""));
      }
      var rejection := w.codec.rejection(decoded.value.payload.value.value);
      assert rejection.Some? ==> DecodesTo(w.codec, value, decoded.value, rejection.value);
    }
    PassAround(w, trigger, state, sequences, p, page, q, []);
  }

  /** Any other page yields nothing, and so does a trigger without pages. */
  lemma OtherPageYieldsNothing<S>(w: Wiring<S>, trigger: EventBook, state: S, sequences: Sequences, p: seq<EventPage>,
                                  page: EventPage, q: seq<EventPage>)
    requires !Reaches(ByMap(w.handlers), page) && !Reaches(ByMap(map[NOTIFICATION := ()]), page)
    ensures Adds(PassOver(w, trigger, state, sequences, p + [page] + q), PassOver(w, trigger, state, sequences, p),
                 [], [], None, PassOver(w, trigger, state, sequences, q))
    ensures PassOver(w, trigger, state, sequences, []) == Ok(PassResult([], None, None))
  {
    FindsNothing(ByMap(w.handlers), page);
    assert Knows(ByMap(map[NOTIFICATION := ()]), NOTIFICATION);
    PassAround(w, trigger, state, sequences, p, page, q, []);
    SummaryOfNothing();
  }
}
