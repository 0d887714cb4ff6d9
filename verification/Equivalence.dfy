/** The OO aggregate and the functional router are two implementations of one design. */
module Equivalence {
  import opened Proto
  import opened Dispatch
  import opened Replay
  import opened AggregateSpec
  import opened Rejections
  import opened Aggregate
  import opened Routers

  datatype CommandImpl<!S> = One(single: SingleHandler<S>) | Many(multi: MultiHandler<S>)

  /** One aggregate, as a developer would write it down: its initial state and its registrations in order. */
  datatype Design<!S> = Design(
    domain: string,
    factory: () -> S,
    appliers: seq<Registration<Applier<S>>>,
    commands: seq<Registration<CommandImpl<S>>>,
    rejections: map<string, RejectionHandler<S>>)

  function Ask<S>(impl: CommandImpl<S>, v: View<S>, cmd: TypedAny): Result<seq<Option<TypedAny>>> {
    match impl
    case Many(h) => h(v, cmd)
    case One(h) =>
      match h(v, cmd)
      case Ok(event) => Ok([event])
      case Err(e) => Err(e)
  }

  // ---------- The design as an OO aggregate ----------

  /** The maps that the `Handles` and `HandlesMulti` calls leave behind. */
  function Handlers<S>(commands: seq<Registration<CommandImpl<S>>>)
    : (map<string, SingleHandler<S>>, map<string, MultiHandler<S>>)
  {
    if commands == [] then (map[], map[])
    else
      var last := commands[|commands| - 1];
      var (singles, multis) := Handlers(commands[..|commands| - 1]);
      match last.handler
      case One(h) => (singles[last.fullName := h], multis)
      case Many(h) => (singles, multis[last.fullName := h])
  }

  function AsObject<S>(d: Design<S>): Behaviour<S> {
    Behaviour(d.factory, Handlers(d.commands).0, Handlers(d.commands).1, Registered(d.appliers))
  }

  function ObjectAnswer<S>(d: Design<S>, codec: Codec, command: CommandBook, prior: Option<EventBook>)
    : Result<BusinessResponse>
  {
    var book := if prior.Some? then prior.value else EMPTY_BOOK;
    HandleAnswer(AsObject(d), codec, d.rejections, d.domain, book, Fresh(book.pages, book.nextSequence), command)
  }

  // ---------- The design as functional routers ----------

  function AsHandler<S>(impl: CommandImpl<S>, now: int): CommandHandler<S> {
    (command: CommandBook, cmd: TypedAny, state: S, seqNo: Uint32) =>
      match Ask(impl, View(state, false), cmd)
      case Ok(events) => Ok(MultiBook(command.cover, seqNo, events, now))
      case Err(e) => Err(e)
  }

  function AsHandlers<S>(commands: seq<Registration<CommandImpl<S>>>, now: int): seq<Registration<CommandHandler<S>>> {
    seq(|commands|, i requires 0 <= i < |commands| =>
      Registration(commands[i].fullName, AsHandler(commands[i].handler, now)))
  }

  function AsRevocation<S>(h: RejectionHandler<S>): RevocationHandler<S> {
    (notification: Notification, state: S) => h(View(state, false), notification)
  }

  function RouterAnswerTo<S>(d: Design<S>, codec: Codec, now: int, command: CommandBook, prior: Option<EventBook>)
    : Result<BusinessResponse>
  {
    RouterAnswer(d.domain, RebuildFrom(d.factory, BySlice(d.appliers), prior),
                 BySlice(AsHandlers(d.commands, now)),
                 map key | key in d.rejections :: AsRevocation(d.rejections[key]),
                 codec, Some(command), prior)
  }

  // ---------- Same dispatch ----------

  lemma {:induction false} HandlersFind<S>(commands: seq<Registration<CommandImpl<S>>>, name: string)
    requires Distinct(commands)
    ensures var (singles, multis) := Handlers(commands);
            var impl := First(commands, name);
            && (name in singles <==> impl.Some? && impl.value.One?)
            && (name in singles ==> impl == Some(One(singles[name])))
            && (name in multis <==> impl.Some? && impl.value.Many?)
            && (name in multis ==> impl == Some(Many(multis[name])))
  {
    if commands != [] {
      HandlersFind(commands[..|commands| - 1], name);
      FirstOfFront(commands, name);
    }
  }

  lemma {:induction false} HandlersMapped<S>(commands: seq<Registration<CommandImpl<S>>>, now: int, name: string)
    ensures First(AsHandlers(commands, now), name) ==
            if First(commands, name).Some? then Some(AsHandler(First(commands, name).value, now)) else None
  {
    if commands != [] {
      assert AsHandlers(commands, now)[1..] == AsHandlers(commands[1..], now);
      HandlersMapped(commands[1..], now, name);
    }
  }

  lemma SameState<S>(d: Design<S>, prior: Option<EventBook>)
    requires Distinct(d.appliers)
    ensures var book := if prior.Some? then prior.value else EMPTY_BOOK;
            Rebuilt(AsObject(d), Fresh(book.pages, book.nextSequence)) ==
            Core(Some(RebuildFrom(d.factory, BySlice(d.appliers), prior)), NextSequence(prior), [], NextSequence(prior))
  {
    forall url {
      DistinctTablesAgree(d.appliers, url);
    }
    var book := if prior.Some? then prior.value else EMPTY_BOOK;
    FoldSameTable(ByMap(Registered(d.appliers)), BySlice(d.appliers), d.factory(), book.pages);
  }

  /** Both designs pick the same implementation for a command, or neither has one. */
  lemma SameHandler<S>(d: Design<S>, v: View<S>, now: int, cmd: TypedAny)
    requires Distinct(d.commands) && cmd.typeUrl != ""
    ensures var impl := BySlice(d.commands).Find(cmd.typeUrl);
            && (Routed(AsObject(d), Some(cmd)) <==> impl.Some?)
            && Answer(AsObject(d), v, cmd) == (if impl.Some? then Some(Ask(impl.value, v, cmd)) else None)
            && BySlice(AsHandlers(d.commands, now)).Find(cmd.typeUrl) ==
                 (if impl.Some? then Some(AsHandler(impl.value, now)) else None)
  {
    if TYPE_URL_PREFIX <= cmd.typeUrl {
      var name := cmd.typeUrl[|TYPE_URL_PREFIX|..];
      HandlersFind(d.commands, name);
      HandlersMapped(d.commands, now, name);
    }
  }

  // ---------- Same pages ----------

  /** Equal but for the creation time, which only the functional helper sets. */
  predicate SamePages(p: seq<EventPage>, q: seq<EventPage>) {
    && |p| == |q|
    && forall i :: 0 <= i < |p| ==>
         p[i].EventPage? && q[i].EventPage? && p[i].header == q[i].header && p[i].payload == q[i].payload
  }

  lemma {:induction false} PresentKeepsAll(events: seq<Option<TypedAny>>)
    ensures |Present(events)| <= |events|
    ensures None in events ==> |Present(events)| < |events|
    ensures None !in events ==>
              |Present(events)| == |events| && forall i :: 0 <= i < |events| ==> events[i] == Some(Present(events)[i])
  {
    if events != [] {
      PresentKeepsAll(events[..|events| - 1]);
    }
  }

  /** What a success records and what the helper builds have the same pages exactly when no event is skipped. */
  lemma SamePagesUnlessSkipped(start: Uint32, cover: Option<Cover>, events: seq<Option<TypedAny>>, now: int)
    ensures SamePages(Stamp(start, Present(events)), MultiBook(cover, start, events, now).pages) <==> None !in events
  {
    PresentKeepsAll(events);
  }

  /** The same error, the same delegation or compensation, or events with the same pages. */
  predicate SameAnswers(oo: Result<BusinessResponse>, fn: Result<BusinessResponse>) {
    || oo == fn
    || (&& oo.Ok? && fn.Ok? && oo.value.Events? && fn.value.Events?
        && SamePages(oo.value.book.pages, fn.value.book.pages))
  }

  /** Whether the handler that the request reaches returns an event that the aggregate skips: nil from a single-event
      handler, or one that cannot be packed. */
  predicate ReturnsSkippedEvent<S>(d: Design<S>, command: CommandBook, prior: Option<EventBook>) {
    var cmd := RequestCommand(command);
    && cmd.Some?
    && !IsNotification(cmd.value)
    && BySlice(d.commands).Find(cmd.value.typeUrl).Some?
    && var state := RebuildFrom(d.factory, BySlice(d.appliers), prior);
       var events := Ask(BySlice(d.commands).Find(cmd.value.typeUrl).value, View(state, false), cmd.value);
       events.Ok? && None in events.value
  }

  lemma SameRejectionAnswer<S>(d: Design<S>, codec: Codec, state: S, cmd: TypedAny)
    ensures RejectionAnswer(codec, d.rejections, d.domain, View(state, false), cmd) ==
            match RouteRejection(codec, map key | key in d.rejections :: AsRevocation(d.rejections[key]), cmd)
            case Err(e) => Err(e)
            case Ok(Route(notification, key, handler)) =>
              Ok(if handler.Some? then handler.value(notification, state) else NoCompensation(d.domain, key))
  {
  }

  /** The aggregate's response to a command whose handler succeeds with `events`. */
  lemma ObjectSide<S>(d: Design<S>, codec: Codec, command: CommandBook, prior: Option<EventBook>,
                      impl: CommandImpl<S>, events: seq<Option<TypedAny>>)
    requires Distinct(d.appliers) && Distinct(d.commands)
    requires RequestCommand(command).Some? && !IsNotification(RequestCommand(command).value)
    requires BySlice(d.commands).Find(RequestCommand(command).value.typeUrl) == Some(impl)
    requires Ask(impl, View(RebuildFrom(d.factory, BySlice(d.appliers), prior), false),
                 RequestCommand(command).value) == Ok(events)
    ensures var oo := ObjectAnswer(d, codec, command, prior);
            oo.Ok? && oo.value.Events? && oo.value.book.pages == Stamp(NextSequence(prior), Present(events))
  {
    var pages := Stamp(NextSequence(prior), Present(events));
    SameState(d, prior);
    SameHandler(d, View(RebuildFrom(d.factory, BySlice(d.appliers), prior), false), 0, RequestCommand(command).value);
    assert [] + pages == pages;
  }

  /** The router's response to the same. */
  lemma RouterSide<S>(d: Design<S>, codec: Codec, now: int, command: CommandBook, prior: Option<EventBook>,
                      impl: CommandImpl<S>, events: seq<Option<TypedAny>>)
    requires Distinct(d.commands)
    requires RequestCommand(command).Some? && !IsNotification(RequestCommand(command).value)
    requires BySlice(d.commands).Find(RequestCommand(command).value.typeUrl) == Some(impl)
    requires Ask(impl, View(RebuildFrom(d.factory, BySlice(d.appliers), prior), false),
                 RequestCommand(command).value) == Ok(events)
    ensures RouterAnswerTo(d, codec, now, command, prior) ==
            Ok(Events(MultiBook(command.cover, NextSequence(prior), events, now)))
  {
    SameHandler(d, View(RebuildFrom(d.factory, BySlice(d.appliers), prior), false), now, RequestCommand(command).value);
  }

  /** For every design with distinctly named appliers and commands, every request and every prior book (also a nil
      one): the OO aggregate and the functional router answer alike, with the same error, the same compensation or
      delegation of a rejection, or the same event payloads under the same sequence headers - unless the handler
      returns an event that the aggregate skips and the functional helper stamps as a page without one. */
  lemma ObjectAgreesWithRouter<S>(d: Design<S>, codec: Codec, now: int, command: CommandBook, prior: Option<EventBook>)
    requires Distinct(d.appliers) && Distinct(d.commands)
    ensures SameAnswers(ObjectAnswer(d, codec, command, prior), RouterAnswerTo(d, codec, now, command, prior))
            <==> !ReturnsSkippedEvent(d, command, prior)
  {
    var cmd := RequestCommand(command);
    var state := RebuildFrom(d.factory, BySlice(d.appliers), prior);
    if cmd.Some? {
      SameState(d, prior);
      if IsNotification(cmd.value) {
        SameRejectionAnswer(d, codec, state, cmd.value);
      } else {
        SameHandler(d, View(state, false), now, cmd.value);
        var impl := BySlice(d.commands).Find(cmd.value.typeUrl);
        if impl.Some? && Ask(impl.value, View(state, false), cmd.value).Ok? {
          var events := Ask(impl.value, View(state, false), cmd.value).value;
          ObjectSide(d, codec, command, prior, impl.value, events);
          RouterSide(d, codec, now, command, prior, impl.value, events);
          SamePagesUnlessSkipped(NextSequence(prior), command.cover, events, now);
        }
      }
    }
  }
}
