/** What holds over whole runs of an OO aggregate, and how a fresh instance per request compares with one
    long-lived instance. */
module AggregateLaws {
  import opened Proto
  import opened Dispatch
  import opened Replay
  import opened AggregateSpec
  import opened Rejections
  import Aggregate

  // ---------- One instance, any sequence of calls ----------

  datatype Call = AskState | Send(cmd: Option<TypedAny>)

  predicate ForcesRebuild<S>(b: Behaviour<S>, call: Call) {
    call.AskState? || Routed(b, call.cmd)
  }

  function After<S>(b: Behaviour<S>, c: Core<S>, call: Call): Core<S> {
    if call.AskState? then Rebuilt(b, c) else DispatchStep(b, c, call.cmd).core
  }

  function Run<S>(b: Behaviour<S>, c: Core<S>, calls: seq<Call>): Core<S> {
    if calls == [] then c else After(b, Run(b, c, calls[..|calls| - 1]), calls[|calls| - 1])
  }

  /** The events that one call records. */
  function Recorded<S>(b: Behaviour<S>, c: Core<S>, call: Call): seq<TypedAny> {
    if call.AskState? || !Routed(b, call.cmd) then []
    else
      match Answer(b, ViewOf(Rebuilt(b, c)), call.cmd.value).value
      case Ok(events) => Present(events)
      case Err(_) => []
  }

  function AllRecorded<S>(b: Behaviour<S>, c: Core<S>, calls: seq<Call>): seq<TypedAny> {
    if calls == [] then []
    else
      var front := calls[..|calls| - 1];
      AllRecorded(b, c, front) + Recorded(b, Run(b, c, front), calls[|calls| - 1])
  }

  lemma CallRecords<S>(b: Behaviour<S>, c: Core<S>, call: Call)
    ensures After(b, c, call) ==
            if ForcesRebuild(b, call) then Record(b, Rebuilt(b, c), Recorded(b, c, call)) else c
  {
    RecordNothing(b, Rebuilt(b, c));
  }

  /** Over every sequence of `State` and `Dispatch` calls, with commands that are nil, unknown, failing or
      successful: the instance is untouched until the first call that needs its state; from then on its pages are
      exactly the recorded events, numbered from the book's next sequence mod 2^32, the counter is just past them,
      and the cached state is the replay of the prior log followed by the recorded pages. */
  lemma {:induction false} RunInvariant<S>(b: Behaviour<S>, prior: seq<EventPage>, bookSeq: Uint32, calls: seq<Call>)
    ensures var c := Run(b, Fresh(prior, bookSeq), calls);
            && c.bookSeq == bookSeq
            && Counted(c, prior, AllRecorded(b, Fresh(prior, bookSeq), calls))
            && Replayed(b, c, prior)
            && (c.state.Some? <==> exists i :: 0 <= i < |calls| && ForcesRebuild(b, calls[i]))
  {
    if calls != [] {
      var n := |calls| - 1;
      var before := Run(b, Fresh(prior, bookSeq), calls[..n]);
      var events := AllRecorded(b, Fresh(prior, bookSeq), calls[..n]);
      RunInvariant(b, prior, bookSeq, calls[..n]);
      CallRecords(b, before, calls[n]);
      RebuiltInStep(b, before, prior, events);
      RecordStamps(b, Rebuilt(b, before), prior, events, Recorded(b, before, calls[n]));
      RecordReplayed(b, Rebuilt(b, before), prior, Recorded(b, before, calls[n]));
    }
  }

  /** Once the state is built, page i is the i-th recorded event, undated, under the header bookSeq + i mod 2^32, the
      counter is bookSeq plus the number of events mod 2^32, and the state is the replay of log and pages. */
  lemma RunNumbers<S>(b: Behaviour<S>, prior: seq<EventPage>, bookSeq: Uint32, calls: seq<Call>)
    ensures var c := Run(b, Fresh(prior, bookSeq), calls);
            c.state.Some? ==>
              && NumberedFrom(bookSeq, AllRecorded(b, Fresh(prior, bookSeq), calls), c.pages, c.nextSeq)
              && c.state == Some(Fold(ByMap(b.appliers), b.factory(), prior + c.pages))
  {
    var c := Run(b, Fresh(prior, bookSeq), calls);
    RunInvariant(b, prior, bookSeq, calls);
    if c.state.Some? {
      CountedNumbers(c, prior, AllRecorded(b, Fresh(prior, bookSeq), calls));
    }
  }

  /** A failing command records nothing. It changes nothing at all on an instance whose state is built; on a
      fresh one a handler's error still leaves the prior pages consumed, an unknown command does not. */
  lemma FailureRecordsNothing<S>(b: Behaviour<S>, c: Core<S>, cmd: Option<TypedAny>)
    requires DispatchStep(b, c, cmd).error.Some?
    ensures Recorded(b, c, Send(cmd)) == []
    ensures DispatchStep(b, c, cmd).core == if Routed(b, cmd) then Rebuilt(b, c) else c
    ensures c.state.Some? ==> DispatchStep(b, c, cmd).core == c
    ensures c.state.None? && c.pages != [] ==> (DispatchStep(b, c, cmd).core.pages == c.pages <==> !Routed(b, cmd))
  {
  }

  // ---------- One dispatch, written out ----------

  /** A command of a type with a single-event handler: the handler sees the state, replayed from the log if it was not
      built yet, and whether pages were recorded. Its error or its nil event leaves the built instance; its event is
      applied and becomes one page more, under the counter's number. */
  lemma SingleDispatch<S>(b: Behaviour<S>, c: Core<S>, name: string, value: seq<Byte>)
    requires name in b.handlers
    ensures var cmd := TypedAny(TYPE_URL_PREFIX + name, value);
            var s := if c.state.Some? then c.state.value else Fold(ByMap(b.appliers), b.factory(), c.pages);
            var n, pages := if c.state.Some? then c.nextSeq else c.bookSeq, if c.state.Some? then c.pages else [];
            DispatchStep(b, c, Some(cmd)) ==
            match b.handlers[name](View(s, pages != []), cmd)
            case Err(e) => Step(Core(Some(s), n, pages, c.bookSeq), Some(e))
            case Ok(None) => Step(Core(Some(s), n, pages, c.bookSeq), None)
            case Ok(Some(event)) =>
              var page := EventPage(Some(PageHeader(Sequence(n))), Event(Some(event)), None);
              Step(Core(Some(Fold(ByMap(b.appliers), s, [page])), (n + 1) % 0x1_0000_0000, pages + [page], c.bookSeq),
                   None)
  {
    var cmd := TypedAny(TYPE_URL_PREFIX + name, value);
    var r := Rebuilt(b, c);
    FindsEntry(b.handlers, name);
    var answer := b.handlers[name](ViewOf(r), cmd);
    if answer.Ok? {
      RecordSingle(b, r, answer.value);
      if answer.value.Some? {
        SinglePage(r.nextSeq, answer.value.value);
      }
    }
  }

  lemma SinglePage(n: Uint32, event: TypedAny)
    ensures Stamp(n, [event]) == [EventPage(Some(PageHeader(Sequence(n))), Event(Some(event)), None)]
  {
    assert Add32(n, 0) == n;
  }

  lemma MultiStep<S>(b: Behaviour<S>, c: Core<S>, name: string, value: seq<Byte>)
    requires name in b.multiHandlers && name !in b.handlers
    ensures var cmd := TypedAny(TYPE_URL_PREFIX + name, value);
            DispatchStep(b, c, Some(cmd)) ==
            match b.multiHandlers[name](ViewOf(Rebuilt(b, c)), cmd)
            case Err(e) => Step(Rebuilt(b, c), Some(e))
            case Ok(events) => Step(Record(b, Rebuilt(b, c), Present(events)), None)
  {
    FindsEntry(b.handlers, name);
    FindsEntry(b.multiHandlers, name);
  }

  lemma StampNumbers(n: Uint32, events: seq<TypedAny>)
    ensures NumberedFrom(n, events, Stamp(n, events), Add32(n, |events|))
  {
  }

  lemma RecordNumbers<S>(b: Behaviour<S>, r: Core<S>, events: seq<TypedAny>)
    requires r.state.Some?
    ensures var after := Record(b, r, events);
            && r.pages <= after.pages && after.bookSeq == r.bookSeq
            && NumberedFrom(r.nextSeq, events, after.pages[|r.pages|..], after.nextSeq)
            && after.state == Some(Fold(ByMap(b.appliers), r.state.value, after.pages[|r.pages|..]))
  {
    var added := Stamp(r.nextSeq, events);
    assert (r.pages + added)[|r.pages|..] == added;
    StampNumbers(r.nextSeq, events);
  }

  /** A command of a type with only a multi-event handler: the events that are present are recorded, in order. */
  lemma MultiDispatch<S>(b: Behaviour<S>, c: Core<S>, name: string, value: seq<Byte>)
    requires name in b.multiHandlers && name !in b.handlers
    ensures var cmd := TypedAny(TYPE_URL_PREFIX + name, value);
            var s := if c.state.Some? then c.state.value else Fold(ByMap(b.appliers), b.factory(), c.pages);
            var n, pages := if c.state.Some? then c.nextSeq else c.bookSeq, if c.state.Some? then c.pages else [];
            var step := DispatchStep(b, c, Some(cmd));
            match b.multiHandlers[name](View(s, pages != []), cmd)
            case Err(e) => step == Step(Core(Some(s), n, pages, c.bookSeq), Some(e))
            case Ok(events) =>
              && pages <= step.core.pages && step.error == None && step.core.bookSeq == c.bookSeq
              && NumberedFrom(n, Present(events), step.core.pages[|pages|..], step.core.nextSeq)
              && step.core.state == Some(Fold(ByMap(b.appliers), s, step.core.pages[|pages|..]))
  {
    var r := Rebuilt(b, c);
    var answer := b.multiHandlers[name](ViewOf(r), TypedAny(TYPE_URL_PREFIX + name, value));
    MultiStep(b, c, name, value);
    if answer.Ok? {
      RecordNumbers(b, r, Present(answer.value));
    }
  }

  /** Without a command, or with one of an unregistered type, nothing happens, not even the rebuild. */
  lemma UnroutedDispatch<S>(b: Behaviour<S>, c: Core<S>, cmd: Option<TypedAny>)
    ensures cmd.None? || cmd.value.typeUrl == "" ==> DispatchStep(b, c, cmd) == Step(c, Some(NoCommandProvided))
    ensures cmd.Some? && cmd.value.typeUrl != "" &&
            (forall name :: name in b.handlers || name in b.multiHandlers ==>
               cmd.value.typeUrl != TYPE_URL_PREFIX + name) ==>
              DispatchStep(b, c, cmd) == Step(c, Some(UnknownCommand(cmd.value.typeUrl)))
  {
    if cmd.Some? && forall name :: name in b.handlers || name in b.multiHandlers ==>
                      cmd.value.typeUrl != TYPE_URL_PREFIX + name {
      FindsNothing(ByMap(b.handlers), EventPage(None, Event(cmd), None));
      FindsNothing(ByMap(b.multiHandlers), EventPage(None, Event(cmd), None));
    }
  }

  /** `Handle` looks at the first command only. A success answers with the whole book, its pages as dispatch left
      them; an error of dispatch is passed on; a request without a command changes nothing. */
  lemma HandleDispatches<S>(b: Behaviour<S>, codec: Codec, rejections: map<string, Aggregate.RejectionHandler<S>>,
                            domain: string, book: EventBook, c: Core<S>, cover: Option<Cover>,
                            header: Option<PageHeader>, cmd: TypedAny, rest: seq<CommandPage>)
    requires cmd.typeUrl != "" && cmd.typeUrl != TYPE_URL_PREFIX + NOTIFICATION
    ensures var command := CommandBook(cover, [CommandPage(header, Some(cmd))] + rest);
            var step := DispatchStep(b, c, Some(cmd));
            && Aggregate.HandleCore(b, codec, rejections, c, command) == step.core
            && Aggregate.HandleAnswer(b, codec, rejections, domain, book, c, command) ==
               match step.error
               case Some(e) => Err(e)
               case None => Ok(Events(EventBook(book.cover, step.core.pages, book.snapshot, book.nextSequence)))
  {
  }

  lemma HandleWithoutCommand<S>(b: Behaviour<S>, codec: Codec, rejections: map<string, Aggregate.RejectionHandler<S>>,
                                domain: string, book: EventBook, c: Core<S>, command: CommandBook)
    requires command.pages == [] || command.pages[0].NilCommandPage? || command.pages[0].command.None? ||
             command.pages[0].command.value.typeUrl == ""
    ensures Aggregate.HandleCore(b, codec, rejections, c, command) == c
    ensures Aggregate.HandleAnswer(b, codec, rejections, domain, book, c, command) == Err(NoCommandPages)
  {
  }

  // ---------- A fresh instance per request ----------

  /** What the event store keeps of an aggregate. */
  datatype Store = Store(log: seq<EventPage>, nextSequence: Uint32)

  /** The pages a dispatch adds. */
  function Added<S>(b: Behaviour<S>, c: Core<S>, c': Core<S>): seq<EventPage> {
    if |Rebuilt(b, c).pages| <= |c'.pages| then c'.pages[|Rebuilt(b, c).pages|..] else []
  }

  function Outcome<S>(b: Behaviour<S>, c: Core<S>, step: Step<S>): Result<seq<EventPage>> {
    match step.error
    case Some(e) => Err(e)
    case None => Ok(Added(b, c, step.core))
  }

  /** One request: a new instance over the stored log; the response's pages are appended to the store. */
  function Serve<S>(b: Behaviour<S>, store: Store, cmd: Option<TypedAny>): (Store, Result<seq<EventPage>>) {
    var step := DispatchStep(b, Fresh(store.log, store.nextSequence), cmd);
    match step.error
    case Some(e) => (store, Err(e))
    case None => (Store(store.log + step.core.pages, Add32(store.nextSequence, |step.core.pages|)),
                  Ok(step.core.pages))
  }

  /** `Serve` is what the request wrapper does: the answer to a request carrying the command, over the stored book,
      is the same error or a book with the same pages. */
  lemma RequestServes<S>(b: Behaviour<S>, codec: Codec, rejections: map<string, Aggregate.RejectionHandler<S>>,
                         domain: string, book: EventBook, command: CommandBook)
    requires RequestCommand(command).Some? && !IsNotification(RequestCommand(command).value)
    ensures var c := Fresh(book.pages, book.nextSequence);
            var served := Serve(b, Store(book.pages, book.nextSequence), RequestCommand(command)).1;
            Aggregate.HandleAnswer(b, codec, rejections, domain, book, c, command) ==
            match served
            case Ok(pages) => Ok(Events(book.(pages := pages)))
            case Err(e) => Err(e)
  {
  }

  function ServeAll<S>(b: Behaviour<S>, store: Store, cmds: seq<Option<TypedAny>>)
    : (Store, seq<Result<seq<EventPage>>>)
  {
    if cmds == [] then (store, [])
    else
      var (mid, outcomes) := ServeAll(b, store, cmds[..|cmds| - 1]);
      var (end, outcome) := Serve(b, mid, cmds[|cmds| - 1]);
      (end, outcomes + [outcome])
  }

  /** The same commands, all dispatched to one instance. */
  function DispatchAll<S>(b: Behaviour<S>, c: Core<S>, cmds: seq<Option<TypedAny>>)
    : (Core<S>, seq<Result<seq<EventPage>>>)
  {
    if cmds == [] then (c, [])
    else
      var (mid, outcomes) := DispatchAll(b, c, cmds[..|cmds| - 1]);
      var step := DispatchStep(b, mid, cmds[|cmds| - 1]);
      (step.core, outcomes + [Outcome(b, mid, step)])
  }

  /** What a handler's answer shows outside: its error, or the events that get recorded. */
  function Visible<S>(b: Behaviour<S>, v: View<S>, cmd: TypedAny): Option<Result<seq<TypedAny>>> {
    match Answer(b, v, cmd)
    case None => None
    case Some(Err(e)) => Some(Err(e))
    case Some(Ok(events)) => Some(Ok(Present(events)))
  }

  /** `first`, dispatched to a new instance over the log, records something and leaves the state `s`. */
  predicate PopulatedBy<S(==)>(b: Behaviour<S>, log: seq<EventPage>, bookSeq: Uint32, first: Option<TypedAny>, s: S) {
    var c := DispatchStep(b, Fresh(log, bookSeq), first).core;
    c.state == Some(s) && c.pages != []
  }

  /** The state can be the one right after a command that recorded something. */
  ghost predicate Populated<S>(b: Behaviour<S>, s: S) {
    exists log, bookSeq, first :: PopulatedBy(b, log, bookSeq, first, s)
  }

  /** No visible answer depends on `Exists()` in a state that a recording command leaves. */
  ghost predicate ExistsNeverShows<S(!new)>(b: Behaviour<S>) {
    forall s: S, cmd :: Populated(b, s) ==> Visible(b, View(s, true), cmd) == Visible(b, View(s, false), cmd)
  }

  /** No handler's answer depends on `Exists()` at all. */
  ghost predicate IgnoresExists<S(!new)>(b: Behaviour<S>) {
    forall s: S, cmd :: Answer(b, View(s, true), cmd) == Answer(b, View(s, false), cmd)
  }

  /** The built instance `r` and the store are at the same point of the log. */
  ghost predicate AtSamePoint<S>(b: Behaviour<S>, r: Core<S>, start: Store, store: Store) {
    && store.log == start.log + r.pages
    && store.nextSequence == r.nextSeq
    && r.state == Some(ReplayLog(b, store.log))
  }

  ghost predicate Related<S>(b: Behaviour<S>, c: Core<S>, start: Store, store: Store) {
    && (c.state.None? ==> c == Fresh(start.log, start.nextSequence))
    && AtSamePoint(b, Rebuilt(b, c), start, store)
    && (Rebuilt(b, c).pages != [] ==> Populated(b, Rebuilt(b, c).state.value))
  }

  /** A dispatch, in terms of the visible answer. */
  lemma DispatchShows<S>(b: Behaviour<S>, c: Core<S>, cmd: Option<TypedAny>)
    requires Routed(b, cmd)
    ensures var r := Rebuilt(b, c);
            && Visible(b, ViewOf(r), cmd.value).Some?
            && DispatchStep(b, c, cmd) ==
               match Visible(b, ViewOf(r), cmd.value).value
               case Err(e) => Step(r, Some(e))
               case Ok(events) => Step(Record(b, r, events), None)
  {
  }

  /** Recording the same events on both sides adds the same pages and keeps the two at the same point. */
  lemma RecordAtSamePoint<S>(b: Behaviour<S>, r: Core<S>, start: Store, store: Store, events: seq<TypedAny>)
    requires AtSamePoint(b, r, start, store)
    ensures var pages := Stamp(store.nextSequence, events);
            && Record(b, r, events).pages == r.pages + pages
            && AtSamePoint(b, Record(b, r, events), start,
                           Store(store.log + pages, Add32(store.nextSequence, |pages|)))
  {
    var pages := Stamp(store.nextSequence, events);
    FoldConcat(ByMap(b.appliers), b.factory(), store.log, pages);
    ConcatAssoc(start.log, r.pages, pages);
  }

  /** What a dispatch that succeeds with `events` adds, seen from the instance. */
  lemma AddedPages<S>(b: Behaviour<S>, c: Core<S>, events: seq<TypedAny>)
    ensures Added(b, c, Record(b, Rebuilt(b, c), events)) == Stamp(Rebuilt(b, c).nextSeq, events)
  {
    var r := Rebuilt(b, c);
    assert (r.pages + Stamp(r.nextSeq, events))[|r.pages|..] == Stamp(r.nextSeq, events);
  }

  /** A request for a routed command, seen from the store. */
  lemma ServeShows<S>(b: Behaviour<S>, store: Store, cmd: Option<TypedAny>)
    requires Routed(b, cmd)
    ensures var v := View(ReplayLog(b, store.log), false);
            && Visible(b, v, cmd.value).Some?
            && Serve(b, store, cmd) ==
               match Visible(b, v, cmd.value).value
               case Err(e) => (store, Err(e))
               case Ok(events) =>
                 var pages := Stamp(store.nextSequence, events);
                 (Store(store.log + pages, Add32(store.nextSequence, |pages|)), Ok(pages))
  {
    var own := Rebuilt(b, Fresh(store.log, store.nextSequence));
    DispatchShows(b, Fresh(store.log, store.nextSequence), cmd);
    var visible := Visible(b, ViewOf(own), cmd.value).value;
    if visible.Ok? {
      assert [] + Stamp(store.nextSequence, visible.value) == Stamp(store.nextSequence, visible.value);
    }
  }

  /** A request that records events leaves a populated state. */
  lemma ServingPopulates<S>(b: Behaviour<S>, store: Store, cmd: Option<TypedAny>, events: seq<TypedAny>)
    requires Routed(b, cmd) && events != []
    requires Visible(b, View(ReplayLog(b, store.log), false), cmd.value) == Some(Ok(events))
    ensures Populated(b, ReplayLog(b, store.log + Stamp(store.nextSequence, events)))
  {
    var pages := Stamp(store.nextSequence, events);
    var own := Rebuilt(b, Fresh(store.log, store.nextSequence));
    DispatchShows(b, Fresh(store.log, store.nextSequence), cmd);
    FoldConcat(ByMap(b.appliers), b.factory(), store.log, pages);
    assert Record(b, own, events).pages == pages;
    assert PopulatedBy(b, store.log, store.nextSequence, cmd, ReplayLog(b, store.log + pages));
  }

  /** The visible answer is the same on both sides as long as `Exists()` never shows. */
  lemma SameVisible<S(!new)>(b: Behaviour<S>, c: Core<S>, start: Store, store: Store, cmd: TypedAny)
    requires ExistsNeverShows(b) && Related(b, c, start, store)
    ensures Visible(b, ViewOf(Rebuilt(b, c)), cmd) == Visible(b, View(ReplayLog(b, store.log), false), cmd)
  {
    var r := Rebuilt(b, c);
    if r.pages != [] {
      assert Visible(b, View(r.state.value, true), cmd) == Visible(b, View(r.state.value, false), cmd);
    }
  }

  lemma ServeStep<S(!new)>(b: Behaviour<S>, c: Core<S>, start: Store, store: Store, cmd: Option<TypedAny>)
    requires ExistsNeverShows(b) && Related(b, c, start, store)
    ensures Related(b, DispatchStep(b, c, cmd).core, start, Serve(b, store, cmd).0)
    ensures Outcome(b, c, DispatchStep(b, c, cmd)) == Serve(b, store, cmd).1
  {
    if Routed(b, cmd) {
      var r := Rebuilt(b, c);
      DispatchShows(b, c, cmd);
      ServeShows(b, store, cmd);
      SameVisible(b, c, start, store, cmd.value);
      var visible := Visible(b, ViewOf(r), cmd.value).value;
      if visible.Ok? {
        RecordAtSamePoint(b, r, start, store, visible.value);
        AddedPages(b, c, visible.value);
        if visible.value != [] {
          ServingPopulates(b, store, cmd, visible.value);
        } else {
          RecordNothing(b, r);
        }
      }
    }
  }

  /** Per-request instances over the store simulate one long-lived instance: for every command list they give the
      same answer to every command (the same error, or the same pages with the same sequence headers), the same
      final log and next sequence, and the same state; failed commands add nothing on either side. */
  lemma {:induction false} PerRequestSimulatesLongLived<S(!new)>(b: Behaviour<S>, start: Store,
                                                                 cmds: seq<Option<TypedAny>>)
    requires ExistsNeverShows(b)
    ensures var (store, served) := ServeAll(b, start, cmds);
            var (c, answered) := DispatchAll(b, Fresh(start.log, start.nextSequence), cmds);
            && served == answered
            && store.log == start.log + Rebuilt(b, c).pages
            && store.nextSequence == Rebuilt(b, c).nextSeq
            && Rebuilt(b, c).state == Some(ReplayLog(b, store.log))
            && Related(b, c, start, store)
  {
    if cmds == [] {
      assert start.log + [] == start.log;
    } else {
      var n := |cmds| - 1;
      PerRequestSimulatesLongLived(b, start, cmds[..n]);
      ServeStep(b, DispatchAll(b, Fresh(start.log, start.nextSequence), cmds[..n]).0, start,
                ServeAll(b, start, cmds[..n]).0, cmds[n]);
    }
  }

  // ---------- Exactly when the simulation holds ----------

  lemma StampInjective(start: Uint32, xs: seq<TypedAny>, ys: seq<TypedAny>)
    requires Stamp(start, xs) == Stamp(start, ys)
    ensures xs == ys
  {
    assert |xs| == |Stamp(start, xs)| == |ys|;
    forall i | 0 <= i < |xs|
      ensures xs[i] == ys[i]
    {
      assert Stamp(start, xs)[i].GetEvent() == Some(xs[i]) && Stamp(start, ys)[i].GetEvent() == Some(ys[i]);
    }
  }

  lemma TwoCommands<S>(b: Behaviour<S>, start: Store, x: Option<TypedAny>, y: Option<TypedAny>)
    ensures var c := DispatchStep(b, Fresh(start.log, start.nextSequence), x).core;
            && |ServeAll(b, start, [x, y]).1| == 2
            && |DispatchAll(b, Fresh(start.log, start.nextSequence), [x, y]).1| == 2
            && ServeAll(b, start, [x, y]).1[1] == Serve(b, Serve(b, start, x).0, y).1
            && DispatchAll(b, Fresh(start.log, start.nextSequence), [x, y]).1[1] == Outcome(b, c, DispatchStep(b, c, y))
  {
    assert [x, y][..1] == [x] && [x][..0] == [];
    assert ServeAll(b, start, [x][..0]) == (start, []);
    assert ServeAll(b, start, [x]) == (Serve(b, start, x).0, [] + [Serve(b, start, x).1]);
    var created := Fresh(start.log, start.nextSequence);
    assert DispatchAll(b, created, [x][..0]) == (created, []);
    var step := DispatchStep(b, created, x);
    assert DispatchAll(b, created, [x]) == (step.core, [] + [Outcome(b, created, step)]);
  }

  /** The store after a recording command is at the instance's own point. */
  lemma ServedFirst<S>(b: Behaviour<S>, log: seq<EventPage>, bookSeq: Uint32, first: Option<TypedAny>, s: S)
    requires PopulatedBy(b, log, bookSeq, first, s)
    ensures var c := DispatchStep(b, Fresh(log, bookSeq), first).core;
            var store := Serve(b, Store(log, bookSeq), first).0;
            store.nextSequence == c.nextSeq && ReplayLog(b, store.log) == s
  {
    assert Routed(b, first);
    ServeShows(b, Store(log, bookSeq), first);
    DispatchShows(b, Fresh(log, bookSeq), first);
    var visible := Visible(b, View(ReplayLog(b, log), false), first.value).value;
    FoldConcat(ByMap(b.appliers), b.factory(), log, Stamp(bookSeq, visible.value));
  }

  /** The second of two commands is answered alike on both sides exactly when `Exists()` does not show in its
      answer. */
  lemma SecondAnswerShows<S>(b: Behaviour<S>, c: Core<S>, store: Store, s: S, cmd: TypedAny)
    requires c.state == Some(s) && c.pages != [] && store.nextSequence == c.nextSeq && ReplayLog(b, store.log) == s
    ensures Outcome(b, c, DispatchStep(b, c, Some(cmd))) == Serve(b, store, Some(cmd)).1 <==>
            Visible(b, View(s, true), cmd) == Visible(b, View(s, false), cmd)
  {
    if Routed(b, Some(cmd)) {
      DispatchShows(b, c, Some(cmd));
      ServeShows(b, store, Some(cmd));
      var long, short := Visible(b, View(s, true), cmd).value, Visible(b, View(s, false), cmd).value;
      if long.Ok? {
        AddedPages(b, c, long.value);
        if short.Ok? && Stamp(c.nextSeq, long.value) == Stamp(c.nextSeq, short.value) {
          StampInjective(c.nextSeq, long.value, short.value);
        }
      }
    }
  }

  /** Both sides answer the command list alike. */
  ghost predicate AnswersAgree<S>(b: Behaviour<S>, start: Store, cmds: seq<Option<TypedAny>>) {
    ServeAll(b, start, cmds).1 == DispatchAll(b, Fresh(start.log, start.nextSequence), cmds).1
  }

  lemma AgreementShows<S>(b: Behaviour<S>, log: seq<EventPage>, bookSeq: Uint32, first: Option<TypedAny>, s: S,
                          cmd: TypedAny)
    requires PopulatedBy(b, log, bookSeq, first, s) && AnswersAgree(b, Store(log, bookSeq), [first, Some(cmd)])
    ensures Visible(b, View(s, true), cmd) == Visible(b, View(s, false), cmd)
  {
    var start := Store(log, bookSeq);
    TwoCommands(b, start, first, Some(cmd));
    ServedFirst(b, log, bookSeq, first, s);
    SecondAnswerShows(b, DispatchStep(b, Fresh(log, bookSeq), first).core, Serve(b, start, first).0, s, cmd);
  }

  /** The simulation holds for every store and every command list exactly when no handler lets `Exists()` show, in
      an error or in the recorded events, in a state that a recording command leaves. */
  lemma SimulatesExactlyWhen<S(!new)>(b: Behaviour<S>)
    ensures (forall start, cmds :: AnswersAgree(b, start, cmds)) <==> ExistsNeverShows(b)
  {
    if ExistsNeverShows(b) {
      forall start, cmds
        ensures AnswersAgree(b, start, cmds)
      {
        PerRequestSimulatesLongLived(b, start, cmds);
      }
    }
    if forall start, cmds :: AnswersAgree(b, start, cmds) {
      forall s: S, cmd | Populated(b, s)
        ensures Visible(b, View(s, true), cmd) == Visible(b, View(s, false), cmd)
      {
        var log, bookSeq, first :| PopulatedBy(b, log, bookSeq, first, s);
        assert AnswersAgree(b, Store(log, bookSeq), [first, Some(cmd)]);
        AgreementShows(b, log, bookSeq, first, s, cmd);
      }
    }
  }

  /** In particular it holds when no handler asks `Exists()`. */
  lemma IgnoringExistsSuffices<S(!new)>(b: Behaviour<S>)
    requires IgnoresExists(b)
    ensures ExistsNeverShows(b)
  {
    forall s: S, cmd
      ensures Visible(b, View(s, true), cmd) == Visible(b, View(s, false), cmd)
    {
      assert Answer(b, View(s, true), cmd) == Answer(b, View(s, false), cmd);
    }
  }

  // ---------- The simulation on objects ----------

  /** One request, served from the store and handled by the long-lived instance. The long-lived instance answers with
      all pages since its rebuild, the new instance with this command's. */
  lemma RequestStep<S(!new)>(b: Behaviour<S>, codec: Codec, rejections: map<string, Aggregate.RejectionHandler<S>>,
                             domain: string, c: Core<S>, book: EventBook, start: Store, stored: EventBook,
                             request: CommandBook)
    requires ExistsNeverShows(b) && Related(b, c, start, Store(stored.pages, stored.nextSequence))
    requires RequestCommand(request).Some? ==> !IsNotification(RequestCommand(request).value)
    ensures var served := Aggregate.HandleAnswer(b, codec, rejections, domain, stored,
                                                 Fresh(stored.pages, stored.nextSequence), request);
            var answered := Aggregate.HandleAnswer(b, codec, rejections, domain, book, c, request);
            var after := Aggregate.HandleCore(b, codec, rejections, c, request);
            && (answered.Err? ==> served == answered
                                  && Related(b, after, start, Store(stored.pages, stored.nextSequence)))
            && (answered.Ok? ==> && served.Ok? && served.value.Events? && answered.value.Events?
                                 && var pages := served.value.book.pages;
                                    && start.log + answered.value.book.pages == stored.pages + pages
                                    && Related(b, after, start,
                                               Store(stored.pages + pages, Add32(stored.nextSequence, |pages|))))
  {
    if RequestCommand(request).Some? {
      ServeStep(b, c, start, Store(stored.pages, stored.nextSequence), RequestCommand(request));
      RequestServes(b, codec, rejections, domain, stored, request);
    }
  }

  /** The instance has exactly these registrations. */
  ghost predicate Hosts<S(!new)>(instance: Aggregate.CommandHandlerBase<S>, b: Behaviour<S>,
                                 rejections: map<string, Aggregate.RejectionHandler<S>>, domain: string, codec: Codec)
    reads instance, instance.eventBook
  {
    && instance.Valid() && instance.Behaves() == b && instance.codec == codec
    && instance.rejectionHandlers == rejections && instance.domain == domain
  }

  /** One request on objects: a new instance over the stored book, and the long-lived instance. */
  method ServeOne<S(!new)>(b: Behaviour<S>, rejections: map<string, Aggregate.RejectionHandler<S>>, domain: string,
                           codec: Codec, ghost start: Store, stored: EventBook,
                           instance: Aggregate.CommandHandlerBase<S>, request: CommandBook)
    returns (store: EventBook, reply: Aggregate.Reply, answer: Result<BusinessResponse>)
    requires ExistsNeverShows(b) && Hosts(instance, b, rejections, domain, codec)
    requires Related(b, instance.ToCore(), start, Store(stored.pages, stored.nextSequence))
    requires RequestCommand(request).Some? ==> !IsNotification(RequestCommand(request).value)
    modifies instance, instance.eventBook
    ensures Hosts(instance, b, rejections, domain, codec) && instance.eventBook == old(instance.eventBook)
    ensures Related(b, instance.ToCore(), start, Store(store.pages, store.nextSequence))
    ensures if answer.Err? then reply == Aggregate.ReplyTo(answer) && store == stored
            else && reply.Response? && reply.response.Events? && answer.value.Events?
                 && store.pages == stored.pages + reply.response.book.pages
                 && start.log + answer.value.book.pages == store.pages
  {
    RequestStep(b, codec, rejections, domain, instance.ToCore(), instance.eventBook.book, start, stored, request);
    store := stored;
    var ref := new EventBookRef(stored);
    reply := Aggregate.DispatchRequest(b, rejections, domain, codec, Some(request), ref);
    answer := instance.Handle(request);
    if reply.Response? {
      var pages := reply.response.book.pages;
      store := stored.(pages := stored.pages + pages, nextSequence := Add32(stored.nextSequence, |pages|));
    }
  }

  function PagesIn(reply: Aggregate.Reply): seq<EventPage> {
    if reply.Response? && reply.response.Events? then reply.response.book.pages else []
  }

  /** All pages of the replies, in order. */
  function ServedPages(replies: seq<Aggregate.Reply>): seq<EventPage> {
    if replies == [] then [] else ServedPages(replies[..|replies| - 1]) + PagesIn(replies[|replies| - 1])
  }

  /** The long-lived instance's answer number `i` is the same error as the reply, or a book with the pages of all
      replies so far. */
  predicate Accumulates(served: seq<Aggregate.Reply>, answered: seq<Result<BusinessResponse>>, i: nat)
    requires i < |served| && i < |answered|
  {
    if answered[i].Err? then served[i] == Aggregate.ReplyTo(answered[i])
    else && served[i].Response? && served[i].response.Events? && answered[i].value.Events?
         && answered[i].value.book.pages == ServedPages(served[..i + 1])
  }

  ghost predicate AllAccumulate(served: seq<Aggregate.Reply>, answered: seq<Result<BusinessResponse>>) {
    |served| == |answered| && forall i :: 0 <= i < |served| ==> Accumulates(served, answered, i)
  }

  /** The newest answer accumulates too, if the store's log did. */
  lemma AccumulatesMore(log: seq<EventPage>, served: seq<Aggregate.Reply>, answered: seq<Result<BusinessResponse>>,
                        reply: Aggregate.Reply, answer: Result<BusinessResponse>)
    requires AllAccumulate(served, answered)
    requires if answer.Err? then reply == Aggregate.ReplyTo(answer)
             else && reply.Response? && reply.response.Events? && answer.value.Events?
                  && log + answer.value.book.pages == log + ServedPages(served) + reply.response.book.pages
    ensures log + ServedPages(served + [reply]) ==
            if answer.Err? then log + ServedPages(served) else log + ServedPages(served) + reply.response.book.pages
    ensures AllAccumulate(served + [reply], answered + [answer])
  {
    var more := served + [reply];
    assert more[..|served|] == served && more[..|served| + 1] == more;
    assert ServedPages(more) == ServedPages(served) + PagesIn(reply);
    if answer.Ok? {
      ConcatAssoc(log, ServedPages(served), PagesIn(reply));
      CancelFront(log, answer.value.book.pages, ServedPages(more));
    } else {
      assert ServedPages(served) + [] == ServedPages(served);
    }
    forall i | 0 <= i < |served|
      ensures Accumulates(more, answered + [answer], i)
    {
      assert Accumulates(served, answered, i);
      assert more[..i + 1] == served[..i + 1];
    }
  }

  lemma CancelFront<T>(front: seq<T>, x: seq<T>, y: seq<T>)
    requires front + x == front + y
    ensures x == y
  {
    assert x == (front + x)[|front|..] == (front + y)[|front|..] == y;
  }

  /** The simulation on objects: every request goes to a new instance over the stored book and, beside it, to one
      long-lived instance. Both fail with the same error or both succeed; each success of the long-lived instance
      holds exactly the pages served so far; and at the end the store's log is the original log followed by all served
      pages, which are the long-lived instance's, with the same next sequence and the same state. */
  method ServeBeside<S(!new)>(b: Behaviour<S>, rejections: map<string, Aggregate.RejectionHandler<S>>, domain: string,
                              codec: Codec, book: EventBook, requests: seq<CommandBook>)
    returns (store: EventBook, instance: Aggregate.CommandHandlerBase<S>, served: seq<Aggregate.Reply>,
             answered: seq<Result<BusinessResponse>>)
    requires ExistsNeverShows(b)
    requires forall i :: 0 <= i < |requests| && RequestCommand(requests[i]).Some? ==>
               !IsNotification(RequestCommand(requests[i]).value)
    ensures fresh(instance) && instance.Valid() && instance.stateSet
    ensures |served| == |requests| && AllAccumulate(served, answered)
    ensures store.pages == book.pages + ServedPages(served)
    ensures instance.eventBook.book.pages == ServedPages(served)
    ensures store.nextSequence == instance.nextSeq
    ensures instance.state == Some(ReplayLog(b, store.pages))
  {
    ghost var start := Store(book.pages, book.nextSequence);
    store, served, answered := book, [], [];
    var own := new EventBookRef(book);
    instance := new Aggregate.CommandHandlerBase.Registered(own, b, rejections, domain, codec);
    assert book.pages + [] == book.pages;
    for i := 0 to |requests|
      invariant fresh(instance) && fresh(instance.eventBook) && Hosts(instance, b, rejections, domain, codec)
      invariant Related(b, instance.ToCore(), start, Store(store.pages, store.nextSequence))
      invariant |served| == i && AllAccumulate(served, answered)
      invariant store.pages == book.pages + ServedPages(served)
    {
      var reply, answer;
      store, reply, answer := ServeOne(b, rejections, domain, codec, start, store, instance, requests[i]);
      AccumulatesMore(book.pages, served, answered, reply, answer);
      served, answered := served + [reply], answered + [answer];
    }
    var _ := instance.State();
    CancelFront(book.pages, instance.eventBook.book.pages, ServedPages(served));
  }

  // ---------- Exists() ----------

  /** A request's instance never sees its prior events through `Exists()`: the call reports prior events correctly
      exactly when there are none. */
  lemma ExistsOnFreshInstance<S>(b: Behaviour<S>, log: seq<EventPage>, bookSeq: Uint32)
    ensures ViewOf(Rebuilt(b, Fresh(log, bookSeq))).populated == (log != []) <==> log == []
  {
  }

  const REGISTER := TypedAny(TYPE_URL_PREFIX + "examples.RegisterPlayer", [])

  const REGISTERED := TypedAny(TYPE_URL_PREFIX + "examples.PlayerRegistered", [])

  /** The guard of the package's own example: reject if the player exists, else register it. */
  function RegisterOnce(v: View<int>, cmd: TypedAny): Result<Option<TypedAny>> {
    if v.populated then Err(HandlerFailed("Player already exists", true)) else Ok(Some(REGISTERED))
  }

  function Players(): Behaviour<int> {
    Behaviour(() => 0, map["examples.RegisterPlayer" := RegisterOnce], map[], map[])
  }

  lemma RegisterStep(v: View<int>)
    ensures ByMap(Players().handlers).Find(REGISTER.typeUrl) == Some(RegisterOnce)
    ensures Answer(Players(), v, REGISTER) ==
            Some(if v.populated then Err(HandlerFailed("Player already exists", true)) else Ok([Some(REGISTERED)]))
    ensures Present([Some(REGISTERED)]) == [REGISTERED]
  {
    PrefixedUrl("examples.RegisterPlayer");
    assert [Some(REGISTERED)][..0] == [];
  }

  /** For every store, a request to register is accepted, however many registrations are in the log. */
  lemma RegisterAlwaysServed(store: Store)
    ensures var page := NewPage(store.nextSequence, REGISTERED);
            Serve(Players(), store, Some(REGISTER)) ==
            (Store(store.log + [page], Add32(store.nextSequence, 1)), Ok([page]))
  {
    var r := Rebuilt(Players(), Fresh(store.log, store.nextSequence));
    RegisterStep(ViewOf(r));
    assert [] + Stamp(store.nextSequence, [REGISTERED]) == [NewPage(store.nextSequence, REGISTERED)];
  }

  /** The simulation fails for the example: once a long-lived instance has registered the player it refuses
      to do so again, and changes nothing, while per-request instances store a second registration. */
  lemma ExistsGuardBreaksSimulation(store: Store)
    ensures !ExistsNeverShows(Players())
    ensures var c := DispatchStep(Players(), Fresh(store.log, store.nextSequence), Some(REGISTER)).core;
            DispatchStep(Players(), c, Some(REGISTER)) == Step(c, Some(HandlerFailed("Player already exists", true)))
    ensures var after := Serve(Players(), store, Some(REGISTER)).0;
            && Serve(Players(), after, Some(REGISTER)).1.Ok?
            && |Serve(Players(), after, Some(REGISTER)).0.log| == |store.log| + 2
  {
    var r := Rebuilt(Players(), Fresh(store.log, store.nextSequence));
    RegisterStep(ViewOf(r));
    var s := Record(Players(), r, [REGISTERED]).state.value;
    assert PopulatedBy(Players(), store.log, store.nextSequence, Some(REGISTER), s);
    RegisterStep(View(s, true));
    RegisterStep(View(s, false));
    assert Visible(Players(), View(s, true), REGISTER) != Visible(Players(), View(s, false), REGISTER);
    RegisterStep(ViewOf(Record(Players(), r, [REGISTERED])));
    RegisterAlwaysServed(store);
    RegisterAlwaysServed(Serve(Players(), store, Some(REGISTER)).0);
  }
}
