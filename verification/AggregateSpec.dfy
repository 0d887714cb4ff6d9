/** What one call on an OO aggregate does, as a function of the aggregate's registrations and of the four values
    it keeps in step: cached state, sequence counter, pages in the book, and the book's next sequence. */
module AggregateSpec {
  import opened Proto
  import opened Dispatch
  import opened Replay

  /** What a command handler can see of its aggregate: `State()`, and `Exists()`. */
  datatype View<+S> = View(state: S, populated: bool)

  // `None` is an event that is skipped: one that `anypb.New` cannot pack, or, from a single-event handler, nil. (A nil
  // entry in a multi-event handler's list panics before it reaches the loop.)
  type SingleHandler<!S> = (View<S>, TypedAny) -> Result<Option<TypedAny>>
  type MultiHandler<!S> = (View<S>, TypedAny) -> Result<seq<Option<TypedAny>>>

  datatype Behaviour<!S> = Behaviour(
    factory: () -> S,
    handlers: map<string, SingleHandler<S>>,
    multiHandlers: map<string, MultiHandler<S>>,
    appliers: map<string, Applier<S>>)

  datatype Core<+S> = Core(state: Option<S>, nextSeq: Uint32, pages: seq<EventPage>, bookSeq: Uint32)

  /** An instance just created over a book: nothing is replayed yet and the counter still has its zero value. */
  function Fresh<S>(pages: seq<EventPage>, bookSeq: Uint32): Core<S> {
    Core(None, 0, pages, bookSeq)
  }

  function ReplayLog<S>(b: Behaviour<S>, pages: seq<EventPage>): S {
    Fold(ByMap(b.appliers), b.factory(), pages)
  }

  /** `State()`: on the first call the pages are consumed. */
  function Rebuilt<S>(b: Behaviour<S>, c: Core<S>): (r: Core<S>)
    ensures r.state.Some?
  {
    if c.state.Some? then c else Core(Some(ReplayLog(b, c.pages)), c.bookSeq, [], c.bookSeq)
  }

  function NewPage(sequence: Uint32, event: TypedAny): EventPage {
    EventPage(Some(PageHeader(Sequence(sequence))), Event(Some(event)), None)
  }

  /** New pages, numbered on from `start`. */
  function Stamp(start: Uint32, events: seq<TypedAny>): (pages: seq<EventPage>)
    ensures |pages| == |events|
  {
    seq(|events|, i requires 0 <= i < |events| => NewPage(Add32(start, i), events[i]))
  }

  /** Record a batch of events: apply them, number them, append them. */
  function Record<S>(b: Behaviour<S>, c: Core<S>, events: seq<TypedAny>): Core<S>
    requires c.state.Some?
  {
    var pages := Stamp(c.nextSeq, events);
    Core(Some(Fold(ByMap(b.appliers), c.state.value, pages)), Add32(c.nextSeq, |events|), c.pages + pages, c.bookSeq)
  }

  function Present(events: seq<Option<TypedAny>>): seq<TypedAny> {
    if events == [] then []
    else
      var last := events[|events| - 1];
      Present(events[..|events| - 1]) + (if last.Some? then [last.value] else [])
  }

  lemma PresentStep(events: seq<Option<TypedAny>>, i: nat)
    requires i < |events|
    ensures Present(events[..i + 1]) ==
            if events[i].Some? then Present(events[..i]) + [events[i].value] else Present(events[..i])
  {
    assert events[..i + 1][..i] == events[..i];
  }

  /** A present event is kept, in its place; a skipped one leaves nothing. */
  lemma {:induction false} PresentAround(p: seq<Option<TypedAny>>, event: Option<TypedAny>, q: seq<Option<TypedAny>>)
    ensures Present(p + [event] + q) ==
            Present(p) + (if event.Some? then [event.value] else []) + Present(q)
    ensures Present([]) == []
    decreases |q|
  {
    var all := p + [event] + q;
    if q == [] {
      assert all == p + [event] && all[..|all| - 1] == p;
    } else {
      var n := |q| - 1;
      assert all[..|all| - 1] == p + [event] + q[..n];
      PresentAround(p, event, q[..n]);
      ConcatAssoc(Present(p) + (if event.Some? then [event.value] else []), Present(q[..n]),
                  if q[n].Some? then [q[n].value] else []);
    }
  }

  /** The handler's answer to a command: `None` if no handler is registered for its type. */
  function Answer<S>(b: Behaviour<S>, v: View<S>, cmd: TypedAny): Option<Result<seq<Option<TypedAny>>>> {
    match ByMap(b.handlers).Find(cmd.typeUrl)
    case Some(h) =>
      Some(match h(v, cmd)
           case Ok(event) => Ok([event])
           case Err(e) => Err(e))
    case None =>
      match ByMap(b.multiHandlers).Find(cmd.typeUrl)
      case Some(h) => Some(h(v, cmd))
      case None => None
  }

  predicate Routed<S>(b: Behaviour<S>, cmd: Option<TypedAny>) {
    && cmd.Some?
    && cmd.value.typeUrl != ""
    && (ByMap(b.handlers).Find(cmd.value.typeUrl).Some? || ByMap(b.multiHandlers).Find(cmd.value.typeUrl).Some?)
  }

  function ViewOf<S>(c: Core<S>): View<S>
    requires c.state.Some?
  {
    View(c.state.value, |c.pages| > 0)
  }

  datatype Step<+S> = Step(core: Core<S>, error: Option<Error>)

  /** One `Dispatch`. A command without a handler touches nothing; a handler error leaves only the rebuild. */
  function DispatchStep<S>(b: Behaviour<S>, c: Core<S>, cmd: Option<TypedAny>): Step<S> {
    if cmd.None? || cmd.value.typeUrl == "" then Step(c, Some(NoCommandProvided))
    else if !Routed(b, cmd) then Step(c, Some(UnknownCommand(cmd.value.typeUrl)))
    else
      var r := Rebuilt(b, c);
      match Answer(b, ViewOf(r), cmd.value).value
      case Err(e) => Step(r, Some(e))
      case Ok(events) => Step(Record(b, r, Present(events)), None)
  }

  // ---------- The command inside a request ----------

  function RequestCommand(command: CommandBook): Option<TypedAny> {
    if |command.pages| == 0 then None
    else
      var cmd := command.pages[0].GetCommand();
      if cmd.Some? && cmd.value.typeUrl != "" then cmd else None
  }

  predicate IsNotification(cmd: TypedAny) {
    cmd.typeUrl == TYPE_URL_PREFIX + NOTIFICATION
  }

  // ---------- Recording one event at a time ----------

  lemma StampConcat(start: Uint32, xs: seq<TypedAny>, ys: seq<TypedAny>)
    ensures Stamp(start, xs + ys) == Stamp(start, xs) + Stamp(Add32(start, |xs|), ys)
  {
    forall i | 0 <= i < |ys|
      ensures Stamp(start, xs + ys)[|xs| + i] == Stamp(Add32(start, |xs|), ys)[i]
    {
      Add32Assoc(start, |xs|, i);
    }
  }

  /** Recording two batches one after the other is recording their concatenation. */
  lemma RecordConcat<S>(b: Behaviour<S>, c: Core<S>, xs: seq<TypedAny>, ys: seq<TypedAny>)
    requires c.state.Some?
    ensures Record(b, Record(b, c, xs), ys) == Record(b, c, xs + ys)
  {
    StampConcat(c.nextSeq, xs, ys);
    FoldConcat(ByMap(b.appliers), c.state.value, Stamp(c.nextSeq, xs), Stamp(Add32(c.nextSeq, |xs|), ys));
    Add32Assoc(c.nextSeq, |xs|, |ys|);
    ConcatAssoc(c.pages, Stamp(c.nextSeq, xs), Stamp(Add32(c.nextSeq, |xs|), ys));
  }

  lemma RecordNothing<S>(b: Behaviour<S>, c: Core<S>)
    requires c.state.Some?
    ensures Record(b, c, []) == c
  {
    assert c.pages + [] == c.pages;
  }

  /** What a single-event handler's answer records. */
  lemma RecordSingle<S>(b: Behaviour<S>, c: Core<S>, event: Option<TypedAny>)
    requires c.state.Some?
    ensures Record(b, c, Present([event])) == if event.Some? then Record(b, c, [event.value]) else c
  {
    RecordNothing(b, c);
    PresentAround([], event, []);
    assert [] + [event] + [] == [event];
  }

  /** One turn of the loop over a handler's events. */
  lemma RecordNext<S>(b: Behaviour<S>, c: Core<S>, events: seq<Option<TypedAny>>, i: nat)
    requires c.state.Some? && i < |events|
    ensures events[i].None? ==> Present(events[..i + 1]) == Present(events[..i])
    ensures events[i].Some? ==>
              && Present(events[..i + 1]) == Present(events[..i]) + [events[i].value]
              && Record(b, c, Present(events[..i + 1])) ==
                 Record(b, Record(b, c, Present(events[..i])), [events[i].value])
  {
    PresentStep(events, i);
    if events[i].Some? {
      RecordConcat(b, c, Present(events[..i]), [events[i].value]);
    }
  }

  lemma RecordOne<S>(b: Behaviour<S>, c: Core<S>, event: TypedAny)
    requires c.state.Some?
    ensures Record(b, c, [event]) ==
            Core(Some(ApplyEvent(ByMap(b.appliers), c.state.value, event)), Add32(c.nextSeq, 1),
                 c.pages + [NewPage(c.nextSeq, event)], c.bookSeq)
  {
    var page := NewPage(c.nextSeq, event);
    assert Add32(c.nextSeq, 0) == c.nextSeq;
    assert Stamp(c.nextSeq, [event]) == [page];
    assert [page][..0] == [];
    assert Fold(ByMap(b.appliers), c.state.value, [page][..0]) == c.state.value;
    assert page.GetEvent() == Some(event);
  }

  // ---------- Keeping state, counter and pages in step ----------

  /** The events `events`, and nothing else, have been recorded over the log `prior`. */
  ghost predicate Counted<S>(c: Core<S>, prior: seq<EventPage>, events: seq<TypedAny>) {
    && (c.state.None? ==> c == Fresh(prior, c.bookSeq) && events == [])
    && (c.state.Some? ==> c.pages == Stamp(c.bookSeq, events) && c.nextSeq == Add32(c.bookSeq, |events|))
  }

  /** Page i is event i, undated, under the header start + i mod 2^32, and the counter is start plus the number of
      events mod 2^32. */
  ghost predicate NumberedFrom(start: Uint32, events: seq<TypedAny>, pages: seq<EventPage>, counter: Uint32) {
    && |pages| == |events| && counter == (start + |events|) % 0x1_0000_0000
    && forall i :: 0 <= i < |events| ==>
         pages[i] == EventPage(Some(PageHeader(Sequence((start + i) % 0x1_0000_0000))), Event(Some(events[i])), None)
  }

  lemma CountedNumbers<S>(c: Core<S>, prior: seq<EventPage>, events: seq<TypedAny>)
    requires c.state.Some? && Counted(c, prior, events)
    ensures NumberedFrom(c.bookSeq, events, c.pages, c.nextSeq)
  {
  }

  /** The cached state, once built, is what replaying the prior log and then the new pages gives. */
  ghost predicate Replayed<S>(b: Behaviour<S>, c: Core<S>, prior: seq<EventPage>) {
    c.state.Some? ==> c.state == Some(ReplayLog(b, prior + c.pages))
  }

  lemma RebuiltInStep<S>(b: Behaviour<S>, c: Core<S>, prior: seq<EventPage>, events: seq<TypedAny>)
    requires Counted(c, prior, events)
    ensures Counted(Rebuilt(b, c), prior, events)
    ensures Replayed(b, c, prior) ==> Replayed(b, Rebuilt(b, c), prior)
  {
    assert prior + [] == prior;
  }

  lemma RecordReplayed<S>(b: Behaviour<S>, c: Core<S>, prior: seq<EventPage>, more: seq<TypedAny>)
    requires c.state.Some? && Replayed(b, c, prior)
    ensures Replayed(b, Record(b, c, more), prior)
  {
    var pages := Stamp(c.nextSeq, more);
    FoldConcat(ByMap(b.appliers), b.factory(), prior + c.pages, pages);
    ConcatAssoc(prior, c.pages, pages);
  }

  lemma RecordStamps<S>(b: Behaviour<S>, c: Core<S>, prior: seq<EventPage>, events: seq<TypedAny>,
                        more: seq<TypedAny>)
    requires c.state.Some? && Counted(c, prior, events)
    ensures Counted(Record(b, c, more), prior, events + more)
  {
    StampConcat(c.bookSeq, events, more);
    Add32Assoc(c.bookSeq, |events|, |more|);
  }

  /** Recording keeps the pages numbered consecutively and the counter just past them. */
  lemma RecordCounted<S>(b: Behaviour<S>, c: Core<S>, prior: seq<EventPage>, events: seq<TypedAny>,
                         more: seq<TypedAny>)
    requires c.state.Some? && Counted(c, prior, events)
    ensures Counted(Record(b, c, more), prior, events + more)
    ensures NumberedFrom(c.bookSeq, events + more, Record(b, c, more).pages, Record(b, c, more).nextSeq)
  {
    RecordStamps(b, c, prior, events, more);
    CountedNumbers(Record(b, c, more), prior, events + more);
  }

  // ---------- Registering an applier late ----------

  /** No page carries an event of the type. */
  predicate NoEventOf(pages: seq<EventPage>, fullName: string) {
    forall i :: 0 <= i < |pages| ==>
      var event := pages[i].GetEvent();
      event.Some? ==> event.value.typeUrl != TYPE_URL_PREFIX + fullName
  }

  function WithApplier<S>(b: Behaviour<S>, fullName: string, applier: Applier<S>): Behaviour<S> {
    b.(appliers := b.appliers[fullName := applier])
  }

  lemma {:induction false} FoldWithoutType<S>(appliers: map<string, Applier<S>>, fullName: string, applier: Applier<S>,
                                              state: S, pages: seq<EventPage>)
    requires NoEventOf(pages, fullName)
    ensures Fold(ByMap(appliers[fullName := applier]), state, pages) == Fold(ByMap(appliers), state, pages)
    decreases |pages|
  {
    if pages != [] {
      var n := |pages| - 1;
      FoldWithoutType(appliers, fullName, applier, state, pages[..n]);
      var event := pages[n].GetEvent();
      if event.Some? && TYPE_URL_PREFIX <= event.value.typeUrl {
        var name := event.value.typeUrl[|TYPE_URL_PREFIX|..];
        assert event.value.typeUrl == TYPE_URL_PREFIX + name;
        assert name != fullName;
      }
    }
  }

  /** A late registration keeps the agreement of cache and replay if the type is in none of the pages. */
  lemma LateApplierKeepsReplay<S>(b: Behaviour<S>, c: Core<S>, prior: seq<EventPage>, fullName: string,
                                  applier: Applier<S>)
    requires Replayed(b, c, prior) && NoEventOf(prior + c.pages, fullName)
    ensures Replayed(WithApplier(b, fullName, applier), c, prior)
  {
    FoldWithoutType(b.appliers, fullName, applier, b.factory(), prior + c.pages);
  }

  function CountEvent(count: int, value: seq<Byte>): int {
    count + 1
  }

  /** Otherwise it can break it: over a log with one event of the type, rebuilt before its first applier is
      registered, the cached state misses the event. */
  lemma LateApplierBreaksReplay(fullName: string, value: seq<Byte>, bookSeq: Uint32)
    ensures var b := Behaviour(() => 0, map[], map[], map[]);
            var prior := [NewPage(bookSeq, TypedAny(TYPE_URL_PREFIX + fullName, value))];
            var c := Rebuilt(b, Fresh(prior, bookSeq));
            Replayed(b, c, prior) && !Replayed(WithApplier(b, fullName, CountEvent), c, prior)
  {
    var b: Behaviour<int> := Behaviour(() => 0, map[], map[], map[]);
    var event := TypedAny(TYPE_URL_PREFIX + fullName, value);
    var page := NewPage(bookSeq, event);
    var late := WithApplier(b, fullName, CountEvent);
    PrefixedUrl(fullName);
    assert [page][..0] == [] && [page] + [] == [page];
    assert ByMap(late.appliers).Find(event.typeUrl) == Some(CountEvent);
    assert Fold(ByMap(late.appliers), 0, [page]) == ApplyPage(ByMap(late.appliers), 0, page) == 1;
    assert Fold(ByMap(b.appliers), 0, [page]) == ApplyPage(ByMap(b.appliers), 0, page) == 0;
  }
}
