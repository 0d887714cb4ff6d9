/** The OO saga: one object reused for many source books, with a facts list that handlers append to while they run
    and that is handed out, as a Go slice, with each response. */
module Sagas {
  import opened Proto
  import opened Dispatch
  import opened Collect

  /** A handler is determined by its event: the facts it emits while running, then its commands or an error. */
  datatype SagaOutput = SagaOutput(facts: seq<EventBook>, answer: Result<seq<CommandBook>>)

  type SagaHandler = TypedAny -> SagaOutput

  /** What one page contributes to a successful run. */
  datatype Contribution = Contribution(commands: seq<CommandBook>, facts: seq<EventBook>)

  function PageContribution(handlers: Table<SagaHandler>, page: EventPage): Result<seq<Contribution>> {
    match page.GetEvent()
    case None => Ok([])
    case Some(event) =>
      match handlers.Find(event.typeUrl)
      case None => Ok([])
      case Some(h) =>
        match h(event).answer
        case Err(e) => Err(e)
        case Ok(commands) => Ok([Contribution(commands, h(event).facts)])
  }

  function Contributions(handlers: Table<SagaHandler>, pages: seq<EventPage>): seq<Result<seq<Contribution>>> {
    seq(|pages|, i requires 0 <= i < |pages| => PageContribution(handlers, pages[i]))
  }

  function CommandsOf(cs: seq<Contribution>): seq<CommandBook> {
    if cs == [] then [] else CommandsOf(cs[..|cs| - 1]) + cs[|cs| - 1].commands
  }

  function FactsOf(cs: seq<Contribution>): seq<EventBook> {
    if cs == [] then [] else FactsOf(cs[..|cs| - 1]) + cs[|cs| - 1].facts
  }

  /** What a run over `pages` answers: commands and facts of these pages alone. */
  function RunOver(handlers: Table<SagaHandler>, pages: seq<EventPage>): Result<(seq<CommandBook>, seq<EventBook>)> {
    match Collected(Contributions(handlers, pages))
    case Err(e) => Err(e)
    case Ok(cs) => Ok((CommandsOf(cs), FactsOf(cs)))
  }

  function PagesOf(source: Option<EventBook>): seq<EventPage> {
    if source.Some? then source.value.pages else []
  }

  lemma ContributionStep(cs: seq<Contribution>, c: Contribution)
    ensures CommandsOf(cs + [c]) == CommandsOf(cs) + c.commands
    ensures FactsOf(cs + [c]) == FactsOf(cs) + c.facts
  {
    assert (cs + [c])[..|cs|] == cs;
  }

  lemma OneContribution(c: Contribution)
    ensures CommandsOf([c]) == c.commands && FactsOf([c]) == c.facts
  {
    assert [c][..0] == [];
  }

  lemma {:induction false} ContributionConcat(p: seq<Contribution>, q: seq<Contribution>)
    ensures CommandsOf(p + q) == CommandsOf(p) + CommandsOf(q)
    ensures FactsOf(p + q) == FactsOf(p) + FactsOf(q)
    decreases |q|
  {
    if q == [] {
      assert p + q == p;
    } else {
      var n := |q| - 1;
      ContributionConcat(p, q[..n]);
      assert p + q == (p + q[..n]) + [q[n]] && q == q[..n] + [q[n]];
      ContributionStep(p + q[..n], q[n]);
      ContributionStep(q[..n], q[n]);
      ConcatAssoc(CommandsOf(p), CommandsOf(q[..n]), q[n].commands);
      ConcatAssoc(FactsOf(p), FactsOf(q[..n]), q[n].facts);
    }
  }

  // ---------- What one page contributes ----------

  lemma RunOverConcat(handlers: Table<SagaHandler>, p: seq<EventPage>, q: seq<EventPage>)
    ensures RunOver(handlers, p + q) ==
            match RunOver(handlers, p)
            case Err(e) => Err(e)
            case Ok((commands, facts)) =>
              match RunOver(handlers, q)
              case Err(e) => Err(e)
              case Ok((commands', facts')) => Ok((commands + commands', facts + facts'))
  {
    var first, second := Contributions(handlers, p), Contributions(handlers, q);
    assert Contributions(handlers, p + q) == first + second;
    CollectedConcat(first, second);
    if Collected(first).Ok? && Collected(second).Ok? {
      ContributionConcat(Collected(first).value, Collected(second).value);
    }
  }

  lemma RunOverOne(handlers: Table<SagaHandler>, page: EventPage)
    ensures RunOver(handlers, [page]) ==
            match PageContribution(handlers, page)
            case Err(e) => Err(e)
            case Ok(cs) => Ok((CommandsOf(cs), FactsOf(cs)))
  {
    var results := Contributions(handlers, [page]);
    assert results == [] + [PageContribution(handlers, page)] + [];
    CollectedAround([], PageContribution(handlers, page), []);
    if PageContribution(handlers, page).Ok? {
      var cs := PageContribution(handlers, page).value;
      assert [] + cs + [] == cs;
    }
  }

  /** Anywhere in a source, an event of a registered type contributes exactly the commands that its handler returns
      and the facts that it emits; the handler's error discards everything. */
  lemma EventContributes(handlers: map<string, SagaHandler>, p: seq<EventPage>, header: Option<PageHeader>, name: string,
                         value: seq<Byte>, createdAt: Option<int>, q: seq<EventPage>)
    requires name in handlers
    ensures var output := handlers[name](TypedAny(TYPE_URL_PREFIX + name, value));
            RunOver(ByMap(handlers), p + [TypedPage(header, name, value, createdAt)] + q) ==
            match RunOver(ByMap(handlers), p)
            case Err(e) => Err(e)
            case Ok((commands, facts)) =>
              match output.answer
              case Err(e) => Err(e)
              case Ok(own) =>
                match RunOver(ByMap(handlers), q)
                case Err(e) => Err(e)
                case Ok((commands', facts')) => Ok((commands + own + commands', facts + output.facts + facts'))
  {
    var page := TypedPage(header, name, value, createdAt);
    FindsEntry(handlers, name);
    RunOverConcat(ByMap(handlers), p + [page], q);
    RunOverConcat(ByMap(handlers), p, [page]);
    RunOverOne(ByMap(handlers), page);
    var output := handlers[name](TypedAny(TYPE_URL_PREFIX + name, value));
    if output.answer.Ok? {
      OneContribution(Contribution(output.answer.value, output.facts));
    }
  }

  /** Any other page contributes nothing, and so does a source without pages. */
  lemma OtherPageContributesNothing(handlers: Table<SagaHandler>, p: seq<EventPage>, page: EventPage, q: seq<EventPage>)
    requires !Reaches(handlers, page)
    ensures RunOver(handlers, p + [page] + q) == RunOver(handlers, p + q)
    ensures RunOver(handlers, []) == Ok(([], []))
  {
    FindsNothing(handlers, page);
    RunOverConcat(handlers, p + [page], q);
    RunOverConcat(handlers, p, [page]);
    RunOverConcat(handlers, p, q);
    RunOverOne(handlers, page);
    if RunOver(handlers, p).Ok? {
      var (commands, facts) := RunOver(handlers, p).value;
      assert commands + [] == commands && facts + [] == facts;
    }
  }

  // ---------- Go slices ----------

  /** A slice header: a window of `len` elements on a shared backing array, whose length is the capacity. */
  datatype Slice = NilSlice | Slice(backing: array<EventBook>, len: nat)

  ghost predicate WellFormed(s: Slice) {
    s.Slice? ==> s.len <= s.backing.Length
  }

  ghost function Backing(s: Slice): set<object> {
    if s.Slice? then {s.backing} else {}
  }

  ghost function Elements(s: Slice): seq<EventBook>
    requires WellFormed(s)
    reads Backing(s)
  {
    if s.Slice? then s.backing[..s.len] else []
  }

  /** Appending to `tail` cannot reach the elements that `s` shows. */
  ghost predicate BehindTail(s: Slice, tail: Slice) {
    s.Slice? && tail.Slice? && s.backing == tail.backing ==> s.len <= tail.len
  }

  datatype SagaResponse = SagaResponse(commands: seq<CommandBook>, events: Slice)

  class SagaBase {
    var handlers: map<string, SagaHandler>
    var events: Slice
    // The facts lists handed out so far.
    ghost var returned: seq<Slice>

    ghost predicate Valid()
      reads this
    {
      && WellFormed(events)
      && forall i :: 0 <= i < |returned| ==> WellFormed(returned[i]) && BehindTail(returned[i], events)
    }

    /** Every list handed out before shows the same facts as before. */
    twostate predicate ReturnedListsIntact()
      requires old(Valid()) && Valid()
      reads this, set i | 0 <= i < |returned| && returned[i].Slice? :: returned[i].backing
    {
      && old(returned) <= returned
      && forall i :: 0 <= i < |old(returned)| ==> Elements(returned[i]) == old(Elements(returned[i]))
    }

    constructor ()
      ensures Valid() && handlers == map[] && events == NilSlice && returned == []
    {
      handlers, events, returned := map[], NilSlice, [];
    }

    method Handles(fullName: string, handler: SagaHandler)
      requires Valid()
      modifies this`handlers
      ensures Valid() && handlers == old(handlers)[fullName := handler]
    {
      handlers := handlers[fullName := handler];
    }

    /** `append`: in place when there is capacity, else into a new, larger array. */
    method EmitFact(event: EventBook)
      requires Valid()
      modifies this`events, Backing(events)
      ensures Valid() && handlers == old(handlers) && returned == old(returned)
      ensures Elements(events) == old(Elements(events)) + [event]
      ensures events.Slice? && (events.backing in old(Backing(events)) || fresh(events.backing))
      ensures ReturnedListsIntact()
    {
      match events {
        case NilSlice =>
          var capacity: nat :| capacity >= 1;
          var grown := new EventBook[capacity];
          grown[0] := event;
          events := Slice(grown, 1);
        case Slice(backing, len) =>
          if len < backing.Length {
            backing[len] := event;
            events := Slice(backing, len + 1);
          } else {
            var capacity: nat :| capacity > len;
            var grown := new EventBook[capacity];
            for i := 0 to len
              invariant forall k :: 0 <= k < i ==> grown[k] == backing[k]
              invariant backing[..] == old(backing[..])
            {
              grown[i] := backing[i];
            }
            grown[len] := event;
            events := Slice(grown, len + 1);
          }
      }
    }

    method ClearEvents()
      requires Valid()
      modifies this`events
      ensures Valid() && events == NilSlice
    {
      events := NilSlice;
    }

    /** The emissions of one handler run. */
    method EmitFacts(facts: seq<EventBook>)
      requires Valid()
      modifies this`events, Backing(events)
      ensures Valid() && handlers == old(handlers) && returned == old(returned)
      ensures Elements(events) == old(Elements(events)) + facts
      ensures Backing(events) <= old(Backing(events)) || fresh(Backing(events))
      ensures ReturnedListsIntact()
    {
      for i := 0 to |facts|
        invariant Valid() && handlers == old(handlers) && returned == old(returned)
        invariant Elements(events) == old(Elements(events)) + facts[..i]
        invariant Backing(events) <= old(Backing(events)) || fresh(Backing(events))
        invariant ReturnedListsIntact()
      {
        EmitFact(facts[i]);
        assert facts[..i] + [facts[i]] == facts[..i + 1];
      }
      assert facts[..|facts|] == facts;
    }

    /** The body of the page loop. */
    method HandlePage(page: EventPage) returns (r: Result<seq<CommandBook>>)
      requires Valid()
      modifies this`events, Backing(events)
      ensures Valid() && handlers == old(handlers) && returned == old(returned)
      ensures Backing(events) <= old(Backing(events)) || fresh(Backing(events))
      ensures ReturnedListsIntact()
      ensures match PageContribution(ByMap(handlers), page)
              case Err(e) => r == Err(e)
              case Ok(cs) => r == Ok(CommandsOf(cs)) && Elements(events) == old(Elements(events)) + FactsOf(cs)
    {
      var event := page.GetEvent();
      if event.Some? {
        var handler := RangeMap(handlers, event.value.typeUrl);
        if handler.Some? {
          var output := handler.value(event.value);
          EmitFacts(output.facts);
          if output.answer.Ok? {
            OneContribution(Contribution(output.answer.value, output.facts));
          }
          return output.answer;
        }
      }
      assert Elements(events) == old(Elements(events)) + [];
      r := Ok([]);
    }

    /** `Handle`. Its answer is a function of the registered handlers and the source alone: facts left over from an
        earlier run, also one that failed midway, and facts emitted between runs never show up in it. */
    method Handle(source: Option<EventBook>) returns (r: Result<SagaResponse>)
      requires Valid()
      modifies this`events, this`returned
      ensures Valid() && handlers == old(handlers)
      ensures ReturnedListsIntact()
      ensures Backing(events) <= old(Backing(events)) || fresh(Backing(events))
      ensures match RunOver(ByMap(handlers), PagesOf(source))
              case Err(e) => r == Err(e) && returned == old(returned)
              case Ok((commands, facts)) =>
                && r.Ok? && r.value.commands == commands
                && returned == old(returned) + [r.value.events]
                && WellFormed(r.value.events) && Elements(r.value.events) == facts
    {
      if source.None? || |source.value.pages| == 0 {
        returned := returned + [NilSlice];
        return Ok(SagaResponse([], NilSlice));
      }
      ClearEvents();
      var pages := source.value.pages;
      ghost var results := Contributions(ByMap(handlers), pages);
      ghost var cs: seq<Contribution> := [];
      var commands: seq<CommandBook> := [];
      for i := 0 to |pages|
        invariant Valid() && handlers == old(handlers) && returned == old(returned)
        invariant Collected(results[..i]) == Ok(cs)
        invariant commands == CommandsOf(cs) && Elements(events) == FactsOf(cs)
        invariant fresh(Backing(events))
      {
        CollectedStep(results, i);
        var answer := HandlePage(pages[i]);
        if answer.Err? {
          FailedPrefix(results, i + 1);
          return Err(answer.error);
        }
        ContributionConcat(cs, results[i].value);
        cs := cs + results[i].value;
        commands := commands + answer.value;
      }
      assert results[..|pages|] == results;
      returned := returned + [events];
      r := Ok(SagaResponse(commands, events));
    }
  }

  // ---------- Whole runs ----------

  datatype SagaCall = Emit(fact: EventBook) | Run(source: Option<EventBook>)

  /** A response, as its receiver sees it now, is the answer to its own source. */
  ghost predicate Shows(r: Result<SagaResponse>, answer: Result<(seq<CommandBook>, seq<EventBook>)>)
    reads if r.Ok? then Backing(r.value.events) else {}
  {
    match answer
    case Err(e) => r == Err(e)
    case Ok((commands, facts)) =>
      r.Ok? && r.value.commands == commands && WellFormed(r.value.events) && Elements(r.value.events) == facts
  }

  method Perform(saga: SagaBase, call: SagaCall) returns (r: Result<SagaResponse>)
    requires saga.Valid()
    modifies saga, Backing(saga.events)
    ensures saga.Valid() && saga.handlers == old(saga.handlers) && saga.ReturnedListsIntact()
    ensures Backing(saga.events) <= old(Backing(saga.events)) || fresh(Backing(saga.events))
    ensures call.Run? ==> Shows(r, RunOver(ByMap(saga.handlers), PagesOf(call.source)))
    ensures call.Run? && r.Ok? ==> r.value.events in saga.returned
  {
    match call {
      case Emit(fact) =>
        saga.EmitFact(fact);
        r := Ok(SagaResponse([], NilSlice));
      case Run(source) =>
        r := saga.Handle(source);
    }
  }

  /** Any sequence of `EmitFact` and `Handle` calls on one saga: at the end, every response still shows exactly the
      commands and facts of its own source. */
  method RunIsolation(saga: SagaBase, calls: seq<SagaCall>) returns (responses: seq<Result<SagaResponse>>)
    requires saga.Valid()
    modifies saga, Backing(saga.events)
    ensures saga.Valid() && saga.handlers == old(saga.handlers) && |responses| == |calls|
    ensures forall i :: 0 <= i < |calls| && calls[i].Run? ==>
              Shows(responses[i], RunOver(ByMap(saga.handlers), PagesOf(calls[i].source)))
  {
    responses := [];
    for i := 0 to |calls|
      invariant saga.Valid() && saga.handlers == old(saga.handlers) && |responses| == i
      invariant Backing(saga.events) <= old(Backing(saga.events)) || fresh(Backing(saga.events))
      invariant forall j :: 0 <= j < i && calls[j].Run? && responses[j].Ok? ==>
                  responses[j].value.events in saga.returned
      invariant forall j :: 0 <= j < i && calls[j].Run? ==>
                  Shows(responses[j], RunOver(ByMap(saga.handlers), PagesOf(calls[j].source)))
    {
      label before:
      var r := Perform(saga, calls[i]);
      responses := responses + [r];
      forall j | 0 <= j < i && calls[j].Run? && responses[j].Ok?
        ensures responses[j].value.events in saga.returned
        ensures Elements(responses[j].value.events) == old@before(Elements(responses[j].value.events))
      {
        var k :| 0 <= k < |old@before(saga.returned)| && old@before(saga.returned)[k] == responses[j].value.events;
        assert saga.returned[k] == responses[j].value.events;
      }
    }
  }
}
