/** The event router: handlers registered under domains, dispatch of a source book under the book's own domain. */
module EventRouting {
  import opened Proto
  import opened Dispatch
  import opened Collect

  type Sequences = map<string, Uint32>

  type EventHandler = (EventBook, TypedAny, Sequences) -> Result<seq<CommandBook>>

  // ---------- Registration histories ----------

  datatype Step = SetDomain(name: string) | Register(reg: Registration<EventHandler>)

  function CurrentDomain(steps: seq<Step>): string {
    if steps == [] then ""
    else
      var last := steps[|steps| - 1];
      if last.SetDomain? then last.name else CurrentDomain(steps[..|steps| - 1])
  }

  /** `On` panics unless a domain is set, so no such step is in the history of a router. */
  predicate Legal(steps: seq<Step>) {
    steps != [] ==>
      var n := |steps| - 1;
      Legal(steps[..n]) && (steps[n].Register? ==> CurrentDomain(steps[..n]) != "")
  }

  /** What was registered while `domain` was the current domain, in order. */
  function Under(steps: seq<Step>, domain: string): seq<Registration<EventHandler>> {
    if steps == [] then []
    else
      var n := |steps| - 1;
      Under(steps[..n], domain) +
      (if steps[n].Register? && CurrentDomain(steps[..n]) == domain then [steps[n].reg] else [])
  }

  lemma Appended(steps: seq<Step>, step: Step)
    requires Legal(steps) && (step.Register? ==> CurrentDomain(steps) != "")
    ensures Legal(steps + [step])
    ensures CurrentDomain(steps + [step]) == if step.SetDomain? then step.name else CurrentDomain(steps)
  {
    assert (steps + [step])[..|steps|] == steps;
  }

  lemma UnderAppended(steps: seq<Step>, step: Step, domain: string)
    ensures Under(steps + [step], domain) ==
            if step.Register? && CurrentDomain(steps) == domain then Under(steps, domain) + [step.reg]
            else Under(steps, domain)
  {
    assert (steps + [step])[..|steps|] == steps;
  }

  function Names(regs: seq<Registration<EventHandler>>): seq<string> {
    seq(|regs|, i requires 0 <= i < |regs| => regs[i].fullName)
  }

  // ---------- Dispatch ----------

  function PageCommands(regs: seq<Registration<EventHandler>>, source: EventBook, sequences: Sequences, page: EventPage)
    : Result<seq<CommandBook>>
  {
    match page.GetEvent()
    case None => Ok([])
    case Some(event) =>
      match BySlice(regs).Find(event.typeUrl)
      case None => Ok([])
      case Some(h) => h(source, event, sequences)
  }

  function PageResults(regs: seq<Registration<EventHandler>>, source: EventBook, sequences: Sequences,
                       pages: seq<EventPage>): seq<Result<seq<CommandBook>>> {
    seq(|pages|, i requires 0 <= i < |pages| => PageCommands(regs, source, sequences, pages[i]))
  }

  /** What `pages` of the source yield; handlers are given the whole source. */
  function PagesCommands(regs: seq<Registration<EventHandler>>, source: EventBook, sequences: Sequences,
                         pages: seq<EventPage>): Result<seq<CommandBook>> {
    Collected(PageResults(regs, source, sequences, pages))
  }

  function Stored(handlers: map<string, seq<Registration<EventHandler>>>, domain: string)
    : seq<Registration<EventHandler>>
  {
    if domain in handlers then handlers[domain] else []
  }

  /** The map holds, for every domain, what was registered under it. */
  ghost predicate Stores(handlers: map<string, seq<Registration<EventHandler>>>, steps: seq<Step>) {
    forall d :: Stored(handlers, d) == Under(steps, d)
  }

  lemma StoresAfter(handlers: map<string, seq<Registration<EventHandler>>>,
                    handlers': map<string, seq<Registration<EventHandler>>>, steps: seq<Step>, step: Step)
    requires Stores(handlers, steps)
    requires forall d :: Stored(handlers', d) ==
               if step.Register? && CurrentDomain(steps) == d then Stored(handlers, d) + [step.reg]
               else Stored(handlers, d)
    ensures Stores(handlers', steps + [step])
  {
    forall d
      ensures Stored(handlers', d) == Under(steps + [step], d)
    {
      UnderAppended(steps, step, d);
      assert Stored(handlers, d) == Under(steps, d);
    }
  }

  class EventRouter {
    var currentDomain: string
    var handlers: map<string, seq<Registration<EventHandler>>>
    ghost var steps: seq<Step>

    ghost predicate Valid()
      reads this
    {
      && Legal(steps)
      && currentDomain == CurrentDomain(steps)
      && Stores(handlers, steps)
      && (currentDomain != "" ==> currentDomain in handlers)
    }

    constructor (inputDomain: Option<string>)
      ensures Valid()
      ensures steps == if inputDomain.Some? && inputDomain.value != "" then [SetDomain(inputDomain.value)] else []
    {
      currentDomain, handlers, steps := "", map[], [];
      new;
      if inputDomain.Some? && inputDomain.value != "" {
        Domain(inputDomain.value);
      }
    }

    method Domain(name: string)
      requires Valid()
      modifies this
      ensures Valid() && steps == old(steps) + [SetDomain(name)]
    {
      currentDomain := name;
      if name !in handlers {
        handlers := handlers[name := []];
      }
      Appended(steps, SetDomain(name));
      StoresAfter(old(handlers), handlers, steps, SetDomain(name));
      steps := steps + [SetDomain(name)];
    }

    method On(fullName: string, handler: EventHandler)
      requires Valid() && currentDomain != ""
      modifies this
      ensures Valid() && steps == old(steps) + [Register(Registration(fullName, handler))]
    {
      handlers := handlers[currentDomain := handlers[currentDomain] + [Registration(fullName, handler)]];
      Appended(steps, Register(Registration(fullName, handler)));
      StoresAfter(old(handlers), handlers, steps, Register(Registration(fullName, handler)));
      steps := steps + [Register(Registration(fullName, handler))];
    }

    /** The domains with handlers, in whatever order the runtime visits the map. */
    method Subscriptions() returns (result: map<string, seq<string>>)
      requires Valid()
      ensures forall d :: d in result <==> Under(steps, d) != []
      ensures forall d :: d in result ==> result[d] == Names(Under(steps, d))
    {
      result := map[];
      var unvisited := handlers.Keys;
      while unvisited != {}
        invariant unvisited <= handlers.Keys
        invariant forall d :: d in result <==> d in handlers && d !in unvisited && handlers[d] != []
        invariant forall d :: d in result ==> result[d] == Names(handlers[d])
      {
        var domain :| domain in unvisited;
        if |handlers[domain]| > 0 {
          var types := new string[|handlers[domain]|];
          for i := 0 to |handlers[domain]|
            invariant forall k :: 0 <= k < i ==> types[k] == handlers[domain][k].fullName
          {
            types[i] := handlers[domain][i].fullName;
          }
          assert types[..] == Names(handlers[domain]);
          result := result[domain := types[..]];
        }
        unvisited := unvisited - {domain};
      }
      assert forall d :: Stored(handlers, d) == Under(steps, d);
    }

    /** The result depends only on what was registered under the source's domain, whatever the interleaving of
        `Domain` and `On` calls: the in-order concatenation of the first matches' commands, or the first error. */
    method Dispatch(source: Option<EventBook>, sequences: Sequences) returns (r: Result<seq<CommandBook>>)
      requires Valid()
      ensures source.None? ==> r == Ok([])
      ensures source.Some? ==>
                var domain := if source.value.cover.Some? then source.value.cover.value.domain else "";
                r == PagesCommands(Under(steps, domain), source.value, sequences, source.value.pages)
    {
      if source.None? {
        return Ok([]);
      }
      var book := source.value;
      var domain := if book.cover.Some? then book.cover.value.domain else "";
      ghost var results := PageResults(Under(steps, domain), book, sequences, book.pages);
      assert Stored(handlers, domain) == Under(steps, domain);
      if domain !in handlers {
        NothingRegistered(book, sequences);
        return Ok([]);
      }
      var regs := handlers[domain];
      var commands: seq<CommandBook> := [];
      for i := 0 to |book.pages|
        invariant Collected(results[..i]) == Ok(commands)
      {
        CollectedStep(results, i);
        assert commands + [] == commands;
        var event := book.pages[i].GetEvent();
        if event.Some? {
          var handler := ScanSlice(regs, event.value.typeUrl);
          if handler.Some? {
            var answer := handler.value(book, event.value, sequences);
            if answer.Err? {
              FailedPrefix(results, i + 1);
              return Err(answer.error);
            }
            commands := commands + answer.value;
          }
        }
      }
      assert results[..|book.pages|] == results;
      r := Ok(commands);
    }
  }

  lemma {:induction false} AllEmpty(results: seq<Result<seq<CommandBook>>>)
    requires forall i :: 0 <= i < |results| ==> results[i] == Ok([])
    ensures Collected(results) == Ok([])
  {
    if results == [] {
    } else {
      var n, none: seq<CommandBook> := |results| - 1, [];
      AllEmpty(results[..n]);
      assert results[n] == Ok(none) && none + none == none;
    }
  }

  lemma NothingRegistered(source: EventBook, sequences: Sequences)
    ensures PagesCommands([], source, sequences, source.pages) == Ok([])
  {
    AllEmpty(PageResults([], source, sequences, source.pages));
  }

  /** A page of the source reaches a handler exactly when its type is among the names that `Subscriptions` lists
      for the source's domain. */
  lemma InvokedIffSubscribed(steps: seq<Step>, domain: string, typeUrl: string)
    ensures BySlice(Under(steps, domain)).Find(typeUrl).Some? <==>
            exists name :: name in Names(Under(steps, domain)) && typeUrl == TYPE_URL_PREFIX + name
  {
    var regs := Under(steps, domain);
    if TYPE_URL_PREFIX <= typeUrl {
      var name := typeUrl[|TYPE_URL_PREFIX|..];
      assert typeUrl == TYPE_URL_PREFIX + name;
      if First(regs, name).Some? {
        var i :| 0 <= i < |regs| && regs[i].fullName == name;
        assert Names(regs)[i] == name;
      }
    }
    forall name | name in Names(regs) && typeUrl == TYPE_URL_PREFIX + name
      ensures BySlice(regs).Find(typeUrl).Some?
    {
      PrefixedUrl(name);
      var i :| 0 <= i < |regs| && Names(regs)[i] == name;
      assert regs[i].fullName == name;
    }
  }

  /** A registration under another domain is never consulted. */
  lemma OtherDomainsIrrelevant(steps: seq<Step>, reg: Registration<EventHandler>, domain: string)
    requires CurrentDomain(steps) != domain
    ensures Under(steps + [Register(reg)], domain) == Under(steps, domain)
  {
    UnderAppended(steps, Register(reg), domain);
  }

  // ---------- What one page yields ----------

  lemma PagesAround(regs: seq<Registration<EventHandler>>, source: EventBook, sequences: Sequences,
                    p: seq<EventPage>, page: EventPage, q: seq<EventPage>)
    ensures PageResults(regs, source, sequences, p + [page] + q) ==
            PageResults(regs, source, sequences, p) + [PageCommands(regs, source, sequences, page)] +
            PageResults(regs, source, sequences, q)
  {
  }

  /** Anywhere among the pages, an event of a registered type yields exactly what the type's first handler under the
      source's domain returns for it: its commands stand between those of the pages before and after, and its error
      ends the dispatch. */
  lemma EventYields(steps: seq<Step>, domain: string, source: EventBook, sequences: Sequences, p: seq<EventPage>,
                    header: Option<PageHeader>, name: string, value: seq<Byte>, createdAt: Option<int>,
                    q: seq<EventPage>, i: nat)
    requires FirstAt(Under(steps, domain), name, i)
    ensures var regs := Under(steps, domain);
            PagesCommands(regs, source, sequences, p + [TypedPage(header, name, value, createdAt)] + q) ==
            match PagesCommands(regs, source, sequences, p)
            case Err(e) => Err(e)
            case Ok(before) =>
              match regs[i].handler(source, TypedAny(TYPE_URL_PREFIX + name, value), sequences)
              case Err(e) => Err(e)
              case Ok(commands) =>
                match PagesCommands(regs, source, sequences, q)
                case Err(e) => Err(e)
                case Ok(after) => Ok(before + commands + after)
  {
    var regs, page := Under(steps, domain), TypedPage(header, name, value, createdAt);
    FindsFirst(regs, name, i);
    PagesAround(regs, source, sequences, p, page, q);
    CollectedAround(PageResults(regs, source, sequences, p), PageCommands(regs, source, sequences, page),
                    PageResults(regs, source, sequences, q));
  }

  /** Any other page yields nothing, and so does a source without pages. */
  lemma OtherPageYieldsNothing(steps: seq<Step>, domain: string, source: EventBook, sequences: Sequences,
                               p: seq<EventPage>, page: EventPage, q: seq<EventPage>)
    requires !Reaches(BySlice(Under(steps, domain)), page)
    ensures var regs := Under(steps, domain);
            PagesCommands(regs, source, sequences, p + [page] + q) == PagesCommands(regs, source, sequences, p + q)
    ensures PagesCommands(Under(steps, domain), source, sequences, []) == Ok([])
  {
    var regs := Under(steps, domain);
    var before, after := PageResults(regs, source, sequences, p), PageResults(regs, source, sequences, q);
    FindsNothing(BySlice(regs), page);
    PagesAround(regs, source, sequences, p, page, q);
    CollectedAround(before, Ok([]), after);
    assert PageResults(regs, source, sequences, p + q) == before + after;
    CollectedConcat(before, after);
    if Collected(before).Ok? {
      assert Collected(before).value + [] == Collected(before).value;
    }
  }
}
