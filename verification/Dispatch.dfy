/** How a type URL finds its handler. Map-based components (OO aggregate, process manager, saga, projector,
    CloudEvents) range over a Go map, in an order the language leaves open, and stop at the key whose type
    URL matches; slice-based routers scan their registrations in order. */
module Dispatch {
  import opened Proto

  datatype Registration<+H> = Registration(fullName: string, handler: H)

  datatype Table<+H> = ByMap(entries: map<string, H>) | BySlice(regs: seq<Registration<H>>) {
    /** The handler that dispatch picks for a type URL. */
    function Find(typeUrl: string): Option<H> {
      if !(TYPE_URL_PREFIX <= typeUrl) then None
      else
        var name := typeUrl[|TYPE_URL_PREFIX|..];
        match this
        case ByMap(entries) => if name in entries then Some(entries[name]) else None
        case BySlice(regs) => First(regs, name)
    }
  }

  function First<H>(regs: seq<Registration<H>>, name: string): (r: Option<H>)
    ensures r.Some? <==> exists i :: 0 <= i < |regs| && regs[i].fullName == name
  {
    if regs == [] then None
    else if regs[0].fullName == name then Some(regs[0].handler)
    else First(regs[1..], name)
  }

  function Last<H>(regs: seq<Registration<H>>, name: string): (r: Option<H>)
    ensures r.Some? <==> exists i :: 0 <= i < |regs| && regs[i].fullName == name
  {
    if regs == [] then None
    else if regs[|regs| - 1].fullName == name then Some(regs[|regs| - 1].handler)
    else Last(regs[..|regs| - 1], name)
  }

  /** The map that a registration history leaves behind: every registration overwrites its key. */
  function Registered<H>(regs: seq<Registration<H>>): map<string, H> {
    if regs == [] then map[]
    else
      var last := regs[|regs| - 1];
      Registered(regs[..|regs| - 1])[last.fullName := last.handler]
  }

  ghost predicate RegisteredOnce<H>(regs: seq<Registration<H>>, name: string) {
    forall i, j :: 0 <= i < j < |regs| ==> !(regs[i].fullName == name && regs[j].fullName == name)
  }

  ghost predicate Distinct<H>(regs: seq<Registration<H>>) {
    forall i, j :: 0 <= i < j < |regs| ==> regs[i].fullName != regs[j].fullName
  }

  lemma PrefixedUrl(name: string)
    ensures TYPE_URL_PREFIX <= TYPE_URL_PREFIX + name
    ensures (TYPE_URL_PREFIX + name)[|TYPE_URL_PREFIX|..] == name
  {
  }

  /** `for fullName, handler := range m`, in whatever order the runtime picks. */
  method RangeMap<H>(entries: map<string, H>, typeUrl: string) returns (r: Option<H>)
    ensures r == ByMap(entries).Find(typeUrl)
  {
    var unvisited := entries.Keys;
    while unvisited != {}
      invariant unvisited <= entries.Keys
      invariant forall k :: k in entries && k !in unvisited ==> typeUrl != TYPE_URL_PREFIX + k
    {
      var fullName :| fullName in unvisited;
      if typeUrl == TYPE_URL_PREFIX + fullName {
        PrefixedUrl(fullName);
        return Some(entries[fullName]);
      }
      unvisited := unvisited - {fullName};
    }
    if TYPE_URL_PREFIX <= typeUrl {
      assert typeUrl == TYPE_URL_PREFIX + typeUrl[|TYPE_URL_PREFIX|..];
    }
    r := None;
  }

  /** `for _, reg := range regs`. */
  method ScanSlice<H>(regs: seq<Registration<H>>, typeUrl: string) returns (r: Option<H>)
    ensures r == BySlice(regs).Find(typeUrl)
  {
    for i := 0 to |regs|
      invariant BySlice(regs).Find(typeUrl) == BySlice(regs[i..]).Find(typeUrl)
    {
      if typeUrl == TYPE_URL_PREFIX + regs[i].fullName {
        PrefixedUrl(regs[i].fullName);
        return Some(regs[i].handler);
      }
      assert regs[i..][1..] == regs[i + 1..];
      if TYPE_URL_PREFIX <= typeUrl {
        assert typeUrl == TYPE_URL_PREFIX + typeUrl[|TYPE_URL_PREFIX|..];
      }
    }
    r := None;
  }

  lemma {:induction false} RegisteredIsLast<H>(regs: seq<Registration<H>>, name: string)
    ensures name in Registered(regs) <==> Last(regs, name).Some?
    ensures name in Registered(regs) ==> Some(Registered(regs)[name]) == Last(regs, name)
  {
    if regs != [] {
      RegisteredIsLast(regs[..|regs| - 1], name);
    }
  }

  lemma {:induction false} LastOnceIsFirst<H>(regs: seq<Registration<H>>, name: string)
    requires RegisteredOnce(regs, name)
    ensures Last(regs, name) == First(regs, name)
  {
    if |regs| > 1 {
      var front := regs[..|regs| - 1];
      LastOnceIsFirst(front, name);
      FirstOfFront(regs, name);
    }
  }

  lemma {:induction false} FirstOfFront<H>(regs: seq<Registration<H>>, name: string)
    requires regs != []
    ensures var n := |regs| - 1;
            First(regs, name) == if First(regs[..n], name).Some? then First(regs[..n], name)
                                 else if regs[n].fullName == name then Some(regs[n].handler) else None
  {
    var n := |regs| - 1;
    if n > 0 {
      assert regs[1..][..n - 1] == regs[..n][1..];
      FirstOfFront(regs[1..], name);
    }
  }

  /** The same registration history, replayed into a map and into a slice, picks the last and the first
      registration of the type; the two styles agree exactly on the types where these are the same handler. */
  lemma MapAndSliceDispatch<H>(regs: seq<Registration<H>>, name: string)
    ensures ByMap(Registered(regs)).Find(TYPE_URL_PREFIX + name) == Last(regs, name)
    ensures BySlice(regs).Find(TYPE_URL_PREFIX + name) == First(regs, name)
    ensures RegisteredOnce(regs, name) ==>
              ByMap(Registered(regs)).Find(TYPE_URL_PREFIX + name) == BySlice(regs).Find(TYPE_URL_PREFIX + name)
  {
    PrefixedUrl(name);
    RegisteredIsLast(regs, name);
    if RegisteredOnce(regs, name) {
      LastOnceIsFirst(regs, name);
    }
  }

  lemma DistinctTablesAgree<H>(regs: seq<Registration<H>>, typeUrl: string)
    requires Distinct(regs)
    ensures ByMap(Registered(regs)).Find(typeUrl) == BySlice(regs).Find(typeUrl)
  {
    if TYPE_URL_PREFIX <= typeUrl {
      var name := typeUrl[|TYPE_URL_PREFIX|..];
      assert typeUrl == TYPE_URL_PREFIX + name;
      MapAndSliceDispatch(regs, name);
    }
  }

  // ---------- What a lookup finds, by position ----------

  ghost predicate FirstAt<H>(regs: seq<Registration<H>>, name: string, i: int) {
    0 <= i < |regs| && regs[i].fullName == name && forall j :: 0 <= j < i ==> regs[j].fullName != name
  }

  ghost predicate LastAt<H>(regs: seq<Registration<H>>, name: string, i: int) {
    0 <= i < |regs| && regs[i].fullName == name && forall j :: i < j < |regs| ==> regs[j].fullName != name
  }

  lemma {:induction false} FindsFirst<H>(regs: seq<Registration<H>>, name: string, i: int)
    requires FirstAt(regs, name, i)
    ensures BySlice(regs).Find(TYPE_URL_PREFIX + name) == Some(regs[i].handler)
  {
    PrefixedUrl(name);
    if i > 0 {
      FindsFirst(regs[1..], name, i - 1);
    }
  }

  lemma {:induction false} LastIsAt<H>(regs: seq<Registration<H>>, name: string, i: int)
    requires LastAt(regs, name, i)
    ensures Last(regs, name) == Some(regs[i].handler)
  {
    if i < |regs| - 1 {
      LastIsAt(regs[..|regs| - 1], name, i);
    }
  }

  lemma FindsEntry<H>(entries: map<string, H>, name: string)
    ensures ByMap(entries).Find(TYPE_URL_PREFIX + name) == if name in entries then Some(entries[name]) else None
  {
    PrefixedUrl(name);
  }

  predicate Knows<H>(t: Table<H>, name: string) {
    match t
    case ByMap(entries) => name in entries
    case BySlice(regs) => exists i :: 0 <= i < |regs| && regs[i].fullName == name
  }

  /** The page has an event, and its type is registered. */
  ghost predicate Reaches<H>(t: Table<H>, page: EventPage) {
    && page.EventPage? && page.payload.Event? && page.payload.event.Some?
    && exists name :: Knows(t, name) && page.payload.event.value.typeUrl == TYPE_URL_PREFIX + name
  }

  /** No other page finds a handler. */
  lemma FindsNothing<H>(t: Table<H>, page: EventPage)
    requires !Reaches(t, page)
    ensures page.GetEvent().Some? ==> t.Find(page.GetEvent().value.typeUrl).None?
  {
    if page.GetEvent().Some? {
      var typeUrl := page.GetEvent().value.typeUrl;
      if TYPE_URL_PREFIX <= typeUrl {
        var name := typeUrl[|TYPE_URL_PREFIX|..];
        assert typeUrl == TYPE_URL_PREFIX + name;
        assert !Knows(t, name);
      }
    }
  }
}
