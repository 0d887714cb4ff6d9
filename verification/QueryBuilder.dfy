/** The fluent query builder. Each call overwrites a field; the query is decided by the last call of each kind. */
module QueryBuilding {
  import opened Proto

  datatype SequenceRange = SequenceRange(lower: Uint32, upper: Option<Uint32>)

  datatype PointInTime = AtSequence(sequence: Uint32) | AtTime(time: int)

  datatype Selection = NoSelection | InRange(range: SequenceRange) | Temporal(point: PointInTime)

  datatype Query = Query(cover: Cover, selection: Selection)

  datatype Outcome = Built(query: Query) | InvalidTimestamp(text: string)

  // ---------- Call chains ----------

  /** A call on the builder. A time comes with what parsing it gives: `None` is a parse error. */
  datatype Call =
    | ByCorrelationID(id: string)
    | WithEdition(edition: string)
    | Range(lower: Uint32)
    | RangeTo(from: Uint32, to: Uint32)
    | AsOfSequence(sequence: Uint32)
    | AsOfTime(text: string, parsed: Option<int>)

  datatype Kind = Correlation | Edition | Ranged | InTime

  function KindOf(call: Call): Kind {
    match call
    case ByCorrelationID(_) => Correlation
    case WithEdition(_) => Edition
    case Range(_) => Ranged
    case RangeTo(_, _) => Ranged
    case AsOfSequence(_) => InTime
    case AsOfTime(_, _) => InTime
  }

  function CorrelationSet(call: Call): Option<string> {
    if call.ByCorrelationID? then Some(call.id) else None
  }

  function EditionSet(call: Call): Option<string> {
    if call.WithEdition? then Some(call.edition) else None
  }

  function RangeSet(call: Call): Option<SequenceRange> {
    match call
    case Range(lower) => Some(SequenceRange(lower, None))
    case RangeTo(lower, upper) => Some(SequenceRange(lower, Some(upper)))
    case _ => None
  }

  function TimeSet(call: Call): Option<PointInTime> {
    match call
    case AsOfSequence(sequence) => Some(AtSequence(sequence))
    case AsOfTime(_, Some(time)) => Some(AtTime(time))
    case _ => None
  }

  function Failure(call: Call): Option<string> {
    if call.AsOfTime? && call.parsed.None? then Some(call.text) else None
  }

  /** The last value that a chain of calls sets. */
  function Latest<T>(setting: Call -> Option<T>, calls: seq<Call>): Option<T> {
    if calls == [] then None
    else if setting(calls[|calls| - 1]).Some? then setting(calls[|calls| - 1])
    else Latest(setting, calls[..|calls| - 1])
  }

  function OrEmpty(s: Option<string>): string {
    if s.Some? then s.value else ""
  }

  /** What `Build` returns after a chain of calls on a new builder. */
  function BuildAfter(domain: string, root: Option<seq<Byte>>, calls: seq<Call>): Outcome {
    if Latest(Failure, calls).Some? then InvalidTimestamp(Latest(Failure, calls).value)
    else
      var correlation, edition := Latest(CorrelationSet, calls), OrEmpty(Latest(EditionSet, calls));
      var range, time := Latest(RangeSet, calls), Latest(TimeSet, calls);
      Built(Query(Cover(domain, if correlation.Some? then None else root, OrEmpty(correlation),
                        if edition != "" then Some(edition) else None),
                  if range.Some? then InRange(range.value)
                  else if time.Some? then Temporal(time.value)
                  else NoSelection))
  }

  /** The builder's fields, as assignments leave them. */
  datatype Settings = Settings(
    rootDropped: bool,
    correlationID: string,
    edition: string,
    range: Option<SequenceRange>,
    temporal: Option<PointInTime>,
    err: Option<string>)

  function Assign(s: Settings, call: Call): Settings {
    match call
    case ByCorrelationID(id) => s.(correlationID := id, rootDropped := true)
    case WithEdition(edition) => s.(edition := edition)
    case Range(lower) => s.(range := Some(SequenceRange(lower, None)))
    case RangeTo(lower, upper) => s.(range := Some(SequenceRange(lower, Some(upper))))
    case AsOfSequence(sequence) => s.(temporal := Some(AtSequence(sequence)))
    case AsOfTime(text, None) => s.(err := Some(text))
    case AsOfTime(_, Some(time)) => s.(temporal := Some(AtTime(time)))
  }

  function SettingsAfter(calls: seq<Call>): Settings {
    if calls == [] then Settings(false, "", "", None, None, None)
    else Assign(SettingsAfter(calls[..|calls| - 1]), calls[|calls| - 1])
  }

  lemma SettingsMore(calls: seq<Call>, call: Call)
    ensures SettingsAfter(calls + [call]) == Assign(SettingsAfter(calls), call)
  {
    assert (calls + [call])[..|calls|] == calls;
  }

  /** After any chain, each field holds what the last call of its kind set. */
  lemma {:induction false} SettingsAreLatest(calls: seq<Call>)
    ensures SettingsAfter(calls) ==
            Settings(Latest(CorrelationSet, calls).Some?, OrEmpty(Latest(CorrelationSet, calls)),
                     OrEmpty(Latest(EditionSet, calls)), Latest(RangeSet, calls), Latest(TimeSet, calls),
                     Latest(Failure, calls))
  {
    if calls != [] {
      SettingsAreLatest(calls[..|calls| - 1]);
    }
  }

  class QueryBuilder {
    const parse: string -> Option<int>
    var domain: string
    var root: Option<seq<Byte>>
    var correlationID: string
    var rangeSelect: Option<SequenceRange>
    var temporal: Option<PointInTime>
    var edition: string
    var err: Option<string>

    ghost var firstRoot: Option<seq<Byte>>
    ghost var calls: seq<Call>

    ghost predicate Valid()
      reads this
    {
      && root == (if SettingsAfter(calls).rootDropped then None else firstRoot)
      && SettingsAfter(calls) ==
           Settings(SettingsAfter(calls).rootDropped, correlationID, edition, rangeSelect, temporal, err)
    }

    /** `NewQueryBuilder`, and without a root `NewQueryBuilderDomain`. */
    constructor (domain: string, root: Option<seq<Byte>>, parse: string -> Option<int>)
      ensures Valid() && this.domain == domain && firstRoot == root && calls == [] && this.parse == parse
    {
      this.domain, this.root, this.parse := domain, root, parse;
      correlationID, rangeSelect, temporal, edition, err := "", None, None, "", None;
      firstRoot, calls := root, [];
    }

    method ByCorrelationID(id: string)
      requires Valid()
      modifies this
      ensures Valid() && domain == old(domain) && firstRoot == old(firstRoot)
      ensures calls == old(calls) + [Call.ByCorrelationID(id)]
    {
      correlationID, root := id, None;
      SettingsMore(calls, Call.ByCorrelationID(id));
      calls := calls + [Call.ByCorrelationID(id)];
    }

    method WithEdition(edition: string)
      requires Valid()
      modifies this
      ensures Valid() && domain == old(domain) && firstRoot == old(firstRoot)
      ensures calls == old(calls) + [Call.WithEdition(edition)]
    {
      this.edition := edition;
      SettingsMore(calls, Call.WithEdition(edition));
      calls := calls + [Call.WithEdition(edition)];
    }

    method Range(lower: Uint32)
      requires Valid()
      modifies this
      ensures Valid() && domain == old(domain) && firstRoot == old(firstRoot)
      ensures calls == old(calls) + [Call.Range(lower)]
    {
      rangeSelect := Some(SequenceRange(lower, None));
      SettingsMore(calls, Call.Range(lower));
      calls := calls + [Call.Range(lower)];
    }

    method RangeTo(lower: Uint32, upper: Uint32)
      requires Valid()
      modifies this
      ensures Valid() && domain == old(domain) && firstRoot == old(firstRoot)
      ensures calls == old(calls) + [Call.RangeTo(lower, upper)]
    {
      rangeSelect := Some(SequenceRange(lower, Some(upper)));
      SettingsMore(calls, Call.RangeTo(lower, upper));
      calls := calls + [Call.RangeTo(lower, upper)];
    }

    method AsOfSequence(sequence: Uint32)
      requires Valid()
      modifies this
      ensures Valid() && domain == old(domain) && firstRoot == old(firstRoot)
      ensures calls == old(calls) + [Call.AsOfSequence(sequence)]
    {
      temporal := Some(AtSequence(sequence));
      SettingsMore(calls, Call.AsOfSequence(sequence));
      calls := calls + [Call.AsOfSequence(sequence)];
    }

    /** A time that does not parse sets the error and keeps the earlier selection. */
    method AsOfTime(rfc3339: string)
      requires Valid()
      modifies this
      ensures Valid() && domain == old(domain) && firstRoot == old(firstRoot)
      ensures calls == old(calls) + [Call.AsOfTime(rfc3339, parse(rfc3339))]
    {
      var ts := parse(rfc3339);
      if ts.None? {
        err := Some(rfc3339);
      } else {
        temporal := Some(AtTime(ts.value));
      }
      SettingsMore(calls, Call.AsOfTime(rfc3339, parse(rfc3339)));
      calls := calls + [Call.AsOfTime(rfc3339, parse(rfc3339))];
    }

    method Build() returns (r: Outcome)
      requires Valid()
      ensures r == BuildAfter(domain, firstRoot, calls)
    {
      SettingsAreLatest(calls);
      if err.Some? {
        return InvalidTimestamp(err.value);
      }
      var cover := Cover(domain, None, correlationID, None);
      if root.Some? {
        cover := cover.(root := root);
      }
      if edition != "" {
        cover := cover.(edition := Some(edition));
      }
      var q := Query(cover, NoSelection);
      if rangeSelect.Some? {
        q := q.(selection := InRange(rangeSelect.value));
      } else if temporal.Some? {
        q := q.(selection := Temporal(temporal.value));
      }
      r := Built(q);
    }
  }

  function LatestOr<T>(later: Option<T>, earlier: Option<T>): Option<T> {
    if later.Some? then later else earlier
  }

  // ---------- Laws of call chains ----------

  lemma {:induction false} LatestConcat<T>(setting: Call -> Option<T>, p: seq<Call>, q: seq<Call>)
    ensures Latest(setting, p + q) == LatestOr(Latest(setting, q), Latest(setting, p))
    decreases |q|
  {
    if q == [] {
      assert p + q == p;
    } else {
      assert (p + q)[..|p| + |q| - 1] == p + q[..|q| - 1];
      LatestConcat(setting, p, q[..|q| - 1]);
    }
  }

  lemma {:induction false} LatestIffSome<T>(setting: Call -> Option<T>, calls: seq<Call>)
    ensures Latest(setting, calls).Some? <==> exists i :: 0 <= i < |calls| && setting(calls[i]).Some?
  {
    if calls != [] {
      LatestIffSome(setting, calls[..|calls| - 1]);
    }
  }

  lemma LatestSwap<T>(setting: Call -> Option<T>, p: seq<Call>, x: Call, y: Call, q: seq<Call>)
    requires setting(x).None? || setting(y).None?
    ensures Latest(setting, p + [x, y] + q) == Latest(setting, p + [y, x] + q)
  {
    LatestConcat(setting, p + [x, y], q);
    LatestConcat(setting, p, [x, y]);
    LatestConcat(setting, p + [y, x], q);
    LatestConcat(setting, p, [y, x]);
    assert [x, y] == [x] + [y] && [y, x] == [y] + [x];
    LatestConcat(setting, [x], [y]);
    LatestConcat(setting, [y], [x]);
  }

  /** Swapping adjacent calls of different kinds, anywhere in a chain, never changes what `Build` returns. */
  lemma SwapDifferentKinds(domain: string, root: Option<seq<Byte>>, p: seq<Call>, x: Call, y: Call, q: seq<Call>)
    requires KindOf(x) != KindOf(y)
    ensures BuildAfter(domain, root, p + [x, y] + q) == BuildAfter(domain, root, p + [y, x] + q)
  {
    LatestSwap(CorrelationSet, p, x, y, q);
    LatestSwap(EditionSet, p, x, y, q);
    LatestSwap(RangeSet, p, x, y, q);
    LatestSwap(TimeSet, p, x, y, q);
    LatestSwap(Failure, p, x, y, q);
  }

  /** In every chain: one unparsable time makes the build fail; otherwise one range call, before or after any
      temporal call, makes the query a range query, and one `ByCorrelationID` leaves the root out. */
  lemma ChainDecides(domain: string, root: Option<seq<Byte>>, calls: seq<Call>)
    ensures var r := BuildAfter(domain, root, calls);
            && (r.InvalidTimestamp? <==> exists i :: 0 <= i < |calls| && Failure(calls[i]).Some?)
            && (r.Built? ==>
                  && (r.query.selection.InRange? <==> exists i :: 0 <= i < |calls| && RangeSet(calls[i]).Some?)
                  && (r.query.selection.NoSelection? <==>
                        forall i :: 0 <= i < |calls| ==> RangeSet(calls[i]).None? && TimeSet(calls[i]).None?)
                  && (r.query.cover.root ==
                        if exists i :: 0 <= i < |calls| && CorrelationSet(calls[i]).Some? then None else root))
  {
    LatestIffSome(Failure, calls);
    LatestIffSome(RangeSet, calls);
    LatestIffSome(TimeSet, calls);
    LatestIffSome(CorrelationSet, calls);
  }

  // ---------- What the last call of a kind sets ----------

  lemma LatestNone<T>(setting: Call -> Option<T>, calls: seq<Call>)
    requires forall i :: 0 <= i < |calls| ==> setting(calls[i]).None?
    ensures Latest(setting, calls).None?
  {
    LatestIffSome(setting, calls);
  }

  lemma LatestAt<T>(setting: Call -> Option<T>, p: seq<Call>, call: Call, q: seq<Call>)
    requires setting(call).Some? && forall i :: 0 <= i < |q| ==> setting(q[i]).None?
    ensures Latest(setting, p + [call] + q) == setting(call)
  {
    LatestConcat(setting, p + [call], q);
    LatestNone(setting, q);
    assert (p + [call])[..|p|] == p;
  }

  /** Wherever it stands in a chain that builds, the last correlation ID and the last edition are in the query's cover,
      an empty edition counting as none. */
  lemma LastCoverCall(domain: string, root: Option<seq<Byte>>, p: seq<Call>, call: Call, q: seq<Call>)
    requires forall i :: 0 <= i < |q| ==> KindOf(q[i]) != KindOf(call)
    ensures var r := BuildAfter(domain, root, p + [call] + q);
            r.Built? ==>
              && r.query.cover.domain == domain
              && (forall id :: call == ByCorrelationID(id) ==>
                    r.query.cover.correlationId == id && r.query.cover.root == None)
              && (forall edition :: call == WithEdition(edition) ==>
                    r.query.cover.edition == if edition == "" then None else Some(edition))
  {
    if call.ByCorrelationID? {
      LatestAt(CorrelationSet, p, call, q);
    } else if call.WithEdition? {
      LatestAt(EditionSet, p, call, q);
    }
  }

  /** The last range call gives the query's range; without one, the last temporal call gives its point in time. */
  lemma LastSelectionCall(domain: string, root: Option<seq<Byte>>, p: seq<Call>, call: Call, q: seq<Call>)
    requires forall i :: 0 <= i < |q| ==> KindOf(q[i]) != KindOf(call)
    ensures var r := BuildAfter(domain, root, p + [call] + q);
            r.Built? ==>
              && (forall lower :: call == Range(lower) ==>
                    r.query.selection == InRange(SequenceRange(lower, None)))
              && (forall lower, upper :: call == RangeTo(lower, upper) ==>
                    r.query.selection == InRange(SequenceRange(lower, Some(upper))))
              && (forall n :: call == AsOfSequence(n) && (forall c <- p + q :: KindOf(c) != Ranged) ==>
                    r.query.selection == Temporal(AtSequence(n)))
              && (forall text, time :: call == AsOfTime(text, Some(time)) && (forall c <- p + q :: KindOf(c) != Ranged) ==>
                    r.query.selection == Temporal(AtTime(time)))
  {
    if KindOf(call) == Ranged {
      LatestAt(RangeSet, p, call, q);
    } else if TimeSet(call).Some? {
      LatestAt(TimeSet, p, call, q);
      if forall c <- p + q :: KindOf(c) != Ranged {
        NoRange(p, call, q);
      }
    }
  }

  lemma NoRange(p: seq<Call>, call: Call, q: seq<Call>)
    requires KindOf(call) != Ranged && forall c <- p + q :: KindOf(c) != Ranged
    ensures Latest(RangeSet, p + [call] + q).None?
  {
    var all := p + [call] + q;
    forall i | 0 <= i < |all|
      ensures RangeSet(all[i]).None?
    {
      assert all[i] in p + q || all[i] == call;
    }
    LatestNone(RangeSet, all);
  }

  /** The error names the last time that did not parse. */
  lemma LastFailureNamed(domain: string, root: Option<seq<Byte>>, p: seq<Call>, text: string, q: seq<Call>)
    requires forall i :: 0 <= i < |q| ==> !(q[i].AsOfTime? && q[i].parsed.None?)
    ensures BuildAfter(domain, root, p + [AsOfTime(text, None)] + q) == InvalidTimestamp(text)
  {
    LatestAt(Failure, p, AsOfTime(text, None), q);
  }

  lemma NewBuilderBuilds(domain: string, root: Option<seq<Byte>>)
    ensures BuildAfter(domain, root, []) == Built(Query(Cover(domain, root, "", None), NoSelection))
  {
  }
}
