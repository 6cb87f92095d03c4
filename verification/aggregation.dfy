/**
 Execution fan-out and aggregation. The source launches one worker per
 eligible provision, each running the tool and then reporting its provision's
 name and action on a channel; the aggregator receives as many reports as
 there are eligible provisions and records the new state of each.

 The model replaces the workers by the sequence of launches the dispatch
 switch makes, and the channel by an arrival sequence that is any
 permutation of the launches' reports. Aggregation is a left fold over the
 arrivals. The tool's exit status is not observed by the source, so a
 report always means "completed".
 */
module Aggregation {
  import opened Manifest
  import opened MapOrder
  import opened Arguments

  /** A worker's report: which provision finished, with which action. */
  datatype Outcome = Outcome(name: string, action: Action)

  /** One tool invocation: the provision (whose directory it runs in), the action and the argument list. */
  datatype Launch = Launch(name: string, action: Action, args: seq<string>)

  /** Every provision named in `order` has an iteration order for its parameters. */
  predicate ParameterOrders(eligible: ProvisionMap, order: seq<string>, paramOrder: map<string, seq<string>>) {
    forall n | n in order :: n in eligible && n in paramOrder && Enumerates(paramOrder[n], eligible[n].parameters)
  }

  /**
   The dispatch switch: ranging over the provisions in `order`, an apply
   provision launches the tool with apply arguments, a destroy provision with
   destroy arguments, and any other action launches nothing.
   */
  function Dispatch(eligible: ProvisionMap, order: seq<string>, paramOrder: map<string, seq<string>>): (launches: seq<Launch>)
    requires ParameterOrders(eligible, order, paramOrder)
    ensures |launches| <= |order|
    ensures forall l | l in launches ::
      && l.name in order
      && l.action == eligible[l.name].action
      && (l.action == Apply ==> l.args == ApplyArgs(eligible[l.name], paramOrder[l.name]))
      && (l.action == Destroy ==> l.args == DestroyArgs(eligible[l.name], paramOrder[l.name]))
      && Recognised(l.action)
    decreases |order|
  {
    if order == [] then []
    else
      var n := order[0];
      var p := eligible[n];
      var here := match p.action
        case Apply => [Launch(n, Apply, ApplyArgs(p, paramOrder[n]))]
        case Destroy => [Launch(n, Destroy, DestroyArgs(p, paramOrder[n]))]
        case OtherAction(_) => [];
      here + Dispatch(eligible, order[1..], paramOrder)
  }

  /**
   The report each launched worker sends once its tool run is over. The
   tool's exit status does not enter the report, so every launch is reported.
   */
  function Reports(launches: seq<Launch>): (outs: seq<Outcome>)
    ensures |outs| == |launches|
    ensures Names(outs) == set l | l in launches :: l.name
    ensures forall l | l in launches :: Outcome(l.name, l.action) in outs
  {
    var outs := seq(|launches|, i requires 0 <= i < |launches| => Outcome(launches[i].name, launches[i].action));
    assert forall l | l in launches :: Outcome(l.name, l.action) in outs by {
      forall l | l in launches
        ensures Outcome(l.name, l.action) in outs
      {
        var i :| 0 <= i < |launches| && launches[i] == l;
        assert outs[i] == Outcome(l.name, l.action);
      }
    }
    assert Names(outs) == set l | l in launches :: l.name by {
      forall x | x in Names(outs)
        ensures exists l | l in launches :: l.name == x
      {
        var o :| o in outs && o.name == x;
        var i :| 0 <= i < |outs| && outs[i] == o;
        assert launches[i] in launches;
      }
    }
    outs
  }

  /** The names reported by a sequence of outcomes. */
  function Names(outs: seq<Outcome>): set<string> {
    set o | o in outs :: o.name
  }

  /** No provision is reported twice. */
  predicate DistinctNames(outs: seq<Outcome>) {
    forall i, j | 0 <= i < j < |outs| :: outs[i].name != outs[j].name
  }

  /** Exactly one report per provision of `m`, carrying that provision's action. */
  predicate OnePerProvision(outs: seq<Outcome>, m: ProvisionMap) {
    && DistinctNames(outs)
    && Names(outs) == m.Keys
    && forall o | o in outs :: o.name in m && o.action == m[o.name].action
  }

  /**
   When every provision has a recognised action, dispatch launches one
   invocation per provision, in iteration order, so the workers report once
   for each provision.
   */
  lemma {:induction false} DispatchLaunchesEach(eligible: ProvisionMap, order: seq<string>, paramOrder: map<string, seq<string>>)
    requires ParameterOrders(eligible, order, paramOrder)
    requires forall n | n in order :: Recognised(eligible[n].action)
    ensures |Dispatch(eligible, order, paramOrder)| == |order|
    ensures forall i | 0 <= i < |order| :: Dispatch(eligible, order, paramOrder)[i].name == order[i]
    decreases |order|
  {
    if order != [] {
      var tail := order[1..];
      ParameterOrdersTail(eligible, order, paramOrder);
      DispatchLaunchesEach(eligible, tail, paramOrder);
      DispatchHead(eligible, order, paramOrder);
      var d := Dispatch(eligible, order, paramOrder);
      var rest := Dispatch(eligible, tail, paramOrder);
      forall i | 1 <= i < |order|
        ensures d[i].name == order[i]
      {
        assert d[i] == d[1..][i - 1] == rest[i - 1];
        assert tail[i - 1] == order[i];
      }
    }
  }

  /** Dropping the first provision keeps parameter orders and recognised actions for the rest. */
  lemma ParameterOrdersTail(eligible: ProvisionMap, order: seq<string>, paramOrder: map<string, seq<string>>)
    requires order != []
    requires ParameterOrders(eligible, order, paramOrder)
    requires forall n | n in order :: Recognised(eligible[n].action)
    ensures ParameterOrders(eligible, order[1..], paramOrder)
    ensures forall n | n in order[1..] :: Recognised(eligible[n].action)
  {
    assert forall n | n in order[1..] :: n in order;
  }

  /** A provision with a recognised action launches exactly one run, ahead of the rest. */
  lemma DispatchHead(eligible: ProvisionMap, order: seq<string>, paramOrder: map<string, seq<string>>)
    requires ParameterOrders(eligible, order, paramOrder)
    requires order != [] && Recognised(eligible[order[0]].action)
    ensures |Dispatch(eligible, order, paramOrder)| == 1 + |Dispatch(eligible, order[1..], paramOrder)|
    ensures Dispatch(eligible, order, paramOrder)[0].name == order[0]
    ensures Dispatch(eligible, order, paramOrder)[1..] == Dispatch(eligible, order[1..], paramOrder)
  {
  }

  /**
   The join receives exactly the eligible count: dispatching over an
   enumeration of provisions with recognised actions yields one report per
   provision, with its action.
   */
  lemma DispatchReportsEach(eligible: ProvisionMap, order: seq<string>, paramOrder: map<string, seq<string>>)
    requires Enumerates(order, eligible)
    requires ParameterOrders(eligible, order, paramOrder)
    requires forall n | n in eligible :: Recognised(eligible[n].action)
    ensures |Reports(Dispatch(eligible, order, paramOrder))| == |eligible|
    ensures OnePerProvision(Reports(Dispatch(eligible, order, paramOrder)), eligible)
  {
    DispatchLaunchesEach(eligible, order, paramOrder);
    EnumerationLength(order, eligible);
    var launches := Dispatch(eligible, order, paramOrder);
    var outs := Reports(launches);
    forall i | 0 <= i < |outs|
      ensures outs[i].name == order[i] && outs[i].action == eligible[order[i]].action
    {
      assert outs[i] == Outcome(launches[i].name, launches[i].action);
      assert launches[i] in launches;
    }
    ReportsInOrder(eligible, order, outs);
  }

  /** Reports that follow an enumeration of the provisions, each with its action, are one per provision. */
  lemma ReportsInOrder(eligible: ProvisionMap, order: seq<string>, outs: seq<Outcome>)
    requires Enumerates(order, eligible)
    requires |outs| == |order|
    requires forall i | 0 <= i < |outs| :: outs[i].name == order[i] && outs[i].action == eligible[order[i]].action
    ensures OnePerProvision(outs, eligible)
  {
    forall n | n in eligible
      ensures n in Names(outs)
    {
      var i :| 0 <= i < |order| && order[i] == n;
      assert outs[i].name == n;
    }
  }

  /** Reports that mention distinct provisions are distinct values. */
  lemma DistinctNamesDistinct(outs: seq<Outcome>)
    requires DistinctNames(outs)
    ensures Distinct(outs)
  {
  }

  /**
   Arrival order does not matter for the join: any permutation of one report
   per provision is again one report per provision.
   */
  lemma PermutationReportsEach(arrivals: seq<Outcome>, sent: seq<Outcome>, m: ProvisionMap)
    requires OnePerProvision(sent, m)
    requires multiset(arrivals) == multiset(sent)
    ensures OnePerProvision(arrivals, m)
    ensures |arrivals| == |m|
  {
    forall o | o in arrivals
      ensures o in sent
    {
      assert o in multiset(arrivals);
    }
    forall o | o in sent
      ensures o in arrivals
    {
      assert o in multiset(sent);
    }
    forall i, j | 0 <= i < j < |arrivals|
      ensures arrivals[i].name != arrivals[j].name
    {
      if arrivals[i].name == arrivals[j].name {
        assert arrivals[i] in sent && arrivals[j] in sent;
        var p :| 0 <= p < |sent| && sent[p] == arrivals[i];
        var q :| 0 <= q < |sent| && sent[q] == arrivals[j];
        if p == q {
          RepeatCountsTwice(arrivals, i, j);
          DistinctNamesDistinct(sent);
          DistinctCountAtMostOne(sent, arrivals[i]);
          assert false;
        } else {
          assert false;
        }
      }
    }
    assert Names(arrivals) == Names(sent);
    OnePerProvisionLength(arrivals, m);
  }

  /** One report per provision means exactly as many reports as provisions. */
  lemma OnePerProvisionLength(outs: seq<Outcome>, m: ProvisionMap)
    requires OnePerProvision(outs, m)
    ensures |outs| == |m|
  {
    var names := seq(|outs|, i requires 0 <= i < |outs| => outs[i].name);
    assert Distinct(names);
    DistinctCardinality(names);
    assert (set x | x in names) == Names(outs) by {
      forall x | x in Names(outs)
        ensures x in names
      {
        var o :| o in outs && o.name == x;
        var i :| 0 <= i < |outs| && outs[i] == o;
        assert names[i] == x;
      }
    }
  }

  // ----- Recording outcomes -----

  /** The provision stored under `name`, or Go's zero value when there is none. */
  function Lookup(m: ProvisionMap, name: string): Provision {
    if name in m then m[name] else Zero
  }

  /** The state switch: a completed apply leaves the provision applied, a completed destroy destroyed. */
  function Complete(p: Provision, a: Action): (r: Provision)
    ensures r.action == p.action && r.parameters == p.parameters
    ensures a == Apply ==> r.state == Applied
    ensures a == Destroy ==> r.state == Destroyed
    ensures !Recognised(a) ==> r == p
  {
    match a
    case Apply => p.(state := Applied)
    case Destroy => p.(state := Destroyed)
    case OtherAction(_) => p
  }

  /** Receiving one report rewrites that report's provision and no other. */
  function Receive(m: ProvisionMap, o: Outcome): ProvisionMap {
    m[o.name := Complete(Lookup(m, o.name), o.action)]
  }

  /**
   Receiving a report adds at most its own name, completes that provision
   (Go's zero provision when the name was absent) and leaves the rest alone.
   */
  lemma ReceiveFrame(m: ProvisionMap, o: Outcome)
    ensures Receive(m, o).Keys == m.Keys + {o.name}
    ensures forall k | k in m && k != o.name :: Receive(m, o)[k] == m[k]
    ensures o.name in m ==> Receive(m, o)[o.name] == Complete(m[o.name], o.action)
    ensures o.name !in m ==> Receive(m, o)[o.name] == Complete(Zero, o.action)
  {
  }

  /** Receiving the reports in arrival order. */
  function Aggregate(m: ProvisionMap, outs: seq<Outcome>): ProvisionMap
    decreases |outs|
  {
    if outs == [] then m
    else Aggregate(Receive(m, outs[0]), outs[1..])
  }

  /**
   Aggregation adds exactly the reported names to the key set and leaves
   every provision nobody reported untouched.
   */
  lemma {:induction false} AggregateFrame(m: ProvisionMap, outs: seq<Outcome>)
    ensures Aggregate(m, outs).Keys == m.Keys + Names(outs)
    ensures forall k | k in m && k !in Names(outs) :: Aggregate(m, outs)[k] == m[k]
    decreases |outs|
  {
    if outs != [] {
      AggregateFrame(Receive(m, outs[0]), outs[1..]);
      NamesCons(outs);
    }
  }

  /** Receiving a batch of reports and then one more is receiving them all. */
  lemma {:induction false} AggregateSnoc(m: ProvisionMap, outs: seq<Outcome>, o: Outcome)
    ensures Aggregate(m, outs + [o]) == Receive(Aggregate(m, outs), o)
    decreases |outs|
  {
    if outs != [] {
      assert (outs + [o])[0] == outs[0];
      assert (outs + [o])[1..] == outs[1..] + [o];
      AggregateSnoc(Receive(m, outs[0]), outs[1..], o);
    }
  }

  /**
   The aggregator's loop from its `i`-th receive on, `m` being the map so far.
   The loop condition re-reads the map's size on every test, so a report
   naming a provision the map lacks adds that name and one more report is
   awaited. `channel` holds every report the workers will ever send; `None`
   means the loop waits for a report that never comes.
   */
  function JoinFrom(m: ProvisionMap, channel: seq<Outcome>, i: nat): Option<ProvisionMap>
    decreases |channel| - i
  {
    if i >= |m| then Some(m)
    else if i >= |channel| then None
    else JoinFrom(Receive(m, channel[i]), channel, i + 1)
  }

  /** The whole aggregator loop, started on the eligible provisions. */
  function Join(eligible: ProvisionMap, channel: seq<Outcome>): Option<ProvisionMap> {
    JoinFrom(eligible, channel, 0)
  }

  /**
   While the reports name only provisions the map already holds, the map
   keeps its size, so the loop stops after exactly that many reports.
   */
  lemma {:induction false} JoinFromKnownNames(m: ProvisionMap, channel: seq<Outcome>, i: nat)
    requires i <= |m| <= |channel|
    requires forall j | 0 <= j < |m| :: channel[j].name in m
    ensures JoinFrom(Aggregate(m, channel[..i]), channel, i) == Some(Aggregate(m, channel[..|m|]))
    decreases |m| - i
  {
    PrefixKeepsSize(m, channel, i);
    if i < |m| {
      assert channel[..i + 1] == channel[..i] + [channel[i]];
      AggregateSnoc(m, channel[..i], channel[i]);
      JoinFromKnownNames(m, channel, i + 1);
    }
  }

  /** Receiving a prefix of reports that name only provisions of `m` keeps the size of `m`. */
  lemma PrefixKeepsSize(m: ProvisionMap, channel: seq<Outcome>, i: nat)
    requires i <= |m| <= |channel|
    requires forall j | 0 <= j < |m| :: channel[j].name in m
    ensures |Aggregate(m, channel[..i])| == |m|
  {
    var a := Aggregate(m, channel[..i]);
    AggregateFrame(m, channel[..i]);
    assert Names(channel[..i]) <= m.Keys by {
      forall o | o in channel[..i]
        ensures o.name in m
      {
        var j :| 0 <= j < i && channel[..i][j] == o;
        assert channel[j] == o;
      }
    }
    assert a.Keys == m.Keys;
    assert |a| == |a.Keys| && |m| == |m.Keys|;
  }

  /**
   Reports that name only eligible provisions: the loop receives exactly as
   many reports as there are eligible provisions and records each.
   */
  lemma JoinKnownNames(eligible: ProvisionMap, channel: seq<Outcome>)
    requires |eligible| <= |channel|
    requires forall j | 0 <= j < |eligible| :: channel[j].name in eligible
    ensures Join(eligible, channel) == Some(Aggregate(eligible, channel[..|eligible|]))
  {
    assert channel[..0] == [];
    JoinFromKnownNames(eligible, channel, 0);
  }

  /** One report per eligible provision, in any order: the loop ends with every provision completed. */
  lemma JoinOnePerProvision(eligible: ProvisionMap, channel: seq<Outcome>)
    requires OnePerProvision(channel, eligible)
    ensures Join(eligible, channel) == Some(Executed(eligible))
  {
    OnePerProvisionLength(channel, eligible);
    assert channel[..|eligible|] == channel;
    forall j | 0 <= j < |eligible|
      ensures channel[j].name in eligible
    {
      assert channel[j] in channel;
    }
    JoinKnownNames(eligible, channel);
    AggregateOnePerProvision(eligible, channel);
  }

  /**
   A report for an absent name makes the loop take one more report: with one
   eligible provision `a` and the reports for `b` and then `a`, both are
   received and `a` ends applied.
   */
  lemma JoinAbsentNameExample()
    ensures
      var a := Provision(Apply, Unset, map[]);
      var r := Join(map["a" := a], [Outcome("b", Apply), Outcome("a", Apply)]);
      && r.Some?
      && r.value.Keys == {"a", "b"}
      && r.value["a"].state == Applied
  {
    var a := Provision(Apply, Unset, map[]);
    var channel := [Outcome("b", Apply), Outcome("a", Apply)];
    var m1 := Receive(map["a" := a], channel[0]);
    assert m1.Keys == {"a", "b"};
    assert |m1| == 2;
    var m2 := Receive(m1, channel[1]);
    assert m2.Keys == {"a", "b"};
    assert |m2| == 2;
    assert JoinFrom(m2, channel, 2) == Some(m2);
  }

  /** The two cases in which the loop's result is known in advance. */
  lemma JoinCases(eligible: ProvisionMap, channel: seq<Outcome>)
    ensures |eligible| <= |channel| && (forall j | 0 <= j < |eligible| :: channel[j].name in eligible) ==>
      Join(eligible, channel) == Some(Aggregate(eligible, channel[..|eligible|]))
    ensures OnePerProvision(channel, eligible) ==> Join(eligible, channel) == Some(Executed(eligible))
  {
    if |eligible| <= |channel| && (forall j | 0 <= j < |eligible| :: channel[j].name in eligible) {
      JoinKnownNames(eligible, channel);
    }
    if OnePerProvision(channel, eligible) {
      JoinOnePerProvision(eligible, channel);
    }
  }

  /**
   The aggregator's loop as the source writes it: receive while fewer reports
   have been taken than the map has entries, and record each. It stops at the
   first count `n` of reports after which the map has exactly `n` entries;
   when the channel runs out first it returns `None`.
   */
  method UpdateProvisions(eligible: ProvisionMap, channel: seq<Outcome>) returns (r: Option<ProvisionMap>)
    ensures r == Join(eligible, channel)
    ensures r.Some? ==> |r.value| <= |channel| && r.value == Aggregate(eligible, channel[..|r.value|])
    ensures r.Some? ==> forall n: nat | n < |r.value| :: n < |Aggregate(eligible, channel[..n])|
    ensures r.None? ==> forall n: nat | n <= |channel| :: n < |Aggregate(eligible, channel[..n])|
    ensures |eligible| <= |channel| && (forall j | 0 <= j < |eligible| :: channel[j].name in eligible) ==>
      r == Some(Aggregate(eligible, channel[..|eligible|]))
    ensures OnePerProvision(channel, eligible) ==> r == Some(Executed(eligible))
  {
    var updated := eligible;
    var i := 0;
    assert channel[..0] == [];
    while i < |updated|
      invariant i <= |channel| && i <= |updated|
      invariant updated == Aggregate(eligible, channel[..i])
      invariant forall n: nat | n < i :: n < |Aggregate(eligible, channel[..n])|
      invariant JoinFrom(updated, channel, i) == Join(eligible, channel)
      decreases |channel| - i
    {
      if i == |channel| {
        JoinCases(eligible, channel);
        return None;
      }
      assert channel[..i + 1] == channel[..i] + [channel[i]];
      AggregateSnoc(eligible, channel[..i], channel[i]);
      updated := Receive(updated, channel[i]);
      i := i + 1;
    }
    r := Some(updated);
    JoinCases(eligible, channel);
  }

  // ----- The state every eligible provision ends in -----

  /** Every provision completed with its own action: the reference result of a run. */
  function Executed(m: ProvisionMap): ProvisionMap {
    map k | k in m :: Complete(m[k], m[k].action)
  }

  /**
   The reference result keeps every name, action and parameter map, and
   leaves apply provisions applied and destroy provisions destroyed.
   */
  lemma ExecutedTransition(m: ProvisionMap)
    ensures Executed(m).Keys == m.Keys
    ensures forall k | k in m :: Executed(m)[k].action == m[k].action && Executed(m)[k].parameters == m[k].parameters
    ensures forall k | k in m && m[k].action == Apply :: Executed(m)[k].state == Applied
    ensures forall k | k in m && m[k].action == Destroy :: Executed(m)[k].state == Destroyed
  {
  }

  /** The provisions of `m`, with those named in `done` completed with their own action. */
  function CompletedFor(m: ProvisionMap, done: set<string>): map<string, Provision> {
    map k | k in m :: if k in done then Complete(m[k], m[k].action) else m[k]
  }

  /**
   Receiving distinct reports of provisions of `m`, each with that provision's
   action, completes exactly the reported provisions.
   */
  lemma {:induction false} AggregateCompletes(m: ProvisionMap, outs: seq<Outcome>)
    requires DistinctNames(outs)
    requires forall o | o in outs :: o.name in m && o.action == m[o.name].action
    ensures Aggregate(m, outs) == CompletedFor(m, Names(outs))
    decreases |outs|
  {
    if outs != [] {
      var o := outs[0];
      var tail := outs[1..];
      var m1 := Receive(m, o);
      DistinctNamesTail(outs);
      forall x | x in tail
        ensures x.name in m1 && x.action == m1[x.name].action
      {
        assert x in outs;
      }
      AggregateCompletes(m1, tail);
      NamesCons(outs);
      CompletedForStep(m, o, Names(tail));
    }
  }

  /** The names of a non-empty report sequence: the first one's and the rest's. */
  lemma NamesCons(outs: seq<Outcome>)
    requires outs != []
    ensures Names(outs) == {outs[0].name} + Names(outs[1..])
  {
    assert outs == [outs[0]] + outs[1..];
  }

  /** Receiving a report with its provision's own action completes that provision. */
  lemma CompletedForStep(m: ProvisionMap, o: Outcome, done: set<string>)
    requires o.name in m && o.action == m[o.name].action
    requires o.name !in done
    ensures CompletedFor(Receive(m, o), done) == CompletedFor(m, {o.name} + done)
  {
  }

  /**
   State transition: one report per eligible provision, in any order, leaves
   every eligible provision completed with its own action and nothing else
   changed.
   */
  lemma AggregateOnePerProvision(m: ProvisionMap, outs: seq<Outcome>)
    requires OnePerProvision(outs, m)
    ensures Aggregate(m, outs) == Executed(m)
  {
    AggregateCompletes(m, outs);
  }

  // ----- Arrival order -----

  /** Reports of different provisions can be received in either order. */
  lemma ReceiveCommutes(m: ProvisionMap, a: Outcome, b: Outcome)
    requires a.name != b.name
    ensures Receive(Receive(m, a), b) == Receive(Receive(m, b), a)
  {
  }

  /** A report of a provision not named earlier can be received first instead of last. */
  lemma {:induction false} ReceiveFirst(m: ProvisionMap, outs: seq<Outcome>, o: Outcome)
    requires o.name !in Names(outs)
    ensures Aggregate(m, outs + [o]) == Aggregate(Receive(m, o), outs)
    decreases |outs|
  {
    if outs != [] {
      var x := outs[0];
      assert x in outs;
      assert (outs + [o])[0] == x;
      assert (outs + [o])[1..] == outs[1..] + [o];
      assert o.name !in Names(outs[1..]) by {
        forall y | y in outs[1..]
          ensures y.name != o.name
        {
          assert y in outs;
        }
      }
      ReceiveFirst(Receive(m, x), outs[1..], o);
      ReceiveCommutes(m, x, o);
    }
  }

  /** Receiving a concatenation is receiving its halves in turn. */
  lemma {:induction false} AggregateAppend(m: ProvisionMap, s: seq<Outcome>, t: seq<Outcome>)
    ensures Aggregate(m, s + t) == Aggregate(Aggregate(m, s), t)
    decreases |s|
  {
    if s != [] {
      assert (s + t)[0] == s[0];
      assert (s + t)[1..] == s[1..] + t;
      assert Aggregate(m, s + t) == Aggregate(Receive(m, s[0]), s[1..] + t);
      AggregateAppend(Receive(m, s[0]), s[1..], t);
    } else {
      assert s + t == t;
    }
  }

  /** A report present in a permutation of `t` occurs somewhere in `t`. */
  lemma PositionOf(t: seq<Outcome>, x: Outcome) returns (j: nat)
    requires x in multiset(t)
    ensures j < |t| && t[j] == x
  {
    assert x in t;
    j :| 0 <= j < |t| && t[j] == x;
  }

  /** A report placed after others that do not name its provision can be received first. */
  lemma ReceiveEarly(m: ProvisionMap, front: seq<Outcome>, x: Outcome, back: seq<Outcome>)
    requires x.name !in Names(front)
    ensures Aggregate(m, front + [x] + back) == Aggregate(Receive(m, x), front + back)
  {
    AggregateAppend(m, front + [x], back);
    ReceiveFirst(m, front, x);
    AggregateAppend(Receive(m, x), front, back);
  }

  /** Dropping the first report keeps the names distinct. */
  lemma DistinctNamesTail(s: seq<Outcome>)
    requires s != [] && DistinctNames(s)
    ensures DistinctNames(s[1..])
    ensures s[0].name !in Names(s[1..])
  {
    forall i, k | 0 <= i < k < |s[1..]|
      ensures s[1..][i].name != s[1..][k].name
    {
      assert s[1..][i] == s[i + 1] && s[1..][k] == s[k + 1];
    }
    forall y | y in s[1..]
      ensures y.name != s[0].name
    {
      var i :| 0 <= i < |s[1..]| && s[1..][i] == y;
      assert s[i + 1] == y;
    }
  }

  /**
   Taking the report at position `j` out of a sequence with distinct names
   leaves distinct names, and no report before it names the same provision.
   */
  lemma DistinctNamesRemove(t: seq<Outcome>, j: nat)
    requires j < |t| && DistinctNames(t)
    ensures DistinctNames(t[..j] + t[j + 1..])
    ensures t[j].name !in Names(t[..j])
  {
    var front, back := t[..j], t[j + 1..];
    var rest := front + back;
    assert t == front + [t[j]] + back;
    forall i, k | 0 <= i < k < |rest|
      ensures rest[i].name != rest[k].name
    {
      var ti := if i < j then i else i + 1;
      var tk := if k < j then k else k + 1;
      assert rest[i] == t[ti] && rest[k] == t[tk];
    }
    forall y | y in front
      ensures y.name != t[j].name
    {
      var i :| 0 <= i < |front| && front[i] == y;
      assert t[i] == y;
    }
  }

  /** Taking the same report out of two permutations leaves two permutations. */
  lemma PermutationRemove(s: seq<Outcome>, t: seq<Outcome>, j: nat)
    requires s != [] && j < |t| && t[j] == s[0]
    requires multiset(s) == multiset(t)
    ensures multiset(s[1..]) == multiset(t[..j] + t[j + 1..])
  {
    assert s == [s[0]] + s[1..];
    assert t == t[..j] + [t[j]] + t[j + 1..];
    assert multiset(s[1..]) == multiset(s) - multiset{s[0]};
    assert multiset(t[..j] + t[j + 1..]) == multiset(t) - multiset{t[j]};
  }

  /**
   Order independence: each report writes only its own provision, so the same
   reports, one per provision, give the same map in any arrival order.
   */
  lemma {:induction false} AggregateOrderIndependent(m: ProvisionMap, s: seq<Outcome>, t: seq<Outcome>)
    requires DistinctNames(s) && DistinctNames(t)
    requires multiset(s) == multiset(t)
    ensures Aggregate(m, s) == Aggregate(m, t)
    decreases |s|
  {
    if s != [] {
      var x := s[0];
      assert x in multiset(s);
      var j := PositionOf(t, x);
      var front, back := t[..j], t[j + 1..];
      var rest := front + back;
      DistinctNamesRemove(t, j);
      DistinctNamesTail(s);
      PermutationRemove(s, t, j);
      AggregateOrderIndependent(Receive(m, x), s[1..], rest);
      assert t == front + [x] + back;
      ReceiveEarly(m, front, x, back);
      assert Aggregate(m, s) == Aggregate(Receive(m, x), s[1..]);
      assert Aggregate(m, t) == Aggregate(Receive(m, x), rest);
    } else {
      assert |t| == |multiset(t)| == 0;
    }
  }
}
