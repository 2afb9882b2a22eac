/** The live reconciler: merges one subscription event into the series list
    and the latest-value snapshot, as a function of the session state. */
module Reconciler {
  import opened DashboardTypes
  import opened VisibilityFilter

  /** The part of the session one live event can change: the series list,
      the latest value per metric, and the previous accepted event. */
  datatype Snapshot = Snapshot(series: seq<Series>, latest: seq<Measurement>, prev: Measurement)

  /** The position of the first series named `metric`, if any. */
  function FirstMatch(series: seq<Series>, metric: string): (k: Option<nat>)
    ensures k.Some? ==> k.value < |series| && series[k.value].name == metric
    ensures k.Some? ==> forall i :: 0 <= i < k.value ==> series[i].name != metric
    ensures k.None? ==> forall i :: 0 <= i < |series| ==> series[i].name != metric
  {
    if series == [] then None
    else if series[0].name == metric then Some(0)
    else
      match FirstMatch(series[1..], metric)
      case None => None
      case Some(k) => Some(k + 1)
  }

  /** `t` with the event's point pushed on the end. */
  function Extended(t: Series, e: Measurement): Series
  {
    t.(xs := t.xs + [e.at], ys := t.ys + [e.value])
  }

  /** Every series named `metric` replaced by `t`, the others kept. */
  function Replaced(series: seq<Series>, metric: string, t: Series): seq<Series>
  {
    seq(|series|, i requires 0 <= i < |series| => if series[i].name == metric then t else series[i])
  }

  /** Every latest-value entry for the event's metric replaced by the event. */
  function Refreshed(latest: seq<Measurement>, e: Measurement): seq<Measurement>
  {
    seq(|latest|, i requires 0 <= i < |latest| => if latest[i].metric == e.metric then e else latest[i])
  }

  /** The event is taken: not loading, an event is present, it is not a
      repeat of the previous accepted one, and some series carries its metric. */
  predicate Accepts(s: Snapshot, loading: bool, event: Option<Measurement>)
  {
    !loading && event.Some? && !SameEvent(event.value, s.prev)
    && FirstMatch(s.series, event.value.metric).Some?
  }

  /** One reconciliation step. */
  function Reconcile(s: Snapshot, loading: bool, event: Option<Measurement>): (r: Snapshot)
    ensures r == s <==> !Accepts(s, loading, event)
  {
    if !Accepts(s, loading, event) then s
    else
      var e := event.value;
      var k := FirstMatch(s.series, e.metric).value;
      Snapshot(Replaced(s.series, e.metric, Extended(s.series[k], e)), Refreshed(s.latest, e), e)
  }

  /** What an accepted event does: the first series with the event's metric
      gains exactly the point (at, value) at its end; every series with
      another name is untouched; every entry of the latest-value list for
      that metric becomes the event and the others stay; the event becomes
      the previous one. */
  lemma AcceptedEffect(s: Snapshot, e: Measurement)
    requires Accepts(s, false, Some(e))
    ensures var r, k := Reconcile(s, false, Some(e)), FirstMatch(s.series, e.metric).value;
      |r.series| == |s.series| &&
      r.series[k].name == s.series[k].name && r.series[k].axis == s.series[k].axis &&
      r.series[k].xs == s.series[k].xs + [e.at] && r.series[k].ys == s.series[k].ys + [e.value] &&
      (forall i :: 0 <= i < |s.series| && s.series[i].name != e.metric ==> r.series[i] == s.series[i]) &&
      (forall i :: 0 <= i < |s.series| && s.series[i].name == e.metric ==> r.series[i] == r.series[k]) &&
      |r.latest| == |s.latest| &&
      (forall i :: 0 <= i < |s.latest| && s.latest[i].metric == e.metric ==> r.latest[i] == e) &&
      (forall i :: 0 <= i < |s.latest| && s.latest[i].metric != e.metric ==> r.latest[i] == s.latest[i]) &&
      r.prev == e
  {
  }

  /** No two series share a name. */
  predicate UniqueNames(series: seq<Series>)
  {
    forall i, j :: 0 <= i < j < |series| ==> series[i].name != series[j].name
  }

  /** When names are unique, an accepted event changes the matched series
      and no other. */
  lemma OnlyMatchChanges(s: Snapshot, e: Measurement, i: nat)
    requires UniqueNames(s.series)
    requires Accepts(s, false, Some(e))
    requires i < |s.series| && i != FirstMatch(s.series, e.metric).value
    ensures Reconcile(s, false, Some(e)).series[i] == s.series[i]
  {
    var k := FirstMatch(s.series, e.metric).value;
    if i < k {
      assert s.series[i].name != s.series[k].name;
    } else {
      assert s.series[k].name != s.series[i].name;
    }
  }

  /** A step keeps the number, the order and the names of the series, the
      equal length of each series' x and y lists, and the metric of each
      latest-value entry. */
  lemma StepKeepsShape(s: Snapshot, loading: bool, event: Option<Measurement>)
    ensures var r := Reconcile(s, loading, event);
      |r.series| == |s.series| &&
      (forall i :: 0 <= i < |s.series| ==> r.series[i].name == s.series[i].name) &&
      ((forall i :: 0 <= i < |s.series| ==> |s.series[i].xs| == |s.series[i].ys|) ==>
         (forall i :: 0 <= i < |r.series| ==> |r.series[i].xs| == |r.series[i].ys|)) &&
      |r.latest| == |s.latest| &&
      (forall i :: 0 <= i < |s.latest| ==> r.latest[i].metric == s.latest[i].metric)
  {
  }

  /** The same event delivered twice in a row is taken once. */
  lemma DuplicateSuppressed(s: Snapshot, loading: bool, e: Measurement)
    ensures Reconcile(Reconcile(s, loading, Some(e)), loading, Some(e)) == Reconcile(s, loading, Some(e))
  {
    var r := Reconcile(s, loading, Some(e));
    if Accepts(s, loading, Some(e)) {
      assert SameEvent(e, r.prev);
    }
  }

  /** Two series lists with the same names have the same first match. */
  lemma FirstMatchByNames(a: seq<Series>, b: seq<Series>, metric: string)
    requires |a| == |b|
    requires forall i :: 0 <= i < |a| ==> a[i].name == b[i].name
    ensures FirstMatch(a, metric) == FirstMatch(b, metric)
  {
    // Each first match is determined by the names alone.
  }

  /** Successive events, none a repeat of the one accepted just before it. */
  predicate NoRepeats(prev: Measurement, events: seq<Measurement>)
    decreases events
  {
    events == [] || (!SameEvent(events[0], prev) && NoRepeats(events[0], events[1..]))
  }

  /** The state after a stream of events, processed one at a time. */
  function ReconcileAll(s: Snapshot, events: seq<Measurement>): Snapshot
    decreases events
  {
    if events == [] then s else ReconcileAll(Reconcile(s, false, Some(events[0])), events[1..])
  }

  function Timestamps(events: seq<Measurement>): seq<int>
  {
    seq(|events|, i requires 0 <= i < |events| => events[i].at)
  }

  function Values(events: seq<Measurement>): seq<Value>
  {
    seq(|events|, i requires 0 <= i < |events| => events[i].value)
  }

  /** Points are appended in arrival order: a stream of events for one known
      metric, with no immediate repeats, extends that metric's first series
      by exactly their timestamps and values, in delivery order and whatever
      the timestamps are. */
  lemma {:induction false} AppendsInArrivalOrder(s: Snapshot, metric: string, events: seq<Measurement>)
    requires FirstMatch(s.series, metric).Some?
    requires forall i :: 0 <= i < |events| ==> events[i].metric == metric
    requires NoRepeats(s.prev, events)
    ensures var r, k := ReconcileAll(s, events), FirstMatch(s.series, metric).value;
      |r.series| == |s.series| &&
      r.series[k].xs == s.series[k].xs + Timestamps(events) &&
      r.series[k].ys == s.series[k].ys + Values(events)
    decreases events
  {
    var k := FirstMatch(s.series, metric).value;
    if events == [] {
      assert Timestamps(events) == [] && Values(events) == [];
    } else {
      var e, rest := events[0], events[1..];
      var s1 := Reconcile(s, false, Some(e));
      AcceptedEffect(s, e);
      StepKeepsShape(s, false, Some(e));
      FirstMatchByNames(s.series, s1.series, metric);
      AppendsInArrivalOrder(s1, metric, rest);
      assert Timestamps(events) == [e.at] + Timestamps(rest);
      assert Values(events) == [e.value] + Values(rest);
    }
  }

  /** An event for a metric that is not selected leaves the rendered list as
      it was; only a later selection change reveals it. */
  lemma UnselectedEventInvisible(s: Snapshot, loading: bool, e: Measurement, selection: seq<Option<string>>)
    requires !Selected(e.metric, selection)
    ensures Filter(Reconcile(s, loading, Some(e)).series, selection) == Filter(s.series, selection)
  {
    if Accepts(s, loading, Some(e)) {
      KeptIgnoresUnselected(s.series, Reconcile(s, loading, Some(e)).series, selection);
    }
  }

  /** An accepted event for a selected metric is rendered: the extended
      series appears in the filtered list. */
  lemma SelectedEventVisible(s: Snapshot, e: Measurement, selection: seq<Option<string>>)
    requires Accepts(s, false, Some(e)) && Selected(e.metric, selection)
    ensures var k := FirstMatch(s.series, e.metric).value;
      Extended(s.series[k], e) in Filter(Reconcile(s, false, Some(e)).series, selection)
  {
    var k := FirstMatch(s.series, e.metric).value;
    SelectedIsShown(Reconcile(s, false, Some(e)).series, selection, k);
  }
}
