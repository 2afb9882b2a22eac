/** The dashboard session: the state the dashboard component keeps between
    renders, its bootstrap from the initial fetch, the selection control and
    the live-update step. */
module DashboardSession {
  import opened DashboardTypes
  import opened VisibilityFilter
  import opened SeriesTransform
  import opened Reconciler

  /** The latest-value list before any live data: one zero reading per
      metric, in the order the metrics were listed. */
  method InitialLatest(metrics: seq<string>) returns (r: seq<Measurement>)
    ensures |r| == |metrics|
    ensures forall i :: 0 <= i < |metrics| ==> r[i] == Measurement(metrics[i], 0, 0, "")
  {
    r := [];
    for i := 0 to |metrics|
      invariant |r| == i
      invariant forall k :: 0 <= k < i ==> r[k] == ZeroReading(metrics[k])
    {
      r := r + [ZeroReading(metrics[i])];
    }
  }

  class Dashboard {
    var metrics: seq<string>
    var selection: seq<Option<string>>
    var series: seq<Series>
    var latest: seq<Measurement>
    var prev: Measurement

    /** Every series has as many y values as x values, and the latest-value
        list holds one entry per metric, in metric order. */
    ghost predicate Valid()
      reads this
    {
      (forall i :: 0 <= i < |series| ==> |series[i].xs| == |series[i].ys|) &&
      |latest| == |metrics| &&
      (forall i :: 0 <= i < |latest| ==> latest[i].metric == metrics[i])
    }

    /** The state a live event acts on. */
    function State(): Snapshot
      reads this
    {
      Snapshot(series, latest, prev)
    }

    /** The series handed to the chart. */
    function Visible(): seq<Series>
      reads this
    {
      Filter(series, selection)
    }

    /** The session once the metric list and the initial measurements have
        been fetched: the transformed series, a zero reading per metric, an
        empty selection and the zero "previous event". */
    constructor Bootstrap(fetchedMetrics: seq<string>, fetched: seq<MetricNode>)
      requires forall i :: 0 <= i < |fetched| ==> fetched[i].measurements != []
      ensures Valid()
      ensures metrics == fetchedMetrics && selection == []
      ensures |series| == |fetched|
      ensures forall i :: 0 <= i < |fetched| ==> Transcribes(series[i], fetched[i])
      ensures forall i :: 0 <= i < |latest| ==> latest[i] == ZeroReading(fetchedMetrics[i])
      ensures prev == ZeroReading("")
    {
      var transformed := Transform(fetched);
      var initialLatest := InitialLatest(fetchedMetrics);
      metrics := fetchedMetrics;
      selection := [];
      series := transformed;
      latest := initialLatest;
      prev := ZeroReading("");
    }

    /** The user changes which metrics are shown. */
    method Select(newSelection: seq<Option<string>>)
      modifies this
      ensures selection == newSelection
      ensures metrics == old(metrics) && series == old(series)
      ensures latest == old(latest) && prev == old(prev)
    {
      selection := newSelection;
    }

    /** Handles the subscription's current state: `loading` and the latest
        delivered event, if any. */
    method Step(loading: bool, event: Option<Measurement>)
      requires Valid()
      modifies this
      ensures Valid()
      ensures State() == Reconcile(old(State()), loading, event)
      ensures metrics == old(metrics) && selection == old(selection)
    {
      StepKeepsShape(State(), loading, event);
      if !loading && event.Some? && !SameEvent(event.value, prev) {
        var e := event.value;
        var found := FirstMatch(series, e.metric);
        if found.Some? {
          var matching := Extended(series[found.value], e);
          series := Replaced(series, e.metric, matching);
          latest := Refreshed(latest, e);
          prev := e;
        }
      }
    }
  }

  /** A session with a temperature and a pressure metric, only temperature
      shown: a pressure event updates the pressure series and its latest
      value, and the rendered list stays as it was. */
  method PressureEventWhileHidden()
  {
    var temp := Measurement("temp", 1000, 70, "F");
    var pressure := Measurement("pressure", 1000, 14, "PSI");
    var nodes := [MetricNode("temp", [temp]), MetricNode("pressure", [pressure])];
    var d := new Dashboard.Bootstrap(["temp", "pressure"], nodes);
    assert Transcribes(d.series[0], nodes[0]) && Transcribes(d.series[1], nodes[1]);
    assert d.series[0].xs == [1000] && d.series[0].ys == [70];
    assert d.series[1].xs == [1000] && d.series[1].ys == [14];
    assert d.series == [Series("temp", Y, [1000], [70]), Series("pressure", Y2, [1000], [14])];
    d.Select([Some("temp")]);
    var shown := d.Visible();
    assert Kept(d.series[..1], d.selection) == [d.series[0]];
    assert shown == [d.series[0], Placeholder];

    var update := Measurement("pressure", 5000, 15, "PSI");
    var before := d.State();
    assert FirstMatch(before.series, "pressure") == Some(1);
    assert Accepts(before, false, Some(update));
    d.Step(false, Some(update));
    AcceptedEffect(before, update);
    UnselectedEventInvisible(before, false, update, d.selection);
    assert d.series[1].xs == [1000] + [5000] && d.series[1].ys == [14] + [15];
    assert d.latest[0] == ZeroReading("temp") && d.latest[1] == update;
    assert d.Visible() == shown;
  }
}
