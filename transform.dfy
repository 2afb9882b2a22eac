/** The series transform: one plot series per fetched metric group. */
module SeriesTransform {
  import opened DashboardTypes

  /** `t` is the series drawn from `node`: same name, one point per
      measurement in delivery order, and an axis chosen from the first
      measurement's unit alone. */
  predicate Transcribes(t: Series, node: MetricNode)
    requires node.measurements != []
  {
    var ms := node.measurements;
    var unit := ms[0].unit;
    t.name == node.metric &&
    |t.xs| == |ms| && |t.ys| == |ms| &&
    (forall j :: 0 <= j < |ms| ==> t.xs[j] == ms[j].at && t.ys[j] == ms[j].value) &&
    (t.axis == Y <==> unit == "F") &&
    (t.axis == Y2 <==> unit == "PSI") &&
    (t.axis == Y3 <==> unit == "%")
  }

  /** Builds the series list the way the dashboard does: for each group,
      push every point, set the name, then pick the axis by unit. */
  method Transform(data: seq<MetricNode>) returns (r: seq<Series>)
    requires forall i :: 0 <= i < |data| ==> data[i].measurements != []
    ensures |r| == |data|
    ensures forall i :: 0 <= i < |data| ==> Transcribes(r[i], data[i])
  {
    r := [];
    for i := 0 to |data|
      invariant |r| == i
      invariant forall k :: 0 <= k < i ==> Transcribes(r[k], data[k])
    {
      var node := data[i];
      var xs: seq<int> := [];
      var ys: seq<Value> := [];
      for j := 0 to |node.measurements|
        invariant |xs| == j && |ys| == j
        invariant forall l :: 0 <= l < j ==> xs[l] == node.measurements[l].at && ys[l] == node.measurements[l].value
      {
        xs := xs + [node.measurements[j].at];
        ys := ys + [node.measurements[j].value];
      }
      var axis := Unset;
      var unit := node.measurements[0].unit;
      if unit == "F" {
        axis := Y;
      } else if unit == "PSI" {
        axis := Y2;
      } else if unit == "%" {
        axis := Y3;
      }
      r := r + [Series(node.metric, axis, xs, ys)];
    }
  }
}
