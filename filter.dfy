/** The visibility filter: the series the user selected, in their original
    order, followed by one fixed empty placeholder series. */
module VisibilityFilter {
  import opened DashboardTypes

  /** The selection may hold undefined entries; those never match a name. */
  predicate Selected(name: string, selection: seq<Option<string>>)
  {
    Some(name) in selection
  }

  /** The empty series appended to every filtered list, drawn against `'y'`. */
  const Placeholder: Series := Series("", Y, [], [])

  /** The selected series of `data`, in order. */
  function Kept(data: seq<Series>, selection: seq<Option<string>>): (r: seq<Series>)
    ensures |r| <= |data|
    ensures forall t :: t in r ==> t in data && Selected(t.name, selection)
  {
    if data == [] then []
    else
      var last := data[|data| - 1];
      Kept(data[..|data| - 1], selection) + (if Selected(last.name, selection) then [last] else [])
  }

  /** The series to render. */
  function Filter(data: seq<Series>, selection: seq<Option<string>>): (r: seq<Series>)
    ensures |r| >= 1 && r[|r| - 1] == Placeholder
    ensures forall k :: 0 <= k < |r| - 1 ==> r[k] in data && Selected(r[k].name, selection)
  {
    Kept(data, selection) + [Placeholder]
  }

  /** The positions of the selected series of `data`, in increasing order:
      a reference description of what the filter keeps. */
  ghost function SelectedIndices(data: seq<Series>, selection: seq<Option<string>>): seq<nat>
  {
    if data == [] then []
    else
      SelectedIndices(data[..|data| - 1], selection)
        + (if Selected(data[|data| - 1].name, selection) then [|data| - 1] else [])
  }

  /** Every selected position is a position of `data`, in increasing order. */
  lemma {:induction false} IndicesIncreasing(data: seq<Series>, selection: seq<Option<string>>)
    ensures forall k :: 0 <= k < |SelectedIndices(data, selection)| ==> SelectedIndices(data, selection)[k] < |data|
    ensures forall k, l :: 0 <= k < l < |SelectedIndices(data, selection)| ==>
      SelectedIndices(data, selection)[k] < SelectedIndices(data, selection)[l]
  {
    if data != [] {
      IndicesIncreasing(data[..|data| - 1], selection);
    }
  }

  /** A position is listed exactly when the series there is selected. */
  lemma {:induction false} IndicesSelected(data: seq<Series>, selection: seq<Option<string>>)
    ensures forall i :: 0 <= i < |data| ==> (i in SelectedIndices(data, selection) <==> Selected(data[i].name, selection))
  {
    if data != [] {
      var n := |data| - 1;
      var p := data[..n];
      IndicesSelected(p, selection);
      IndicesIncreasing(p, selection);
      var ip := SelectedIndices(p, selection);
      var extra := if Selected(data[n].name, selection) then [n] else [];
      assert SelectedIndices(data, selection) == ip + extra;
      forall i | 0 <= i < |data|
        ensures i in SelectedIndices(data, selection) <==> Selected(data[i].name, selection)
      {
        if i < n {
          assert p[i] == data[i];
        } else {
          assert n !in ip;
        }
      }
    }
  }

  /** `Kept` holds the series at the selected positions, one for one. */
  lemma {:induction false} KeptAtIndices(data: seq<Series>, selection: seq<Option<string>>)
    ensures |Kept(data, selection)| == |SelectedIndices(data, selection)|
    ensures forall k :: 0 <= k < |SelectedIndices(data, selection)| ==>
      SelectedIndices(data, selection)[k] < |data| &&
      Kept(data, selection)[k] == data[SelectedIndices(data, selection)[k]]
  {
    if data != [] {
      var n := |data| - 1;
      var p := data[..n];
      KeptAtIndices(p, selection);
      var rp, ip := Kept(p, selection), SelectedIndices(p, selection);
      var r, idx := Kept(data, selection), SelectedIndices(data, selection);
      forall k | 0 <= k < |idx| ensures idx[k] < |data| && r[k] == data[idx[k]] {
        if k < |ip| {
          assert rp[k] == p[ip[k]];
        }
      }
    }
  }

  /** The filtered list is exactly the selected series, in their original
      relative order, followed by the placeholder. */
  lemma FilterExact(data: seq<Series>, selection: seq<Option<string>>)
    ensures var r, idx := Filter(data, selection), SelectedIndices(data, selection);
      |r| == |idx| + 1 && r[|idx|] == Placeholder &&
      (forall k :: 0 <= k < |idx| ==> idx[k] < |data| && r[k] == data[idx[k]]) &&
      (forall k, l :: 0 <= k < l < |idx| ==> idx[k] < idx[l]) &&
      (forall i :: 0 <= i < |data| ==> (i in idx <==> Selected(data[i].name, selection)))
  {
    KeptAtIndices(data, selection);
    IndicesIncreasing(data, selection);
    IndicesSelected(data, selection);
  }

  /** A selected series of the input appears in the filtered list. */
  lemma SelectedIsShown(data: seq<Series>, selection: seq<Option<string>>, i: nat)
    requires i < |data| && Selected(data[i].name, selection)
    ensures data[i] in Filter(data, selection)
  {
    FilterExact(data, selection);
    var idx := SelectedIndices(data, selection);
    var k :| 0 <= k < |idx| && idx[k] == i;
    assert Filter(data, selection)[k] == data[i];
  }

  /** With nothing selected, only the placeholder is rendered. */
  lemma {:induction false} EmptySelectionShowsPlaceholder(data: seq<Series>)
    ensures Filter(data, []) == [Placeholder]
  {
    if data != [] {
      EmptySelectionShowsPlaceholder(data[..|data| - 1]);
    }
  }

  /** Two lists that agree on every name and on every selected series filter
      to the same result: unselected series do not influence the output. */
  lemma {:induction false} KeptIgnoresUnselected(a: seq<Series>, b: seq<Series>, selection: seq<Option<string>>)
    requires |a| == |b|
    requires forall i :: 0 <= i < |a| ==> a[i].name == b[i].name
    requires forall i :: 0 <= i < |a| && Selected(a[i].name, selection) ==> a[i] == b[i]
    ensures Filter(a, selection) == Filter(b, selection)
  {
    if a != [] {
      var n := |a| - 1;
      KeptIgnoresUnselected(a[..n], b[..n], selection);
      assert Kept(a[..n], selection) == Filter(a[..n], selection)[..|Filter(a[..n], selection)| - 1];
      assert Kept(b[..n], selection) == Filter(b[..n], selection)[..|Filter(b[..n], selection)| - 1];
    }
  }
}
