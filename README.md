# Telemetry dashboard: series reshaping and live reconciliation

A Dafny model of the data logic of a browser dashboard that charts live
telemetry. The dashboard fetches a list of metrics and, for each metric, the
measurements of the last thirty minutes; it turns each metric group into one
plot series (points `(at, value)`, y-axis chosen from the unit), shows only the
series the user selected plus a fixed empty placeholder series, and merges each
event of a live subscription into the matching series and into a "latest value
per metric" list that feeds a summary panel.

Modules:

- `DashboardTypes` (`types.dfy`): `Measurement`, `MetricNode`, the plot
  series `Series` (name, axis, x list, y list), the `Axis` tags `Unset`
  (`''`), `Y`, `Y2`, `Y3`, and the event comparison `SameEvent`.
- `VisibilityFilter` (`filter.dfy`): `Filter`, the selected series in order
  followed by `Placeholder`, and its characterisation by selected positions.
- `SeriesTransform` (`transform.dfy`): `Transform`, the nested loops that
  build one series per metric group.
- `Reconciler` (`reconcile.dfy`): one live-update step as a function
  `Reconcile` on the session `Snapshot`, and the lemmas about it.
- `DashboardSession` (`session.dfy`): the class `Dashboard` holding the
  session state (metric list, selection, series, latest values, previous
  accepted event), its `Bootstrap` constructor, `Select`, and `Step`, whose
  new state is proved to be `Reconcile` of the old one; `InitialLatest`
  builds the zero latest-value list; `PressureEventWhileHidden` walks through
  a two-metric session in which an unselected metric receives an event.

Timestamps (`new Date(at)` in the source) are the integer `at` itself; values
are integers, since they are only copied and compared.

The source's reconciliation maps EVERY series whose name equals the event's
metric to the updated first match (src/components/Dashboard.tsx:197-203), not
only the first one. The model follows that code: `AcceptedEffect` states it,
and `OnlyMatchChanges` shows that when no two series share a name only the
first match changes, which is the "exactly one series" behaviour one would
describe in prose.

## Model

| member | source | states |
|---|---|---|
| `VisibilityFilter.Kept` | src/components/Dashboard.tsx:95-97 | the kept series are no more than the input and every one of them is an input series whose name is in the selection |
| `VisibilityFilter.Filter` | src/components/Dashboard.tsx:94-111 | the result is never empty, its last element is the placeholder (empty x/y, name `''`, axis `y`) and every element before it is a selected input series |
| `VisibilityFilter.FilterExact` | src/components/Dashboard.tsx:94-111 | the result is exactly the input series at the selected positions, in increasing position order, followed by the placeholder; its length is the number selected plus one |
| `VisibilityFilter.SelectedIsShown` | src/components/Dashboard.tsx:95-97 | every input series whose name is selected appears in the result |
| `VisibilityFilter.EmptySelectionShowsPlaceholder` | src/components/Dashboard.tsx:99-110 | with an empty selection the result is the placeholder alone, for any input |
| `VisibilityFilter.KeptIgnoresUnselected` | src/components/Dashboard.tsx:95-97 | two series lists that agree on names and on every selected series filter to the same result |
| `SeriesTransform.Transform` | src/components/Dashboard.tsx:114-144 | one series per group in input order; series i is named after group i's metric, has one x and one y per measurement holding measurement j's `at` and `value` at position j, and its axis is `Y`/`Y2`/`Y3` exactly when the first measurement's unit is `F`/`PSI`/`%`, unset otherwise |
| `DashboardSession.InitialLatest` | src/components/Dashboard.tsx:170-173 | one entry per metric, in metric order, each `{metric, at: 0, value: 0, unit: ""}` |
| `DashboardSession.Dashboard.Bootstrap` | src/components/Dashboard.tsx:148-180 | after the initial fetch the series are the transform of the fetched groups, the latest values are the zero readings of the metrics, the selection is empty and the previous event is the zero reading |
| `DashboardSession.Dashboard.Select` | src/components/Dashboard.tsx:149 | a selection change replaces the selection and leaves every other part of the session as it was |
| `DashboardSession.Dashboard.Step` | src/components/Dashboard.tsx:188-217 | the new series list, latest values and previous event are `Reconcile` of the old ones; the session invariant (equal x/y lengths, one latest entry per metric in order) is kept; metrics and selection are unchanged |
| `Reconciler.FirstMatch` | src/components/Dashboard.tsx:192 | the result is the smallest position whose series has the given name, or none exactly when no series has it |
| `Reconciler.Reconcile` | src/components/Dashboard.tsx:190-193 | the step leaves series, latest values and previous event all unchanged exactly when loading, or no event, or the event equals the previous accepted one in `at`, `value` and `metric`, or no series has the event's metric |
| `Reconciler.AcceptedEffect` | src/components/Dashboard.tsx:192-213 | on an accepted event the first matching series gains exactly the point `(at, value)` at its end with name and axis kept, series with other names are unchanged, series with the same name become that updated series, length is kept, latest-value entries for the metric become the event and the others stay, and the event becomes the previous one |
| `Reconciler.OnlyMatchChanges` | src/components/Dashboard.tsx:197-203 | when series names are unique, an accepted event leaves every series but the first match unchanged |
| `Reconciler.StepKeepsShape` | src/components/Dashboard.tsx:195-211 | any step keeps the number, order and names of the series, the equal length of each series' x and y lists, and the length and metrics of the latest-value list |
| `Reconciler.DuplicateSuppressed` | src/components/Dashboard.tsx:190-213 | the same event delivered twice in a row has the effect of delivering it once |
| `Reconciler.AppendsInArrivalOrder` | src/components/Dashboard.tsx:195-196 | a stream of events for one known metric, with no immediate repeats, extends its first series by exactly the events' timestamps and values in delivery order, with no sorting |
| `Reconciler.UnselectedEventInvisible` | src/components/Dashboard.tsx:184-205 | an event for a metric that is not selected leaves the rendered (filtered) list unchanged |
| `Reconciler.SelectedEventVisible` | src/components/Dashboard.tsx:184-205 | an accepted event for a selected metric puts the extended series in the rendered list |

## Left out

- Fetching the metric list and the initial measurements, and the live subscription (src/components/Dashboard.tsx:49-76, 152): network transport; their results are the parameters of `Bootstrap` and `Step`.
- The query-string builders `getInputQuery` and `getDataQuery` (src/components/Dashboard.tsx:21-47): request text for the transport.
- The thirty-minute lookback `thirtyMinutesAgo` (src/components/Dashboard.tsx:19): a clock read used only in the query text.
- React state hooks and effect scheduling: one `Step` call stands for one run of the effect at lines 188-217, and `Visible` stands for the filter effect at lines 182-186; the reconciliation effect running before the initial fetch has completed (on empty series, a no-op) is not modelled.
- Aliasing: the source mutates the matched series object in place, and the filtered list shares its series objects with the full list; the model treats series as values, so a rendered list computed earlier does not change when the full list does.
- Colour assignment, `type` and `line` styling of each series and of the placeholder (src/components/Dashboard.tsx:104-105, 116, 123-124): presentation only.
- Numeric values are integers: JavaScript's number comparison (`NaN !== NaN`, `0 === -0`) is not modelled.
- SeriesTransform.Transform: a group with no measurements makes the source fail when it reads the first measurement's unit; the model requires every group to be non-empty instead of modelling that failure.
- src/components/DashHeader.tsx: rendering of the summary cards and the selection box, no logic of its own.
