# JdbcHook in Dafny

A model of promagent's `JdbcHook`, the hook that times JDBC calls made through
`java.sql.Statement` and `java.sql.Connection`. It records every call in two
Prometheus metrics: the counter `sql_queries_total` and the summary
`sql_query_duration`. Both are labelled by the HTTP method, the request path
and the SQL query. Before a query is used as a label, its value lists are
collapsed to `values (...)`.

The model has four parts, one module each, plus a module of worked examples
and `Optional` (`optional.dfy`), the optional value used for the request
context and for "no match", and `Sequences` (`sequences.dfy`), a fact about
concatenation shared by the scan and the traces.

- `QueryLabel` (`query_label.dfy`) models `stripValues`. It is
  `replaceAll("values\\s*\\(.*?\\)", "values (...)")` with java.util.regex's
  default flags:
  - `\s` is `[ \t\n\x0B\f\r]`;
  - `.` stops at `\n`, `\r`, U+0085, U+2028 and U+2029;
  - matching is case-sensitive.

  The anchored match is described twice and the two are proved to agree:
  - declaratively, by `MatchShape`;
  - operationally, by `MatchLen`, built from greedy `\s*` (`SpaceRun`) and lazy `.*?\)` (`LazyClose`).

  The replacement is also written twice:
  - `StripValues` is a recursive left-to-right scan;
  - `ReplaceAll` is the loop `Matcher.replaceAll` runs, proved equal to `StripValues`.
- `QueryLabelExamples` (`query_label_examples.dfy`) proves these cases:
  - the example in the source comment;
  - laziness;
  - several clauses in one query;
  - case sensitivity;
  - a line break before and inside the parentheses.
- `AdviceTable` (`advice_table.dfy`) is the table of `@Before`/`@After`
  overloads. Each overload is identified by its phase and by its parameter
  list after `String sql` (`Shape`). `Dispatch` gives the table positions
  whose overload the weaver would run for a call.
- `JdbcHook` (`jdbc_hook.dfy`) holds the hook state: `startTime`, and the two
  metrics as maps from label triples to a count and to a sequence of
  observations. It also defines:
  - `before(sql)` and `after(sql)`;
  - the six overloads of each, which delegate to the one-argument versions;
  - the fallback of missing request-context values to `"no http context"`.
- `Interception` (`interception.dfy`) runs a hook over a sequence of
  intercepted calls (`Event`). Each event carries its clock reading and its
  request context. This is where the properties of whole traces are proved:
  - counting;
  - the overwrite of `startTime` by a second `before`;
  - exact durations for calls made one after another, each with its own
    query and request context, sorted by the label triple they record under;
  - non-negative durations under a monotone clock.

`replaceAll` compiles the pattern with no flags (line 57), so the match is
case-sensitive; `UpperCaseExample` shows that `VALUES (1)` is left alone.

## Model

| member | source | states |
|---|---|---|
| QueryLabel.SpaceRun | war_agent/src/main/java/io/promagent/hooks/JdbcHook.java:57 | greedy `\s*`: the result is the length of the longest prefix of `\s` characters, and the character after it (if any) is not in `\s` |
| QueryLabel.LazyClose | war_agent/src/main/java/io/promagent/hooks/JdbcHook.java:57 | lazy `.*?\)`: a result is the first `)` with no line terminator before it; `None` means no such `)` exists |
| QueryLabel.MatchLenSound | war_agent/src/main/java/io/promagent/hooks/JdbcHook.java:57 | every match length the matcher reports is a match of the pattern at the head of the text, and when it reports none there is no match of any length |
| QueryLabel.MatchLenComplete | war_agent/src/main/java/io/promagent/hooks/JdbcHook.java:57 | every match of the pattern at the head of the text is the one the matcher reports |
| QueryLabel.MatchUnique | war_agent/src/main/java/io/promagent/hooks/JdbcHook.java:57 | the match anchored at a position is unique: `\s*` followed by `(` and a lazy `.*?\)` leave no choice |
| QueryLabel.StripNoKeyword | war_agent/src/main/java/io/promagent/hooks/JdbcHook.java:51-58 | a query that does not contain `values` is returned unchanged |
| QueryLabel.StripPlainPrefix | war_agent/src/main/java/io/promagent/hooks/JdbcHook.java:57 | text with no `v` can never start a match, so it is copied verbatim in front of whatever the rest becomes |
| QueryLabel.StripAtMatch | war_agent/src/main/java/io/promagent/hooks/JdbcHook.java:57 | where a match starts, it is replaced by `values (...)` and the scan resumes right after its `)` |
| QueryLabel.StripClause | war_agent/src/main/java/io/promagent/hooks/JdbcHook.java:57 | `values`, any `\s` run (newlines included), `(`, a body with no `)` or line terminator, and `)` collapse to `values (...)`; what follows is scanned on |
| QueryLabel.NoMatchAcrossLine | war_agent/src/main/java/io/promagent/hooks/JdbcHook.java:57 | a line terminator inside the parentheses before any `)` prevents the match there, whatever follows |
| QueryLabel.StripPlainThenClause | war_agent/src/main/java/io/promagent/hooks/JdbcHook.java:57 | a `values` clause after text with no `v` collapses, and the earlier text is kept |
| QueryLabel.ReplaceAll | war_agent/src/main/java/io/promagent/hooks/JdbcHook.java:57 | the find/append loop of `Matcher.replaceAll` yields exactly the scan's result on every query |
| QueryLabelExamples.DocumentedExample | war_agent/src/main/java/io/promagent/hooks/JdbcHook.java:53-56 | the insert into Member example in the source comment becomes `... values (...)` |
| QueryLabelExamples.NonGreedyExample | war_agent/src/main/java/io/promagent/hooks/JdbcHook.java:57 | the match is lazy: `values (a, (b)) x` becomes `values (...)) x` |
| QueryLabelExamples.TwoClausesExample | war_agent/src/main/java/io/promagent/hooks/JdbcHook.java:57 | every clause of a query is collapsed, each at its own first `)` |
| QueryLabelExamples.UpperCaseExample | war_agent/src/main/java/io/promagent/hooks/JdbcHook.java:57 | matching is case-sensitive: `INSERT INTO T VALUES (1)` is unchanged |
| QueryLabelExamples.LineBreakBeforeParenExample | war_agent/src/main/java/io/promagent/hooks/JdbcHook.java:57 | a newline between `values` and `(` is allowed: `values\n(1)` becomes `values (...)` |
| QueryLabelExamples.LineBreakInsideParenExample | war_agent/src/main/java/io/promagent/hooks/JdbcHook.java:57 | the match is bounded by the line: `values (1\n)` is unchanged |
| AdviceTable.Dispatch | war_agent/src/main/java/io/promagent/hooks/JdbcHook.java:17-20 | a table position is dispatched exactly when the call's type is instrumented and the overload there has the call's phase and parameter list and names the method; positions come in declaration order |
| AdviceTable.DispatchAtMostOne | war_agent/src/main/java/io/promagent/hooks/JdbcHook.java:62-127 | in a table where no phase has two overloads with one parameter list, at most one overload runs for any call |
| AdviceTable.TableUnambiguous | war_agent/src/main/java/io/promagent/hooks/JdbcHook.java:62-127 | the twelve declared overloads never share a phase and a parameter list |
| AdviceTable.TableMatchesReference | war_agent/src/main/java/io/promagent/hooks/JdbcHook.java:62-127 | for each phase and parameter list, the annotated methods are those of the reference reading `ShapeMethods` |
| AdviceTable.TableSymmetric | war_agent/src/main/java/io/promagent/hooks/JdbcHook.java:62-127 | `@Before` and `@After` name the same JDBC methods for every parameter list |
| AdviceTable.ExecuteQueryOnlyPlain | war_agent/src/main/java/io/promagent/hooks/JdbcHook.java:62-127 | `executeQuery` is advised if and only if the call has the `(String)` parameter list |
| AdviceTable.PrepareCallShapes | war_agent/src/main/java/io/promagent/hooks/JdbcHook.java:62-127 | `prepareCall` is advised if and only if the parameter list is `(String)`, `(String, int, int)` or `(String, int, int, int)` |
| AdviceTable.DispatchTable | war_agent/src/main/java/io/promagent/hooks/JdbcHook.java:62-127 | an intercepted call gets exactly one advice per phase when its type is instrumented and its method is listed for its parameter list, and none otherwise |
| JdbcHook.Init | war_agent/src/main/java/io/promagent/hooks/JdbcHook.java:25 | a hook built on an empty metric store has `startTime` 0, every counter at 0 and no observations |
| JdbcHook.LabelsOf | war_agent/src/main/java/io/promagent/hooks/JdbcHook.java:97-99 | the method and path labels come from the request context, or are `no http context` when it has none; the query label is the stripped query |
| JdbcHook.Before | war_agent/src/main/java/io/promagent/hooks/JdbcHook.java:63-65 | `before` sets `startTime` to the clock reading and leaves every counter and every summary unchanged |
| JdbcHook.After | war_agent/src/main/java/io/promagent/hooks/JdbcHook.java:95-102 | `after` keeps `startTime`, increments the counter of exactly its label triple, and appends exactly one observation `now - startTime` to that triple's summary; all other triples are unchanged |
| JdbcHook.OverloadsFanIn | war_agent/src/main/java/io/promagent/hooks/JdbcHook.java:67-90 | every `before` and `after` overload acts as the one-argument advice on the same `sql` |
| JdbcHook.ExtraArgumentsIgnored | war_agent/src/main/java/io/promagent/hooks/JdbcHook.java:104-127 | the arguments after `sql` never change the effect of an overload |
| JdbcHook.SecondBeforeWins | war_agent/src/main/java/io/promagent/hooks/JdbcHook.java:63-65 | `startTime` is a single field: after `before(a)`, `before(b)`, `after(a)`, the observation is measured from `b`'s clock reading |
| JdbcHook.PairRecords | war_agent/src/main/java/io/promagent/hooks/JdbcHook.java:95-102 | a `before`/`after` pair on one query records its own elapsed time under its own label triple and counts once there; every other triple is unchanged |
| Interception.StepMatchesDispatch | war_agent/src/main/java/io/promagent/hooks/JdbcHook.java:62-127 | running the advice once per dispatched overload is running it once when the call is advised and not at all otherwise |
| Interception.StepBefore | war_agent/src/main/java/io/promagent/hooks/JdbcHook.java:62-90 | an advised call in the before phase runs `before(sql)` with the call's own query |
| Interception.StepAfter | war_agent/src/main/java/io/promagent/hooks/JdbcHook.java:94-127 | an advised call in the after phase runs `after(sql)` with the call's own query |
| Interception.RunCounts | war_agent/src/main/java/io/promagent/hooks/JdbcHook.java:100-101 | over any trace, the counter and the number of observations of a label triple each grow by exactly the number of advised `after` events recording under it |
| Interception.RunAppend | war_agent/src/main/java/io/promagent/hooks/JdbcHook.java:21-25 | running two traces in turn on one hook is running their concatenation |
| Interception.TraceSecondBeforeWins | war_agent/src/main/java/io/promagent/hooks/JdbcHook.java:25 | in a trace of two advised `before`s and an `after`, the observation is measured from the second `before` |
| Interception.RunPairEvents | war_agent/src/main/java/io/promagent/hooks/JdbcHook.java:62-127 | a trace of advised calls made one after another, each with its own target, method, arguments and request context, runs as the one-argument `before`/`after` pair of each call on its own query |
| Interception.CallPairRecords | war_agent/src/main/java/io/promagent/hooks/JdbcHook.java:95-102 | one call's `before`/`after` pair adds that call's elapsed time to the summary of the triple it records under, and nothing to any other triple |
| Interception.PairsRecord | war_agent/src/main/java/io/promagent/hooks/JdbcHook.java:95-102 | for calls made one after another, the summary of every label triple receives exactly the durations of the calls whose labels are that triple, in call order, and its counter one increment per such call |
| Interception.SequentialPairs | war_agent/src/main/java/io/promagent/hooks/JdbcHook.java:94-102 | the same for the trace of intercepted calls: under every label triple, the observations added are the end minus start of exactly the calls recording there, in order, and the counter grows by their number |
| Interception.DurationsUnderOneLabel | war_agent/src/main/java/io/promagent/hooks/JdbcHook.java:96-101 | when every call records under one triple, that triple's i-th new observation is the i-th call's end minus its start |
| Interception.DurationsUnderNone | war_agent/src/main/java/io/promagent/hooks/JdbcHook.java:97-101 | calls that record under other triples add no observation to a triple |
| Interception.RunKeepsNonNegative | war_agent/src/main/java/io/promagent/hooks/JdbcHook.java:96 | under a monotone clock, with `startTime` not ahead of the first reading, no negative duration is ever recorded |
| Interception.ObservationsNonNegative | war_agent/src/main/java/io/promagent/hooks/JdbcHook.java:96 | under a monotone clock, a fresh hook whose trace starts with an advised `before` records only non-negative durations |

## Left out

- The metric registration through `MetricsStore` (lines 29-48) is not modelled: the metric names, help texts, label names and summary quantiles. Each metric is a map from label triples to its state, and a summary keeps its raw observations instead of quantile estimates.
- Init: the model has a single hook instance, and Init's empty maps stand for a fresh metric store. A later `JdbcHook` constructed on the same store gets, through `createOrGet` (lines 29-48), the counter and summary registered earlier, with their existing children and values, so two instances write to one counter; the model keeps the metrics inside its one `Hook` and does not show this.
- `System.nanoTime()` is not modelled; every advice takes its clock reading as a parameter `now`.
- After: records the exact integer difference `now - startTime`; the source converts both readings to `double`, subtracts, and divides by 1e9 (line 96); this rounding is not modelled.
- Clock readings are unbounded `int`, not `long`.
- `HttpContext` is not part of this model. Its two thread-local values are passed as `Option` parameters.
- The model is sequential. `startTime` is one field shared by all threads that use the hook, so concurrent calls race on it; only interleavings written out as a trace are modelled.
- The `throws Exception` of the `after` overloads is not modelled; the model's label and metric updates cannot fail. In the source a `null` sql makes `after` throw a NullPointerException in `stripValues` (line 57, called from line 99) before lines 100-101 run, so nothing is counted or observed, while `before(null)` succeeds; the model's `string` has no null.
- Bytecode weaving is left out: how the agent finds the classes implementing the instrumented interfaces, and how it calls the hook around the JDBC method. A call's type is modelled by the name of the instrumented interface it is intercepted through.
- Strings are sequences of Unicode scalar values, not UTF-16 code units. This does not matter for the pattern, because every character it inspects lies in the Basic Multilingual Plane.
- The `int` arguments of the overloads are modelled as unbounded `int`. The advice ignores them.
