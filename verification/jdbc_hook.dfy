/**
 The state kept by a JdbcHook instance and the effect of its advice: the
 `startTime` field written by `before`, and the two metrics `after` records
 into, `sql_queries_total` (a counter) and `sql_query_duration` (a summary),
 both labelled by (method, path, query). The metrics are kept as maps from
 label values to the counter's value and to the summary's observations.
 */
module JdbcHook {
  import opened Optional
  import opened QueryLabel
  import opened AdviceTable

  /** Label value used when no HTTP request context is available. */
  const NoHttpContext: string := "no http context"

  /** The label values (method, path, query) of both metrics. */
  datatype Labels = Labels(httpMethod: string, path: string, query: string)

  /**
   A hook instance: the last start time written by `before`, the counter
   value per label triple, and the summary's observations per label triple
   in the order they were made, in nanoseconds.
   */
  datatype Hook = Hook(startTime: int, queriesTotal: map<Labels, nat>, queryDuration: map<Labels, seq<int>>)

  /** The counter child for `l`; Prometheus creates it at zero on first use. */
  function Count(h: Hook, l: Labels): nat {
    if l in h.queriesTotal then h.queriesTotal[l] else 0
  }

  /** The observations the summary child for `l` has received. */
  function Observations(h: Hook, l: Labels): seq<int> {
    if l in h.queryDuration then h.queryDuration[l] else []
  }

  /**
   A hook constructed on an empty metric store: `startTime = 0`, and
   `createOrGet` registers both metrics afresh, so they have no children yet.
   */
  function Init(): (h: Hook)
    ensures h.startTime == 0
    ensures forall l :: Count(h, l) == 0 && Observations(h, l) == []
  {
    Hook(0, map[], map[])
  }

  /**
   The labels `after(sql)` records under: the HTTP method and path from the
   request context, each falling back to "no http context", and the query
   with its value lists collapsed.
   */
  function LabelsOf(sql: string, ctxMethod: Option<string>, ctxPath: Option<string>): (l: Labels)
    ensures ctxMethod.None? ==> l.httpMethod == NoHttpContext
    ensures ctxMethod.Some? ==> l.httpMethod == ctxMethod.value
    ensures ctxPath.None? ==> l.path == NoHttpContext
    ensures ctxPath.Some? ==> l.path == ctxPath.value
    ensures l.query == StripValues(sql)
  {
    Labels(OrElse(ctxMethod, NoHttpContext), OrElse(ctxPath, NoHttpContext), StripValues(sql))
  }

  /** `Optional.orElse`: the value present, or `other` when there is none. */
  function OrElse(o: Option<string>, other: string): string {
    match o
    case Some(v) => v
    case None => other
  }

  /** `before(String sql)`: remember the clock reading; the metrics are untouched. */
  function Before(h: Hook, sql: string, now: int): (r: Hook)
    ensures r.startTime == now
    ensures forall l :: Count(r, l) == Count(h, l) && Observations(r, l) == Observations(h, l)
  {
    h.(startTime := now)
  }

  /**
   `after(String sql)`: increment the counter of the label triple and give
   its summary one observation, the time elapsed since the last `before`.
   */
  function After(h: Hook, sql: string, now: int, ctxMethod: Option<string>, ctxPath: Option<string>): (r: Hook)
    ensures r.startTime == h.startTime
    ensures forall l :: Count(r, l) == Count(h, l) + (if l == LabelsOf(sql, ctxMethod, ctxPath) then 1 else 0)
    ensures forall l :: Observations(r, l) == Observations(h, l) + (if l == LabelsOf(sql, ctxMethod, ctxPath) then [now - h.startTime] else [])
  {
    var l := LabelsOf(sql, ctxMethod, ctxPath);
    h.(queriesTotal := h.queriesTotal[l := Count(h, l) + 1],
       queryDuration := h.queryDuration[l := Observations(h, l) + [now - h.startTime]])
  }

  /** The argument lists of the advice overloads; every one starts with `String sql`. */
  datatype Args =
    | Sql(sql: string)
    | SqlAutoGeneratedKeys(sql: string, autoGeneratedKeys: int)
    | SqlColumnIndexes(sql: string, columnIndexes: seq<int>)
    | SqlColumnNames(sql: string, columnNames: seq<string>)
    | SqlResultSet(sql: string, resultSetType: int, resultSetConcurrency: int)
    | SqlResultSetHoldability(sql: string, resultSetType: int, resultSetConcurrency: int, resultSetHoldability: int)

  /** The parameter list of the overload an argument list selects. */
  function ShapeOf(a: Args): Shape {
    match a
    case Sql(_) => S
    case SqlAutoGeneratedKeys(_, _) => SInt
    case SqlColumnIndexes(_, _) => SIntArr
    case SqlColumnNames(_, _) => SStrArr
    case SqlResultSet(_, _, _) => SIntInt
    case SqlResultSetHoldability(_, _, _, _) => SIntIntInt
  }

  /** The `before` overloads: each delegates to `before(sql)`. */
  function BeforeOverload(h: Hook, a: Args, now: int): Hook {
    match a
    case Sql(sql) => Before(h, sql, now)
    case SqlAutoGeneratedKeys(sql, _) => Before(h, sql, now)
    case SqlColumnIndexes(sql, _) => Before(h, sql, now)
    case SqlColumnNames(sql, _) => Before(h, sql, now)
    case SqlResultSet(sql, _, _) => Before(h, sql, now)
    case SqlResultSetHoldability(sql, _, _, _) => Before(h, sql, now)
  }

  /** The `after` overloads: each delegates to `after(sql)`. */
  function AfterOverload(h: Hook, a: Args, now: int, ctxMethod: Option<string>, ctxPath: Option<string>): Hook {
    match a
    case Sql(sql) => After(h, sql, now, ctxMethod, ctxPath)
    case SqlAutoGeneratedKeys(sql, _) => After(h, sql, now, ctxMethod, ctxPath)
    case SqlColumnIndexes(sql, _) => After(h, sql, now, ctxMethod, ctxPath)
    case SqlColumnNames(sql, _) => After(h, sql, now, ctxMethod, ctxPath)
    case SqlResultSet(sql, _, _) => After(h, sql, now, ctxMethod, ctxPath)
    case SqlResultSetHoldability(sql, _, _, _) => After(h, sql, now, ctxMethod, ctxPath)
  }

  /** Every overload acts as the one-argument advice on the same `sql`. */
  lemma OverloadsFanIn(h: Hook, a: Args, now: int, ctxMethod: Option<string>, ctxPath: Option<string>)
    ensures BeforeOverload(h, a, now) == Before(h, a.sql, now)
    ensures AfterOverload(h, a, now, ctxMethod, ctxPath) == After(h, a.sql, now, ctxMethod, ctxPath)
  {
  }

  /** The arguments after `sql` have no effect on the hook. */
  lemma ExtraArgumentsIgnored(h: Hook, a: Args, b: Args, now: int, ctxMethod: Option<string>, ctxPath: Option<string>)
    requires a.sql == b.sql
    ensures BeforeOverload(h, a, now) == BeforeOverload(h, b, now)
    ensures AfterOverload(h, a, now, ctxMethod, ctxPath) == AfterOverload(h, b, now, ctxMethod, ctxPath)
  {
  }

  /**
   `startTime` is one field, so a second `before` overwrites the first:
   before(a), before(b), after(a) measures from b's clock reading.
   */
  lemma SecondBeforeWins(h: Hook, a: string, b: string, t1: int, t2: int, t3: int, ctxMethod: Option<string>, ctxPath: Option<string>)
    ensures Observations(After(Before(Before(h, a, t1), b, t2), a, t3, ctxMethod, ctxPath), LabelsOf(a, ctxMethod, ctxPath))
         == Observations(h, LabelsOf(a, ctxMethod, ctxPath)) + [t3 - t2]
  {
  }

  /**
   One `before`/`after` pair counts once and records its own elapsed time
   under its labels, and leaves every other label triple alone.
   */
  lemma PairRecords(h: Hook, sql: string, start: int, end: int, ctxMethod: Option<string>, ctxPath: Option<string>, l: Labels)
    ensures Observations(After(Before(h, sql, start), sql, end, ctxMethod, ctxPath), l)
         == Observations(h, l) + (if l == LabelsOf(sql, ctxMethod, ctxPath) then [end - start] else [])
    ensures Count(After(Before(h, sql, start), sql, end, ctxMethod, ctxPath), l)
         == Count(h, l) + (if l == LabelsOf(sql, ctxMethod, ctxPath) then 1 else 0)
  {
  }
}
