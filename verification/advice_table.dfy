/**
 The static advice table of JdbcHook: which intercepted JDBC calls the
 weaver routes to which `before`/`after` overload. Each overload is
 identified by its phase and by the parameter list after the leading
 `String sql`; its annotation lists the JDBC method names it advises.
 */
module AdviceTable {

  /** Which annotation an overload carries. */
  datatype Phase = BeforeAdvice | AfterAdvice

  /**
   Parameter list of an advice overload after `String sql`:
   (), (int), (int[]), (String[]), (int, int), (int, int, int).
   */
  datatype Shape = S | SInt | SIntArr | SStrArr | SIntInt | SIntIntInt

  /** One annotated overload: `@Before(method = {...})` or `@After(method = {...})`. */
  datatype Binding = Binding(phase: Phase, shape: Shape, methods: seq<string>)

  /** An intercepted call as the weaver sees it. */
  datatype Call = Call(target: string, name: string, shape: Shape)

  /** The interfaces named in `@Hook(instruments = ...)`. */
  const Instruments: set<string> := {"java.sql.Statement", "java.sql.Connection"}

  /** The annotated overloads in declaration order. */
  const Bindings: seq<Binding> := [
    Binding(BeforeAdvice, S, ["execute", "executeQuery", "executeUpdate", "executeLargeUpdate", "prepareStatement", "prepareCall"]),
    Binding(BeforeAdvice, SInt, ["execute", "executeUpdate", "executeLargeUpdate", "prepareStatement"]),
    Binding(BeforeAdvice, SIntArr, ["execute", "executeUpdate", "executeLargeUpdate", "prepareStatement"]),
    Binding(BeforeAdvice, SStrArr, ["execute", "executeUpdate", "executeLargeUpdate", "prepareStatement"]),
    Binding(BeforeAdvice, SIntInt, ["prepareStatement", "prepareCall"]),
    Binding(BeforeAdvice, SIntIntInt, ["prepareStatement", "prepareCall"]),
    Binding(AfterAdvice, S, ["execute", "executeQuery", "executeUpdate", "executeLargeUpdate", "prepareStatement", "prepareCall"]),
    Binding(AfterAdvice, SInt, ["execute", "executeUpdate", "executeLargeUpdate", "prepareStatement"]),
    Binding(AfterAdvice, SIntArr, ["execute", "executeUpdate", "executeLargeUpdate", "prepareStatement"]),
    Binding(AfterAdvice, SStrArr, ["execute", "executeUpdate", "executeLargeUpdate", "prepareStatement"]),
    Binding(AfterAdvice, SIntInt, ["prepareStatement", "prepareCall"]),
    Binding(AfterAdvice, SIntIntInt, ["prepareStatement", "prepareCall"])
  ]

  /** The binding advises the call in this phase: an exact match on name and parameter list. */
  predicate Advises(b: Binding, phase: Phase, call: Call) {
    b.phase == phase && b.shape == call.shape && call.name in b.methods
  }

  /**
   The indices, in declaration order, of the bindings of `table` that advise
   `call` in `phase`; none when the call's type is not instrumented.
   */
  function Dispatch(table: seq<Binding>, phase: Phase, call: Call): (r: seq<nat>)
    ensures forall i :: i in r <==> 0 <= i < |table| && call.target in Instruments && Advises(table[i], phase, call)
    ensures forall j, k :: 0 <= j < k < |r| ==> r[j] < r[k]
  {
    if call.target !in Instruments then [] else DispatchFrom(table, phase, call, 0)
  }

  /** Dispatch restricted to the bindings from index `from` on. */
  function DispatchFrom(table: seq<Binding>, phase: Phase, call: Call, from: nat): (r: seq<nat>)
    requires from <= |table|
    ensures forall i :: i in r <==> from <= i < |table| && Advises(table[i], phase, call)
    ensures forall j, k :: 0 <= j < k < |r| ==> r[j] < r[k]
    decreases |table| - from
  {
    if from == |table| then []
    else if Advises(table[from], phase, call) then
      var rest := DispatchFrom(table, phase, call, from + 1);
      assert forall k :: 0 <= k < |rest| ==> rest[k] in rest;
      [from] + rest
    else DispatchFrom(table, phase, call, from + 1)
  }

  /** No two overloads of the same phase have the same parameter list. */
  predicate Unambiguous(table: seq<Binding>) {
    forall i, j :: 0 <= i < j < |table| && table[i].phase == table[j].phase ==> table[i].shape != table[j].shape
  }

  /** The JDBC method names advised in `phase` by the overload with parameter list `shape`. */
  function AdvisedMethods(table: seq<Binding>, phase: Phase, shape: Shape): set<string> {
    set i, m | 0 <= i < |table| && table[i].phase == phase && table[i].shape == shape && m in table[i].methods :: m
  }

  /** Where no binding from `from` on advises the call, none is dispatched. */
  lemma {:induction false} DispatchFromNone(table: seq<Binding>, phase: Phase, call: Call, from: nat)
    requires from <= |table|
    requires forall i | from <= i < |table| :: !Advises(table[i], phase, call)
    ensures DispatchFrom(table, phase, call, from) == []
    decreases |table| - from
  {
    if from < |table| {
      DispatchFromNone(table, phase, call, from + 1);
    }
  }

  /** In an unambiguous table at most one binding from `from` on advises a call. */
  lemma {:induction false} DispatchFromAtMostOne(table: seq<Binding>, phase: Phase, call: Call, from: nat)
    requires from <= |table| && Unambiguous(table)
    ensures |DispatchFrom(table, phase, call, from)| <= 1
    decreases |table| - from
  {
    if from < |table| {
      if Advises(table[from], phase, call) {
        DispatchFromNone(table, phase, call, from + 1);
      } else {
        DispatchFromAtMostOne(table, phase, call, from + 1);
      }
    }
  }

  /** In an unambiguous table at most one overload advises any call. */
  lemma DispatchAtMostOne(table: seq<Binding>, phase: Phase, call: Call)
    requires Unambiguous(table)
    ensures |Dispatch(table, phase, call)| <= 1
  {
    if call.target in Instruments {
      DispatchFromAtMostOne(table, phase, call, 0);
    }
  }

  /** The declared overloads never share a phase and a parameter list. */
  lemma TableUnambiguous()
    ensures Unambiguous(Bindings)
  {
  }

  /** Reference reading of the annotations: the JDBC methods each parameter list serves. */
  function ShapeMethods(shape: Shape): set<string> {
    match shape
    case S => {"execute", "executeQuery", "executeUpdate", "executeLargeUpdate", "prepareStatement", "prepareCall"}
    case SInt | SIntArr | SStrArr => {"execute", "executeUpdate", "executeLargeUpdate", "prepareStatement"}
    case SIntInt | SIntIntInt => {"prepareStatement", "prepareCall"}
  }

  /** In an unambiguous table the advised methods are those of the one matching overload. */
  lemma AdvisedMethodsOfBinding(table: seq<Binding>, i: nat, phase: Phase, shape: Shape)
    requires Unambiguous(table)
    requires i < |table| && table[i].phase == phase && table[i].shape == shape
    ensures AdvisedMethods(table, phase, shape) == set m | m in table[i].methods
  {
  }

  /** Position in the table of the overload of `phase` with parameter list `shape`. */
  function BindingIndex(phase: Phase, shape: Shape): (i: nat)
    ensures i < |Bindings| && Bindings[i].phase == phase && Bindings[i].shape == shape
  {
    (if phase == BeforeAdvice then 0 else 6) +
    (match shape
     case S => 0
     case SInt => 1
     case SIntArr => 2
     case SStrArr => 3
     case SIntInt => 4
     case SIntIntInt => 5)
  }

  /** Both phases of the table advise exactly the reference methods for each parameter list. */
  lemma TableMatchesReference(phase: Phase, shape: Shape)
    ensures AdvisedMethods(Bindings, phase, shape) == ShapeMethods(shape)
  {
    TableUnambiguous();
    AdvisedMethodsOfBinding(Bindings, BindingIndex(phase, shape), phase, shape);
  }

  /** For every parameter list, `@Before` and `@After` name the same JDBC methods. */
  lemma TableSymmetric(shape: Shape)
    ensures AdvisedMethods(Bindings, BeforeAdvice, shape) == AdvisedMethods(Bindings, AfterAdvice, shape)
  {
    TableMatchesReference(BeforeAdvice, shape);
    TableMatchesReference(AfterAdvice, shape);
  }

  /** `executeQuery` is advised only through the one-argument overloads. */
  lemma ExecuteQueryOnlyPlain(phase: Phase, shape: Shape)
    ensures "executeQuery" in AdvisedMethods(Bindings, phase, shape) <==> shape == S
  {
    TableMatchesReference(phase, shape);
  }

  /** `prepareCall` is advised only through the (String), (String, int, int) and (String, int, int, int) overloads. */
  lemma PrepareCallShapes(phase: Phase, shape: Shape)
    ensures "prepareCall" in AdvisedMethods(Bindings, phase, shape) <==> shape == S || shape == SIntInt || shape == SIntIntInt
  {
    TableMatchesReference(phase, shape);
  }

  /**
   An intercepted call gets exactly one advice in each phase when its type is
   instrumented and its name is listed for its parameter list, and none otherwise.
   */
  lemma DispatchTable(phase: Phase, call: Call)
    ensures |Dispatch(Bindings, phase, call)| == if call.target in Instruments && call.name in ShapeMethods(call.shape) then 1 else 0
  {
    TableUnambiguous();
    DispatchAtMostOne(Bindings, phase, call);
    var i := BindingIndex(phase, call.shape);
    TableMatchesReference(phase, call.shape);
    AdvisedMethodsOfBinding(Bindings, i, phase, call.shape);
    if call.target in Instruments {
      if call.name in ShapeMethods(call.shape) {
        assert i in Dispatch(Bindings, phase, call);
      } else {
        DispatchFromNone(Bindings, phase, call, 0);
      }
    }
  }
}
