/**
 * The immutable aspect builder (core/part/aspect/build/AspectBuilder.java) and the
 * read and write aspects it builds.
 *
 * Every builder step returns a new builder value. Lists are extended with
 * `Helpers.joinList(list, x)`, which appends `x` unless it is null; nullable
 * arguments are therefore `Option`s here. A step that throws in the source returns
 * `Err` with the source's message. Propagators, properties, activators and
 * deactivators are opaque: a propagator is any total function on the opaque
 * values that flow through an aspect.
 */
module AspectBuild {
  import opened Wrappers

  /** A value type, known to the builder only by its type name. */
  datatype ValueType = ValueType(typeName: string)

  /** Opaque aspect properties, part targets, variables, activators and deactivators. */
  datatype Properties = Properties(id: nat)
  datatype PartTarget = PartTarget(id: nat)
  datatype Variable = Variable(id: nat)
  datatype Activator = Activator(id: nat)
  datatype Deactivator = Deactivator(id: nat)

  /**
   * The values threaded through the propagators: the pair a reader starts from, the triple a
   * writer starts from, or a value some propagator produced.
   */
  datatype Output =
    | ReadInput(target: PartTarget, properties: Option<Properties>)
    | WriteInput(target: PartTarget, properties: Option<Properties>, variable: Variable)
    | Produced(id: nat)

  type Propagator = Output -> Output

  datatype AspectBuilder = AspectBuilder(
    read: bool,
    valueType: ValueType,
    kinds: seq<string>,
    defaultProperties: Option<Properties>,
    propagators: seq<Propagator>,
    activators: seq<Activator>,
    deactivators: seq<Deactivator>)

  /** `Helpers.joinList`: the list with `x` appended, or the list itself when `x` is null. */
  function JoinList<T>(l: seq<T>, x: Option<T>): (r: seq<T>)
    ensures |r| == |l| + (if x.Some? then 1 else 0)
    ensures r[..|l|] == l
    ensures x.Some? ==> r[|l|] == x.value
  {
    if x.Some? then l + [x.value] else l
  }

  // ---------------------------------------------------------------------------
  // The name of an aspect
  // ---------------------------------------------------------------------------

  /** The unlocalised type of an aspect: "." followed by each kind, in order. */
  function UnlocalizedType(kinds: seq<string>): string {
    if kinds == [] then "" else "." + kinds[0] + UnlocalizedType(kinds[1..])
  }

  /** The name of a longer list of kinds extends the name of the shorter one. */
  lemma {:induction false} UnlocalizedTypeConcat(a: seq<string>, b: seq<string>)
    ensures UnlocalizedType(a + b) == UnlocalizedType(a) + UnlocalizedType(b)
    decreases |a|
  {
    if a != [] {
      assert (a + b)[1..] == a[1..] + b;
      UnlocalizedTypeConcat(a[1..], b);
    } else {
      assert a + b == b;
    }
  }

  /** Appending one kind appends "." and the kind to the name. */
  lemma UnlocalizedTypeAppend(kinds: seq<string>, kind: string)
    ensures UnlocalizedType(kinds + [kind]) == UnlocalizedType(kinds) + "." + kind
  {
    UnlocalizedTypeConcat(kinds, [kind]);
    assert UnlocalizedType([kind]) == "." + kind + UnlocalizedType([]);
  }

  /** The name is one character longer than the kinds themselves for each kind, and starts with "." unless there is none. */
  lemma {:induction false} UnlocalizedTypeShape(kinds: seq<string>)
    ensures |UnlocalizedType(kinds)| == |kinds| + KindsLength(kinds)
    ensures kinds != [] ==> UnlocalizedType(kinds)[0] == '.'
  {
    if kinds != [] {
      UnlocalizedTypeShape(kinds[1..]);
    }
  }

  /** The total length of the kinds. */
  function KindsLength(kinds: seq<string>): nat {
    if kinds == [] then 0 else |kinds[0]| + KindsLength(kinds[1..])
  }

  /** `deriveUnlocalizedType`: appends "." and each kind to a string builder. */
  method DeriveUnlocalizedType(b: AspectBuilder) returns (name: string)
    ensures name == UnlocalizedType(b.kinds)
  {
    name := "";
    for i := 0 to |b.kinds|
      invariant name == UnlocalizedType(b.kinds[..i])
    {
      UnlocalizedTypeAppend(b.kinds[..i], b.kinds[i]);
      assert b.kinds[..i + 1] == b.kinds[..i] + [b.kinds[i]];
      name := name + "." + b.kinds[i];
    }
    assert b.kinds[..|b.kinds|] == b.kinds;
  }

  // ---------------------------------------------------------------------------
  // Value propagation
  // ---------------------------------------------------------------------------

  /** The output of the propagators applied in order, each to the output of the previous one. */
  function Propagate(ps: seq<Propagator>, input: Output): Output {
    if ps == [] then input else Propagate(ps[1..], ps[0](input))
  }

  /** Propagating through two lists one after the other is propagating through their concatenation. */
  lemma {:induction false} PropagateConcat(ps: seq<Propagator>, qs: seq<Propagator>, input: Output)
    ensures Propagate(ps + qs, input) == Propagate(qs, Propagate(ps, input))
    decreases |ps|
  {
    if ps != [] {
      assert (ps + qs)[1..] == ps[1..] + qs;
      PropagateConcat(ps[1..], qs, ps[0](input));
    } else {
      assert ps + qs == qs;
    }
  }

  /** A propagator appended last is applied last. */
  lemma PropagateAppend(ps: seq<Propagator>, p: Propagator, input: Output)
    ensures Propagate(ps + [p], input) == p(Propagate(ps, input))
  {
    PropagateConcat(ps, [p], input);
  }

  // ---------------------------------------------------------------------------
  // The builder
  // ---------------------------------------------------------------------------

  /** `forReadType`: a read builder whose only kind is the type name, with nothing else set. */
  function ForReadType(t: ValueType): (b: AspectBuilder)
    ensures b.read && b.valueType == t && b.kinds == [t.typeName] && b.defaultProperties.None?
    ensures b.propagators == [] && b.activators == [] && b.deactivators == []
  {
    AspectBuilder(true, t, [t.typeName], None, [], [], [])
  }

  /** `forWriteType`: a write builder whose only kind is the type name, with nothing else set. */
  function ForWriteType(t: ValueType): (b: AspectBuilder)
    ensures !b.read && b.valueType == t && b.kinds == [t.typeName] && b.defaultProperties.None?
    ensures b.propagators == [] && b.activators == [] && b.deactivators == []
  {
    AspectBuilder(false, t, [t.typeName], None, [], [], [])
  }

  /** `handle(p, kind)`: appends the propagator and, when given, the kind; the name grows by "." + kind. */
  function HandleWithKind(b: AspectBuilder, p: Option<Propagator>, kind: Option<string>): (r: AspectBuilder)
    ensures r.read == b.read && r.valueType == b.valueType && r.defaultProperties == b.defaultProperties
    ensures r.kinds == JoinList(b.kinds, kind) && r.propagators == JoinList(b.propagators, p)
    ensures r.activators == b.activators && r.deactivators == b.deactivators
    ensures UnlocalizedType(r.kinds) == UnlocalizedType(b.kinds) + (if kind.Some? then "." + kind.value else "")
    ensures p.Some? ==> forall x :: Propagate(r.propagators, x) == p.value(Propagate(b.propagators, x))
  {
    var r := AspectBuilder(b.read, b.valueType, JoinList(b.kinds, kind), b.defaultProperties,
                           JoinList(b.propagators, p), JoinList(b.activators, None), JoinList(b.deactivators, None));
    assert UnlocalizedType(r.kinds) == UnlocalizedType(b.kinds) + (if kind.Some? then "." + kind.value else "") by {
      if kind.Some? {
        UnlocalizedTypeAppend(b.kinds, kind.value);
      }
    }
    assert p.Some? ==> forall x :: Propagate(r.propagators, x) == p.value(Propagate(b.propagators, x)) by {
      if p.Some? {
        forall x
          ensures Propagate(r.propagators, x) == p.value(Propagate(b.propagators, x))
        {
          PropagateAppend(b.propagators, p.value, x);
        }
      }
    }
    r
  }

  /** `handle(p)`: appends the propagator and leaves the kinds, and so the name, unchanged. */
  function Handle(b: AspectBuilder, p: Option<Propagator>): (r: AspectBuilder)
    ensures r.read == b.read && r.valueType == b.valueType && r.defaultProperties == b.defaultProperties
    ensures r.kinds == b.kinds && r.propagators == JoinList(b.propagators, p)
    ensures r.activators == b.activators && r.deactivators == b.deactivators
  {
    HandleWithKind(b, p, None)
  }

  /** `appendKind`: appends the kind, so that the name grows by "." + kind; nothing else changes. */
  function AppendKind(b: AspectBuilder, kind: Option<string>): (r: AspectBuilder)
    ensures r == b.(kinds := JoinList(b.kinds, kind))
    ensures UnlocalizedType(r.kinds) == UnlocalizedType(b.kinds) + (if kind.Some? then "." + kind.value else "")
  {
    var r := AspectBuilder(b.read, b.valueType, JoinList(b.kinds, kind), b.defaultProperties,
                           JoinList(b.propagators, None), JoinList(b.activators, None), JoinList(b.deactivators, None));
    assert UnlocalizedType(r.kinds) == UnlocalizedType(b.kinds) + (if kind.Some? then "." + kind.value else "") by {
      if kind.Some? {
        UnlocalizedTypeAppend(b.kinds, kind.value);
      }
    }
    r
  }

  /** `withProperties`: replaces the default properties (possibly by null) and nothing else. */
  function WithProperties(b: AspectBuilder, properties: Option<Properties>): (r: AspectBuilder)
    ensures r == b.(defaultProperties := properties)
  {
    AspectBuilder(b.read, b.valueType, JoinList(b.kinds, None), properties,
                  JoinList(b.propagators, None), JoinList(b.activators, None), JoinList(b.deactivators, None))
  }

  const ActivatorOnReader := "Activators are only applicable for writers."
  const DeactivatorOnReader := "Deactivators are only applicable for writers."
  const ReaderFromWriter := "Tried to build a reader from a writer builder"
  const WriterFromReader := "Tried to build a writer from a reader builder"

  /** `appendActivator`: fails on a read builder; on a write builder appends the activator and nothing else. */
  function AppendActivator(b: AspectBuilder, a: Option<Activator>): (r: Result<AspectBuilder>)
    ensures r.Err? <==> b.read
    ensures r.Err? ==> r.message == ActivatorOnReader
    ensures r.Ok? ==> r.value == b.(activators := JoinList(b.activators, a))
  {
    if b.read then Err(ActivatorOnReader)
    else Ok(AspectBuilder(b.read, b.valueType, JoinList(b.kinds, None), b.defaultProperties,
                          JoinList(b.propagators, None), JoinList(b.activators, a), JoinList(b.deactivators, None)))
  }

  /** `appendDeactivator`: fails on a read builder; on a write builder appends the deactivator and nothing else. */
  function AppendDeactivator(b: AspectBuilder, d: Option<Deactivator>): (r: Result<AspectBuilder>)
    ensures r.Err? <==> b.read
    ensures r.Err? ==> r.message == DeactivatorOnReader
    ensures r.Ok? ==> r.value == b.(deactivators := JoinList(b.deactivators, d))
  {
    if b.read then Err(DeactivatorOnReader)
    else Ok(AspectBuilder(b.read, b.valueType, JoinList(b.kinds, None), b.defaultProperties,
                          JoinList(b.propagators, None), JoinList(b.activators, None), JoinList(b.deactivators, d)))
  }

  // ---------------------------------------------------------------------------
  // Built aspects
  // ---------------------------------------------------------------------------

  /** A built read aspect: its name and default properties, its value type and its propagators. */
  datatype Reader = Reader(
    unlocalizedType: string, defaultProperties: Option<Properties>,
    valueType: ValueType, propagators: seq<Propagator>)

  /** A built write aspect: as a reader, plus the activators and deactivators. */
  datatype Writer = Writer(
    unlocalizedType: string, defaultProperties: Option<Properties>,
    valueType: ValueType, propagators: seq<Propagator>,
    activators: seq<Activator>, deactivators: seq<Deactivator>)

  /** `buildRead`: fails exactly on a write builder; otherwise an aspect named after the kinds, keeping the builder's parts. */
  function BuildRead(b: AspectBuilder): (r: Result<Reader>)
    ensures r.Err? <==> !b.read
    ensures r.Err? ==> r.message == ReaderFromWriter
    ensures r.Ok? ==> r.value.unlocalizedType == UnlocalizedType(b.kinds) && r.value.defaultProperties == b.defaultProperties
    ensures r.Ok? ==> r.value.valueType == b.valueType && r.value.propagators == b.propagators
  {
    if !b.read then Err(ReaderFromWriter)
    else Ok(Reader(UnlocalizedType(b.kinds), b.defaultProperties, b.valueType, b.propagators))
  }

  /** `buildWrite`: fails exactly on a read builder; otherwise an aspect named after the kinds, keeping the builder's parts. */
  function BuildWrite(b: AspectBuilder): (r: Result<Writer>)
    ensures r.Err? <==> b.read
    ensures r.Err? ==> r.message == WriterFromReader
    ensures r.Ok? ==> r.value.unlocalizedType == UnlocalizedType(b.kinds) && r.value.defaultProperties == b.defaultProperties
    ensures r.Ok? ==> r.value.valueType == b.valueType && r.value.propagators == b.propagators
    ensures r.Ok? ==> r.value.activators == b.activators && r.value.deactivators == b.deactivators
  {
    if b.read then Err(WriterFromReader)
    else Ok(Writer(UnlocalizedType(b.kinds), b.defaultProperties, b.valueType, b.propagators, b.activators, b.deactivators))
  }

  /** A reader or writer built straight from `forReadType(t)` / `forWriteType(t)` is named "." + the type name. */
  lemma FreshAspectName(t: ValueType)
    ensures BuildRead(ForReadType(t)) == Ok(Reader("." + t.typeName, None, t, []))
    ensures BuildWrite(ForWriteType(t)) == Ok(Writer("." + t.typeName, None, t, [], [], []))
  {
    assert [t.typeName][1..] == [];
    assert "." + t.typeName + "" == "." + t.typeName;
    assert UnlocalizedType([t.typeName]) == "." + t.typeName;
  }

  /** `BuiltReader.getValue`: threads the (target, properties) pair through the propagators in order. */
  method GetValue(reader: Reader, target: PartTarget, properties: Option<Properties>) returns (value: Output)
    ensures value == Propagate(reader.propagators, ReadInput(target, properties))
  {
    var ps := reader.propagators;
    value := ReadInput(target, properties);
    for i := 0 to |ps|
      invariant value == Propagate(ps[..i], ReadInput(target, properties))
    {
      PropagateAppend(ps[..i], ps[i], ReadInput(target, properties));
      assert ps[..i + 1] == ps[..i] + [ps[i]];
      value := ps[i](value);
    }
    assert ps[..|ps|] == ps;
  }

  /**
   * `BuiltWriter.write`: threads the (target, properties, variable) triple through the propagators
   * in order; the final output is returned here, where the source drops it.
   */
  method Write(writer: Writer, target: PartTarget, properties: Option<Properties>, variable: Variable) returns (output: Output)
    ensures output == Propagate(writer.propagators, WriteInput(target, properties, variable))
  {
    var ps := writer.propagators;
    output := WriteInput(target, properties, variable);
    for i := 0 to |ps|
      invariant output == Propagate(ps[..i], WriteInput(target, properties, variable))
    {
      PropagateAppend(ps[..i], ps[i], WriteInput(target, properties, variable));
      assert ps[..i + 1] == ps[..i] + [ps[i]];
      output := ps[i](output);
    }
    assert ps[..|ps|] == ps;
  }

  // ---------------------------------------------------------------------------
  // Chains of builder steps
  // ---------------------------------------------------------------------------

  /** One builder step, with its (nullable) argument. */
  datatype Step =
    | HandleStep(propagator: Option<Propagator>, kind: Option<string>)
    | KindStep(kind: Option<string>)
    | PropertiesStep(properties: Option<Properties>)
    | ActivatorStep(activator: Option<Activator>)
    | DeactivatorStep(deactivator: Option<Deactivator>)

  /** The steps that only a write builder accepts. */
  predicate WriterOnly(s: Step) {
    s.ActivatorStep? || s.DeactivatorStep?
  }

  function Apply(b: AspectBuilder, s: Step): Result<AspectBuilder> {
    match s
    case HandleStep(p, k) => Ok(HandleWithKind(b, p, k))
    case KindStep(k) => Ok(AppendKind(b, k))
    case PropertiesStep(ps) => Ok(WithProperties(b, ps))
    case ActivatorStep(a) => AppendActivator(b, a)
    case DeactivatorStep(d) => AppendDeactivator(b, d)
  }

  /** The steps applied in order; the first step that throws ends the chain with its error. */
  function ApplyAll(b: AspectBuilder, steps: seq<Step>): Result<AspectBuilder>
    decreases |steps|
  {
    if steps == [] then Ok(b)
    else match Apply(b, steps[0])
      case Err(m) => Err(m)
      case Ok(next) => ApplyAll(next, steps[1..])
  }

  /** The kind a step appends, if any. */
  function StepKind(s: Step): Option<string> {
    if s.HandleStep? || s.KindStep? then s.kind else None
  }

  /** The propagator a step appends, if any. */
  function StepPropagator(s: Step): Option<Propagator> {
    if s.HandleStep? then s.propagator else None
  }

  /** The kinds the steps append, in order. */
  function KindsOf(steps: seq<Step>): seq<string> {
    if steps == [] then [] else JoinList([], StepKind(steps[0])) + KindsOf(steps[1..])
  }

  /** The propagators the steps append, in order. */
  function PropagatorsOf(steps: seq<Step>): seq<Propagator> {
    if steps == [] then [] else JoinList([], StepPropagator(steps[0])) + PropagatorsOf(steps[1..])
  }

  /** A step that succeeds keeps the role and the value type and appends its own kind and propagator. */
  lemma ApplyOne(b: AspectBuilder, s: Step)
    requires Apply(b, s).Ok?
    ensures Apply(b, s).value.read == b.read && Apply(b, s).value.valueType == b.valueType
    ensures Apply(b, s).value.kinds == b.kinds + JoinList([], StepKind(s))
    ensures Apply(b, s).value.propagators == b.propagators + JoinList([], StepPropagator(s))
  {
  }

  /** Concatenation is associative; stated on its own so that the solver sees it without the context of the chain lemmas. */
  lemma ConcatAssoc<T>(a: seq<T>, b: seq<T>, c: seq<T>)
    ensures a + (b + c) == (a + b) + c
  {
  }

  /** A chain of steps that succeeds keeps the role and the value type and appends the kinds and propagators of its steps. */
  lemma {:induction false} ApplyAllAccumulates(b: AspectBuilder, steps: seq<Step>)
    requires ApplyAll(b, steps).Ok?
    ensures ApplyAll(b, steps).value.read == b.read && ApplyAll(b, steps).value.valueType == b.valueType
    ensures ApplyAll(b, steps).value.kinds == b.kinds + KindsOf(steps)
    ensures ApplyAll(b, steps).value.propagators == b.propagators + PropagatorsOf(steps)
    decreases |steps|
  {
    if steps == [] {
      assert b.kinds + [] == b.kinds && b.propagators + [] == b.propagators;
    } else {
      var next := Apply(b, steps[0]).value;
      assert ApplyAll(b, steps) == ApplyAll(next, steps[1..]);
      ApplyOne(b, steps[0]);
      ApplyAllAccumulates(next, steps[1..]);
      var ks, ps := JoinList([], StepKind(steps[0])), JoinList([], StepPropagator(steps[0]));
      assert KindsOf(steps) == ks + KindsOf(steps[1..]);
      ConcatAssoc(b.kinds, ks, KindsOf(steps[1..]));
      assert PropagatorsOf(steps) == ps + PropagatorsOf(steps[1..]);
      ConcatAssoc(b.propagators, ps, PropagatorsOf(steps[1..]));
    }
  }

  /**
   * The aspect a successful chain of steps leads to is named by the starting name followed by the
   * kinds of the steps, and propagates through the starting propagators and then those of the steps.
   */
  lemma ApplyAllExtends(b: AspectBuilder, steps: seq<Step>, x: Output)
    requires ApplyAll(b, steps).Ok?
    ensures UnlocalizedType(ApplyAll(b, steps).value.kinds) == UnlocalizedType(b.kinds) + UnlocalizedType(KindsOf(steps))
    ensures Propagate(ApplyAll(b, steps).value.propagators, x) == Propagate(PropagatorsOf(steps), Propagate(b.propagators, x))
  {
    ApplyAllAccumulates(b, steps);
    UnlocalizedTypeConcat(b.kinds, KindsOf(steps));
    PropagateConcat(b.propagators, PropagatorsOf(steps), x);
  }

  /** A chain of steps fails exactly when the builder is a reader and some step is an activator or deactivator. */
  lemma {:induction false} ApplyAllFails(b: AspectBuilder, steps: seq<Step>)
    ensures ApplyAll(b, steps).Err? <==> b.read && exists i :: 0 <= i < |steps| && WriterOnly(steps[i])
    decreases |steps|
  {
    if steps != [] {
      match Apply(b, steps[0])
      case Err(_) =>
        assert WriterOnly(steps[0]);
      case Ok(next) =>
        assert next.read == b.read && !(b.read && WriterOnly(steps[0]));
        ApplyAllFails(next, steps[1..]);
        if b.read && exists i :: 0 <= i < |steps| && WriterOnly(steps[i]) {
          var i :| 0 <= i < |steps| && WriterOnly(steps[i]);
          assert i > 0 && WriterOnly(steps[1..][i - 1]);
        }
        if exists j :: 0 <= j < |steps[1..]| && WriterOnly(steps[1..][j]) {
          var j :| 0 <= j < |steps[1..]| && WriterOnly(steps[1..][j]);
          assert WriterOnly(steps[j + 1]);
        }
    }
  }
}
