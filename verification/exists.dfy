/** The `@Exists` constraint (`ExistsConstraint`): an identifier argument or
    input field must name an entity the store holds.

    A rule run resolves the targeted domain class from the directive
    attached to the environment (explicit class name, else search path plus
    `name`, else search path plus the name of the field's output type),
    classifies the validated value (one string identifier, a collection of
    string identifiers, anything else), asks the store, and turns the
    outcome into an empty or a one-element error list.

    Class loading (`Class.forName`) is a lookup in a finite registry from
    fully qualified class names to domain classes; the store is the value of
    its two tables. Java's `NullPointerException` and the
    `GraphQLException` raised for an unknown class are the two `Fault`s a
    rule run can throw. */
module Exists {
  import opened Results
  import opened Store
  import opened Batchable

  /** The directive name the constraint answers to (`super("Exists")`). */
  const ConstraintName: string := "Exists"

  const MessageTemplate: string := "the.oronco.graphqldynamicupdate.validation.Exists.message"

  const DefaultClassSearchPath: string := "the.oronco.graphqldynamicupdate.codegen.types."

  /** Why a value fails the constraint. */
  datatype ExistError = MissingIDs(missingIDs: seq<string>) | UnknownInput(input: Value)

  /** What a rule run can throw: a `NullPointerException`, or the
      `GraphQLException` for a class name the registry does not know. */
  datatype Fault = NullPointer | DomainClassNotFound

  /** The `value` an error reports: the validated value itself, or for an
      unrecognised input the `UnknownInput` record wrapping it. */
  datatype ReportedValue = ValidatedValue(value: Value) | UnknownInputRecord(input: Value)

  /** One structured validation error (`mkError`), with the three message
      parameters `value`, `name` and `missingIDs`. */
  datatype ValidationError = ValidationError(messageTemplate: string, value: ReportedValue, name: string,
                                             missingIDs: seq<string>)

  /** The constraint's two final fields, and the class registry standing in
      for the class loader. */
  datatype ExistsConstraint = ExistsConstraint(store: Tables, registry: map<string, DomainClass>, searchPath: string)

  predicate EndsWithSeparator(p: string) {
    p != [] && p[|p| - 1] == '.'
  }

  /** The search path as stored: a `.` appended when missing. */
  function NormalizeSearchPath(p: string): (r: string)
    ensures EndsWithSeparator(r)
    ensures p <= r && |r| <= |p| + 1
    ensures EndsWithSeparator(p) <==> r == p
  {
    if EndsWithSeparator(p) then p else p + "."
  }

  lemma NormalizeSearchPathIdempotent(p: string)
    ensures NormalizeSearchPath(NormalizeSearchPath(p)) == NormalizeSearchPath(p)
  {
  }

  /** `new ExistsConstraint(store, defaultClassSearchPath)`. */
  function Create(store: Tables, registry: map<string, DomainClass>, searchPath: string): (r: ExistsConstraint)
    ensures r.store == store && r.registry == registry
    ensures EndsWithSeparator(r.searchPath) && searchPath <= r.searchPath && |r.searchPath| <= |searchPath| + 1
    ensures EndsWithSeparator(searchPath) <==> r.searchPath == searchPath
    ensures r.searchPath == NormalizeSearchPath(searchPath)
  {
    ExistsConstraint(store, registry, NormalizeSearchPath(searchPath))
  }

  /** `new ExistsConstraint(store)`: the default search path is kept as is. */
  function CreateDefault(store: Tables, registry: map<string, DomainClass>): (r: ExistsConstraint)
    ensures r.searchPath == DefaultClassSearchPath
    ensures r.store == store && r.registry == registry
  {
    Create(store, registry, DefaultClassSearchPath)
  }

  /** The constraint as the engine sees it: it batches list elements. */
  function AsConstraint(): (r: Constraint)
    ensures r.name == ConstraintName && r.appliesToListElements
  {
    Constraint(ConstraintName, true)
  }

  /** A directive argument's value, `None` when it has none. */
  function Argument(d: Directive, key: string): (r: Option<string>)
    ensures r.Some? <==> key in d.arguments
    ensures r.Some? ==> r.value == d.arguments[key]
  {
    if key in d.arguments then Some(d.arguments[key]) else None
  }

  // ---------------------------------------------------------------------
  // Domain-class resolution

  /** The class name `getDomainClass` hands to the class loader: the
      explicit class name, else the search path plus the `name` argument,
      else the search path plus the output type's name when that type is a
      named type; `None` (Java's `null`) when no source applies. */
  function ClassName(searchPath: string, domainClass: Option<string>, name: Option<string>,
                     outputType: GraphQLType): (r: Option<string>)
    ensures r.None? <==> domainClass.None? && name.None? && !outputType.NamedType?
    ensures domainClass.Some? ==> r == domainClass
    ensures domainClass.None? && r.Some? ==> searchPath <= r.value
    ensures domainClass.None? && name.Some? ==> r.value[|searchPath|..] == name.value
    ensures domainClass.None? && name.None? && r.Some? ==> r.value[|searchPath|..] == outputType.name
  {
    if domainClass.Some? then domainClass
    else if name.Some? then Some(searchPath + name.value)
    else if outputType.NamedType? then Some(searchPath + outputType.name)
    else None
  }

  /** `getDomainClass`: loading a null class name throws a
      `NullPointerException`, an unknown one the fatal `GraphQLException`. */
  function GetDomainClass(c: ExistsConstraint, domainClass: Option<string>, name: Option<string>,
                          outputType: GraphQLType): (r: Completion<DomainClass, Fault>)
    ensures var n := ClassName(c.searchPath, domainClass, name, outputType);
      && (r.Returns? <==> n.Some? && n.value in c.registry)
      && (r.Returns? ==> r.value == c.registry[n.value])
      && (r == Throws(NullPointer) <==> n.None?)
  {
    match ClassName(c.searchPath, domainClass, name, outputType)
    case None => Throws(NullPointer)
    case Some(n) => if n in c.registry then Returns(c.registry[n]) else Throws(DomainClassNotFound)
  }

  /** `Class.getSimpleName` of a domain class: the class name without its
      package, so an entity class's simple name has no separator. */
  function SimpleName(cls: DomainClass): (r: string)
    ensures !cls.OtherClass? ==> r != [] && '.' !in r
    ensures cls.OtherClass? ==> r == cls.simpleName
  {
    match cls
    case ProductClass => "Product"
    case MaterialClass => "Material"
    case OtherClass(n) => n
  }

  // ---------------------------------------------------------------------
  // Classifying and checking the value

  predicate AllStrings(vs: seq<Value>) {
    forall i | 0 <= i < |vs| :: vs[i].StringValue?
  }

  function Strings(vs: seq<Value>): (r: seq<string>)
    requires AllStrings(vs)
    ensures |r| == |vs| && forall i | 0 <= i < |vs| :: vs[i] == StringValue(r[i])
  {
    seq(|vs|, i requires 0 <= i < |vs| => vs[i].s)
  }

  /** The identifiers a value carries, in order: one for a string, all of
      them for a collection of strings, none for any other value. */
  function Ids(v: Value): (r: Option<seq<string>>)
    ensures v.StringValue? ==> r == Some([v.s])
    ensures r.Some? ==> v.StringValue? || (v.ListValue? && |r.value| == |v.elements|)
    ensures v.ListValue? ==> (r.Some? <==> AllStrings(v.elements))
    ensures v.ListValue? && AllStrings(v.elements) ==> r == Some(Strings(v.elements))
    ensures !v.StringValue? && !v.ListValue? ==> r.None?
  {
    match v
    case StringValue(s) => Some([s])
    case ListValue(vs) => if AllStrings(vs) then Some(Strings(vs)) else None
    case _ => None
  }

  /** The `switch` over the validated value: a string is looked up on its
      own, a collection of strings in one batched call, anything else is
      unknown input; switching over `null` throws. */
  function CheckValue(store: Tables, v: Value, cls: DomainClass): (r: Completion<Result<Good, ExistError>, Fault>)
    ensures r.Throws? <==> v.Null?
    ensures r.Throws? ==> r.exception == NullPointer
    ensures !v.Null? && Ids(v).None? ==> r == Returns(Err(UnknownInput(v)))
    ensures Ids(v).Some? ==> var ids := Ids(v).value;
      && r.Returns?
      && (r.value.Ok? <==> forall i | 0 <= i < |ids| :: store.DomainObjectsExistsByIdAndClass(ids[i], cls))
      && (r.value.Err? ==> r.value.error == MissingIDs(store.NonExistingIds(ids, cls)) && r.value.error.missingIDs != [])
  {
    match v
    case Null => Throws(NullPointer)
    case StringValue(id) =>
      BatchAgreesWithSingle(store, id, cls);
      if store.DomainObjectsExistsByIdAndClass(id, cls) then Returns(GoodResult())
      else Returns(Err(MissingIDs([id])))
    case ListValue(vs) =>
      if AllStrings(vs) then Returns(store.DomainObjectsExistByIdsAndClass(Strings(vs), cls).MapErr(ids => MissingIDs(ids)))
      else Returns(Err(UnknownInput(v)))
    case _ => Returns(Err(UnknownInput(v)))
  }

  /** The display name: the `name` argument, else the class's simple name. */
  function DisplayName(name: Option<string>, cls: DomainClass): (r: string)
    ensures name.Some? ==> r == name.value
    ensures name.None? ==> r == SimpleName(cls)
  {
    if name.Some? then name.value else SimpleName(cls)
  }

  /** The final `switch`: no error for `Ok`, one error for `Err`. */
  function ToErrors(result: Result<Good, ExistError>, v: Value, name: string): (r: seq<ValidationError>)
    ensures result.Ok? <==> r == []
    ensures |r| <= 1
    ensures result.Err? ==> r[0].messageTemplate == MessageTemplate && r[0].name == name
    ensures result.Err? && result.error.MissingIDs? ==>
              r[0].value == ValidatedValue(v) && r[0].missingIDs == result.error.missingIDs
    ensures result.Err? && result.error.UnknownInput? ==>
              r[0].value == UnknownInputRecord(result.error.input) && r[0].missingIDs == []
  {
    match result
    case Ok(_) => []
    case Err(MissingIDs(missing)) => [ValidationError(MessageTemplate, ValidatedValue(v), name, missing)]
    case Err(UnknownInput(input)) => [ValidationError(MessageTemplate, UnknownInputRecord(input), name, [])]
  }

  // ---------------------------------------------------------------------
  // A rule run

  /** `runConstraintImpl`, the rule behind both hooks: the attached
      directive is read first (none attached: a `NullPointerException`),
      then the class is resolved, then the value is checked. */
  function RunConstraintImpl(c: ExistsConstraint, env: Env): (r: Completion<seq<ValidationError>, Fault>)
    ensures r.Returns? ==> |r.value| <= 1
    ensures env.directiveContext.None? ==> r == Throws(NullPointer)
    ensures env.value.Null? ==> r.Throws?
  {
    match env.directiveContext
    case None => Throws(NullPointer)
    case Some(d) =>
      var name := Argument(d, "name");
      match GetDomainClass(c, Argument(d, "domainClass"), name, env.fieldType)
      case Throws(x) => Throws(x)
      case Returns(cls) =>
        match CheckValue(c.store, env.value, cls)
        case Throws(x) => Throws(x)
        case Returns(result) => Returns(ToErrors(result, env.value, DisplayName(name, cls)))
  }

  /** The class a rule run resolves for the environment's directive. */
  function ResolvedClass(c: ExistsConstraint, env: Env): Completion<DomainClass, Fault>
    requires env.directiveContext.Some?
  {
    var d := env.directiveContext.value;
    GetDomainClass(c, Argument(d, "domainClass"), Argument(d, "name"), env.fieldType)
  }

  /** A validation pass of the `@Exists` constraint over one element: the
      engine with `runConstraintImpl` as both hooks. */
  method ValidateExists(c: ExistsConstraint, env: Env) returns (r: Completion<seq<ValidationError>, Fault>)
    ensures r == Collect(AsConstraint(), PlannedRuns(AsConstraint(), env),
                         e => RunConstraintImpl(c, e), e => RunConstraintImpl(c, e))
  {
    var rule := e => RunConstraintImpl(c, e);
    r := RunValidation(AsConstraint(), env, rule, rule);
  }

  // ---------------------------------------------------------------------
  // Properties

  /** Resolution happens before the value is looked at: a class that cannot
      be resolved is fatal whatever the value, and the store is not asked. */
  lemma UnresolvableClassIsFatal(c: ExistsConstraint, env: Env, v: Value, store: Tables)
    requires env.directiveContext.Some? && ResolvedClass(c, env).Throws?
    ensures RunConstraintImpl(c.(store := store), env.(value := v)) == Throws(ResolvedClass(c, env).exception)
  {
  }

  /** A resolved class and a value carrying identifiers: no error exactly
      when every identifier exists, otherwise one error listing the missing
      identifiers in input order. */
  lemma ExistenceVerdict(c: ExistsConstraint, env: Env)
    requires env.directiveContext.Some? && ResolvedClass(c, env).Returns? && Ids(env.value).Some?
    ensures var cls, ids := ResolvedClass(c, env).value, Ids(env.value).value;
      var r := RunConstraintImpl(c, env);
      && r.Returns?
      && (r.value == [] <==> forall i | 0 <= i < |ids| :: c.store.DomainObjectsExistsByIdAndClass(ids[i], cls))
      && (r.value != [] ==>
            r.value == [ValidationError(MessageTemplate, ValidatedValue(env.value),
                                        DisplayName(Argument(env.directiveContext.value, "name"), cls),
                                        c.store.NonExistingIds(ids, cls))])
  {
  }

  /** Any other non-null value gives exactly one error reporting it as
      unknown input with no missing identifiers, and the store plays no
      part. */
  lemma UnknownInputIgnoresStore(c: ExistsConstraint, env: Env, other: Tables)
    requires env.directiveContext.Some? && ResolvedClass(c, env).Returns?
    requires !env.value.Null? && Ids(env.value).None?
    ensures RunConstraintImpl(c, env) == RunConstraintImpl(c.(store := other), env)
    ensures RunConstraintImpl(c, env) ==
              Returns([ValidationError(MessageTemplate, UnknownInputRecord(env.value),
                                       DisplayName(Argument(env.directiveContext.value, "name"), ResolvedClass(c, env).value),
                                       [])])
  {
  }

  /** An empty collection of identifiers passes. */
  lemma EmptyCollectionPasses(c: ExistsConstraint, env: Env)
    requires env.directiveContext.Some? && ResolvedClass(c, env).Returns? && env.value == ListValue([])
    ensures RunConstraintImpl(c, env) == Returns([])
  {
    ExistenceVerdict(c, env);
  }

  /** Without a `name` argument, errors are labelled with the simple name
      of the resolved class. */
  lemma NameFallsBackToSimpleName(c: ExistsConstraint, env: Env)
    requires env.directiveContext.Some? && "name" !in env.directiveContext.value.arguments
    requires ResolvedClass(c, env).Returns?
    ensures var r := RunConstraintImpl(c, env);
      r.Returns? && r.value != [] ==> r.value[0].name == SimpleName(ResolvedClass(c, env).value)
  {
  }

  /** With neither a class name nor a `name` argument, and an output type
      that is not a named type (a list or non-null wrapper), the class
      loader is handed `null`. */
  lemma NoClassNameThrowsNullPointer(c: ExistsConstraint, env: Env)
    requires env.directiveContext.Some?
    requires "domainClass" !in env.directiveContext.value.arguments && "name" !in env.directiveContext.value.arguments
    requires !env.fieldType.NamedType?
    ensures RunConstraintImpl(c, env) == Throws(NullPointer)
  {
  }

  /** One run reports at most one error, so a pass reports at most one
      error per environment it runs on. */
  lemma {:induction false} AtMostOneErrorPerRun(c: ExistsConstraint, envs: seq<Env>)
    ensures var rule := e => RunConstraintImpl(c, e);
      var r := Collect(AsConstraint(), envs, rule, rule);
      r.Returns? ==> |r.value| <= |envs|
  {
    if envs != [] {
      AtMostOneErrorPerRun(c, envs[1..]);
    }
  }

  /** A pass reports at most one error per `@Exists` directive, and none
      when the element carries no `@Exists` directive. */
  lemma PassErrorBound(c: ExistsConstraint, env: Env)
    ensures var rule := e => RunConstraintImpl(c, e);
      var r := Collect(AsConstraint(), PlannedRuns(AsConstraint(), env), rule, rule);
      r.Returns? ==> |r.value| <= |Matching(ConstraintName, env.directives)|
  {
    AtMostOneErrorPerRun(c, PlannedRuns(AsConstraint(), env));
    if env.element == Field || env.value != Null {
      RunsFollowDeclarationOrder(AsConstraint(), env);
    }
  }

  /** The batched lookup reports the missing identifiers in request order:
      with products "a" and "b" stored, the request ["a", "b", "c"] is
      missing exactly ["c"], and a list holding a number is unknown input. */
  lemma BatchExample(m: Material)
    ensures var pa, pb := Product("a", "", "", m), Product("b", "", "", m);
      var store := Tables(map["a" := pa, "b" := pb], map[]);
      && CheckValue(store, ListValue([StringValue("a"), StringValue("b"), StringValue("c")]), ProductClass)
           == Returns(Err(MissingIDs(["c"])))
      && CheckValue(store, ListValue([StringValue("a"), IntValue(1)]), ProductClass)
           == Returns(Err(UnknownInput(ListValue([StringValue("a"), IntValue(1)]))))
  {
    var pa, pb := Product("a", "", "", m), Product("b", "", "", m);
    var store := Tables(map["a" := pa, "b" := pb], map[]);
    var ids := Strings([StringValue("a"), StringValue("b"), StringValue("c")]);
    assert ids == ["a", "b", "c"];
    assert "c" != "a" && "c" != "b" by {
      assert "c"[0] != "a"[0] && "c"[0] != "b"[0];
    }
    assert store.NonExistingIds(["c"], ProductClass) == ["c"];
    assert ["a", "b", "c"][1..] == ["b", "c"];
    assert ["b", "c"][1..] == ["c"];
    assert store.NonExistingIds(ids, ProductClass) == ["c"];
    assert !AllStrings([StringValue("a"), IntValue(1)]) by {
      assert [StringValue("a"), IntValue(1)][1] == IntValue(1);
    }
  }
}
