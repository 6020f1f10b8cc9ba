/** The batched directive-validation engine (`AbstractBatchableConstraint`).

    A validation pass over one schema element first normalises the element
    (absent argument and input-field values pass, the declared type loses its
    non-null wrapper), then fans out over the element's directives: every
    directive named like the constraint runs the constraint's rule once, with
    that directive attached to the environment, through the batched hook when
    the value is a collection and the constraint batches list elements, and
    through the single hook otherwise. The error lists are concatenated.

    A rule hook is a Java method that returns a list of errors or throws;
    here it is a function from environment to `Completion`. */
module Batchable {
  import opened Results

  /** The kind of schema element under validation (`ValidatedElement`). */
  datatype ElementKind = Argument | InputObjectField | Field

  /** A GraphQL type: wrappers around a named type. */
  datatype GraphQLType = NonNullType(wrapped: GraphQLType) | ListType(element: GraphQLType) | NamedType(name: string)

  /** A validated value as the engine sees it; `Null` is Java's `null`. */
  datatype Value = Null | StringValue(s: string) | IntValue(i: int) | BooleanValue(b: bool) | ListValue(elements: seq<Value>)

  /** An applied directive: its name and its arguments (an argument without
      a value is absent from the map). */
  datatype Directive = Directive(name: string, arguments: map<string, string>)

  /** The validation environment: the element kind, the value, the declared
      type of the element, the output type of the field the element belongs
      to, the applied directives, and the directive attached as context. */
  datatype Env = Env(element: ElementKind, value: Value, validatedType: GraphQLType, fieldType: GraphQLType,
                     directives: seq<Directive>, directiveContext: Option<Directive>)

  /** What a concrete constraint contributes to the engine besides its two
      rule hooks: its directive name and `appliesToListElements()`. */
  datatype Constraint = Constraint(name: string, appliesToListElements: bool)

  // ---------------------------------------------------------------------
  // Stage A: type normalisation

  /** `Util.unwrapNonNull`: strips the non-null wrappers around a type. */
  function UnwrapNonNull(t: GraphQLType): (r: GraphQLType)
    ensures !r.NonNullType?
    ensures !t.NonNullType? ==> r == t
  {
    match t
    case NonNullType(w) => UnwrapNonNull(w)
    case _ => t
  }

  lemma UnwrapNonNullIdempotent(t: GraphQLType)
    ensures UnwrapNonNull(UnwrapNonNull(t)) == UnwrapNonNull(t)
  {
  }

  // ---------------------------------------------------------------------
  // Ordering directives by name

  /** Java's `a.compareTo(b) <= 0` on strings: lexicographic by character,
      a proper prefix first. */
  predicate NameLe(a: string, b: string)
    ensures a <= b ==> NameLe(a, b)
    decreases |a|
  {
    if a == [] then true
    else if b == [] then false
    else if a[0] != b[0] then a[0] < b[0]
    else NameLe(a[1..], b[1..])
  }

  lemma {:induction false} NameLeReflexive(a: string)
    ensures NameLe(a, a)
    decreases |a|
  {
    if a != [] {
      NameLeReflexive(a[1..]);
    }
  }

  lemma {:induction false} NameLeAntisymmetric(a: string, b: string)
    requires NameLe(a, b) && NameLe(b, a)
    ensures a == b
    decreases |a|
  {
    if a != [] && b != [] {
      NameLeAntisymmetric(a[1..], b[1..]);
      assert a == [a[0]] + a[1..] && b == [b[0]] + b[1..];
    }
  }

  lemma {:induction false} NameLeTotal(a: string, b: string)
    ensures NameLe(a, b) || NameLe(b, a)
    decreases |a|
  {
    if a != [] && b != [] && a[0] == b[0] {
      NameLeTotal(a[1..], b[1..]);
    }
  }

  predicate SortedByName(ds: seq<Directive>) {
    forall i | 0 < i < |ds| :: NameLe(ds[i - 1].name, ds[i].name)
  }

  /** Inserts `d` in front of the first directive whose name is not below
      `d`'s, so that `d` stays ahead of directives of equal name. */
  function InsertByName(d: Directive, sorted: seq<Directive>): (r: seq<Directive>)
    ensures multiset(r) == multiset(sorted) + multiset{d}
    ensures |r| == |sorted| + 1
    ensures r[0] == d || (sorted != [] && r[0] == sorted[0])
  {
    if sorted == [] || NameLe(d.name, sorted[0].name) then [d] + sorted
    else
      assert sorted == [sorted[0]] + sorted[1..];
      [sorted[0]] + InsertByName(d, sorted[1..])
  }

  /** `Util.sort(directives, getName)`: a stable sort by name. */
  function SortByName(ds: seq<Directive>): (r: seq<Directive>)
    ensures SortedByName(r)
    ensures multiset(r) == multiset(ds)
  {
    if ds == [] then []
    else
      var rest := SortByName(ds[1..]);
      InsertKeepsSorted(ds[0], rest);
      assert ds == [ds[0]] + ds[1..];
      InsertByName(ds[0], rest)
  }

  lemma {:induction false} InsertKeepsSorted(d: Directive, sorted: seq<Directive>)
    requires SortedByName(sorted)
    ensures SortedByName(InsertByName(d, sorted))
  {
    if sorted == [] || NameLe(d.name, sorted[0].name) {
    } else {
      NameLeTotal(d.name, sorted[0].name);
      InsertKeepsSorted(d, sorted[1..]);
    }
  }

  /** The directives named `name`, in the order given. */
  function Matching(name: string, ds: seq<Directive>): (r: seq<Directive>)
    ensures |r| <= |ds|
  {
    if ds == [] then []
    else if ds[0].name == name then [ds[0]] + Matching(name, ds[1..])
    else Matching(name, ds[1..])
  }

  /** Exactly the directives of the given name are kept. */
  lemma {:induction false} MatchingMembers(name: string, ds: seq<Directive>)
    ensures forall d :: d in Matching(name, ds) <==> d in ds && d.name == name
  {
    if ds != [] {
      MatchingMembers(name, ds[1..]);
      assert ds == [ds[0]] + ds[1..];
    }
  }

  lemma {:induction false} MatchingAppend(name: string, a: seq<Directive>, b: seq<Directive>)
    ensures Matching(name, a + b) == Matching(name, a) + Matching(name, b)
  {
    if a == [] {
      assert a + b == b;
    } else {
      assert (a + b)[0] == a[0];
      assert (a + b)[1..] == a[1..] + b;
      MatchingAppend(name, a[1..], b);
      if a[0].name == name {
        assert [a[0]] + (Matching(name, a[1..]) + Matching(name, b)) == [a[0]] + Matching(name, a[1..]) + Matching(name, b);
      }
    }
  }

  lemma {:induction false} MatchingInsert(name: string, d: Directive, sorted: seq<Directive>)
    ensures Matching(name, InsertByName(d, sorted)) == Matching(name, [d]) + Matching(name, sorted)
  {
    if sorted == [] || NameLe(d.name, sorted[0].name) {
      MatchingAppend(name, [d], sorted);
    } else {
      var s0, t := sorted[0], sorted[1..];
      NameLeReflexive(d.name);
      assert s0.name != d.name;
      assert InsertByName(d, sorted) == [s0] + InsertByName(d, t);
      MatchingAppend(name, [s0], InsertByName(d, t));
      MatchingInsert(name, d, t);
      assert Matching(name, [s0]) == [] || Matching(name, [d]) == [];
      assert sorted == [s0] + t;
      MatchingAppend(name, [s0], t);
    }
  }

  /** Sorting by name does not reorder the directives of one name: the
      directives that trigger this constraint run in declaration order. */
  lemma {:induction false} MatchingSortedIsMatching(name: string, ds: seq<Directive>)
    ensures Matching(name, SortByName(ds)) == Matching(name, ds)
  {
    if ds != [] {
      MatchingSortedIsMatching(name, ds[1..]);
      MatchingInsert(name, ds[0], SortByName(ds[1..]));
      MatchingAppend(name, [ds[0]], ds[1..]);
      assert ds == [ds[0]] + ds[1..];
    }
  }

  // ---------------------------------------------------------------------
  // Stage B: fan-out over the directives

  /** `runOnPossibleBatches`: the batched hook for a collection value when
      the constraint batches list elements, the single hook otherwise. */
  function RunOnPossibleBatches<E, X>(c: Constraint, env: Env, single: Env -> Completion<seq<E>, X>,
                                      batched: Env -> Completion<seq<E>, X>): (r: Completion<seq<E>, X>)
    ensures r == single(env) || r == batched(env)
    ensures !env.value.ListValue? || !c.appliesToListElements ==> r == single(env)
    ensures c.appliesToListElements && env.value.ListValue? ==> r == batched(env)
  {
    if c.appliesToListElements && env.value.ListValue? then batched(env) else single(env)
  }

  /** The environment each rule run sees: the given one with a directive
      attached as context, one per directive, in order. */
  function RunEnvs(env: Env, ds: seq<Directive>): (r: seq<Env>)
    ensures |r| == |ds|
    ensures forall k | 0 <= k < |ds| :: r[k] == env.(directiveContext := Some(ds[k]))
  {
    seq(|ds|, k requires 0 <= k < |ds| => env.(directiveContext := Some(ds[k])))
  }

  /** Error lists concatenate; the first exception thrown ends the pass. */
  function Combine<E, X>(a: Completion<seq<E>, X>, b: Completion<seq<E>, X>): (r: Completion<seq<E>, X>)
    ensures r.Returns? <==> a.Returns? && b.Returns?
    ensures r.Returns? ==> r.value == a.value + b.value
    ensures a.Throws? ==> r == a
    ensures a.Returns? && b.Throws? ==> r == b
  {
    match a
    case Throws(_) => a
    case Returns(x) =>
      match b
      case Throws(_) => b
      case Returns(y) => Returns(x + y)
  }

  /** The errors of running the rule once per environment, in order. */
  function Collect<E, X>(c: Constraint, envs: seq<Env>, single: Env -> Completion<seq<E>, X>,
                         batched: Env -> Completion<seq<E>, X>): (r: Completion<seq<E>, X>)
    ensures r.Returns? <==> forall i | 0 <= i < |envs| :: RunOnPossibleBatches(c, envs[i], single, batched).Returns?
    ensures r.Throws? ==> exists i | 0 <= i < |envs| :: r == RunOnPossibleBatches(c, envs[i], single, batched)
  {
    if envs == [] then Returns([])
    else Combine(RunOnPossibleBatches(c, envs[0], single, batched), Collect(c, envs[1..], single, batched))
  }

  lemma {:induction false} CollectAppend<E, X>(c: Constraint, a: seq<Env>, b: seq<Env>,
                                               single: Env -> Completion<seq<E>, X>, batched: Env -> Completion<seq<E>, X>)
    ensures Collect(c, a + b, single, batched) == Combine(Collect(c, a, single, batched), Collect(c, b, single, batched))
  {
    if a == [] {
      assert a + b == b;
      var y := Collect(c, b, single, batched);
      if y.Returns? {
        assert [] + y.value == y.value;
      }
    } else {
      assert (a + b)[1..] == a[1..] + b;
      CollectAppend(c, a[1..], b, single, batched);
      CombineAssociative(RunOnPossibleBatches(c, a[0], single, batched),
                         Collect(c, a[1..], single, batched), Collect(c, b, single, batched));
    }
  }

  lemma CombineAssociative<E, X>(x: Completion<seq<E>, X>, y: Completion<seq<E>, X>, z: Completion<seq<E>, X>)
    ensures Combine(Combine(x, y), z) == Combine(x, Combine(y, z))
  {
    if x.Returns? && y.Returns? && z.Returns? {
      assert x.value + y.value + z.value == x.value + (y.value + z.value);
    }
  }

  lemma CombineUnit<E, X>(x: Completion<seq<E>, X>)
    ensures Combine(x, Returns([])) == x
  {
    if x.Returns? {
      assert x.value + [] == x.value;
    }
  }

  lemma RunEnvsAppend(env: Env, a: seq<Directive>, b: seq<Directive>)
    ensures RunEnvs(env, a + b) == RunEnvs(env, a) + RunEnvs(env, b)
  {
  }

  /** An exception thrown by an early run ends the pass. */
  lemma {:induction false} CollectStopsAtThrow<E, X>(c: Constraint, a: seq<Env>, b: seq<Env>,
                                                     single: Env -> Completion<seq<E>, X>, batched: Env -> Completion<seq<E>, X>)
    requires Collect(c, a, single, batched).Throws?
    ensures Collect(c, a + b, single, batched) == Collect(c, a, single, batched)
  {
    CollectAppend(c, a, b, single, batched);
  }

  /** Once the runs of the first `i` directives have thrown, so has the
      whole pass. */
  lemma ThrowEndsPass<E, X>(c: Constraint, env: Env, ds: seq<Directive>, i: nat,
                            single: Env -> Completion<seq<E>, X>, batched: Env -> Completion<seq<E>, X>)
    requires i <= |ds|
    requires Collect(c, RunEnvs(env, Matching(c.name, ds[..i])), single, batched).Throws?
    ensures Collect(c, RunEnvs(env, Matching(c.name, ds)), single, batched) ==
              Collect(c, RunEnvs(env, Matching(c.name, ds[..i])), single, batched)
  {
    assert ds == ds[..i] + ds[i..];
    MatchingAppend(c.name, ds[..i], ds[i..]);
    RunEnvsAppend(env, Matching(c.name, ds[..i]), Matching(c.name, ds[i..]));
    CollectStopsAtThrow(c, RunEnvs(env, Matching(c.name, ds[..i])), RunEnvs(env, Matching(c.name, ds[i..])), single, batched);
  }

  /** The runs of one more directive. */
  lemma RunsStep(name: string, env: Env, ds: seq<Directive>, i: nat)
    requires i < |ds|
    ensures RunEnvs(env, Matching(name, ds[..i + 1])) ==
              RunEnvs(env, Matching(name, ds[..i])) + (if ds[i].name == name then [env.(directiveContext := Some(ds[i]))] else [])
  {
    assert ds[..i + 1] == ds[..i] + [ds[i]];
    MatchingAppend(name, ds[..i], [ds[i]]);
    RunEnvsAppend(env, Matching(name, ds[..i]), Matching(name, [ds[i]]));
    assert Matching(name, [ds[i]]) == if ds[i].name == name then [ds[i]] else [];
  }

  /** No directive of the given name, no match. */
  lemma {:induction false} MatchingNone(name: string, ds: seq<Directive>)
    requires forall k | 0 <= k < |ds| :: ds[k].name != name
    ensures Matching(name, ds) == []
  {
    if ds != [] {
      MatchingNone(name, ds[1..]);
    }
  }

  /** Stage A: the environment Stage B runs on, or none when the pass ends
      early. Output fields go through unchanged, even with a null value. */
  function Prepared(env: Env): (r: Option<Env>)
    ensures r.None? <==> env.element != Field && env.value == Null
    ensures r.Some? ==> r.value.(validatedType := env.validatedType) == env
    ensures r.Some? ==> !r.value.validatedType.NonNullType? || env.element == Field
  {
    if env.element == Field then Some(env)
    else if env.value == Null then None
    else Some(env.(validatedType := UnwrapNonNull(env.validatedType)))
  }

  /** The environments the rule runs on during one pass, in order. */
  function PlannedRuns(c: Constraint, env: Env): seq<Env> {
    match Prepared(env)
    case None => []
    case Some(e) => RunEnvs(e, Matching(c.name, SortByName(e.directives)))
  }

  /** `runConstraintOnDirectiveBatched`: walks the directives sorted by name,
      skips those of other constraints, attaches each remaining one to the
      environment and appends the errors of its rule run. */
  method RunConstraintOnDirectiveBatched<E, X>(c: Constraint, env: Env, single: Env -> Completion<seq<E>, X>,
                                               batched: Env -> Completion<seq<E>, X>)
    returns (r: Completion<seq<E>, X>)
    ensures r == Collect(c, RunEnvs(env, Matching(c.name, SortByName(env.directives))), single, batched)
  {
    var directives := SortByName(env.directives);
    var current := env;
    var errors: seq<E> := [];
    for i := 0 to |directives|
      invariant current.(directiveContext := env.directiveContext) == env
      invariant Collect(c, RunEnvs(env, Matching(c.name, directives[..i])), single, batched) == Returns(errors)
    {
      var directive := directives[i];
      ghost var done := RunEnvs(env, Matching(c.name, directives[..i]));
      RunsStep(c.name, env, directives, i);
      if directive.name != c.name {
        assert done + [] == done;
        continue;
      }
      current := current.(directiveContext := Some(directive));
      var ruleErrors := RunOnPossibleBatches(c, current, single, batched);
      CollectAppend(c, done, [current], single, batched);
      CombineUnit(ruleErrors);
      if ruleErrors.Throws? {
        ThrowEndsPass(c, env, directives, i + 1, single, batched);
        r := Throws(ruleErrors.exception);
        return;
      }
      errors := errors + ruleErrors.value;
    }
    assert directives[..|directives|] == directives;
    r := Returns(errors);
  }

  /** `runValidation`: Stage A, then Stage B. */
  method RunValidation<E, X>(c: Constraint, env: Env, single: Env -> Completion<seq<E>, X>,
                             batched: Env -> Completion<seq<E>, X>)
    returns (r: Completion<seq<E>, X>)
    ensures r == Collect(c, PlannedRuns(c, env), single, batched)
  {
    if env.element == Field {
      r := RunConstraintOnDirectiveBatched(c, env, single, batched);
      return;
    }
    if env.value == Null {
      r := Returns([]);
      return;
    }
    var unwrapped := env.(validatedType := UnwrapNonNull(env.validatedType));
    r := RunConstraintOnDirectiveBatched(c, unwrapped, single, batched);
  }

  // ---------------------------------------------------------------------
  // Properties of a validation pass

  /** An absent argument or input-field value passes without any rule run. */
  lemma AbsentInputValuePasses<E, X>(c: Constraint, env: Env, single: Env -> Completion<seq<E>, X>,
                                     batched: Env -> Completion<seq<E>, X>)
    requires env.element != Field && env.value == Null
    ensures PlannedRuns(c, env) == []
    ensures Collect(c, PlannedRuns(c, env), single, batched) == Returns([])
  {
  }

  /** Every rule run sees the element's value and kind, the declared type
      without its non-null wrapper (output fields: unchanged), and as context
      the k-th directive named like the constraint, in declaration order;
      there is one run per such directive, also for a null output field. */
  lemma RunsFollowDeclarationOrder(c: Constraint, env: Env)
    requires env.element == Field || env.value != Null
    ensures var runs := PlannedRuns(c, env);
      var ours := Matching(c.name, env.directives);
      && |runs| == |ours|
      && forall k | 0 <= k < |runs| ::
           && runs[k].directiveContext == Some(ours[k])
           && ours[k].name == c.name
           && runs[k].value == env.value
           && runs[k].element == env.element
           && runs[k].directives == env.directives
           && runs[k].validatedType == (if env.element == Field then env.validatedType else UnwrapNonNull(env.validatedType))
  {
    var e := Prepared(env).value;
    MatchingSortedIsMatching(c.name, env.directives);
    var ours := Matching(c.name, env.directives);
    MatchingMembers(c.name, env.directives);
    forall k | 0 <= k < |ours| ensures ours[k].name == c.name {
      assert ours[k] in ours;
    }
  }

  /** Without a directive named like the constraint, the pass reports no
      error whatever the rule hooks do. */
  lemma NoOwnDirectiveNoErrors<E, X>(c: Constraint, env: Env, single: Env -> Completion<seq<E>, X>,
                                     batched: Env -> Completion<seq<E>, X>)
    requires forall k | 0 <= k < |env.directives| :: env.directives[k].name != c.name
    ensures Collect(c, PlannedRuns(c, env), single, batched) == Returns([])
  {
    MatchingNone(c.name, env.directives);
    if env.element == Field || env.value != Null {
      RunsFollowDeclarationOrder(c, env);
    }
  }

  /** The batched hook runs exactly when the constraint batches list
      elements and the value is a collection; the other hook is not
      consulted. */
  lemma HookSelection<E, X>(c: Constraint, env: Env, s1: Env -> Completion<seq<E>, X>, s2: Env -> Completion<seq<E>, X>,
                            b1: Env -> Completion<seq<E>, X>, b2: Env -> Completion<seq<E>, X>)
    ensures c.appliesToListElements && env.value.ListValue? ==>
              RunOnPossibleBatches(c, env, s1, b1) == RunOnPossibleBatches(c, env, s2, b1) == b1(env)
    ensures !(c.appliesToListElements && env.value.ListValue?) ==>
              RunOnPossibleBatches(c, env, s1, b1) == RunOnPossibleBatches(c, env, s1, b2) == s1(env)
  {
  }

  /** Two directives of the constraint, declared in the order d1, d2 (with
      any other directives around them): the errors of d1's run come first,
      then those of d2's run, whatever the names of the other directives. */
  lemma TwoDirectivesInDeclarationOrder<E, X>(c: Constraint, env: Env, d1: Directive, d2: Directive,
                                              single: Env -> Completion<seq<E>, X>, batched: Env -> Completion<seq<E>, X>)
    requires env.element == Field || env.value != Null
    requires Matching(c.name, env.directives) == [d1, d2]
    ensures var e := Prepared(env).value;
      Collect(c, PlannedRuns(c, env), single, batched) ==
        Combine(RunOnPossibleBatches(c, e.(directiveContext := Some(d1)), single, batched),
                RunOnPossibleBatches(c, e.(directiveContext := Some(d2)), single, batched))
  {
    var e := Prepared(env).value;
    MatchingSortedIsMatching(c.name, env.directives);
    var e1, e2 := e.(directiveContext := Some(d1)), e.(directiveContext := Some(d2));
    assert e.directives == env.directives;
    var runs := RunEnvs(e, [d1, d2]);
    assert PlannedRuns(c, env) == runs;
    assert runs == [e1, e2];
    assert [e1, e2][1..] == [e2];
    assert [e2][1..] == [];
    var o2 := RunOnPossibleBatches(c, e2, single, batched);
    CombineUnit(o2);
    assert Collect(c, [e2], single, batched) == o2;
    assert Collect(c, [e1, e2], single, batched) == Combine(RunOnPossibleBatches(c, e1, single, batched), o2);
  }
}
