/** The fallible-value algebra: a two-variant `Result` with its combinators,
    the minimal `Option` it converts to and from, and `Completion`, which stands
    for a Java call that either returns a value or throws an exception.

    Java's `null` is modelled as `None`; a Java method that may throw is
    modelled as a function returning a `Completion`. A "supplier" (a lazily
    evaluated argument) is a function of no arguments, `() -> T`. */
module Results {

  /** Presence or absence of a value; `None` stands for Java's `null`. */
  datatype Option<T> = None | Some(value: T) {

    /** `Some(v)` becomes `Ok(v)`, `None` becomes `Err(error)`. */
    function OkOr<E>(error: E): (r: Result<T, E>)
      ensures r.Ok? <==> Some?
      ensures Some? ==> r.value == value
      ensures None? ==> r.error == error
    {
      match this
      case Some(v) => Ok(v)
      case None => Err(error)
    }
  }

  /** What a Java call does: return a value or throw an exception. */
  datatype Completion<T, X> = Returns(value: T) | Throws(exception: X)

  /** The `NoSuchElementException` raised by the unwrapping escape hatches:
      either with a caller's message, or with the generated message that
      embeds the payload of the variant that was found instead. */
  datatype NoSuchElement<P> = WithMessage(message: string) | UnwrappedOther(found: P)

  /** The marker type whose single value is the payload of a bare success. */
  datatype Good = GOOD

  datatype Result<T, E> = Ok(value: T) | Err(error: E) {

    predicate IsOk()
      ensures IsOk() <==> !IsErr()
    {
      match this
      case Ok(_) => true
      case Err(_) => false
    }

    /** True when the result is `Ok` and its payload satisfies `p`. */
    predicate IsOkAnd(p: T -> bool)
      ensures IsOkAnd(p) <==> OkOption().Some? && p(OkOption().value)
    {
      match this
      case Ok(v) => p(v)
      case Err(_) => false
    }

    predicate IsErr()
      ensures IsErr() <==> Err?
    {
      match this
      case Ok(_) => false
      case Err(_) => true
    }

    /** True when the result is `Err` and its error satisfies `p`. */
    predicate IsErrAnd(p: E -> bool)
      ensures IsErrAnd(p) <==> ErrOption().Some? && p(ErrOption().value)
    {
      match this
      case Ok(_) => false
      case Err(e) => p(e)
    }

    /** `ok()`: the success payload as an Option, discarding the error. */
    function OkOption(): (r: Option<T>)
      ensures r.Some? <==> IsOk()
    {
      match this
      case Ok(v) => Some(v)
      case Err(_) => None
    }

    /** `err()`: the error as an Option, discarding the success payload. */
    function ErrOption(): (r: Option<E>)
      ensures r.Some? <==> IsErr()
    {
      match this
      case Ok(_) => None
      case Err(e) => Some(e)
    }

    /** Applies `f` to a success payload and passes an error through. */
    function Map<U>(f: T -> U): (r: Result<U, E>)
      ensures r.IsOk() == IsOk()
    {
      match this
      case Ok(v) => Ok(f(v))
      case Err(e) => Err(e)
    }

    /** `f` of the success payload, or the (already evaluated) default. */
    function MapOr<U>(default: U, f: T -> U): (r: U)
      ensures IsOk() ==> r == f(OkOption().value)
      ensures IsErr() ==> r == default
    {
      match this
      case Ok(v) => f(v)
      case Err(_) => default
    }

    /** `f` of the success payload or `d` of the error: exactly one of the
        two functions is applied. */
    function MapOrElse<U>(d: E -> U, f: T -> U): (r: U)
      ensures IsOk() ==> r == f(OkOption().value)
      ensures IsErr() ==> r == d(ErrOption().value)
    {
      match this
      case Ok(v) => f(v)
      case Err(e) => d(e)
    }

    /** Applies `f` to an error and passes a success payload through. */
    function MapErr<F>(f: E -> F): (r: Result<T, F>)
      ensures r.IsOk() == IsOk()
    {
      match this
      case Ok(v) => Ok(v)
      case Err(e) => Err(f(e))
    }

    /** `inspect(consumer)`: the consumer's side effect is modelled as the
        list of observations `f` makes, paired with the receiver, which is
        returned unchanged. */
    function Inspect<A>(f: T -> A): (r: (Result<T, E>, seq<A>))
      ensures r.0 == this
      ensures |r.1| == if IsOk() then 1 else 0
    {
      match this
      case Ok(v) => (this, [f(v)])
      case Err(_) => (this, [])
    }

    /** `inspectErr(consumer)`: the error-side dual of `Inspect`. */
    function InspectErr<A>(f: E -> A): (r: (Result<T, E>, seq<A>))
      ensures r.0 == this
      ensures |r.1| == if IsErr() then 1 else 0
    {
      match this
      case Ok(_) => (this, [])
      case Err(e) => (this, [f(e)])
    }

    /** `iterator()`: the elements it yields, at most one. */
    function Elements(): (r: seq<T>)
      ensures |r| <= 1
      ensures r != [] <==> IsOk()
    {
      match this
      case Ok(v) => [v]
      case Err(_) => []
    }

    /** `expect(String message)`. */
    function Expect(message: string): (r: Completion<T, NoSuchElement<E>>)
      ensures r.Returns? <==> IsOk()
      ensures r.Returns? ==> OkOption() == Some(r.value)
      ensures r.Throws? ==> r.exception == WithMessage(message)
    {
      match this
      case Ok(v) => Returns(v)
      case Err(_) => Throws(WithMessage(message))
    }

    /** `expect(X exception)`: throws the given exception on `Err`. */
    function ExpectThrowing<X>(exception: X): (r: Completion<T, X>)
      ensures r.Returns? <==> IsOk()
      ensures r.Returns? ==> OkOption() == Some(r.value)
      ensures r.Throws? ==> r.exception == exception
    {
      match this
      case Ok(v) => Returns(v)
      case Err(_) => Throws(exception)
    }

    /** `expectElse(f)`: on `Err(e)` throws the exception `f(e)`. */
    function ExpectElse<X>(f: E -> X): (r: Completion<T, X>)
      ensures r.Returns? <==> IsOk()
      ensures r.Returns? ==> OkOption() == Some(r.value)
      ensures r.Throws? ==> r.exception == f(ErrOption().value)
    {
      match this
      case Ok(v) => Returns(v)
      case Err(e) => Throws(f(e))
    }

    /** `unwrap()`: the generated message embeds the error. */
    function Unwrap(): (r: Completion<T, NoSuchElement<E>>)
      ensures r.Returns? <==> IsOk()
      ensures r.Returns? ==> OkOption() == Some(r.value)
      ensures r.Throws? ==> r.exception == UnwrappedOther(ErrOption().value)
    {
      match this
      case Ok(v) => Returns(v)
      case Err(e) => Throws(UnwrappedOther(e))
    }

    function UnwrapOr(default: T): (r: T)
      ensures IsOk() ==> OkOption() == Some(r)
      ensures IsErr() ==> r == default
    {
      match this
      case Ok(v) => v
      case Err(_) => default
    }

    /** `unwrapOrElse(supplier)`: the supplier is consulted only on `Err`. */
    function UnwrapOrElse(supplier: () -> T): (r: T)
      ensures IsOk() ==> OkOption() == Some(r)
      ensures IsErr() ==> r == supplier()
    {
      match this
      case Ok(v) => v
      case Err(_) => supplier()
    }

    /** `expectErr(String message)`. */
    function ExpectErr(message: string): (r: Completion<E, NoSuchElement<T>>)
      ensures r.Returns? <==> IsErr()
      ensures r.Returns? ==> ErrOption() == Some(r.value)
      ensures r.Throws? ==> r.exception == WithMessage(message)
    {
      match this
      case Ok(_) => Throws(WithMessage(message))
      case Err(e) => Returns(e)
    }

    /** `expectErr(X exception)`. */
    function ExpectErrThrowing<X>(exception: X): (r: Completion<E, X>)
      ensures r.Returns? <==> IsErr()
      ensures r.Returns? ==> ErrOption() == Some(r.value)
      ensures r.Throws? ==> r.exception == exception
    {
      match this
      case Ok(_) => Throws(exception)
      case Err(e) => Returns(e)
    }

    /** `expectErrElse(f)`: on `Ok(v)` throws the exception `f(v)`. */
    function ExpectErrElse<X>(f: T -> X): (r: Completion<E, X>)
      ensures r.Returns? <==> IsErr()
      ensures r.Returns? ==> ErrOption() == Some(r.value)
      ensures r.Throws? ==> r.exception == f(OkOption().value)
    {
      match this
      case Ok(v) => Throws(f(v))
      case Err(e) => Returns(e)
    }

    /** `unwrapErr()`: the generated message embeds the success payload. */
    function UnwrapErr(): (r: Completion<E, NoSuchElement<T>>)
      ensures r.Returns? <==> IsErr()
      ensures r.Returns? ==> ErrOption() == Some(r.value)
      ensures r.Throws? ==> r.exception == UnwrappedOther(OkOption().value)
    {
      match this
      case Ok(v) => Throws(UnwrappedOther(v))
      case Err(e) => Returns(e)
    }

    /** `and(other)`: `other` when this is `Ok`, else this error. */
    function And<U>(other: Result<U, E>): (r: Result<U, E>)
      ensures r.IsOk() <==> IsOk() && other.IsOk()
    {
      match this
      case Ok(_) => other
      case Err(e) => Err(e)
    }

    /** `andThen(supplier)`: the supplier runs only when this is `Ok`. */
    function AndThen<U>(supplier: () -> Result<U, E>): (r: Result<U, E>)
      ensures IsErr() ==> r.IsErr()
    {
      match this
      case Ok(_) => supplier()
      case Err(e) => Err(e)
    }

    /** `or(other)`: this success when `Ok`, else `other`. */
    function Or<F>(other: Result<T, F>): (r: Result<T, F>)
      ensures r.IsOk() <==> IsOk() || other.IsOk()
    {
      match this
      case Ok(v) => Ok(v)
      case Err(_) => other
    }

    /** `orThen(supplier)`: the supplier runs only when this is `Err`. */
    function OrThen<F>(supplier: () -> Result<T, F>): (r: Result<T, F>)
      ensures IsOk() ==> r.IsOk()
    {
      match this
      case Ok(v) => Ok(v)
      case Err(_) => supplier()
    }

    /** `Err.as()`: the same error under another success type. */
    function As<R>(): (r: Result<R, E>)
      requires Err?
      ensures r.IsErr() && r.ErrOption() == ErrOption()
    {
      Err(error)
    }
  }

  /** `good()`: the bare success. */
  function GoodResult<E>(): (r: Result<Good, E>)
    ensures r.IsOk()
  {
    Ok(GOOD)
  }

  /** `from(value, error)`: a nullable value becomes `Ok`, `null` becomes
      `Err(error)`. */
  function From<T, E>(value: Option<T>, error: E): (r: Result<T, E>)
    ensures r.IsErr() <==> value.None?
    ensures r == value.OkOr(error)
  {
    match value
    case Some(v) => Ok(v)
    case None => Err(error)
  }

  /** `fromElse(value, supplier)`: as `From`, the error supplied lazily. */
  function FromElse<T, E>(value: Option<T>, errorSupplier: () -> E): (r: Result<T, E>)
    ensures r.IsErr() <==> value.None?
    ensures r == From(value, errorSupplier())
  {
    match value
    case Some(v) => Ok(v)
    case None => Err(errorSupplier())
  }

  // ---------------------------------------------------------------------
  // Laws of the algebra

  /** Exactly one of `IsOk` and `IsErr` holds. */
  lemma ExactlyOneVariant<T, E>(r: Result<T, E>)
    ensures r.IsOk() != r.IsErr()
    ensures r.IsOk() <==> r.Ok?
  {
  }

  /** `IsOkAnd(p)` holds iff the result is `Ok(v)` with `p(v)`; `IsErrAnd`
      is the dual on the error. */
  lemma PredicateVariants<T, E>(r: Result<T, E>, p: T -> bool, q: E -> bool)
    ensures r.IsOkAnd(p) <==> exists v :: r == Ok(v) && p(v)
    ensures r.IsErrAnd(q) <==> exists e :: r == Err(e) && q(e)
    ensures r.IsOkAnd(p) ==> r.IsOk()
    ensures r.IsErrAnd(q) ==> r.IsErr()
  {
    match r
    case Ok(v) =>
      assert r == Ok(v);
    case Err(e) =>
      assert r == Err(e);
  }

  /** The two Option conversions together lose nothing: a result is
      determined by `ok()` and `err()`. */
  lemma OptionConversionsDetermine<T, E>(r: Result<T, E>, s: Result<T, E>)
    ensures r == s <==> r.OkOption() == s.OkOption() && r.ErrOption() == s.ErrOption()
    ensures r.OkOption() == (if r.Ok? then Some(r.value) else None)
    ensures r.ErrOption() == (if r.Err? then Some(r.error) else None)
  {
  }

  /** Functor laws for `map`. */
  lemma MapIdentity<T, E>(r: Result<T, E>)
    ensures r.Map(x => x) == r
  {
  }

  lemma MapComposition<T, U, V, E>(r: Result<T, E>, f: T -> U, g: U -> V)
    ensures r.Map(f).Map(g) == r.Map(x => g(f(x)))
  {
  }

  /** `map` changes only the success payload. */
  lemma MapKeepsErrors<T, U, E>(r: Result<T, E>, f: T -> U)
    ensures r.Ok? ==> r.Map(f) == Ok(f(r.value))
    ensures r.Err? ==> r.Map(f) == Err(r.error)
  {
  }

  /** Functor laws for `mapErr`, the error-side dual. */
  lemma MapErrIdentity<T, E>(r: Result<T, E>)
    ensures r.MapErr(x => x) == r
  {
  }

  lemma MapErrComposition<T, E, F, G>(r: Result<T, E>, f: E -> F, g: F -> G)
    ensures r.MapErr(f).MapErr(g) == r.MapErr(x => g(f(x)))
  {
  }

  lemma MapErrKeepsValues<T, E, F>(r: Result<T, E>, f: E -> F)
    ensures r.Ok? ==> r.MapErr(f) == Ok(r.value)
    ensures r.Err? ==> r.MapErr(f) == Err(f(r.error))
  {
  }

  /** `mapOrElse` is the eliminator of the type: `mapOr`, `map`, `mapErr`,
      `unwrapOr` and `isOk` are all instances of it. */
  lemma MapOrElseIsTheEliminator<T, U, E, F>(r: Result<T, E>, d: U, f: T -> U, g: E -> F, h: T -> U, dv: T)
    ensures r.MapOr(d, f) == r.MapOrElse(_ => d, f)
    ensures r.Map(h) == r.MapOrElse(e => Err(e), v => Ok(h(v)))
    ensures r.MapErr(g) == r.MapOrElse(e => Err(g(e)), v => Ok(v))
    ensures r.UnwrapOr(dv) == r.MapOrElse(_ => dv, v => v)
    ensures r.IsOk() == r.MapOrElse(_ => false, _ => true)
  {
  }

  /** `mapOr(d, f)` is `f(v)` on `Ok(v)` and `d` on `Err`; `mapOrElse(d, f)`
      is `f(v)` or `d(e)`. */
  lemma MapOrBranches<T, U, E>(r: Result<T, E>, default: U, d: E -> U, f: T -> U)
    ensures r.Ok? ==> r.MapOr(default, f) == f(r.value) && r.MapOrElse(d, f) == f(r.value)
    ensures r.Err? ==> r.MapOr(default, f) == default && r.MapOrElse(d, f) == d(r.error)
  {
  }

  /** `unwrapOr(d)` is the payload on `Ok` whatever `d` is, and `d` on `Err`;
      `unwrapOrElse` consults its supplier only on `Err`. */
  lemma UnwrapOrLaws<T, E>(r: Result<T, E>, d1: T, d2: T, s1: () -> T, s2: () -> T)
    ensures r.Ok? ==> r.UnwrapOr(d1) == r.UnwrapOr(d2) == r.value
    ensures r.Err? ==> r.UnwrapOr(d1) == d1
    ensures r.Ok? ==> r.UnwrapOrElse(s1) == r.UnwrapOrElse(s2) == r.value
    ensures r.Err? ==> r.UnwrapOrElse(s1) == s1()
    ensures r.UnwrapOrElse(() => d1) == r.UnwrapOr(d1)
  {
  }

  /** `unwrap` and all forms of `expect` return exactly on `Ok`, and then
      return its payload; otherwise they throw. */
  lemma UnwrapSucceedsExactlyOnOk<T, E, X>(r: Result<T, E>, message: string, x: X, f: E -> X)
    ensures r.Unwrap().Returns? <==> r.Ok?
    ensures r.Unwrap().Returns? ==> Ok(r.Unwrap().value) == r
    ensures r.Unwrap().Throws? ==> r.Unwrap().exception == UnwrappedOther(r.error)
    ensures r.Expect(message).Returns? <==> r.Ok?
    ensures r.Expect(message).Throws? ==> r.Expect(message).exception == WithMessage(message)
    ensures r.ExpectThrowing(x) == (if r.Ok? then Returns(r.value) else Throws(x))
    ensures r.ExpectElse(f) == (if r.Ok? then Returns(r.value) else Throws(f(r.error)))
  {
  }

  /** `unwrapErr` and all forms of `expectErr` return exactly on `Err`. */
  lemma UnwrapErrSucceedsExactlyOnErr<T, E, X>(r: Result<T, E>, message: string, x: X, f: T -> X)
    ensures r.UnwrapErr().Returns? <==> r.Err?
    ensures r.UnwrapErr().Returns? ==> Err(r.UnwrapErr().value) == r
    ensures r.UnwrapErr().Throws? ==> r.UnwrapErr().exception == UnwrappedOther(r.value)
    ensures r.ExpectErr(message).Returns? <==> r.Err?
    ensures r.ExpectErr(message).Throws? ==> r.ExpectErr(message).exception == WithMessage(message)
    ensures r.ExpectErrThrowing(x) == (if r.Err? then Returns(r.error) else Throws(x))
    ensures r.ExpectErrElse(f) == (if r.Err? then Returns(r.error) else Throws(f(r.value)))
  {
  }

  /** Which branch `and`, `andThen`, `or` and `orThen` return; the suppliers
      of `andThen` and `orThen` only matter on `Ok` and `Err` respectively. */
  lemma SequencingBranches<T, U, E, F>(r: Result<T, E>, a: Result<U, E>, s1: () -> Result<U, E>, s2: () -> Result<U, E>,
                                       o: Result<T, F>, t1: () -> Result<T, F>, t2: () -> Result<T, F>)
    ensures r.Ok? ==> r.And(a) == a && r.AndThen(s1) == s1()
    ensures r.Err? ==> r.And(a) == Err(r.error) && r.AndThen(s1) == r.AndThen(s2) == Err(r.error)
    ensures r.Ok? ==> r.Or(o) == Ok(r.value) && r.OrThen(t1) == r.OrThen(t2) == Ok(r.value)
    ensures r.Err? ==> r.Or(o) == o && r.OrThen(t1) == t1()
    ensures r.AndThen(() => a) == r.And(a) && r.OrThen(() => o) == r.Or(o)
  {
  }

  /** `andThen` with a supplier of the receiver itself is the identity. */
  lemma AndThenSelf<T, E>(r: Result<T, E>)
    ensures r.AndThen(() => r) == r
  {
  }

  /** `from(value, error)` is `Err(error)` exactly when `value` is null, and
      agrees with `Option.okOr`; `fromElse` is its lazy form. */
  lemma FromLaws<T, E>(value: Option<T>, error: E)
    ensures From(value, error).IsErr() <==> value.None?
    ensures value.Some? ==> From(value, error) == Ok(value.value)
    ensures From(value, error) == value.OkOr(error)
    ensures FromElse(value, () => error) == From(value, error)
  {
  }

  /** `ok()` and `err()` map the variants onto `Some`/`None`. */
  lemma OptionConversions<T, E>(r: Result<T, E>)
    ensures r.Ok? ==> r.OkOption() == Some(r.value) && r.ErrOption() == None
    ensures r.Err? ==> r.OkOption() == None && r.ErrOption() == Some(r.error)
  {
  }

  /** `Option.some(v).okOr(e).unwrap() == v` and
      `Option.none().okOr(e).unwrapErr() == e`. */
  lemma OkOrRoundTrip<T, E>(v: T, e: E)
    ensures Some(v).OkOr(e).Unwrap() == Returns(v)
    ensures Option<T>.None.OkOr(e).UnwrapErr() == Returns(e)
    ensures Some(v).OkOr(e).OkOption() == Some(v)
  {
  }

  /** `inspect` and `inspectErr` hand their consumer the payload of the
      matching variant, once, and return the receiver. */
  lemma InspectLaws<T, E, A>(r: Result<T, E>, f: T -> A, g: E -> A)
    ensures r.Inspect(f) == (r, if r.Ok? then [f(r.value)] else [])
    ensures r.InspectErr(g) == (r, if r.Err? then [g(r.error)] else [])
  {
  }

  /** The iterator yields the `Ok` payload and nothing else. */
  lemma ElementsAreTheOkPayload<T, E>(r: Result<T, E>)
    ensures r.Elements() == if r.Ok? then [r.value] else []
    ensures forall x :: x in r.Elements() <==> r.OkOption() == Some(x)
  {
  }
}
