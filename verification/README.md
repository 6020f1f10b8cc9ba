# graphql-dynamic-update: the Result algebra, the store and the @Exists validation engine

This project models the core of a GraphQL service that validates
identifier arguments against an in-memory store. It has four parts.

- `results.dfy` (module `Results`) holds the fallible-value algebra.
  `Result<T, E>` is either `Ok(value)` or `Err(error)`, with its
  predicates, `map`/`mapErr` and their variants, `inspect`, the
  unwrapping escape hatches, `and`/`andThen`/`or`/`orThen`, and the
  `good`/`from`/`fromElse` factories. It also holds the `Some | None`
  `Option` that these convert to and from. A Java method that may throw
  returns a `Completion`, which is `Returns(value)` or
  `Throws(exception)`. A supplier is a function of no arguments.
- `store.dfy` (module `Store`) holds the store.
  - `Tables` is the value of its two maps, products and materials. Every
    read-only query is a function on it.
  - The class `Store` has the two maps as fields. Its save and delete
    methods update those fields in place. Each method is proved against a
    function of the old tables.
- `batchable.dfy` (module `Batchable`) holds the directive fan-out engine
  of `AbstractBatchableConstraint`.
  - An environment is a record: the element kind, the value (`Null` is
    Java's `null`), the declared type, the output type of the enclosing
    field, the applied directives and the directive attached as context.
  - The two rule hooks are function parameters.
  - The directive loop is a method. Its contract says it computes
    `Collect` over the runs that `PlannedRuns` describes.
- `exists.dfy` (module `Exists`) holds the decision logic of
  `ExistsConstraint`.
  - Search-path normalisation.
  - The class-name fallback chain.
  - Classification of the validated value.
  - The mapping of a `Result<GOOD, ExistError>` to zero or one validation
    error.
  - Class loading is a lookup in a finite registry from class names to
    domain classes. The store is a `Tables` value.

Java exceptions are modelled as follows:
- `NullPointerException` is `Fault.NullPointer`.
- The `GraphQLException` raised for an unknown class is
  `Fault.DomainClassNotFound`.
- The `NoSuchElementException` of the unwraps is `NoSuchElement`.

## Model

| member | source | states |
|---|---|---|
| Results.Option.OkOr | src/main/java/the/oronco/graphqldynamicupdate/dfs/Store.java:67-68 | `okOr` gives `Ok` exactly on `Some`, and then its value; on `None` it gives `Err` of the given error |
| Results.Result.IsOk | src/main/java/the/oronco/graphqldynamicupdate/dfs/adt/Result.java:63-68 | `isOk` holds exactly when `isErr` does not (see `ExactlyOneVariant`) |
| Results.Result.IsOkAnd | src/main/java/the/oronco/graphqldynamicupdate/dfs/adt/Result.java:77-82 | `isOkAnd(p)` holds iff `ok()` is present and satisfies `p` |
| Results.Result.IsErr | src/main/java/the/oronco/graphqldynamicupdate/dfs/adt/Result.java:84-89 | `isErr` holds exactly on the `Err` variant; with `isOk`, exactly one of the two holds (`ExactlyOneVariant`) |
| Results.Result.IsErrAnd | src/main/java/the/oronco/graphqldynamicupdate/dfs/adt/Result.java:98-103 | `isErrAnd(p)` holds iff `err()` is present and satisfies `p` |
| Results.Result.OkOption | src/main/java/the/oronco/graphqldynamicupdate/dfs/adt/Result.java:110-115 | `ok()` is `Some` exactly when the result is `Ok` |
| Results.Result.ErrOption | src/main/java/the/oronco/graphqldynamicupdate/dfs/adt/Result.java:122-127 | `err()` is `Some` exactly when the result is `Err` |
| Results.Result.Map | src/main/java/the/oronco/graphqldynamicupdate/dfs/adt/Result.java:140-145 | `map` keeps the variant |
| Results.Result.MapOr | src/main/java/the/oronco/graphqldynamicupdate/dfs/adt/Result.java:160-166 | `f` of the payload on `Ok`; the default on `Err` |
| Results.Result.MapOrElse | src/main/java/the/oronco/graphqldynamicupdate/dfs/adt/Result.java:181-187 | `f` of the payload on `Ok`; `d` of the error on `Err` |
| Results.Result.MapErr | src/main/java/the/oronco/graphqldynamicupdate/dfs/adt/Result.java:201-206 | `mapErr` keeps the variant |
| Results.Result.Expect | src/main/java/the/oronco/graphqldynamicupdate/dfs/adt/Result.java:285-290 | returns exactly on `Ok`, giving the `ok()` payload; otherwise throws with the given message |
| Results.Result.ExpectThrowing | src/main/java/the/oronco/graphqldynamicupdate/dfs/adt/Result.java:305-311 | returns exactly on `Ok`, giving the `ok()` payload; otherwise throws the given exception |
| Results.Result.ExpectElse | src/main/java/the/oronco/graphqldynamicupdate/dfs/adt/Result.java:327-333 | returns exactly on `Ok`, giving the `ok()` payload; otherwise throws the exception built from the error |
| Results.Result.Unwrap | src/main/java/the/oronco/graphqldynamicupdate/dfs/adt/Result.java:347-354 | returns exactly on `Ok`, giving the `ok()` payload; otherwise throws an exception carrying the error |
| Results.Result.UnwrapOr | src/main/java/the/oronco/graphqldynamicupdate/dfs/adt/Result.java:366-371 | the `ok()` payload on `Ok`; the default on `Err` |
| Results.Result.UnwrapOrElse | src/main/java/the/oronco/graphqldynamicupdate/dfs/adt/Result.java:386-391 | the `ok()` payload on `Ok`; what the supplier gives on `Err` |
| Results.Result.ExpectErr | src/main/java/the/oronco/graphqldynamicupdate/dfs/adt/Result.java:402-407 | returns exactly on `Err`, giving the `err()` payload; otherwise throws with the given message |
| Results.Result.ExpectErrThrowing | src/main/java/the/oronco/graphqldynamicupdate/dfs/adt/Result.java:418-424 | returns exactly on `Err`, giving the `err()` payload; otherwise throws the given exception |
| Results.Result.ExpectErrElse | src/main/java/the/oronco/graphqldynamicupdate/dfs/adt/Result.java:436-442 | returns exactly on `Err`, giving the `err()` payload; otherwise throws the exception built from the success payload |
| Results.Result.UnwrapErr | src/main/java/the/oronco/graphqldynamicupdate/dfs/adt/Result.java:452-459 | returns exactly on `Err`, giving the `err()` payload; otherwise throws an exception carrying the success payload |
| Results.Result.Inspect | src/main/java/the/oronco/graphqldynamicupdate/dfs/adt/Result.java:220-225 | `inspect` returns the receiver; the consumer is called once on `Ok` and never on `Err` |
| Results.Result.InspectErr | src/main/java/the/oronco/graphqldynamicupdate/dfs/adt/Result.java:238-243 | `inspectErr` returns the receiver; the consumer is called once on `Err` and never on `Ok` |
| Results.Result.Elements | src/main/java/the/oronco/graphqldynamicupdate/dfs/adt/Result.java:245-251 | `iterator()` yields at most one element, and one exactly on `Ok` |
| Results.Result.And | src/main/java/the/oronco/graphqldynamicupdate/dfs/adt/Result.java:475-480 | `and` succeeds iff both results succeed |
| Results.Result.AndThen | src/main/java/the/oronco/graphqldynamicupdate/dfs/adt/Result.java:494-499 | `andThen` on an `Err` stays an `Err` |
| Results.Result.Or | src/main/java/the/oronco/graphqldynamicupdate/dfs/adt/Result.java:514-519 | `or` succeeds iff either result succeeds |
| Results.Result.OrThen | src/main/java/the/oronco/graphqldynamicupdate/dfs/adt/Result.java:533-538 | `orThen` on an `Ok` stays an `Ok` |
| Results.Result.As | src/main/java/the/oronco/graphqldynamicupdate/dfs/adt/Result.java:58-60 | `Err.as()` is an `Err` with the same error |
| Results.From | src/main/java/the/oronco/graphqldynamicupdate/dfs/adt/Result.java:559-564 | `Err` exactly on null, and equal to `Option.okOr` |
| Results.FromElse | src/main/java/the/oronco/graphqldynamicupdate/dfs/adt/Result.java:566-572 | `Err` exactly on null, and equal to `from` with the supplied error |
| Results.GoodResult | src/main/java/the/oronco/graphqldynamicupdate/dfs/adt/Result.java:555-557 | `good()` is an `Ok` |
| Results.ExactlyOneVariant | src/main/java/the/oronco/graphqldynamicupdate/dfs/adt/Result.java:63-89 | exactly one of `isOk` and `isErr` holds |
| Results.PredicateVariants | src/main/java/the/oronco/graphqldynamicupdate/dfs/adt/Result.java:77-103 | `isOkAnd(p)` iff `Ok(v)` with `p(v)`; `isErrAnd(q)` iff `Err(e)` with `q(e)` |
| Results.OptionConversionsDetermine | src/main/java/the/oronco/graphqldynamicupdate/dfs/adt/Result.java:110-127 | `ok()` and `err()` together determine the result |
| Results.OptionConversions | src/main/java/the/oronco/graphqldynamicupdate/dfs/adt/Result.java:110-127 | `ok()`/`err()` give `Some` of the payload of the matching variant and `None` otherwise |
| Results.MapIdentity | src/main/java/the/oronco/graphqldynamicupdate/dfs/adt/Result.java:140-145 | `map(identity)` is the identity |
| Results.MapComposition | src/main/java/the/oronco/graphqldynamicupdate/dfs/adt/Result.java:140-145 | `map(f).map(g) == map(g∘f)` |
| Results.MapKeepsErrors | src/main/java/the/oronco/graphqldynamicupdate/dfs/adt/Result.java:140-145 | `map(f)` is `Ok(f(v))` on `Ok(v)` and passes an `Err` through unchanged |
| Results.MapErrIdentity | src/main/java/the/oronco/graphqldynamicupdate/dfs/adt/Result.java:201-206 | `mapErr(identity)` is the identity |
| Results.MapErrComposition | src/main/java/the/oronco/graphqldynamicupdate/dfs/adt/Result.java:201-206 | `mapErr(f).mapErr(g) == mapErr(g∘f)` |
| Results.MapErrKeepsValues | src/main/java/the/oronco/graphqldynamicupdate/dfs/adt/Result.java:201-206 | `mapErr(f)` passes an `Ok` through and is `Err(f(e))` on `Err(e)` |
| Results.MapOrBranches | src/main/java/the/oronco/graphqldynamicupdate/dfs/adt/Result.java:160-187 | `mapOr`/`mapOrElse` apply `f` on `Ok`; on `Err` they give the default or `d(e)` |
| Results.MapOrElseIsTheEliminator | src/main/java/the/oronco/graphqldynamicupdate/dfs/adt/Result.java:140-206 | `mapOr`, `map`, `mapErr`, `unwrapOr` and `isOk` are all instances of `mapOrElse` |
| Results.UnwrapOrLaws | src/main/java/the/oronco/graphqldynamicupdate/dfs/adt/Result.java:366-391 | `unwrapOr(d)` is the payload on `Ok` whatever `d` is, and `d` on `Err`; `unwrapOrElse` consults its supplier only on `Err` |
| Results.UnwrapSucceedsExactlyOnOk | src/main/java/the/oronco/graphqldynamicupdate/dfs/adt/Result.java:285-354 | `unwrap`/`expect`/`expectElse` return the payload exactly on `Ok`; otherwise they throw the given, supplied or generated exception |
| Results.UnwrapErrSucceedsExactlyOnErr | src/main/java/the/oronco/graphqldynamicupdate/dfs/adt/Result.java:402-459 | `unwrapErr`/`expectErr`/`expectErrElse` return the error exactly on `Err`; otherwise they throw |
| Results.SequencingBranches | src/main/java/the/oronco/graphqldynamicupdate/dfs/adt/Result.java:475-538 | which branch `and`/`andThen`/`or`/`orThen` return; the supplier is ignored on the short-circuit side; the eager and lazy forms agree |
| Results.AndThenSelf | src/main/java/the/oronco/graphqldynamicupdate/dfs/adt/Result.java:494-499 | `andThen` with a supplier of the receiver returns the receiver |
| Results.FromLaws | src/main/java/the/oronco/graphqldynamicupdate/dfs/adt/Result.java:559-572 | `from(v, e)` is `Err(e)` exactly on `null`, agrees with `okOr`, and `fromElse` is its lazy form |
| Results.OkOrRoundTrip | src/main/java/the/oronco/graphqldynamicupdate/dfs/adt/Result.java:347-459 | `okOr` followed by `unwrap`/`unwrapErr` gives back the value or the error |
| Results.InspectLaws | src/main/java/the/oronco/graphqldynamicupdate/dfs/adt/Result.java:220-243 | `inspect`/`inspectErr` observe exactly the payload of their variant and return the receiver |
| Results.ElementsAreTheOkPayload | src/main/java/the/oronco/graphqldynamicupdate/dfs/adt/Result.java:245-251 | the iterator yields the `Ok` payload and nothing else |
| Store.Tables.FindAllProducts | src/main/java/the/oronco/graphqldynamicupdate/dfs/Store.java:53-55 | every stored product is listed, and only stored products |
| Store.Tables.FindProductById | src/main/java/the/oronco/graphqldynamicupdate/dfs/Store.java:57-59 | `Some` exactly for a stored id, holding the stored product |
| Store.Tables.FindAllMaterial | src/main/java/the/oronco/graphqldynamicupdate/dfs/Store.java:85-87 | every stored material is listed, and only stored materials |
| Store.Tables.FindMaterialById | src/main/java/the/oronco/graphqldynamicupdate/dfs/Store.java:89-91 | `Some` exactly for a stored id, holding the stored material |
| Store.RemovedInOrder | src/main/java/the/oronco/graphqldynamicupdate/dfs/Store.java:80-82 | one entry per id; an entry is the stored product of its id, or null when the id was stored and repeats an earlier id |
| Store.Tables.DeleteProductsOutcome | src/main/java/the/oronco/graphqldynamicupdate/dfs/Store.java:71-83 | fails iff some id is missing, and then changes nothing; on success removes the ids from the products and returns one entry per id |
| Store.Tables.DeleteMaterialOutcome | src/main/java/the/oronco/graphqldynamicupdate/dfs/Store.java:98-113 | products never change; succeeds iff no product exists and the material does, and then removes and returns it; otherwise nothing changes and the failure is `ReferencedByOther` with the referencing ids while any product exists, else `Missing` naming `{id}` |
| Store.Tables.DomainObjectsExistsByIdAndClass | src/main/java/the/oronco/graphqldynamicupdate/dfs/Store.java:115-121 | an id exists iff the table of its class (product or material) holds it; no other class has any object |
| Store.Tables.NonExistingIds | src/main/java/the/oronco/graphqldynamicupdate/dfs/Store.java:123-126 | the listed ids are exactly the requested ids that do not exist |
| Store.Tables.DomainObjectsExistByIdsAndClass | src/main/java/the/oronco/graphqldynamicupdate/dfs/Store.java:123-131 | `good()` iff every id exists; otherwise `Err` of exactly the non-existing ids, which is never empty |
| Store.Tables.ReferencingProductIds | src/main/java/the/oronco/graphqldynamicupdate/dfs/Store.java:99-103 | exactly the products whose material has the given id |
| Store.AllExistIffNoneMissing | src/main/java/the/oronco/graphqldynamicupdate/dfs/Store.java:123-131 | no id is missing iff every id exists |
| Store.NonExistingIdsAppend | src/main/java/the/oronco/graphqldynamicupdate/dfs/Store.java:123-126 | the missing ids keep input order: listing a concatenation concatenates the listings |
| Store.BatchAgreesWithSingle | src/main/java/the/oronco/graphqldynamicupdate/dfs/Store.java:115-131 | the batch lookup of one id agrees with the single lookup, and reports that id when it is missing |
| Store.OtherClassMissesEverything | src/main/java/the/oronco/graphqldynamicupdate/dfs/Store.java:115-121 | for a class other than the two entity classes, every id is missing |
| Store.Store.constructor | src/main/java/the/oronco/graphqldynamicupdate/dfs/Store.java:26-28 | the store starts from a given pair of tables |
| Store.Store.SaveProduct | src/main/java/the/oronco/graphqldynamicupdate/dfs/Store.java:61-64 | the product is filed under its id, the materials are unchanged, and the product is returned |
| Store.Store.SaveMaterial | src/main/java/the/oronco/graphqldynamicupdate/dfs/Store.java:93-96 | the material is filed under its id, the products are unchanged, and the material is returned |
| Store.Store.DeleteProduct | src/main/java/the/oronco/graphqldynamicupdate/dfs/Store.java:66-69 | removes and returns the product, or fails `Missing`; nothing else changes |
| Store.Store.DeleteProducts | src/main/java/the/oronco/graphqldynamicupdate/dfs/Store.java:71-83 | the loop computes `DeleteProductsOutcome`: all or nothing, and what each removal handed back in order |
| Store.DeleteProductsAllOrNothing | src/main/java/the/oronco/graphqldynamicupdate/dfs/Store.java:71-83 | fails iff some id is absent; a failure names exactly the absent ids and changes nothing; a success removes exactly the ids from the products table and leaves the materials alone |
| Store.DeleteProductsNullExactlyOnRepeats | src/main/java/the/oronco/graphqldynamicupdate/dfs/Store.java:80-82 | on success, a list position holds a product exactly when its id does not repeat an earlier id |
| Store.DeleteProductsDistinctIds | src/main/java/the/oronco/graphqldynamicupdate/dfs/Store.java:80-82 | with distinct ids, the returned list is the removed products in input order, and none is null |
| Store.DeleteProductsDuplicateGivesNull | src/main/java/the/oronco/graphqldynamicupdate/dfs/Store.java:80-82 | a repeated id yields a null list entry (finding) |
| Store.Store.DeleteProductsIntended | src/main/java/the/oronco/graphqldynamicupdate/dfs/Store.java:71-83 | the corrected `deleteProducts`: one product per id in input order, never null |
| Store.Store.DeleteMaterial | src/main/java/the/oronco/graphqldynamicupdate/dfs/Store.java:98-113 | as written: computes `DeleteMaterialOutcome` |
| Store.DeleteMaterialBlockedByAnyProduct | src/main/java/the/oronco/graphqldynamicupdate/dfs/Store.java:104-109 | as written, the deletion is refused iff any product exists at all |
| Store.DeleteMaterialGuardTooStrict | src/main/java/the/oronco/graphqldynamicupdate/dfs/Store.java:99-109 | an unreferenced material is refused while another material is in use (finding) |
| Store.Store.DeleteUnreferencedMaterial | src/main/java/the/oronco/graphqldynamicupdate/dfs/Store.java:98-113 | the corrected `deleteMaterial`: computes `IntendedDeleteMaterialOutcome` |
| Store.IntendedDeleteMaterialSpec | src/main/java/the/oronco/graphqldynamicupdate/dfs/Store.java:98-113 | refused iff some product references the material; otherwise removed or reported `Missing`; products untouched |
| Batchable.UnwrapNonNull | src/main/java/the/oronco/graphqldynamicupdate/dfs/AbstractBatchableConstraint.java:43 | the result has no non-null wrapper; a type without one is unchanged |
| Batchable.UnwrapNonNullIdempotent | src/main/java/the/oronco/graphqldynamicupdate/dfs/AbstractBatchableConstraint.java:43 | unwrapping twice is unwrapping once |
| Batchable.NameLe | src/main/java/the/oronco/graphqldynamicupdate/dfs/AbstractBatchableConstraint.java:57 | a prefix comes first (see also `NameLeReflexive`, `NameLeTotal`, `NameLeAntisymmetric`) |
| Batchable.NameLeAntisymmetric | src/main/java/the/oronco/graphqldynamicupdate/dfs/AbstractBatchableConstraint.java:57 | two names each ordered before the other are equal |
| Batchable.NameLeReflexive | src/main/java/the/oronco/graphqldynamicupdate/dfs/AbstractBatchableConstraint.java:57 | the name order is reflexive |
| Batchable.NameLeTotal | src/main/java/the/oronco/graphqldynamicupdate/dfs/AbstractBatchableConstraint.java:57 | the name order is total |
| Batchable.InsertByName | src/main/java/the/oronco/graphqldynamicupdate/dfs/AbstractBatchableConstraint.java:57 | insertion adds exactly one directive and keeps all others |
| Batchable.InsertKeepsSorted | src/main/java/the/oronco/graphqldynamicupdate/dfs/AbstractBatchableConstraint.java:57 | insertion into a sorted list keeps it sorted |
| Batchable.SortByName | src/main/java/the/oronco/graphqldynamicupdate/dfs/AbstractBatchableConstraint.java:57 | the sorted directives are ordered by name and are a permutation of the input |
| Batchable.Matching | src/main/java/the/oronco/graphqldynamicupdate/dfs/AbstractBatchableConstraint.java:61-65 | the filter keeps at most every directive |
| Batchable.MatchingMembers | src/main/java/the/oronco/graphqldynamicupdate/dfs/AbstractBatchableConstraint.java:61-65 | exactly the directives named like the constraint are kept |
| Batchable.MatchingAppend | src/main/java/the/oronco/graphqldynamicupdate/dfs/AbstractBatchableConstraint.java:59-65 | filtering distributes over concatenation |
| Batchable.MatchingInsert | src/main/java/the/oronco/graphqldynamicupdate/dfs/AbstractBatchableConstraint.java:57-65 | inserting by name does not reorder the directives of any one name |
| Batchable.MatchingSortedIsMatching | src/main/java/the/oronco/graphqldynamicupdate/dfs/AbstractBatchableConstraint.java:57-65 | sorting by name leaves the directives of one name in declaration order |
| Batchable.MatchingNone | src/main/java/the/oronco/graphqldynamicupdate/dfs/AbstractBatchableConstraint.java:61-65 | no directive of the name, nothing kept |
| Batchable.Prepared | src/main/java/the/oronco/graphqldynamicupdate/dfs/AbstractBatchableConstraint.java:31-44 | stops exactly for a null input value; otherwise keeps the environment and changes only the declared type, which has no non-null wrapper for inputs |
| Batchable.RunOnPossibleBatches | src/main/java/the/oronco/graphqldynamicupdate/dfs/AbstractBatchableConstraint.java:77-83 | one of the two hooks: the batched one for a collection value of a batching constraint, the single one otherwise (see `HookSelection`) |
| Batchable.Combine | src/main/java/the/oronco/graphqldynamicupdate/dfs/AbstractBatchableConstraint.java:70-71 | returns iff both parts return, and then concatenates their errors; otherwise the first exception |
| Batchable.Collect | src/main/java/the/oronco/graphqldynamicupdate/dfs/AbstractBatchableConstraint.java:55-72 | returns iff every run returns; an exception of the pass is the exception of one of the runs |
| Batchable.RunEnvs | src/main/java/the/oronco/graphqldynamicupdate/dfs/AbstractBatchableConstraint.java:67 | one environment per directive, each the input with that directive attached |
| Batchable.CollectAppend | src/main/java/the/oronco/graphqldynamicupdate/dfs/AbstractBatchableConstraint.java:70-71 | the errors of consecutive runs concatenate, and the first exception ends the pass |
| Batchable.CombineAssociative | src/main/java/the/oronco/graphqldynamicupdate/dfs/AbstractBatchableConstraint.java:70-71 | appending errors is associative |
| Batchable.CombineUnit | src/main/java/the/oronco/graphqldynamicupdate/dfs/AbstractBatchableConstraint.java:55 | the empty error list is neutral |
| Batchable.ThrowEndsPass | src/main/java/the/oronco/graphqldynamicupdate/dfs/AbstractBatchableConstraint.java:59-72 | a thrown exception ends the pass, and later directives do not matter |
| Batchable.RunConstraintOnDirectiveBatched | src/main/java/the/oronco/graphqldynamicupdate/dfs/AbstractBatchableConstraint.java:53-75 | the loop returns the collected outcome of one rule run per directive named like the constraint, in declaration order |
| Batchable.RunValidation | src/main/java/the/oronco/graphqldynamicupdate/dfs/AbstractBatchableConstraint.java:27-47 | the pass is the collected outcome of `PlannedRuns`: output fields go straight to the fan-out, null inputs pass, other inputs lose their non-null wrapper first |
| Batchable.AbsentInputValuePasses | src/main/java/the/oronco/graphqldynamicupdate/dfs/AbstractBatchableConstraint.java:39-41 | a null argument or input-field value runs no rule and passes |
| Batchable.RunsFollowDeclarationOrder | src/main/java/the/oronco/graphqldynamicupdate/dfs/AbstractBatchableConstraint.java:27-75 | the k-th run sees the k-th directive named like the constraint, the element's value and kind, and the unwrapped type |
| Batchable.NoOwnDirectiveNoErrors | src/main/java/the/oronco/graphqldynamicupdate/dfs/AbstractBatchableConstraint.java:59-74 | without a directive of its name, the constraint reports nothing whatever its hooks do |
| Batchable.HookSelection | src/main/java/the/oronco/graphqldynamicupdate/dfs/AbstractBatchableConstraint.java:77-83 | the batched hook runs exactly for a collection value of a batching constraint; otherwise the single hook runs |
| Batchable.TwoDirectivesInDeclarationOrder | src/main/java/the/oronco/graphqldynamicupdate/dfs/AbstractBatchableConstraint.java:59-72 | with two directives of the constraint, the errors of the first declared come first |
| Exists.NormalizeSearchPath | src/main/java/the/oronco/graphqldynamicupdate/dfs/ExistsConstraint.java:37-38 | the stored path ends in `.`, extends the given one by at most one character, and equals it iff it already ended in `.` |
| Exists.NormalizeSearchPathIdempotent | src/main/java/the/oronco/graphqldynamicupdate/dfs/ExistsConstraint.java:37-38 | normalisation is idempotent |
| Exists.Create | src/main/java/the/oronco/graphqldynamicupdate/dfs/ExistsConstraint.java:34-39 | the constraint keeps its store and registry; its search path is `NormalizeSearchPath` of the argument: unchanged when it already ends in `.`, else with one `.` appended |
| Exists.CreateDefault | src/main/java/the/oronco/graphqldynamicupdate/dfs/ExistsConstraint.java:41-43 | the default search path is stored unchanged |
| Exists.AsConstraint | src/main/java/the/oronco/graphqldynamicupdate/dfs/ExistsConstraint.java:141-144 | the constraint answers to `Exists` and batches list elements |
| Exists.Argument | src/main/java/the/oronco/graphqldynamicupdate/dfs/ExistsConstraint.java:74-77 | a directive argument is null exactly when it has no value |
| Exists.ClassName | src/main/java/the/oronco/graphqldynamicupdate/dfs/ExistsConstraint.java:111-121 | the explicit class name wins; otherwise the search path is prefixed to `name`, else to a named output type; null iff no source applies |
| Exists.GetDomainClass | src/main/java/the/oronco/graphqldynamicupdate/dfs/ExistsConstraint.java:107-130 | returns the registered class of the class name; a null name throws `NullPointerException`, an unknown one the `GraphQLException` |
| Exists.SimpleName | src/main/java/the/oronco/graphqldynamicupdate/dfs/ExistsConstraint.java:94 | an entity class's simple name is non-empty and has no package separator; another class keeps its own simple name |
| Exists.Strings | src/main/java/the/oronco/graphqldynamicupdate/dfs/ExistsConstraint.java:86-88 | the identifiers of an all-string collection, one per element, in order |
| Exists.Ids | src/main/java/the/oronco/graphqldynamicupdate/dfs/ExistsConstraint.java:82-90 | a string carries itself; a list carries ids exactly when all its elements are strings, and then exactly those strings in order; any other value carries none |
| Exists.CheckValue | src/main/java/the/oronco/graphqldynamicupdate/dfs/ExistsConstraint.java:82-90 | throws only on null; identifiers pass iff all exist, else `MissingIDs` lists exactly the missing ones; any other value is `UnknownInput` |
| Exists.DisplayName | src/main/java/the/oronco/graphqldynamicupdate/dfs/ExistsConstraint.java:93-95 | the `name` argument, else the class's simple name |
| Exists.ToErrors | src/main/java/the/oronco/graphqldynamicupdate/dfs/ExistsConstraint.java:97-104 | `Ok` gives no error; `Err` gives exactly one, carrying the value, the name and the missing ids (empty for unknown input) |
| Exists.RunConstraintImpl | src/main/java/the/oronco/graphqldynamicupdate/dfs/ExistsConstraint.java:70-105 | at most one error per run; a missing directive context or a null value throws |
| Exists.ValidateExists | src/main/java/the/oronco/graphqldynamicupdate/dfs/ExistsConstraint.java:54-62 | a pass runs the same rule behind both hooks through the engine |
| Exists.UnresolvableClassIsFatal | src/main/java/the/oronco/graphqldynamicupdate/dfs/ExistsConstraint.java:80-90 | an unresolvable class throws for every value and every store state, before the value is looked at |
| Exists.ExistenceVerdict | src/main/java/the/oronco/graphqldynamicupdate/dfs/ExistsConstraint.java:82-104 | no error iff every identifier exists; otherwise one error with the value, the display name and the missing ids in input order |
| Exists.UnknownInputIgnoresStore | src/main/java/the/oronco/graphqldynamicupdate/dfs/ExistsConstraint.java:89-101 | any other non-null value gives one unknown-input error with no missing ids, whatever the store holds |
| Exists.EmptyCollectionPasses | src/main/java/the/oronco/graphqldynamicupdate/dfs/ExistsConstraint.java:86-88 | an empty collection passes |
| Exists.NameFallsBackToSimpleName | src/main/java/the/oronco/graphqldynamicupdate/dfs/ExistsConstraint.java:93-95 | without `name`, errors carry the resolved class's simple name |
| Exists.NoClassNameThrowsNullPointer | src/main/java/the/oronco/graphqldynamicupdate/dfs/ExistsConstraint.java:111-124 | with no class name, no `name` and an unnamed output type, the run throws `NullPointerException` |
| Exists.AtMostOneErrorPerRun | src/main/java/the/oronco/graphqldynamicupdate/dfs/ExistsConstraint.java:97-104 | a pass reports at most one error per rule run |
| Exists.PassErrorBound | src/main/java/the/oronco/graphqldynamicupdate/dfs/ExistsConstraint.java:97-104 | a pass reports at most one error per `@Exists` directive |
| Exists.BatchExample | src/main/java/the/oronco/graphqldynamicupdate/dfs/ExistsConstraint.java:86-89 | with products a and b stored, the request [a, b, c] misses exactly [c]; a list holding a number is unknown input |

## Left out

- `Option.java` is not part of this model. `Option` is reduced to `Some | None` with `okOr`.
- `iter()` is not modelled. Its anonymous iterator returns null from `next()`. `j()` (conversion to `java.util.Optional`) is not modelled either. Iterator state is not modelled: `iterator()` is the list of elements it yields.
- Exception classes and their formatted messages are reduced to the variants of `NoSuchElement`, `Fault` and `Failure`. A `Failure` keeps its kind and the set of ids its message names.
- Eager versus lazy evaluation is not observable in Dafny functions. Suppliers are function arguments, and lemmas state on which branch each is consulted. Consumer side effects of `inspect` are the list of observations they make.
- Results.Result.AndThen: `andThen` takes a `Supplier`, not a function of the payload. So the bind law `andThen(x -> Ok(x)) == this` has no counterpart; `AndThenSelf` states the supplier-of-the-receiver form.
- The store's maps are static and so shared by every instance. Here each `Store` object holds its own maps.
- The seed data of the store (random UUIDs, timestamps) is replaced by an arbitrary initial state. Timestamps and other entity fields are not modelled.
- Store.Store.DeleteProducts: the `Failure` keeps the set of missing ids, not their listed order.
- `Util.sort` is modelled as a stable insertion sort by name. The name comparison is lexicographic by character, whereas Java compares UTF-16 code units.
- `Util.unwrapNonNull` is modelled as stripping every non-null layer.
- `appliesToType`, `getApplicableTypes`, `isOneOfTheseTypes`, `getDocumentation` and the message-template lookup are schema metadata and are not modelled.
- `mkError` is reduced to the message template and its three parameters. The path, location and other details of a GraphQL error are not modelled.
- `Class.forName` and `getSimpleName` are a registry map and a fixed simple name per domain class.
- A missing class name (no `domainClass`, no `name`, an output type that is not named) reaches `Class.forName(null)` at ExistsConstraint.java:124. That throws `NullPointerException`, not the `GraphQLException` of lines 125-127; `Fault.NullPointer` and `Fault.DomainClassNotFound` keep the two apart.
- Java's null checks on `Result` are not modelled: no payload or argument is ever null here. In Java, the Lombok `@NonNull` checks make `Ok`/`Err` construction (Result.java:34, 50, 548, 552) and every combinator argument throw `NullPointerException` on null. So `Ok(v).unwrapOr(null)`, `Ok(v).mapOr(null, f)`, `Err(e).and(null)`, a `map(f)` whose `f` returns null, and `from(v, null)` with a non-null `v` all throw. `UnwrapOrLaws` ("whatever the default is") and `Map` ("keeps the variant") hold only for non-null arguments.
- Store.Tables.FindAllProducts: returns a set of the stored products taken when called. Java's `values()` is a live view that later saves and deletes change; that aliasing is not modelled. The same holds for Store.Tables.FindAllMaterial.
- Concurrency is not modelled: a validation pass is single-threaded.
- The constraint holds a reference to the live store. The model gives it the store's tables as they are when the pass runs, since a pass only reads them.

## Findings

| source | as written | input that shows it | evidently intended | confidence | as-written member | corrected member |
|---|---|---|---|---|---|---|
| src/main/java/the/oronco/graphqldynamicupdate/dfs/Store.java:104 | `deleteMaterial` refuses when the products table is non-empty at all | one product using material m1; delete the unreferenced material m2 | refuse only when some product references the material | high, not executed | Store.DeleteMaterialGuardTooStrict | Store.Store.DeleteUnreferencedMaterial |
| src/main/java/the/oronco/graphqldynamicupdate/dfs/Store.java:80-82 | `deleteProducts` removes ids in turn, and a repeated id removes nothing the second time, so its list entry is null | an existing id p, deleted with [p, p]: the result is Ok([p, null]) | one product per requested id, never null (or duplicates rejected) | medium, not executed | Store.DeleteProductsDuplicateGivesNull | Store.Store.DeleteProductsIntended |
