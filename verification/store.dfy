/** The in-memory store: two keyed tables, products and materials.

    `Tables` is the value of the two maps; every read-only query of the store
    is a function on it. `Store` is the object whose two map fields the
    save and delete operations update in place. */
module Store {
  import opened Results

  datatype Material = Material(id: string, name: string, description: string)

  datatype Product = Product(id: string, name: string, description: string, material: Material)

  datatype FailureType = Missing | ReferencedByOther

  /** A `Failure`: its type, and the ids its message names. */
  datatype Failure = Failure(kind: FailureType, ids: set<string>)

  /** The domain classes a class name can resolve to: the two entity classes
      the store knows, or any other loadable class. */
  datatype DomainClass = ProductClass | MaterialClass | OtherClass(simpleName: string)

  /** The set of elements of a list. */
  function Elems(ids: seq<string>): (s: set<string>)
    ensures forall x :: x in s <==> x in ids
  {
    set x | x in ids
  }

  /** Removing each id of `ids` in turn from `products` hands back, for each
      position, the product that was still there, or null (`None`) when an
      earlier position already removed it or it was never present. */
  function RemovedInOrder(products: map<string, Product>, ids: seq<string>): (r: seq<Option<Product>>)
    ensures |r| == |ids|
    ensures forall i | 0 <= i < |ids| :: r[i].Some? ==> ids[i] in products && r[i].value == products[ids[i]]
    ensures forall i | 0 <= i < |ids| :: r[i].None? && ids[i] in products ==> exists j | 0 <= j < i :: ids[j] == ids[i]
  {
    seq(|ids|, i requires 0 <= i < |ids| =>
      if ids[i] in products && ids[i] !in ids[..i] then Some(products[ids[i]]) else None)
  }

  predicate NoDuplicates(ids: seq<string>) {
    forall i, j | 0 <= i < j < |ids| :: ids[i] != ids[j]
  }

  datatype Tables = Tables(products: map<string, Product>, materials: map<string, Material>) {

    /** Every entity is filed under its own id. */
    ghost predicate Valid() {
      && (forall id | id in products :: products[id].id == id)
      && (forall id | id in materials :: materials[id].id == id)
    }

    /** `findAllProducts()`: the values of the products table. */
    function FindAllProducts(): (r: set<Product>)
      ensures forall id | id in products :: products[id] in r
      ensures Valid() ==> forall p | p in r :: p.id in products && products[p.id] == p
    {
      products.Values
    }

    /** `findProductById(id)`. */
    function FindProductById(id: string): (r: Option<Product>)
      ensures r.Some? <==> id in products
      ensures r.Some? ==> r.value == products[id]
      ensures Valid() && r.Some? ==> r.value.id == id
    {
      if id in products then Some(products[id]) else None
    }

    /** `findAllMaterial()`: the values of the materials table. */
    function FindAllMaterial(): (r: set<Material>)
      ensures forall id | id in materials :: materials[id] in r
      ensures Valid() ==> forall m | m in r :: m.id in materials && materials[m.id] == m
    {
      materials.Values
    }

    /** `findMaterialById(id)`. */
    function FindMaterialById(id: string): (r: Option<Material>)
      ensures r.Some? <==> id in materials
      ensures r.Some? ==> r.value == materials[id]
      ensures Valid() && r.Some? ==> r.value.id == id
    {
      if id in materials then Some(materials[id]) else None
    }

    /** `domainObjectsExistsByIdAndClass(id, c)`: only the two entity classes
        have a table; for any other class nothing exists. */
    predicate DomainObjectsExistsByIdAndClass(id: string, c: DomainClass)
      ensures DomainObjectsExistsByIdAndClass(id, c) ==> !c.OtherClass?
      ensures DomainObjectsExistsByIdAndClass(id, c) <==>
                (c == ProductClass && FindProductById(id).Some?) ||
                (c == MaterialClass && FindMaterialById(id).Some?)
    {
      match c
      case ProductClass => id in products
      case MaterialClass => id in materials
      case OtherClass(_) => false
    }

    /** The ids of `ids` that do not exist, in input order. */
    function NonExistingIds(ids: seq<string>, c: DomainClass): (r: seq<string>)
      ensures |r| <= |ids|
      ensures forall x :: x in r <==> x in ids && !DomainObjectsExistsByIdAndClass(x, c)
    {
      if ids == [] then []
      else
        var rest := NonExistingIds(ids[1..], c);
        if DomainObjectsExistsByIdAndClass(ids[0], c) then rest else [ids[0]] + rest
    }

    /** `domainObjectsExistByIdsAndClass(ids, c)`: `good()` when every id
        exists, otherwise an error holding exactly the missing ids. */
    function DomainObjectsExistByIdsAndClass(ids: seq<string>, c: DomainClass): (r: Result<Good, seq<string>>)
      ensures r.IsOk() <==> forall i | 0 <= i < |ids| :: DomainObjectsExistsByIdAndClass(ids[i], c)
      ensures r.Err? ==> r.error == NonExistingIds(ids, c) && r.error != []
    {
      var missing := NonExistingIds(ids, c);
      AllExistIffNoneMissing(this, ids, c);
      if missing == [] then GoodResult() else Err(missing)
    }

    /** The ids of the products whose material is `materialId`. */
    function ReferencingProductIds(materialId: string): (r: set<string>)
      ensures forall id :: id in r <==> id in products && products[id].material.id == materialId
    {
      set id | id in products && products[id].material.id == materialId
    }

    /** What `deleteProducts(ids)` returns and leaves behind, as written:
        all or nothing; on success each position of the list holds what
        `remove` handed back for that id. */
    function DeleteProductsOutcome(ids: seq<string>): (r: (Result<seq<Option<Product>>, Failure>, Tables))
      ensures r.0.Err? <==> NonExistingIds(ids, ProductClass) != []
      ensures r.0.Err? ==> r.1 == this && r.0.error.kind == Missing
      ensures r.0.Ok? ==> r.1.materials == materials && r.1.products == products - Elems(ids)
      ensures r.0.Ok? ==> |r.0.value| == |ids|
    {
      var missing := NonExistingIds(ids, ProductClass);
      if missing != [] then (Err(Failure(Missing, Elems(missing))), this)
      else (Ok(RemovedInOrder(products, ids)), this.(products := products - Elems(ids)))
    }

    /** What `deleteMaterial(id)` returns and leaves behind, as written: any
        product at all blocks the deletion. */
    function DeleteMaterialOutcome(id: string): (r: (Result<Material, Failure>, Tables))
      ensures r.1.products == products
      ensures r.0.Ok? <==> products == map[] && id in materials
      ensures r.0.Ok? ==> r.0.value == materials[id] && r.1.materials == materials - {id}
      ensures r.0.Err? ==> r.1 == this
      ensures products != map[] ==> r.0 == Err(Failure(ReferencedByOther, ReferencingProductIds(id)))
      ensures products == map[] && id !in materials ==> r.0 == Err(Failure(Missing, {id}))
    {
      if products != map[] then (Err(Failure(ReferencedByOther, ReferencingProductIds(id))), this)
      else if id in materials then (Ok(materials[id]), this.(materials := materials - {id}))
      else (Err(Failure(Missing, {id})), this)
    }

    /** `deleteMaterial(id)` as evidently intended: only products that
        reference the material block its deletion. */
    function IntendedDeleteMaterialOutcome(id: string): (Result<Material, Failure>, Tables) {
      if ReferencingProductIds(id) != {} then (Err(Failure(ReferencedByOther, ReferencingProductIds(id))), this)
      else if id in materials then (Ok(materials[id]), this.(materials := materials - {id}))
      else (Err(Failure(Missing, {id})), this)
    }
  }

  class Store {
    var products: map<string, Product>
    var materials: map<string, Material>

    /** The current value of both tables. */
    function View(): Tables
      reads this
    {
      Tables(products, materials)
    }

    ghost predicate Valid()
      reads this
    {
      View().Valid()
    }

    /** A store over an arbitrary initial state (the seed data is not
        modelled). */
    constructor (initial: Tables)
      requires initial.Valid()
      ensures Valid() && View() == initial
    {
      products := initial.products;
      materials := initial.materials;
    }

    /** `saveProduct(p)`: files `p` under its id, replacing any previous
        entry, and returns it. */
    method SaveProduct(p: Product) returns (r: Product)
      requires Valid()
      modifies this
      ensures Valid()
      ensures r == p
      ensures products == old(products)[p.id := p]
      ensures materials == old(materials)
    {
      products := products[p.id := p];
      r := p;
    }

    /** `saveMaterial(m)`: files `m` under its id and returns it. */
    method SaveMaterial(m: Material) returns (r: Material)
      requires Valid()
      modifies this
      ensures Valid()
      ensures r == m
      ensures materials == old(materials)[m.id := m]
      ensures products == old(products)
    {
      materials := materials[m.id := m];
      r := m;
    }

    /** `deleteProduct(id)`: removes and returns the product, or reports it
        `Missing` and changes nothing. */
    method DeleteProduct(id: string) returns (r: Result<Product, Failure>)
      requires Valid()
      modifies this
      ensures Valid()
      ensures r.Ok? <==> id in old(products)
      ensures r.Ok? ==> r.value == old(products)[id]
      ensures r.Err? ==> r.error == Failure(Missing, {id})
      ensures products == old(products) - {id}
      ensures materials == old(materials)
    {
      var removed: Option<Product> := if id in products then Some(products[id]) else None;
      products := products - {id};
      r := removed.OkOr(Failure(Missing, {id}));
    }

    /** `deleteProducts(ids)`, as written: if any id is absent, fails with
        `Missing` naming the absent ids and removes nothing; otherwise removes
        every id in turn and returns what each removal handed back. */
    method DeleteProducts(ids: seq<string>) returns (r: Result<seq<Option<Product>>, Failure>)
      requires Valid()
      modifies this
      ensures Valid()
      ensures (r, View()) == old(View()).DeleteProductsOutcome(ids)
    {
      var missing := View().NonExistingIds(ids, ProductClass);
      if missing != [] {
        r := Err(Failure(Missing, Elems(missing)));
        return;
      }
      ghost var before := products;
      var removed: seq<Option<Product>> := [];
      for i := 0 to |ids|
        invariant products == before - Elems(ids[..i])
        invariant materials == old(materials)
        invariant removed == RemovedInOrder(before, ids[..i])
      {
        var id := ids[i];
        var got: Option<Product> := if id in products then Some(products[id]) else None;
        products := products - {id};
        assert ids[..i + 1] == ids[..i] + [id];
        removed := removed + [got];
      }
      assert ids[..|ids|] == ids;
      r := Ok(removed);
    }

    /** `deleteProducts(ids)` as evidently intended: on success the list
        holds the removed product of each id, in input order, and no null. */
    method DeleteProductsIntended(ids: seq<string>) returns (r: Result<seq<Product>, Failure>)
      requires Valid()
      modifies this
      ensures Valid()
      ensures materials == old(materials)
      ensures r.Err? <==> exists i | 0 <= i < |ids| :: ids[i] !in old(products)
      ensures r.Err? ==> products == old(products) && r.error.kind == Missing
      ensures r.Ok? ==> products == old(products) - Elems(ids)
      ensures r.Ok? ==> |r.value| == |ids| && forall i | 0 <= i < |ids| :: r.value[i] == old(products)[ids[i]]
    {
      var missing := View().NonExistingIds(ids, ProductClass);
      AllExistIffNoneMissing(View(), ids, ProductClass);
      if missing != [] {
        r := Err(Failure(Missing, Elems(missing)));
        return;
      }
      var before := products;
      var removed: seq<Product> := [];
      for i := 0 to |ids|
        invariant products == before - Elems(ids[..i])
        invariant materials == old(materials)
        invariant |removed| == i
        invariant forall k | 0 <= k < i :: removed[k] == before[ids[k]]
      {
        var id := ids[i];
        removed := removed + [before[id]];
        products := products - {id};
        assert ids[..i + 1] == ids[..i] + [id];
      }
      assert ids[..|ids|] == ids;
      r := Ok(removed);
    }

    /** `deleteMaterial(id)`, as written. */
    method DeleteMaterial(id: string) returns (r: Result<Material, Failure>)
      requires Valid()
      modifies this
      ensures Valid()
      ensures (r, View()) == old(View()).DeleteMaterialOutcome(id)
    {
      var referencing := View().ReferencingProductIds(id);
      if products != map[] {
        r := Err(Failure(ReferencedByOther, referencing));
        return;
      }
      var removed: Option<Material> := if id in materials then Some(materials[id]) else None;
      materials := materials - {id};
      assert id !in old(materials) ==> materials == old(materials);
      r := removed.OkOr(Failure(Missing, {id}));
    }

    /** `deleteMaterial(id)` as evidently intended. */
    method DeleteUnreferencedMaterial(id: string) returns (r: Result<Material, Failure>)
      requires Valid()
      modifies this
      ensures Valid()
      ensures (r, View()) == old(View()).IntendedDeleteMaterialOutcome(id)
    {
      var referencing := View().ReferencingProductIds(id);
      if referencing != {} {
        r := Err(Failure(ReferencedByOther, referencing));
        return;
      }
      var removed: Option<Material> := if id in materials then Some(materials[id]) else None;
      materials := materials - {id};
      assert id !in old(materials) ==> materials == old(materials);
      r := removed.OkOr(Failure(Missing, {id}));
    }
  }

  // ---------------------------------------------------------------------
  // Properties of the queries and of the deletions

  /** No id is missing exactly when every id exists. */
  lemma AllExistIffNoneMissing(t: Tables, ids: seq<string>, c: DomainClass)
    ensures t.NonExistingIds(ids, c) == [] <==> forall i | 0 <= i < |ids| :: t.DomainObjectsExistsByIdAndClass(ids[i], c)
  {
    var missing := t.NonExistingIds(ids, c);
    if missing != [] {
      assert missing[0] in missing;
    } else {
      forall i | 0 <= i < |ids| ensures t.DomainObjectsExistsByIdAndClass(ids[i], c) {
        assert ids[i] in ids;
      }
    }
  }

  /** The missing ids are listed in input order: the listing of a
      concatenation is the concatenation of the listings. */
  lemma {:induction false} NonExistingIdsAppend(t: Tables, a: seq<string>, b: seq<string>, c: DomainClass)
    ensures t.NonExistingIds(a + b, c) == t.NonExistingIds(a, c) + t.NonExistingIds(b, c)
  {
    if a == [] {
      assert a + b == b;
    } else {
      assert (a + b)[1..] == a[1..] + b;
      NonExistingIdsAppend(t, a[1..], b, c);
    }
  }

  /** The batched lookup agrees with the single lookup id by id: the batch
      succeeds iff no single lookup fails, and a single id is reported by
      the batch iff it does not exist. */
  lemma BatchAgreesWithSingle(t: Tables, id: string, c: DomainClass)
    ensures t.DomainObjectsExistByIdsAndClass([id], c).IsOk() <==> t.DomainObjectsExistsByIdAndClass(id, c)
    ensures t.DomainObjectsExistByIdsAndClass([id], c).Err? ==> t.DomainObjectsExistByIdsAndClass([id], c).error == [id]
  {
    assert [id][1..] == [];
  }

  /** For a class other than the two entity classes every id is missing. */
  lemma {:induction false} OtherClassMissesEverything(t: Tables, ids: seq<string>, name: string)
    ensures t.NonExistingIds(ids, OtherClass(name)) == ids
  {
    if ids != [] {
      OtherClassMissesEverything(t, ids[1..], name);
    }
  }

  /** `deleteProducts` is all or nothing. */
  lemma DeleteProductsAllOrNothing(t: Tables, ids: seq<string>)
    ensures var (r, t') := t.DeleteProductsOutcome(ids);
      && (r.Err? <==> exists i | 0 <= i < |ids| :: ids[i] !in t.products)
      && (r.Err? ==> t' == t && r.error.kind == Missing
                      && forall x :: x in r.error.ids <==> x in ids && x !in t.products)
      && (r.Ok? ==> t'.materials == t.materials && t'.products == t.products - Elems(ids))
  {
    var missing := t.NonExistingIds(ids, ProductClass);
    if missing == [] {
      forall i | 0 <= i < |ids| ensures ids[i] in t.products {
        assert ids[i] !in missing;
      }
    } else {
      var x := missing[0];
      assert x in missing;
      var i :| 0 <= i < |ids| && ids[i] == x;
    }
  }

  /** On success, every list position holds a product exactly when its id
      does not repeat an earlier id. */
  lemma DeleteProductsNullExactlyOnRepeats(t: Tables, ids: seq<string>)
    ensures var (r, _) := t.DeleteProductsOutcome(ids);
      r.Ok? ==> forall i | 0 <= i < |ids| :: (r.value[i].Some? <==> ids[i] !in ids[..i])
  {
    var (r, _) := t.DeleteProductsOutcome(ids);
    if r.Ok? {
      DeleteProductsAllOrNothing(t, ids);
      forall i | 0 <= i < |ids| ensures r.value[i].Some? <==> ids[i] !in ids[..i] {
        assert ids[i] in t.products;
      }
    }
  }

  /** With distinct ids the list is the removed products in input order,
      none of them null. */
  lemma DeleteProductsDistinctIds(t: Tables, ids: seq<string>)
    requires NoDuplicates(ids)
    ensures var (r, _) := t.DeleteProductsOutcome(ids);
      r.Ok? ==> |r.value| == |ids| && forall i | 0 <= i < |ids| :: ids[i] in t.products && r.value[i] == Some(t.products[ids[i]])
  {
    var (r, _) := t.DeleteProductsOutcome(ids);
    if r.Ok? {
      DeleteProductsAllOrNothing(t, ids);
      forall i | 0 <= i < |ids| ensures ids[i] in t.products && r.value[i] == Some(t.products[ids[i]]) {
        assert forall j | 0 <= j < i :: ids[..i][j] == ids[j] && ids[j] != ids[i];
        assert ids[i] !in ids[..i];
      }
    }
  }

  /** Counterexample: deleting the same existing id twice reports success
      with a null second entry, which the caller then dereferences. */
  lemma DeleteProductsDuplicateGivesNull(p: Product)
    ensures var t := Tables(map[p.id := p], map[]);
      t.DeleteProductsOutcome([p.id, p.id]).0 == Ok([Some(p), None])
  {
    var t := Tables(map[p.id := p], map[]);
    var ids := [p.id, p.id];
    assert t.NonExistingIds(ids[1..], ProductClass) == [];
    assert t.NonExistingIds(ids, ProductClass) == [];
    assert ids[..1] == [p.id];
    assert RemovedInOrder(t.products, ids) == [Some(p), None];
  }

  /** `deleteMaterial` as written refuses whenever any product exists. */
  lemma DeleteMaterialBlockedByAnyProduct(t: Tables, id: string)
    ensures t.products != map[] <==> t.DeleteMaterialOutcome(id).0 == Err(Failure(ReferencedByOther, t.ReferencingProductIds(id)))
    ensures t.products != map[] ==> t.DeleteMaterialOutcome(id).1 == t
    ensures t.products == map[] ==> t.DeleteMaterialOutcome(id) == t.IntendedDeleteMaterialOutcome(id)
  {
    if t.products == map[] {
      assert t.ReferencingProductIds(id) == {};
    }
  }

  /** Counterexample: one product that uses material "m1" blocks deleting
      the unreferenced material "m2". */
  lemma DeleteMaterialGuardTooStrict()
    ensures var m1 := Material("m1", "", "");
      var m2 := Material("m2", "", "");
      var t := Tables(map["p" := Product("p", "", "", m1)], map["m1" := m1, "m2" := m2]);
      && t.ReferencingProductIds("m2") == {}
      && t.DeleteMaterialOutcome("m2").0 == Err(Failure(ReferencedByOther, {}))
      && t.IntendedDeleteMaterialOutcome("m2").0 == Ok(m2)
  {
    var m1 := Material("m1", "", "");
    var m2 := Material("m2", "", "");
    var t := Tables(map["p" := Product("p", "", "", m1)], map["m1" := m1, "m2" := m2]);
    assert "m1"[1] != "m2"[1];
    assert "p" in t.products && t.products != map[];
    assert t.materials["m2"] == m2;
    assert t.ReferencingProductIds("m2") == {} by {
      forall pid | pid in t.products ensures t.products[pid].material.id != "m2" {
        assert pid == "p";
      }
    }
  }

  /** The intended `deleteMaterial` refuses exactly when some product
      references the material; otherwise it removes it or reports it
      missing, and never touches the products. */
  lemma IntendedDeleteMaterialSpec(t: Tables, id: string)
    ensures var (r, t') := t.IntendedDeleteMaterialOutcome(id);
      && ((r.Err? && r.error.kind == ReferencedByOther) <==> exists pid :: pid in t.products && t.products[pid].material.id == id)
      && t'.products == t.products
      && (r.Ok? <==> id in t.materials && t.ReferencingProductIds(id) == {})
      && (r.Ok? ==> r.value == t.materials[id] && t'.materials == t.materials - {id})
      && (r.Err? ==> t' == t)
      && (t.ReferencingProductIds(id) == {} && id !in t.materials ==> r == Err(Failure(Missing, {id})))
  {
    var (r, t') := t.IntendedDeleteMaterialOutcome(id);
    if r.Err? && r.error.kind == ReferencedByOther {
      var pid :| pid in t.ReferencingProductIds(id);
    }
  }
}
