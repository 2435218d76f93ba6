/** list_products: a page of products, each with its variants, which one query fetches for the whole page. */
module ProductPages {
  import opened Wrappers
  import opened Paging

  /** A variant row of the tenant. */
  datatype Variant = Variant(product: Key, sku: string)

  datatype Product = Product(id: Key, variants: seq<Variant>)

  /** The variants of the products in `products`, in the order given. */
  function VariantsOf(variants: seq<Variant>, products: set<Key>): seq<Variant> {
    if variants == [] then []
    else
      var n := |variants| - 1;
      VariantsOf(variants[..n], products) + if variants[n].product in products then [variants[n]] else []
  }

  lemma {:induction false} VariantsOfOne(variants: seq<Variant>, v: Variant, products: set<Key>)
    ensures VariantsOf(variants + [v], products)
         == VariantsOf(variants, products) + if v.product in products then [v] else []
  {
    assert (variants + [v])[..|variants|] == variants;
  }

  /** Exactly the rows of those products are kept, as often as they come, and in their order. */
  lemma {:induction false} VariantsOfMeaning(variants: seq<Variant>, v: Variant, products: set<Key>)
    ensures VariantsOf([], products) == []
    ensures VariantsOf(variants + [v], products) ==
            if v.product in products then VariantsOf(variants, products) + [v] else VariantsOf(variants, products)
    ensures multiset(VariantsOf(variants, products))[v] == if v.product in products then multiset(variants)[v] else 0
  {
    VariantsOfOne(variants, v, products);
    if variants != [] {
      var n := |variants| - 1;
      VariantsOfMeaning(variants[..n], v, products);
      assert variants == variants[..n] + [variants[n]];
    }
  }

  /** Selecting for the page and then for one of its products is selecting for that product. */
  lemma {:induction false} VariantsOfPage(variants: seq<Variant>, page: set<Key>, product: Key)
    requires product in page
    ensures VariantsOf(VariantsOf(variants, page), {product}) == VariantsOf(variants, {product})
  {
    if variants != [] {
      var n := |variants| - 1;
      VariantsOfPage(variants[..n], page, product);
      var before := VariantsOf(variants[..n], page);
      VariantsOfOne(before, variants[n], {product});
      assert before + [] == before;
    }
  }

  function Get(grouped: map<Key, seq<Variant>>, p: Key): seq<Variant> { if p in grouped then grouped[p] else [] }

  /** The grouping loop. */
  method Group(variants: seq<Variant>) returns (grouped: map<Key, seq<Variant>>)
    ensures forall p :: Get(grouped, p) == VariantsOf(variants, {p})
  {
    grouped := map[];
    for i := 0 to |variants|
      invariant forall p :: Get(grouped, p) == VariantsOf(variants[..i], {p})
    {
      var v := variants[i];
      assert variants[..i + 1] == variants[..i] + [v];
      forall p
        ensures VariantsOf(variants[..i + 1], {p})
             == VariantsOf(variants[..i], {p}) + if v.product == p then [v] else []
      {
        VariantsOfOne(variants[..i], v, {p});
      }
      grouped := grouped[v.product := Get(grouped, v.product) + [v]];
    }
    assert variants[..|variants|] == variants;
  }

  /** One request: `products` are the ids that pass the filters, `variants` the tenant's rows in SKU order. */
  method ListProducts(products: set<Key>, variants: seq<Variant>, cursor: Option<Key>, limit: nat)
    returns (page: Page, data: seq<Product>)
    ensures page == PageOf(products, cursor, limit)
    ensures |data| == |page.data|
    ensures forall i :: 0 <= i < |data| ==> data[i] == Product(page.data[i], VariantsOf(variants, {page.data[i]}))
  {
    page := PageOf(products, cursor, limit);
    data := Serialize(page.data, variants);
  }

  /** The part of list_products that follows the page query. */
  method Serialize(listed: seq<Key>, variants: seq<Variant>) returns (data: seq<Product>)
    ensures |data| == |listed|
    ensures forall i :: 0 <= i < |data| ==> data[i] == Product(listed[i], VariantsOf(variants, {listed[i]}))
  {
    var fetched := VariantsOf(variants, Elements(listed));
    var grouped := Group(fetched);
    data := [];
    for i := 0 to |listed|
      invariant data == Grouped(grouped, listed[..i])
    {
      assert listed[..i + 1] == listed[..i] + [listed[i]];
      data := data + [Product(listed[i], Get(grouped, listed[i]))];
    }
    assert listed[..|listed|] == listed;
    forall i | 0 <= i < |listed| ensures Get(grouped, listed[i]) == VariantsOf(variants, {listed[i]}) {
      VariantsOfPage(variants, Elements(listed), listed[i]);
    }
  }

  ghost function Grouped(grouped: map<Key, seq<Variant>>, listed: seq<Key>): (data: seq<Product>)
    ensures |data| == |listed|
    ensures forall i :: 0 <= i < |data| ==> data[i] == Product(listed[i], Get(grouped, listed[i]))
  {
    seq(|listed|, i requires 0 <= i < |listed| => Product(listed[i], Get(grouped, listed[i])))
  }

  function Elements(ids: seq<Key>): set<Key> { set p | p in ids }

  /** Over all pages exactly the variants of the listed products are shown, each as often as it is stored: once. */
  lemma {:induction false} PagesShowEveryVariant(variants: seq<Variant>, products: set<Key>, limit: nat)
    requires limit >= 1
    ensures multiset(Shown(variants, Listed(Walk(products, None, limit)))) == multiset(VariantsOf(variants, products))
  {
    WalkListsAll(products, None, limit);
    AllListed(products);
    SortedFacts(products);
    ShownIsAll(variants, Sorted(products));
  }

  lemma {:induction false} AllListed(products: set<Key>)
    ensures After(products, None) == products && Elements(Sorted(products)) == products
  {
    SortedFacts(products);
  }

  /** The variants that a list of products shows, in its order. */
  function Shown(variants: seq<Variant>, ids: seq<Key>): seq<Variant> {
    if ids == [] then [] else VariantsOf(variants, {ids[0]}) + Shown(variants, ids[1..])
  }

  lemma {:induction false} ShownIsAll(variants: seq<Variant>, ids: seq<Key>)
    requires Ascending(ids)
    ensures multiset(Shown(variants, ids)) == multiset(VariantsOf(variants, Elements(ids)))
  {
    if ids == [] {
      NothingShown(variants);
      assert Elements(ids) == {};
    } else {
      ShownIsAll(variants, ids[1..]);
      assert ids == [ids[0]] + ids[1..];
      assert Elements(ids) == {ids[0]} + Elements(ids[1..]);
      SplitVariantsOf(variants, ids[0], Elements(ids[1..]));
    }
  }

  lemma {:induction false} NothingShown(variants: seq<Variant>)
    ensures VariantsOf(variants, {}) == []
  {
    if variants != [] { NothingShown(variants[..|variants| - 1]); }
  }

  /** A product's variants and those of other products make up those of all of them. */
  lemma {:induction false} SplitVariantsOf(variants: seq<Variant>, p: Key, rest: set<Key>)
    requires p !in rest
    ensures multiset(VariantsOf(variants, {p} + rest))
         == multiset(VariantsOf(variants, {p})) + multiset(VariantsOf(variants, rest))
  {
    if variants != [] {
      var n := |variants| - 1;
      SplitVariantsOf(variants[..n], p, rest);
    }
  }
}
