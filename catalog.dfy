/**
 * The product listing's client-side logic (src/pages/Products.tsx): the list
 * of categories offered as filters, the category filter, the price sort, and
 * the label shown for a category.
 */
module Catalog {
  import opened Wrappers
  import opened Types
  import Js
  import Seqs

  // ---------------------------------------------------------------------
  // Categories: `[...new Set(allProducts.map(p => p.category).filter(Boolean))]`

  /** The truthy `category` values of the products, in product order. */
  function CategoryValues(products: seq<Product>): (cs: seq<string>)
    ensures forall c :: c in cs <==> Js.Truthy(c) && exists i :: 0 <= i < |products| && products[i].category == Some(c)
  {
    if products == [] then []
    else
      var rest := CategoryValues(products[1..]);
      assert forall i :: 0 <= i < |products[1..]| ==> products[1..][i] == products[i + 1];
      if Js.TruthyOption(products[0].category) then [products[0].category.value] + rest else rest
  }

  /** The index of the first occurrence of `x` in `s`. */
  function FirstIndex(s: seq<string>, x: string): (k: nat)
    requires x in s
    ensures k < |s| && s[k] == x && x !in s[..k]
  {
    if s[0] == x then 0 else 1 + FirstIndex(s[1..], x)
  }

  /** `a` and `b` occur in `s`, `a` first. */
  predicate Before(s: seq<string>, a: string, b: string)
  {
    a in s && b in s && FirstIndex(s, a) < FirstIndex(s, b)
  }

  /** The elements of `r` occur in `s`, and in the order of their first occurrences there. */
  predicate InFirstOccurrenceOrder(r: seq<string>, s: seq<string>)
  {
    forall i, j :: 0 <= i < j < |r| ==> Before(s, r[i], r[j])
  }

  predicate NoDuplicates(s: seq<string>)
  {
    forall i, j :: 0 <= i < j < |s| ==> s[i] != s[j]
  }

  lemma FirstIndexInPrefix(s: seq<string>, n: nat, x: string)
    requires n <= |s| && x in s[..n]
    ensures FirstIndex(s, x) == FirstIndex(s[..n], x)
  {
    var k := FirstIndex(s[..n], x);
    assert s[..n][..k] == s[..k];
  }

  /**
   * The distinct values of `s` in order of first occurrence, as a `Set`
   * built by inserting them one by one and spread back into an array.
   */
  function Distinct(s: seq<string>): (r: seq<string>)
    ensures forall x :: x in r <==> x in s
    ensures NoDuplicates(r)
  {
    if s == [] then []
    else
      var d := Distinct(s[..|s| - 1]);
      var x := s[|s| - 1];
      assert forall y :: y in s <==> y in s[..|s| - 1] || y == x by {
        Seqs.FrontLast(s);
      }
      if x in d then d else d + [x]
  }

  lemma FirstIndexOfNew(s: seq<string>)
    requires s != [] && s[|s| - 1] !in s[..|s| - 1]
    ensures FirstIndex(s, s[|s| - 1]) == |s| - 1
  {
  }

  /** An order of first occurrences in a prefix is one in the whole sequence. */
  lemma OrderInExtension(d: seq<string>, s: seq<string>, n: nat)
    requires n <= |s| && InFirstOccurrenceOrder(d, s[..n])
    ensures InFirstOccurrenceOrder(d, s)
  {
    forall i, j | 0 <= i < j < |d| ensures Before(s, d[i], d[j]) {
      assert Before(s[..n], d[i], d[j]);
      FirstIndexInPrefix(s, n, d[i]);
      FirstIndexInPrefix(s, n, d[j]);
    }
  }

  /** A value first occurring at the end of `s` can follow values occurring before it. */
  lemma OrderAppendNew(d: seq<string>, s: seq<string>)
    requires s != [] && s[|s| - 1] !in s[..|s| - 1]
    requires InFirstOccurrenceOrder(d, s) && forall y :: y in d ==> y in s[..|s| - 1]
    ensures InFirstOccurrenceOrder(d + [s[|s| - 1]], s)
  {
    var r := d + [s[|s| - 1]];
    FirstIndexOfNew(s);
    forall i, j | 0 <= i < j < |r| ensures Before(s, r[i], r[j]) {
      assert r[i] == d[i] && d[i] in d;
      FirstIndexInPrefix(s, |s| - 1, d[i]);
      if j < |d| {
        assert r[j] == d[j];
        assert Before(s, d[i], d[j]);
      } else {
        assert r[j] == s[|s| - 1];
      }
    }
  }

  /** `Distinct` lists the values in the order of their first occurrences. */
  lemma {:induction false} DistinctOrder(s: seq<string>)
    ensures InFirstOccurrenceOrder(Distinct(s), s)
  {
    if s != [] {
      var front := s[..|s| - 1];
      var d := Distinct(front);
      DistinctOrder(front);
      OrderInExtension(d, s, |s| - 1);
      if s[|s| - 1] !in d {
        OrderAppendNew(d, s);
      }
    }
  }

  /** The category filter buttons, in order of first appearance among the products. */
  function Categories(products: seq<Product>): (cs: seq<string>)
    ensures forall c :: c in cs <==> Js.Truthy(c) && exists i :: 0 <= i < |products| && products[i].category == Some(c)
    ensures NoDuplicates(cs)
    ensures InFirstOccurrenceOrder(cs, CategoryValues(products))
  {
    DistinctOrder(CategoryValues(products));
    Distinct(CategoryValues(products))
  }

  // ---------------------------------------------------------------------
  // Filtering by the selected category

  /** `allProducts.filter(product => product.category === category)` */
  function WithCategory(products: seq<Product>, category: string): (r: seq<Product>)
    ensures forall p :: p in r <==> p in products && p.category == Some(category)
    ensures |r| <= |products|
  {
    if products == [] then []
    else if products[0].category == Some(category) then [products[0]] + WithCategory(products[1..], category)
    else WithCategory(products[1..], category)
  }

  /** The filter keeps the order and the repeats: it works line by line over a concatenation. */
  lemma {:induction false} WithCategoryConcat(a: seq<Product>, b: seq<Product>, category: string)
    ensures WithCategory(a + b, category) == WithCategory(a, category) + WithCategory(b, category)
    ensures forall p :: WithCategory([p], category) == if p.category == Some(category) then [p] else []
  {
    if a == [] {
      assert a + b == b;
    } else {
      assert (a + b)[0] == a[0];
      assert (a + b)[1..] == a[1..] + b;
      WithCategoryConcat(a[1..], b, category);
    }
  }

  /** The category values keep the order and the repeats of the products they come from. */
  lemma {:induction false} CategoryValuesConcat(a: seq<Product>, b: seq<Product>)
    ensures CategoryValues(a + b) == CategoryValues(a) + CategoryValues(b)
  {
    if a == [] {
      assert a + b == b;
    } else {
      var h := if Js.TruthyOption(a[0].category) then [a[0].category.value] else [];
      assert (a + b)[0] == a[0];
      assert (a + b)[1..] == a[1..] + b;
      assert CategoryValues(a) == h + CategoryValues(a[1..]);
      assert CategoryValues(a + b) == h + CategoryValues(a[1..] + b);
      CategoryValuesConcat(a[1..], b);
    }
  }

  /** One product contributes its category exactly when that is truthy. */
  lemma CategoryValuesOfOne(p: Product)
    ensures CategoryValues([p]) == if Js.TruthyOption(p.category) then [p.category.value] else []
  {
    assert [p][1..] == [];
  }

  /** No selection (or a falsy one) keeps every product, a selection keeps its category. */
  function FilterByCategory(products: seq<Product>, selected: Option<string>): (r: seq<Product>)
    ensures !Js.TruthyOption(selected) ==> r == products
    ensures Js.TruthyOption(selected) ==> forall p :: p in r <==> p in products && p.category == selected
  {
    if Js.TruthyOption(selected) then WithCategory(products, selected.value) else products
  }

  /** The shown list keeps the fetched order and repeats: one product at a time, kept or dropped. */
  lemma FilterByCategoryConcat(a: seq<Product>, b: seq<Product>, selected: Option<string>)
    ensures FilterByCategory(a + b, selected) == FilterByCategory(a, selected) + FilterByCategory(b, selected)
    ensures forall p :: FilterByCategory([p], selected) == if !Js.TruthyOption(selected) || p.category == selected then [p] else []
  {
    if Js.TruthyOption(selected) {
      WithCategoryConcat(a, b, selected.value);
    }
  }

  // ---------------------------------------------------------------------
  // Sorting a copy of the filtered list

  datatype SortBy = Default | PriceAsc | PriceDesc

  /**
   * The comparator of each order is `SortKey(a) - SortKey(b)`: ascending
   * price, descending price (`b.price - a.price`), and the constant 0.
   */
  function SortKey(sortBy: SortBy, p: Product): int
  {
    match sortBy
    case PriceAsc => p.price
    case PriceDesc => -p.price
    case Default => 0
  }

  /** The comparator handed to `sort`, as written for each order. */
  function Compare(sortBy: SortBy, a: Product, b: Product): (r: int)
    ensures r == SortKey(sortBy, a) - SortKey(sortBy, b)
  {
    if sortBy == PriceAsc then a.price - b.price
    else if sortBy == PriceDesc then b.price - a.price
    else 0
  }

  /** Ordered by key: the comparator never reports a later element as smaller. */
  predicate SortedBy(s: seq<Product>, sortBy: SortBy)
  {
    forall i, j :: 0 <= i < j < |s| ==> SortKey(sortBy, s[i]) <= SortKey(sortBy, s[j])
  }

  /** The elements of `s` whose key is `k`, in order. */
  function WithKey(s: seq<Product>, sortBy: SortBy, k: int): (r: seq<Product>)
    ensures forall p :: p in r ==> SortKey(sortBy, p) == k
  {
    if s == [] then []
    else (if SortKey(sortBy, s[0]) == k then [s[0]] else []) + WithKey(s[1..], sortBy, k)
  }

  /**
   * Inserts `x` in front of the first element whose key is not smaller, so
   * that `x` stays ahead of the elements equal to it.
   */
  function Insert(x: Product, s: seq<Product>, sortBy: SortBy): (r: seq<Product>)
    ensures multiset(r) == multiset(s) + multiset{x}
  {
    if s == [] || SortKey(sortBy, x) <= SortKey(sortBy, s[0]) then
      [x] + s
    else
      assert s == [s[0]] + s[1..];
      [s[0]] + Insert(x, s[1..], sortBy)
  }

  /** A head no larger than any element of a sorted tail gives a sorted sequence. */
  lemma SortedCons(h: Product, t: seq<Product>, sortBy: SortBy)
    requires SortedBy(t, sortBy)
    requires forall y :: y in t ==> SortKey(sortBy, h) <= SortKey(sortBy, y)
    ensures SortedBy([h] + t, sortBy)
  {
    var r := [h] + t;
    forall i, j | 0 <= i < j < |r| ensures SortKey(sortBy, r[i]) <= SortKey(sortBy, r[j]) {
      assert r[j] == t[j - 1];
      if i > 0 {
        assert r[i] == t[i - 1];
      }
    }
  }

  /** The elements of an insertion are `x` and those of `s`. */
  lemma {:induction false} InsertMembers(x: Product, s: seq<Product>, sortBy: SortBy)
    ensures forall y :: y in Insert(x, s, sortBy) ==> y == x || y in s
  {
    if s != [] && SortKey(sortBy, x) > SortKey(sortBy, s[0]) {
      InsertMembers(x, s[1..], sortBy);
    }
  }

  /** Inserting into a sorted sequence keeps it sorted. */
  lemma {:induction false} InsertSorted(x: Product, s: seq<Product>, sortBy: SortBy)
    requires SortedBy(s, sortBy)
    ensures SortedBy(Insert(x, s, sortBy), sortBy)
  {
    if s == [] || SortKey(sortBy, x) <= SortKey(sortBy, s[0]) {
      SortedCons(x, s, sortBy);
    } else {
      InsertSorted(x, s[1..], sortBy);
      InsertMembers(x, s[1..], sortBy);
      SortedCons(s[0], Insert(x, s[1..], sortBy), sortBy);
    }
  }

  /** The subsequence for a key of a sequence with a head. */
  lemma WithKeyCons(h: Product, t: seq<Product>, sortBy: SortBy, k: int)
    ensures WithKey([h] + t, sortBy, k) == (if SortKey(sortBy, h) == k then [h] else []) + WithKey(t, sortBy, k)
  {
    assert ([h] + t)[1..] == t;
  }

  /** `x` joins the subsequence of its key at the front; the other keys' subsequences stay. */
  lemma {:induction false} InsertWithKey(x: Product, s: seq<Product>, sortBy: SortBy, k: int)
    ensures WithKey(Insert(x, s, sortBy), sortBy, k) == (if SortKey(sortBy, x) == k then [x] else []) + WithKey(s, sortBy, k)
  {
    if s == [] || SortKey(sortBy, x) <= SortKey(sortBy, s[0]) {
      WithKeyCons(x, s, sortBy, k);
    } else {
      var here: seq<Product> := if SortKey(sortBy, x) == k then [x] else [];
      var head: seq<Product> := if SortKey(sortBy, s[0]) == k then [s[0]] else [];
      var rest := Insert(x, s[1..], sortBy);
      var others := WithKey(s[1..], sortBy, k);
      InsertWithKey(x, s[1..], sortBy, k);
      WithKeyCons(s[0], rest, sortBy, k);
      WithKeyCons(s[0], s[1..], sortBy, k);
      Seqs.HeadTail(s);
      // s[0]'s key is below x's, so at most one of them belongs to the subsequence.
      Seqs.SwapWhenOneEmpty(head, here, others);
    }
  }

  /**
   * `[...products].sort(comparator)`: a stable sort (as `Array.prototype.sort`
   * is) of a copy; the argument itself is a value and is left as it was.
   */
  function SortProducts(s: seq<Product>, sortBy: SortBy): (r: seq<Product>)
    ensures multiset(r) == multiset(s)
    ensures SortedBy(r, sortBy)
    ensures forall k :: WithKey(r, sortBy, k) == WithKey(s, sortBy, k)
  {
    if s == [] then []
    else
      var sorted := SortProducts(s[1..], sortBy);
      InsertSorted(s[0], sorted, sortBy);
      assert s == [s[0]] + s[1..];
      assert forall k :: WithKey(Insert(s[0], sorted, sortBy), sortBy, k) == WithKey(s, sortBy, k) by {
        forall k ensures WithKey(Insert(s[0], sorted, sortBy), sortBy, k) == WithKey(s, sortBy, k) {
          InsertWithKey(s[0], sorted, sortBy, k);
        }
      }
      Insert(s[0], sorted, sortBy)
  }

  /** The list the page shows. */
  function VisibleProducts(allProducts: seq<Product>, selected: Option<string>, sortBy: SortBy): (r: seq<Product>)
    ensures multiset(r) == multiset(FilterByCategory(allProducts, selected))
    ensures sortBy == PriceAsc ==> forall i, j :: 0 <= i < j < |r| ==> r[i].price <= r[j].price
    ensures sortBy == PriceDesc ==> forall i, j :: 0 <= i < j < |r| ==> r[i].price >= r[j].price
  {
    SortProducts(FilterByCategory(allProducts, selected), sortBy)
  }

  /** `category.charAt(0).toUpperCase() + category.slice(1)` */
  function CategoryLabel(category: string): (shown: string)
    ensures |shown| == |category|
    ensures category != "" ==> shown[0] == Js.ToUpperChar(category[0]) && shown[1..] == category[1..]
  {
    if category == "" then "" else [Js.ToUpperChar(category[0])] + category[1..]
  }

  // ---------------------------------------------------------------------
  // Lemmas

  /** A sequence with one key throughout is its own subsequence for that key. */
  lemma {:induction false} WithKeyAll(s: seq<Product>, sortBy: SortBy, k: int)
    requires forall i :: 0 <= i < |s| ==> SortKey(sortBy, s[i]) == k
    ensures WithKey(s, sortBy, k) == s
  {
    if s != [] {
      WithKeyAll(s[1..], sortBy, k);
    }
  }

  /** The default order keeps the filtered list exactly as it is. */
  lemma DefaultKeepsOrder(s: seq<Product>)
    ensures SortProducts(s, Default) == s
  {
    var r := SortProducts(s, Default);
    WithKeyAll(r, Default, 0);
    WithKeyAll(s, Default, 0);
  }

  lemma {:induction false} WithKeyOfSortedHead(s: seq<Product>, sortBy: SortBy)
    requires SortedBy(s, sortBy) && s != []
    ensures WithKey(s, sortBy, SortKey(sortBy, s[0])) != [] && WithKey(s, sortBy, SortKey(sortBy, s[0]))[0] == s[0]
  {
  }

  lemma {:induction false} WithKeyEmpty(s: seq<Product>, sortBy: SortBy)
    requires s != []
    ensures WithKey(s, sortBy, SortKey(sortBy, s[0])) != []
  {
  }

  /**
   * A stable sort's result is unique: two orderings that are both sorted by
   * the key and keep the same order among equal keys are the same sequence.
   * So the model's result is the one any stable engine sort produces.
   */
  lemma {:induction false} StableSortUnique(a: seq<Product>, b: seq<Product>, sortBy: SortBy)
    requires SortedBy(a, sortBy) && SortedBy(b, sortBy)
    requires forall k :: WithKey(a, sortBy, k) == WithKey(b, sortBy, k)
    ensures a == b
  {
    if a == [] && b != [] {
      WithKeyEmpty(b, sortBy);
      assert false;
    } else if a != [] && b == [] {
      WithKeyEmpty(a, sortBy);
      assert false;
    } else if a != [] {
      var ka, kb := SortKey(sortBy, a[0]), SortKey(sortBy, b[0]);
      // a[0]'s key occurs in b, so b's smallest key is no larger, and vice versa.
      WithKeyOfSortedHead(a, sortBy);
      WithKeyOfSortedHead(b, sortBy);
      KeyOccurs(b, sortBy, ka, WithKey(a, sortBy, ka)[0]);
      KeyOccurs(a, sortBy, kb, WithKey(b, sortBy, kb)[0]);
      assert ka == kb;
      assert a[0] == b[0];
      forall k ensures WithKey(a[1..], sortBy, k) == WithKey(b[1..], sortBy, k) {
        var front: seq<Product> := if ka == k then [a[0]] else [];
        assert WithKey(a, sortBy, k) == front + WithKey(a[1..], sortBy, k);
        assert WithKey(b, sortBy, k) == front + WithKey(b[1..], sortBy, k);
        assert WithKey(a[1..], sortBy, k) == WithKey(a, sortBy, k)[|front|..];
        assert WithKey(b[1..], sortBy, k) == WithKey(b, sortBy, k)[|front|..];
      }
      StableSortUnique(a[1..], b[1..], sortBy);
      assert a == [a[0]] + a[1..] && b == [b[0]] + b[1..];
    }
  }

  /** Every element of a key's subsequence is in the sequence, so at or after its smallest key. */
  lemma {:induction false} KeyOccurs(s: seq<Product>, sortBy: SortBy, k: int, p: Product)
    requires SortedBy(s, sortBy) && s != [] && p in WithKey(s, sortBy, k)
    ensures SortKey(sortBy, s[0]) <= k
  {
    WithKeyMembers(s, sortBy, k);
    var i :| 0 <= i < |s| && s[i] == p;
  }

  lemma {:induction false} WithKeyMembers(s: seq<Product>, sortBy: SortBy, k: int)
    ensures forall p :: p in WithKey(s, sortBy, k) ==> p in s
  {
    if s != [] {
      WithKeyMembers(s[1..], sortBy, k);
    }
  }

  /** Any stable sort of the filtered list equals the one the page shows. */
  lemma VisibleIsTheStableSort(allProducts: seq<Product>, selected: Option<string>, sortBy: SortBy, other: seq<Product>)
    requires SortedBy(other, sortBy)
    requires forall k :: WithKey(other, sortBy, k) == WithKey(FilterByCategory(allProducts, selected), sortBy, k)
    ensures other == VisibleProducts(allProducts, selected, sortBy)
  {
    StableSortUnique(other, VisibleProducts(allProducts, selected, sortBy), sortBy);
  }

  /** Upper-casing the label again changes nothing. */
  lemma CategoryLabelIdempotent(category: string)
    ensures CategoryLabel(CategoryLabel(category)) == CategoryLabel(category)
  {
    if category != "" {
      Js.ToUpperCharIdempotent(category[0]);
    }
  }
}
