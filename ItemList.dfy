/** The buyer's product grid (`ItemList`): products sorted by price in the chosen
    direction, one page of them at a time, the quantity check of the add-to-cart
    button and the whole-number price label. */
module ItemList {
  import opened Common
  import opened Sorting

  const QuantityError: string := "購買數量必須大於 0"
  const AddedSuffix: string := " 件) 已經加入購物車"

  datatype SortOrder = Asc | Desc

  /** The fields of a product the grid uses; prices are JavaScript numbers. */
  datatype Product = Product(id: int, name: string, price: real)

  // ===========================================================================
  // Sorting by price
  // ===========================================================================

  /** `toggleSortOrder`. */
  function ToggleSortOrder(order: SortOrder): (r: SortOrder)
    ensures r != order
  {
    if order == Asc then Desc else Asc
  }

  /** Toggling twice restores the direction. */
  lemma ToggleTwice(order: SortOrder)
    ensures ToggleSortOrder(ToggleSortOrder(order)) == order
  {
  }

  function AscendingCmp(a: Product, b: Product): real
  {
    a.price - b.price
  }

  function DescendingCmp(a: Product, b: Product): real
  {
    b.price - a.price
  }

  function Price(p: Product): real
  {
    p.price
  }

  function NegPrice(p: Product): real
  {
    -p.price
  }

  /** The effect at lines 24-28: a sorted copy of `products`. */
  function SortedProducts(products: seq<Product>, order: SortOrder): seq<Product>
  {
    Sort(products, if order == Asc then AscendingCmp else DescendingCmp)
  }

  /** The sorted list is a permutation of the products, non-decreasing by price
      for `Asc` and non-increasing for `Desc`; products of equal price keep
      their order in `products`. */
  lemma SortedProductsSpec(products: seq<Product>, order: SortOrder)
    ensures multiset(SortedProducts(products, order)) == multiset(products)
    ensures order == Asc ==> forall i, j :: 0 <= i < j < |products| ==>
      SortedProducts(products, order)[i].price <= SortedProducts(products, order)[j].price
    ensures order == Desc ==> forall i, j :: 0 <= i < j < |products| ==>
      SortedProducts(products, order)[i].price >= SortedProducts(products, order)[j].price
    ensures order == Asc ==> forall v :: KeyClass(SortedProducts(products, order), Price, v) == KeyClass(products, Price, v)
    ensures order == Desc ==> forall v :: KeyClass(SortedProducts(products, order), NegPrice, v) == KeyClass(products, NegPrice, v)
  {
    var sorted := SortedProducts(products, order);
    if order == Asc {
      assert ComparesByKey(products, AscendingCmp, Price);
      SortSorted(products, AscendingCmp, Price);
      forall v
        ensures KeyClass(sorted, Price, v) == KeyClass(products, Price, v)
      {
        SortStable(products, AscendingCmp, Price, v);
      }
    } else {
      assert ComparesByKey(products, DescendingCmp, NegPrice);
      SortSorted(products, DescendingCmp, NegPrice);
      forall i, j | 0 <= i < j < |products|
        ensures sorted[i].price >= sorted[j].price
      {
        assert NegPrice(sorted[i]) <= NegPrice(sorted[j]);
      }
      forall v
        ensures KeyClass(sorted, NegPrice, v) == KeyClass(products, NegPrice, v)
      {
        SortStable(products, DescendingCmp, NegPrice, v);
      }
    }
  }

  // ===========================================================================
  // Pages
  // ===========================================================================

  /** `Array.prototype.slice(start, end)`: negative bounds count from the end,
      and every bound is clamped to the list. */
  function JsSlice<T>(s: seq<T>, start: int, end: int): (r: seq<T>)
    ensures |r| <= |s|
  {
    var n := |s|;
    var from := if start < 0 then (if n + start < 0 then 0 else n + start) else (if start > n then n else start);
    var to := if end < 0 then (if n + end < 0 then 0 else n + end) else (if end > n then n else end);
    if from >= to then [] else s[from..to]
  }

  /** The products shown on page `currentPage`: lines 46-48. */
  function PageOf(sorted: seq<Product>, currentPage: int, itemsPerPage: int): seq<Product>
  {
    var startIdx := (currentPage - 1) * itemsPerPage;
    JsSlice(sorted, startIdx, startIdx + itemsPerPage)
  }

  /** A page holds at most `itemsPerPage` products, namely the products from
      index `(currentPage - 1) * itemsPerPage` on, and is empty past the last page. */
  lemma PageSpec(sorted: seq<Product>, currentPage: int, itemsPerPage: int)
    requires currentPage >= 1 && itemsPerPage >= 1
    ensures |PageOf(sorted, currentPage, itemsPerPage)| <= itemsPerPage
    ensures var startIdx := (currentPage - 1) * itemsPerPage;
            && (startIdx < |sorted| ==>
                  PageOf(sorted, currentPage, itemsPerPage)
                  == sorted[startIdx..if startIdx + itemsPerPage < |sorted| then startIdx + itemsPerPage else |sorted|])
            && (startIdx >= |sorted| ==> PageOf(sorted, currentPage, itemsPerPage) == [])
  {
    var startIdx := (currentPage - 1) * itemsPerPage;
    assert startIdx >= 0 by {
      assert currentPage - 1 >= 0;
    }
  }

  /** Pages 1 to `pages`, one after another. */
  function FirstPages(sorted: seq<Product>, itemsPerPage: int, pages: nat): seq<Product>
  {
    if pages == 0 then [] else FirstPages(sorted, itemsPerPage, pages - 1) + PageOf(sorted, pages, itemsPerPage)
  }

  /** `(p - 1) * k` and `p * k` are one page apart. */
  lemma PageBounds(p: int, k: int)
    requires p >= 1 && k >= 1
    ensures (p - 1) * k >= 0
    ensures p * k == (p - 1) * k + k
  {
  }

  /** Appending the slice of `k` products from `start` extends the prefix by that slice. */
  lemma PrefixExtend(sorted: seq<Product>, start: int, k: int)
    requires 0 <= start <= |sorted| && k >= 1
    ensures sorted[..start] + JsSlice(sorted, start, start + k)
         == sorted[..if start + k < |sorted| then start + k else |sorted|]
  {
    var end := if start + k < |sorted| then start + k else |sorted|;
    if start < end {
      assert JsSlice(sorted, start, start + k) == sorted[start..end];
      assert sorted[..start] + sorted[start..end] == sorted[..end];
    } else {
      assert JsSlice(sorted, start, start + k) == [];
      assert sorted[..start] + [] == sorted[..start];
    }
  }

  /** The first `pages` pages are the list up to the end of page `pages`. */
  lemma {:induction false} FirstPagesPrefix(sorted: seq<Product>, itemsPerPage: int, pages: nat)
    requires itemsPerPage >= 1
    requires pages == 0 || (pages - 1) * itemsPerPage <= |sorted|
    ensures var end := if pages * itemsPerPage < |sorted| then pages * itemsPerPage else |sorted|;
            FirstPages(sorted, itemsPerPage, pages) == sorted[..end]
  {
    if pages > 0 {
      var k := itemsPerPage;
      var startIdx := (pages - 1) * k;
      PageBounds(pages, k);
      if pages > 1 {
        PageBounds(pages - 1, k);
      }
      FirstPagesPrefix(sorted, k, pages - 1);
      PrefixExtend(sorted, startIdx, k);
    }
  }

  /** The number of pages the pager offers: ⌈n / itemsPerPage⌉. */
  function PageCount(n: nat, itemsPerPage: int): nat
    requires itemsPerPage >= 1
  {
    (n + itemsPerPage - 1) / itemsPerPage
  }

  /** Pages 1 to ⌈n / itemsPerPage⌉ together are the sorted list, in order. */
  lemma PagesCoverList(sorted: seq<Product>, itemsPerPage: int)
    requires itemsPerPage >= 1
    ensures FirstPages(sorted, itemsPerPage, PageCount(|sorted|, itemsPerPage)) == sorted
  {
    var n := |sorted|;
    var k := itemsPerPage;
    var p := PageCount(n, k);
    var rem := (n + k - 1) % k;
    assert n + k - 1 == p * k + rem;
    assert p * k >= n;
    assert (p - 1) * k == p * k - k;
    FirstPagesPrefix(sorted, k, p);
    assert sorted[..n] == sorted;
  }

  // ===========================================================================
  // Add to cart
  // ===========================================================================

  /** `parseInt(quantityInput?.value || '1', 10)`: a missing or empty field reads as 1. */
  function QuantityFromInput(value: Option<string>): Option<int>
  {
    ParseInt(if value.None? || value.value == "" then "1" else value.value)
  }

  /** The button's effect: the product goes to the cart with its quantity and a
      notice, or only the error notice is shown. */
  datatype AddOutcome = Added(product: Product, quantity: int, notice: string) | Refused(notice: string)

  function AddToCartClick(product: Product, value: Option<string>): (r: AddOutcome)
    ensures r.Added? <==> QuantityFromInput(value).Some? && QuantityFromInput(value).value > 0
    ensures r.Added? ==> r.product == product && r.quantity == QuantityFromInput(value).value
    ensures r.Refused? ==> r.notice == QuantityError
  {
    var quantity := QuantityFromInput(value);
    if quantity.Some? && quantity.value > 0
    then Added(product, quantity.value, product.name + " (" + DecimalString(quantity.value) + AddedSuffix)
    else Refused(QuantityError)
  }

  /** An untouched or emptied field adds one item. */
  lemma AddToCartDefault(product: Product)
    ensures AddToCartClick(product, None) == Added(product, 1, product.name + " (1" + AddedSuffix)
    ensures AddToCartClick(product, Some("")) == AddToCartClick(product, None)
  {
    ParseIntDecimalString(1);
    assert DecimalString(1) == "1";
  }

  /** A field holding a positive whole number adds that many items. */
  lemma AddToCartNumber(product: Product, n: nat)
    requires n > 0
    ensures AddToCartClick(product, Some(DecimalString(n))) == Added(product, n, product.name + " (" + DecimalString(n) + AddedSuffix)
  {
    ParseIntDecimalString(n);
  }

  /** "0" adds nothing. */
  lemma AddToCartRefusesZero(product: Product)
    ensures AddToCartClick(product, Some("0")) == Refused(QuantityError)
  {
    ParseIntDecimalString(0);
    assert DecimalString(0) == "0";
  }

  /** A negative number adds nothing. */
  lemma AddToCartRefusesNegative(product: Product, n: nat)
    ensures AddToCartClick(product, Some("-" + DecimalString(n))) == Refused(QuantityError)
  {
    var digits := DecimalString(n);
    var minus := "-" + digits;
    assert TrimStartJs(minus) == minus;
    assert minus[1..] == digits;
    DigitPrefixAll(digits);
    var negative: int := 0 - (n as int);
    assert ParseInt(minus) == Some(negative);
  }

  /** A handler argument without leading digits (`NaN`) adds nothing. The field
      is a number input, so a browser hands the handler "" rather than typed
      text, and that case adds one item (`AddToCartDefault`). */
  lemma AddToCartRefusesText(product: Product)
    ensures AddToCartClick(product, Some("abc")) == Refused(QuantityError)
  {
    assert TrimStartJs("abc") == "abc";
    assert DigitPrefix("abc") == [];
  }

  // ===========================================================================
  // Price label
  // ===========================================================================

  /** `Math.floor(product.price)`. */
  function DisplayedPrice(price: real): (r: int)
    ensures r as real <= price < r as real + 1.0
  {
    price.Floor
  }
}
