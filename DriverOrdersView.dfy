/** The driver's own order screen (`DriverOrdersPage`): the status/date filter
    with the newest-first sort of completed orders, the total price, the item
    table grouped by pickup location, the waypoint set handed to navigation, and
    the local list updates after a transfer or completion. */
module DriverOrdersView {
  import opened Common
  import opened Sorting
  import opened Orders

  const Unspecified: string := "未指定地點"
  const NoDestinationError: string := "請先設定最終目的地"
  const TransferFailedError: string := "轉單失敗，填寫電話號碼的司機未註冊，請重新整理頁面讓表單重新出現"
  const CompleteFailedError: string := "完成訂單失敗"
  const FetchFailedError: string := "獲取訂單失敗"

  // ===========================================================================
  // Status and date filter
  // ===========================================================================

  /** The order's calendar date is on or after `startDate` (a missing timestamp fails). */
  predicate OnOrAfter(o: Order, startDate: string)
  {
    o.timestamp.Some? && StrLe(startDate, o.timestamp.value.date)
  }

  /** The order's calendar date is on or before `endDate` (a missing timestamp fails). */
  predicate OnOrBefore(o: Order, endDate: string)
  {
    o.timestamp.Some? && StrLe(o.timestamp.value.date, endDate)
  }

  /** The completed-orders comparator: newer first, and "equal" whenever
      either order has no timestamp. */
  function CompletedCmp(a: Order, b: Order): real
  {
    if b.timestamp.None? || a.timestamp.None? then 0.0
    else (b.timestamp.value.millis - a.timestamp.value.millis) as real
  }

  /** The three successive filters: status, then start date, then end date. */
  function FilteredByStatusAndDate(orders: seq<Order>, orderStatus: string, startDate: string, endDate: string): seq<Order>
  {
    var byStatus := Keep(orders, (o: Order) => o.orderStatus == orderStatus);
    var fromStart := if startDate != "" then Keep(byStatus, (o: Order) => OnOrAfter(o, startDate)) else byStatus;
    if endDate != "" then Keep(fromStart, (o: Order) => OnOrBefore(o, endDate)) else fromStart
  }

  /** `finalFilteredOrders`: the filtered orders, sorted for the completed tab. */
  function FinalFilteredOrders(orders: seq<Order>, orderStatus: string, startDate: string, endDate: string): seq<Order>
  {
    var filtered := FilteredByStatusAndDate(orders, orderStatus, startDate, endDate);
    if orderStatus == Completed then Sort(filtered, CompletedCmp) else filtered
  }

  /** The condition an order must meet to be shown; an empty bound is no bound. */
  predicate Retained(o: Order, orderStatus: string, startDate: string, endDate: string)
  {
    && o.orderStatus == orderStatus
    && (startDate != "" ==> OnOrAfter(o, startDate))
    && (endDate != "" ==> OnOrBefore(o, endDate))
  }

  /** Reference definition: one pass keeping the retained orders in input order. */
  function RetainedOrders(orders: seq<Order>, orderStatus: string, startDate: string, endDate: string): seq<Order>
  {
    if orders == [] then []
    else
      (if Retained(orders[0], orderStatus, startDate, endDate) then [orders[0]] else [])
      + RetainedOrders(orders[1..], orderStatus, startDate, endDate)
  }

  lemma {:induction false} RetainedOrdersCount(orders: seq<Order>, orderStatus: string, startDate: string, endDate: string, o: Order)
    ensures multiset(RetainedOrders(orders, orderStatus, startDate, endDate))[o]
         == if Retained(o, orderStatus, startDate, endDate) then multiset(orders)[o] else 0
  {
    if orders != [] {
      RetainedOrdersCount(orders[1..], orderStatus, startDate, endDate, o);
      assert orders == [orders[0]] + orders[1..];
    }
  }

  lemma {:induction false} KeepIsRetained(orders: seq<Order>, p: Order -> bool, orderStatus: string, startDate: string, endDate: string)
    requires forall o :: p(o) == Retained(o, orderStatus, startDate, endDate)
    ensures Keep(orders, p) == RetainedOrders(orders, orderStatus, startDate, endDate)
  {
    if orders != [] {
      KeepIsRetained(orders[1..], p, orderStatus, startDate, endDate);
    }
  }

  /** The three filters together keep exactly the retained orders, in input order. */
  lemma FilterFusion(orders: seq<Order>, orderStatus: string, startDate: string, endDate: string)
    ensures FilteredByStatusAndDate(orders, orderStatus, startDate, endDate)
         == RetainedOrders(orders, orderStatus, startDate, endDate)
  {
    var p1 := (o: Order) => o.orderStatus == orderStatus;
    var p2 := (o: Order) => OnOrAfter(o, startDate);
    var p3 := (o: Order) => OnOrBefore(o, endDate);
    var p12 := (o: Order) => p1(o) && (startDate != "" ==> p2(o));
    var p123 := (o: Order) => p12(o) && (endDate != "" ==> p3(o));
    var byStatus := Keep(orders, p1);
    var fromStart := if startDate != "" then Keep(byStatus, p2) else byStatus;
    if startDate != "" {
      KeepKeep(orders, p1, p2, p12);
    } else {
      KeepExtensional(orders, p1, p12);
    }
    assert fromStart == Keep(orders, p12);
    if endDate != "" {
      KeepKeep(orders, p12, p3, p123);
    } else {
      KeepExtensional(orders, p12, p123);
    }
    KeepIsRetained(orders, p123, orderStatus, startDate, endDate);
  }

  lemma {:induction false} KeepExtensional(s: seq<Order>, p: Order -> bool, q: Order -> bool)
    requires forall x :: p(x) == q(x)
    ensures Keep(s, p) == Keep(s, q)
  {
    if s != [] {
      KeepExtensional(s[1..], p, q);
    }
  }

  /** The shown orders are exactly the retained ones, each as often as in `orders`;
      for any tab but "已完成" they also keep the order of `orders`. */
  lemma FilterSpec(orders: seq<Order>, orderStatus: string, startDate: string, endDate: string)
    ensures multiset(FinalFilteredOrders(orders, orderStatus, startDate, endDate))
         == multiset(RetainedOrders(orders, orderStatus, startDate, endDate))
    ensures orderStatus != Completed ==>
      FinalFilteredOrders(orders, orderStatus, startDate, endDate) == RetainedOrders(orders, orderStatus, startDate, endDate)
    ensures forall o :: o in FinalFilteredOrders(orders, orderStatus, startDate, endDate)
                    <==> o in orders && Retained(o, orderStatus, startDate, endDate)
  {
    FilterFusion(orders, orderStatus, startDate, endDate);
    var r := FinalFilteredOrders(orders, orderStatus, startDate, endDate);
    forall o
      ensures o in r <==> o in orders && Retained(o, orderStatus, startDate, endDate)
    {
      RetainedOrdersCount(orders, orderStatus, startDate, endDate, o);
      assert o in r <==> multiset(r)[o] > 0;
    }
  }

  /** Both bounds are inclusive: an order dated exactly on a bound is kept. */
  lemma BoundsInclusive(o: Order, orderStatus: string, startDate: string, endDate: string)
    requires o.orderStatus == orderStatus && o.timestamp.Some?
    requires startDate != "" ==> o.timestamp.value.date == startDate || StrLe(startDate, o.timestamp.value.date)
    requires endDate != "" ==> o.timestamp.value.date == endDate || StrLe(o.timestamp.value.date, endDate)
    ensures Retained(o, orderStatus, startDate, endDate)
  {
    StrLeReflexive(o.timestamp.value.date);
  }

  /** With a date bound set, an order without a timestamp is never shown. */
  lemma BoundExcludesUnstamped(orders: seq<Order>, orderStatus: string, startDate: string, endDate: string)
    requires startDate != "" || endDate != ""
    ensures forall o :: o in FinalFilteredOrders(orders, orderStatus, startDate, endDate) ==> o.timestamp.Some?
  {
    FilterSpec(orders, orderStatus, startDate, endDate);
  }

  /** With the start date later than the end date, no order is retained. */
  lemma CrossedBoundsRetainNone(o: Order, orderStatus: string, startDate: string, endDate: string)
    requires endDate != "" && !StrLe(startDate, endDate)
    ensures !Retained(o, orderStatus, startDate, endDate)
  {
    if Retained(o, orderStatus, startDate, endDate) {
      assert startDate != "" by {
        assert StrLe("", endDate);
      }
      StrLeTransitive(startDate, o.timestamp.value.date, endDate);
    }
  }

  /** A start date later than the end date leaves nothing to show. */
  lemma CrossedBoundsShowNothing(orders: seq<Order>, orderStatus: string, startDate: string, endDate: string)
    requires endDate != "" && !StrLe(startDate, endDate)
    ensures FinalFilteredOrders(orders, orderStatus, startDate, endDate) == []
  {
    FilterSpec(orders, orderStatus, startDate, endDate);
    var r := FinalFilteredOrders(orders, orderStatus, startDate, endDate);
    if r != [] {
      assert r[0] in r;
      CrossedBoundsRetainNone(r[0], orderStatus, startDate, endDate);
    }
  }

  /** The key the completed comparator agrees with on stamped orders. */
  function NegMillis(o: Order): real
  {
    if o.timestamp.Some? then -(o.timestamp.value.millis as real) else 0.0
  }

  ghost predicate NewestFirst(s: seq<Order>)
  {
    forall i, j :: 0 <= i < j < |s| ==>
      s[i].timestamp.Some? && s[j].timestamp.Some? && s[i].timestamp.value.millis >= s[j].timestamp.value.millis
  }

  lemma CompletedCmpByKey(s: seq<Order>)
    requires forall o :: o in s ==> o.timestamp.Some?
    ensures ComparesByKey(s, CompletedCmp, NegMillis)
  {
  }

  lemma NewestFirstByKey(s: seq<Order>)
    requires SortedByKey(s, NegMillis)
    requires forall o :: o in s ==> o.timestamp.Some?
    ensures NewestFirst(s)
  {
    forall i, j | 0 <= i < j < |s|
      ensures s[i].timestamp.Some? && s[j].timestamp.Some? && s[i].timestamp.value.millis >= s[j].timestamp.value.millis
    {
      assert s[i] in s && s[j] in s;
      assert NegMillis(s[i]) <= NegMillis(s[j]);
    }
  }

  /** The completed tab is newest first whenever every shown order has a timestamp. */
  lemma CompletedNewestFirst(orders: seq<Order>, startDate: string, endDate: string)
    requires forall o :: o in orders && Retained(o, Completed, startDate, endDate) ==> o.timestamp.Some?
    ensures NewestFirst(FinalFilteredOrders(orders, Completed, startDate, endDate))
  {
    FilterFusion(orders, Completed, startDate, endDate);
    var filtered := FilteredByStatusAndDate(orders, Completed, startDate, endDate);
    forall o | o in filtered
      ensures o.timestamp.Some?
    {
      RetainedOrdersCount(orders, Completed, startDate, endDate, o);
      assert o in multiset(filtered);
    }
    CompletedCmpByKey(filtered);
    SortSorted(filtered, CompletedCmp, NegMillis);
    var sorted := Sort(filtered, CompletedCmp);
    forall o | o in sorted
      ensures o.timestamp.Some?
    {
      SortMember(filtered, CompletedCmp, o);
    }
    NewestFirstByKey(sorted);
  }

  /** Applying the filter to its own result changes nothing (on the completed tab:
      whenever every shown order has a timestamp). */
  lemma FilterIdempotent(orders: seq<Order>, orderStatus: string, startDate: string, endDate: string)
    requires orderStatus == Completed ==>
      forall o :: o in orders && Retained(o, orderStatus, startDate, endDate) ==> o.timestamp.Some?
    ensures var once := FinalFilteredOrders(orders, orderStatus, startDate, endDate);
            FinalFilteredOrders(once, orderStatus, startDate, endDate) == once
  {
    var once := FinalFilteredOrders(orders, orderStatus, startDate, endDate);
    FilterSpec(orders, orderStatus, startDate, endDate);
    FilterFusion(once, orderStatus, startDate, endDate);
    KeepIsRetained(once, (o: Order) => Retained(o, orderStatus, startDate, endDate), orderStatus, startDate, endDate);
    KeepAll(once, (o: Order) => Retained(o, orderStatus, startDate, endDate));
    assert FilteredByStatusAndDate(once, orderStatus, startDate, endDate) == once;
    if orderStatus == Completed {
      CompletedNewestFirst(orders, startDate, endDate);
      CompletedCmpByKey(once);
      SortOfSorted(once, CompletedCmp, NegMillis);
    }
  }

  /** Filtering the shown list again shows the same orders, each as often,
      whatever their timestamps; off the completed tab, in the same order. */
  lemma RefilterSameOrders(orders: seq<Order>, orderStatus: string, startDate: string, endDate: string)
    ensures var once := FinalFilteredOrders(orders, orderStatus, startDate, endDate);
            && multiset(FinalFilteredOrders(once, orderStatus, startDate, endDate)) == multiset(once)
            && (orderStatus != Completed ==> FinalFilteredOrders(once, orderStatus, startDate, endDate) == once)
  {
    var once := FinalFilteredOrders(orders, orderStatus, startDate, endDate);
    FilterSpec(orders, orderStatus, startDate, endDate);
    FilterSpec(once, orderStatus, startDate, endDate);
    KeepIsRetained(once, (o: Order) => Retained(o, orderStatus, startDate, endDate), orderStatus, startDate, endDate);
    KeepAll(once, (o: Order) => Retained(o, orderStatus, startDate, endDate));
  }

  // ===========================================================================
  // Total price
  // ===========================================================================

  /** `reduce((total, order) => total + order.total_price, 0)`. */
  function TotalPrice(orders: seq<Order>): real
  {
    if orders == [] then 0.0 else TotalPrice(orders[..|orders| - 1]) + orders[|orders| - 1].totalPrice
  }

  lemma {:induction false} TotalPriceAppend(a: seq<Order>, b: seq<Order>)
    ensures TotalPrice(a + b) == TotalPrice(a) + TotalPrice(b)
    decreases |b|
  {
    if b == [] {
      assert a + b == a;
    } else {
      TotalPriceAppend(a, b[..|b| - 1]);
      assert (a + b)[..|a + b| - 1] == a + b[..|b| - 1];
    }
  }

  lemma TotalPriceSingle(o: Order)
    ensures TotalPrice([o]) == o.totalPrice
  {
    assert [o][..0] == [];
  }

  /** Taking one order out of a list takes its price out of the total. */
  lemma TotalPriceRemove(b: seq<Order>, k: nat)
    requires k < |b|
    ensures TotalPrice(b) == TotalPrice(b[..k] + b[k + 1..]) + b[k].totalPrice
  {
    var pre, post := b[..k], b[k + 1..];
    var tail := b[k..];
    assert b == pre + tail;
    assert tail == [b[k]] + post;
    TotalPriceAppend(pre, tail);
    TotalPriceAppend([b[k]], post);
    TotalPriceAppend(pre, post);
    TotalPriceSingle(b[k]);
    calc {
      TotalPrice(b);
      TotalPrice(pre) + TotalPrice(tail);
      TotalPrice(pre) + (b[k].totalPrice + TotalPrice(post));
      TotalPrice(pre + post) + b[k].totalPrice;
    }
  }

  lemma MultisetRemove(b: seq<Order>, k: nat)
    requires k < |b|
    ensures multiset(b[..k] + b[k + 1..]) == multiset(b) - multiset{b[k]}
  {
    assert b == b[..k] + [b[k]] + b[k + 1..];
  }

  /** The total does not depend on the order of the list. */
  lemma {:induction false} TotalPricePermutation(a: seq<Order>, b: seq<Order>)
    requires multiset(a) == multiset(b)
    ensures TotalPrice(a) == TotalPrice(b)
    decreases |a|
  {
    if a != [] {
      var front := a[..|a| - 1];
      var last := a[|a| - 1];
      assert a == front + [last];
      assert multiset(front) == multiset(a) - multiset{last};
      assert last in multiset(b);
      var k :| 0 <= k < |b| && b[k] == last;
      TotalPriceRemove(b, k);
      MultisetRemove(b, k);
      TotalPricePermutation(front, b[..k] + b[k + 1..]);
    }
  }

  /** The shown total is the sum over the retained orders, whatever the sort did,
      and 0 when nothing is shown. */
  lemma TotalOfFiltered(orders: seq<Order>, orderStatus: string, startDate: string, endDate: string)
    ensures TotalPrice(FinalFilteredOrders(orders, orderStatus, startDate, endDate))
         == TotalPrice(RetainedOrders(orders, orderStatus, startDate, endDate))
    ensures FinalFilteredOrders(orders, orderStatus, startDate, endDate) == [] ==>
      TotalPrice(FinalFilteredOrders(orders, orderStatus, startDate, endDate)) == 0.0
  {
    FilterSpec(orders, orderStatus, startDate, endDate);
    TotalPricePermutation(FinalFilteredOrders(orders, orderStatus, startDate, endDate),
                          RetainedOrders(orders, orderStatus, startDate, endDate));
  }

  // ===========================================================================
  // Items grouped by location
  // ===========================================================================

  datatype ItemTotal = ItemTotal(name: string, quantity: int)
  datatype LocationGroup = LocationGroup(location: string, items: seq<ItemTotal>)

  /** `item.location || "未指定地點"`. */
  function LocationOf(item: Item): (loc: string)
    ensures loc != ""
    ensures item.location.Some? && item.location.value != "" ==> loc == item.location.value
    ensures item.location.None? || item.location.value == "" ==> loc == Unspecified
  {
    if item.location.None? || item.location.value == "" then Unspecified else item.location.value
  }

  /** Index of the group keyed `loc`, or `|groups|` when there is none. */
  function FindLocation(groups: seq<LocationGroup>, loc: string): (i: nat)
    ensures i <= |groups|
    ensures i < |groups| ==> groups[i].location == loc
    ensures forall j :: 0 <= j < i ==> groups[j].location != loc
  {
    if groups == [] then 0
    else if groups[0].location == loc then 0
    else 1 + FindLocation(groups[1..], loc)
  }

  /** Index of the entry named `name`, or `|items|` when there is none. */
  function FindName(items: seq<ItemTotal>, name: string): (k: nat)
    ensures k <= |items|
    ensures k < |items| ==> items[k].name == name
    ensures forall j :: 0 <= j < k ==> items[j].name != name
  {
    if items == [] then 0
    else if items[0].name == name then 0
    else 1 + FindName(items[1..], name)
  }

  /** Adds one line item to the table (one step of the nested `forEach`). */
  function AddItem(groups: seq<LocationGroup>, item: Item): seq<LocationGroup>
  {
    var loc := LocationOf(item);
    var i := FindLocation(groups, loc);
    if i == |groups| then groups + [LocationGroup(loc, AddToEntries([], item.itemName, item.quantity))]
    else groups[i := LocationGroup(loc, AddToEntries(groups[i].items, item.itemName, item.quantity))]
  }

  /** Adds `quantity` to the entry named `name`, or appends a new entry. */
  function AddToEntries(entries: seq<ItemTotal>, name: string, quantity: int): seq<ItemTotal>
  {
    var k := FindName(entries, name);
    if k == |entries| then entries + [ItemTotal(name, quantity)]
    else entries[k := ItemTotal(name, entries[k].quantity + quantity)]
  }

  /** The line items of all orders, order by order. */
  function AllItems(orders: seq<Order>): seq<Item>
  {
    if orders == [] then [] else AllItems(orders[..|orders| - 1]) + orders[|orders| - 1].items
  }

  /** The table built from a list of line items, item by item. */
  function Aggregate(items: seq<Item>): seq<LocationGroup>
  {
    if items == [] then [] else AddItem(Aggregate(items[..|items| - 1]), items[|items| - 1])
  }

  lemma AllItemsStep(orders: seq<Order>, i: nat)
    requires i < |orders|
    ensures AllItems(orders[..i + 1]) == AllItems(orders[..i]) + orders[i].items
  {
    assert orders[..i + 1][..i] == orders[..i];
  }

  lemma AggregateSnoc(s: seq<Item>, x: Item)
    ensures Aggregate(s + [x]) == AddItem(Aggregate(s), x)
  {
    assert (s + [x])[..|s|] == s;
  }

  lemma AggregateStep(before: seq<Item>, items: seq<Item>, j: nat)
    requires j < |items|
    ensures Aggregate(before + items[..j + 1]) == AddItem(Aggregate(before + items[..j]), items[j])
  {
    assert before + items[..j + 1] == (before + items[..j]) + [items[j]];
    AggregateSnoc(before + items[..j], items[j]);
  }

  /** `aggregatedItemsByLocation` fills the location map in two nested loops;
      `Object.entries` then lists it in insertion order. */
  method AggregateByLocation(orders: seq<Order>) returns (result: seq<LocationGroup>)
    ensures result == Aggregate(AllItems(orders))
  {
    var locationMap: seq<LocationGroup> := [];
    for i := 0 to |orders|
      invariant locationMap == Aggregate(AllItems(orders[..i]))
    {
      var items := orders[i].items;
      ghost var before := AllItems(orders[..i]);
      assert before + items[..0] == before;
      for j := 0 to |items|
        invariant locationMap == Aggregate(before + items[..j])
      {
        AggregateStep(before, items, j);
        locationMap := AddItemStep(locationMap, items[j]);
      }
      assert items[..|items|] == items;
      AllItemsStep(orders, i);
    }
    assert orders[..|orders|] == orders;
    result := locationMap;
  }

  /** One step of the inner `forEach`: create the location entry when missing,
      then add the quantity to a truthy running total or start one. */
  method AddItemStep(locationMap: seq<LocationGroup>, item: Item) returns (updated: seq<LocationGroup>)
    ensures updated == AddItem(locationMap, item)
  {
    updated := locationMap;
    var location := if item.location.None? || item.location.value == "" then Unspecified else item.location.value;
    var g := FindLocation(updated, location);
    if g == |updated| {
      updated := updated + [LocationGroup(location, [])];
    }
    var entries := updated[g].items;
    ghost var before := entries;
    var k := FindName(entries, item.itemName);
    if k < |entries| && entries[k].quantity != 0 {
      entries := entries[k := ItemTotal(item.itemName, entries[k].quantity + item.quantity)];
    } else if k < |entries| {
      assert entries[k].quantity + item.quantity == item.quantity;
      entries := entries[k := ItemTotal(item.itemName, item.quantity)];
    } else {
      entries := entries + [ItemTotal(item.itemName, item.quantity)];
    }
    assert entries == AddToEntries(before, item.itemName, item.quantity);
    updated := updated[g := LocationGroup(location, entries)];
    assert location == LocationOf(item);
    if g == |locationMap| {
      assert before == [];
      assert updated == locationMap + [LocationGroup(location, entries)];
    }
  }

  /** Location keys are distinct, and item names are distinct within a location. */
  ghost predicate WellFormed(groups: seq<LocationGroup>)
  {
    && (forall i, j :: 0 <= i < j < |groups| ==> groups[i].location != groups[j].location)
    && (forall i :: 0 <= i < |groups| ==> DistinctNames(groups[i].items))
  }

  ghost predicate DistinctNames(items: seq<ItemTotal>)
  {
    forall a, b :: 0 <= a < b < |items| ==> items[a].name != items[b].name
  }

  lemma AddToEntriesDistinct(entries: seq<ItemTotal>, name: string, quantity: int)
    requires DistinctNames(entries)
    ensures DistinctNames(AddToEntries(entries, name, quantity))
  {
  }

  lemma AddItemWellFormed(groups: seq<LocationGroup>, item: Item)
    requires WellFormed(groups)
    ensures WellFormed(AddItem(groups, item))
  {
    var i := FindLocation(groups, LocationOf(item));
    if i == |groups| {
      AddToEntriesDistinct([], item.itemName, item.quantity);
    } else {
      AddToEntriesDistinct(groups[i].items, item.itemName, item.quantity);
    }
  }

  /** Every location appears once and every item name once within its location. */
  lemma {:induction false} AggregateWellFormed(items: seq<Item>)
    ensures WellFormed(Aggregate(items))
    decreases |items|
  {
    if items != [] {
      AggregateWellFormed(items[..|items| - 1]);
      AddItemWellFormed(Aggregate(items[..|items| - 1]), items[|items| - 1]);
    }
  }

  /** The aggregated quantity for (`loc`, `name`), `None` when the table has no such entry. */
  function Lookup(groups: seq<LocationGroup>, loc: string, name: string): Option<int>
  {
    var i := FindLocation(groups, loc);
    if i == |groups| then None else EntryQuantity(groups[i].items, name)
  }

  /** The quantity of the entry named `name`, `None` when there is none. */
  function EntryQuantity(entries: seq<ItemTotal>, name: string): Option<int>
  {
    var k := FindName(entries, name);
    if k == |entries| then None else Some(entries[k].quantity)
  }

  /** Reference definition: the sum of the quantities of the items at `loc` named
      `name`, `None` when no item matches. */
  function MatchTotal(items: seq<Item>, loc: string, name: string): Option<int>
  {
    if items == [] then None
    else
      var last := items[|items| - 1];
      var front := MatchTotal(items[..|items| - 1], loc, name);
      if LocationOf(last) == loc && last.itemName == name
      then Some((if front.Some? then front.value else 0) + last.quantity)
      else front
  }

  lemma FindLocationUnique(groups: seq<LocationGroup>, loc: string, i: nat)
    requires i <= |groups|
    requires i < |groups| ==> groups[i].location == loc
    requires forall j :: 0 <= j < i ==> groups[j].location != loc
    ensures FindLocation(groups, loc) == i
  {
  }

  lemma FindNameUnique(items: seq<ItemTotal>, name: string, k: nat)
    requires k <= |items|
    requires k < |items| ==> items[k].name == name
    requires forall j :: 0 <= j < k ==> items[j].name != name
    ensures FindName(items, name) == k
  {
  }

  lemma EntryQuantityAdd(entries: seq<ItemTotal>, itemName: string, quantity: int, name: string)
    ensures EntryQuantity(AddToEntries(entries, itemName, quantity), name)
         == if itemName == name
            then Some((if EntryQuantity(entries, name).Some? then EntryQuantity(entries, name).value else 0) + quantity)
            else EntryQuantity(entries, name)
  {
    var k := FindName(entries, itemName);
    var entries' := AddToEntries(entries, itemName, quantity);
    if name == itemName {
      FindNameUnique(entries', name, k);
    } else {
      var k0 := FindName(entries, name);
      if k0 < |entries| {
        FindNameUnique(entries', name, k0);
      } else {
        FindNameUnique(entries', name, |entries'|);
      }
    }
  }

  lemma LookupAddItem(groups: seq<LocationGroup>, item: Item, loc: string, name: string)
    ensures Lookup(AddItem(groups, item), loc, name)
         == if LocationOf(item) == loc && item.itemName == name
            then Some((if Lookup(groups, loc, name).Some? then Lookup(groups, loc, name).value else 0) + item.quantity)
            else Lookup(groups, loc, name)
  {
    var l := LocationOf(item);
    var i := FindLocation(groups, l);
    var g' := AddItem(groups, item);
    if loc == l {
      FindLocationUnique(g', loc, i);
      if i < |groups| {
        EntryQuantityAdd(groups[i].items, item.itemName, item.quantity, name);
      } else {
        EntryQuantityAdd([], item.itemName, item.quantity, name);
      }
    } else {
      var i0 := FindLocation(groups, loc);
      if i0 < |groups| {
        FindLocationUnique(g', loc, i0);
      } else {
        FindLocationUnique(g', loc, |g'|);
      }
    }
  }

  /** Each aggregated quantity is the sum of the matching item quantities, and an
      entry exists exactly when some item matches. */
  lemma {:induction false} AggregateLookup(items: seq<Item>, loc: string, name: string)
    ensures Lookup(Aggregate(items), loc, name) == MatchTotal(items, loc, name)
    decreases |items|
  {
    if items != [] {
      AggregateLookup(items[..|items| - 1], loc, name);
      LookupAddItem(Aggregate(items[..|items| - 1]), items[|items| - 1], loc, name);
    }
  }

  /** The location keys of a table, in table order. */
  function Locations(groups: seq<LocationGroup>): (r: seq<string>)
    ensures |r| == |groups| && forall i :: 0 <= i < |groups| ==> r[i] == groups[i].location
  {
    seq(|groups|, i requires 0 <= i < |groups| => groups[i].location)
  }

  /** `LocationOf` for each line item, in order. */
  function ItemLocations(items: seq<Item>): seq<string>
  {
    if items == [] then [] else ItemLocations(items[..|items| - 1]) + [LocationOf(items[|items| - 1])]
  }

  lemma LocationsAddItem(groups: seq<LocationGroup>, item: Item)
    ensures Locations(AddItem(groups, item)) == AppendNew(Locations(groups), LocationOf(item))
  {
    var l := LocationOf(item);
    var i := FindLocation(groups, l);
    if i < |groups| {
      assert l in Locations(groups);
    } else {
      assert l !in Locations(groups);
    }
  }

  /** Locations are listed in order of their first encounter. */
  lemma {:induction false} AggregateLocationOrder(items: seq<Item>)
    ensures Locations(Aggregate(items)) == Dedup(ItemLocations(items))
    decreases |items|
  {
    if items != [] {
      var front := items[..|items| - 1];
      AggregateLocationOrder(front);
      LocationsAddItem(Aggregate(front), items[|items| - 1]);
      assert ItemLocations(items)[..|ItemLocations(items)| - 1] == ItemLocations(front);
    } else {
      assert Locations([]) == [];
    }
  }

  // ===========================================================================
  // Waypoints for navigation
  // ===========================================================================

  /** A location field counts when it is present and non-empty. */
  function StopOf(location: Option<string>): seq<string>
  {
    if location.Some? && location.value != "" then [location.value] else []
  }

  function ItemStops(items: seq<Item>): seq<string>
  {
    if items == [] then [] else ItemStops(items[..|items| - 1]) + StopOf(items[|items| - 1].location)
  }

  /** The locations `handleNavigate` visits, in visiting order, before de-duplication. */
  function Candidates(orders: seq<Order>): seq<string>
  {
    if orders == [] then []
    else
      var last := orders[|orders| - 1];
      Candidates(orders[..|orders| - 1])
      + (if last.orderStatus == Accepted then StopOf(last.location) + ItemStops(last.items) else [])
  }

  /** The waypoint set: distinct candidate locations in first-occurrence order. */
  function Waypoints(orders: seq<Order>): seq<string>
  {
    Dedup(Candidates(orders))
  }

  lemma CandidatesStep(orders: seq<Order>, i: nat)
    requires i < |orders|
    ensures Candidates(orders[..i + 1]) == Candidates(orders[..i])
      + (if orders[i].orderStatus == Accepted then StopOf(orders[i].location) + ItemStops(orders[i].items) else [])
  {
    assert orders[..i + 1][..i] == orders[..i];
  }

  lemma ItemStopsStep(items: seq<Item>, j: nat)
    requires j < |items|
    ensures ItemStops(items[..j + 1]) == ItemStops(items[..j]) + StopOf(items[j].location)
  {
    assert items[..j + 1][..j] == items[..j];
  }

  lemma AddAllStop(acc: seq<string>, stops: seq<string>, location: Option<string>)
    ensures AddAll(acc, stops + StopOf(location))
         == if location.Some? && location.value != "" then AppendNew(AddAll(acc, stops), location.value) else AddAll(acc, stops)
  {
    if location.Some? && location.value != "" {
      assert (stops + [location.value])[..|stops|] == stops;
    } else {
      assert stops + [] == stops;
    }
  }

  /** `handleNavigate` fills a `Set` in two nested loops over all orders. */
  method CollectWaypoints(orders: seq<Order>) returns (allLocations: seq<string>)
    ensures allLocations == Waypoints(orders)
  {
    allLocations := [];
    for i := 0 to |orders|
      invariant allLocations == Dedup(Candidates(orders[..i]))
    {
      var order := orders[i];
      CandidatesStep(orders, i);
      if order.orderStatus == Accepted {
        allLocations := AddOrderStops(allLocations, order);
        AddAllConcat([], Candidates(orders[..i]), StopOf(order.location) + ItemStops(order.items));
      } else {
        assert Candidates(orders[..i]) + [] == Candidates(orders[..i]);
      }
    }
    assert orders[..|orders|] == orders;
  }

  /** The stops of an order up to its `j`-th item. */
  function OrderStops(order: Order, j: nat): seq<string>
    requires j <= |order.items|
  {
    StopOf(order.location) + ItemStops(order.items[..j])
  }

  lemma OrderStopsStep(acc: seq<string>, order: Order, j: nat)
    requires j < |order.items|
    ensures var loc := order.items[j].location;
            AddAll(acc, OrderStops(order, j + 1))
            == if loc.Some? && loc.value != "" then AppendNew(AddAll(acc, OrderStops(order, j)), loc.value)
               else AddAll(acc, OrderStops(order, j))
  {
    ItemStopsStep(order.items, j);
    assert OrderStops(order, j + 1) == OrderStops(order, j) + StopOf(order.items[j].location);
    AddAllStop(acc, OrderStops(order, j), order.items[j].location);
  }

  lemma OrderStopsStart(acc: seq<string>, order: Order)
    ensures var loc := order.location;
            AddAll(acc, OrderStops(order, 0))
            == if loc.Some? && loc.value != "" then AppendNew(acc, loc.value) else acc
  {
    assert OrderStops(order, 0) == [] + StopOf(order.location);
    AddAllStop(acc, [], order.location);
  }

  /** The body of the outer loop for an accepted order: its own location, then
      each item's location, added to the set when present and non-empty. */
  method AddOrderStops(allLocations: seq<string>, order: Order) returns (updated: seq<string>)
    ensures updated == AddAll(allLocations, StopOf(order.location) + ItemStops(order.items))
  {
    updated := allLocations;
    if order.location.Some? && order.location.value != "" {
      updated := AppendNew(updated, order.location.value);
    }
    OrderStopsStart(allLocations, order);
    for j := 0 to |order.items|
      invariant updated == AddAll(allLocations, OrderStops(order, j))
    {
      var item := order.items[j];
      OrderStopsStep(allLocations, order, j);
      if item.location.Some? && item.location.value != "" {
        updated := AppendNew(updated, item.location.value);
      }
    }
    assert order.items[..|order.items|] == order.items;
  }

  /** `location` is a stop of an order the driver has accepted. */
  ghost predicate IsStop(orders: seq<Order>, location: string)
  {
    exists o :: o in orders && o.orderStatus == Accepted && location in StopOf(o.location) + ItemStops(o.items)
  }

  lemma {:induction false} CandidatesMembership(orders: seq<Order>, location: string)
    ensures location in Candidates(orders) <==> IsStop(orders, location)
    decreases |orders|
  {
    if orders != [] {
      var front := orders[..|orders| - 1];
      var last := orders[|orders| - 1];
      CandidatesMembership(front, location);
      assert orders == front + [last];
      if IsStop(orders, location) {
        var o :| o in orders && o.orderStatus == Accepted && location in StopOf(o.location) + ItemStops(o.items);
        if o in front {
          assert IsStop(front, location);
        }
      }
    }
  }

  lemma {:induction false} ItemStopsMembership(items: seq<Item>, location: string)
    ensures location in ItemStops(items) <==> location != "" && exists it :: it in items && it.location == Some(location)
    decreases |items|
  {
    if items != [] {
      var front := items[..|items| - 1];
      ItemStopsMembership(front, location);
      assert items == front + [items[|items| - 1]];
      if location != "" && location !in ItemStops(front) && (exists it :: it in items && it.location == Some(location)) {
        var it :| it in items && it.location == Some(location);
        if it in front {
        }
      }
    }
  }

  /** The waypoints are distinct, non-empty, and are exactly the locations of the
      accepted orders and of their items. */
  lemma WaypointsSpec(orders: seq<Order>)
    ensures Distinct(Waypoints(orders))
    ensures forall location :: location in Waypoints(orders) <==> IsStop(orders, location)
    ensures "" !in Waypoints(orders)
  {
    DedupSpec(Candidates(orders));
    forall location
      ensures location in Waypoints(orders) <==> IsStop(orders, location)
    {
      CandidatesMembership(orders, location);
    }
    CandidatesMembership(orders, "");
    if IsStop(orders, "") {
      var o :| o in orders && o.orderStatus == Accepted && "" in StopOf(o.location) + ItemStops(o.items);
      ItemStopsMembership(o.items, "");
    }
  }

  // ===========================================================================
  // Local list updates
  // ===========================================================================

  /** `orders.filter(order => order.id !== parseInt(orderId))`; `parsedId` is the
      result of `parseInt`, `None` for `NaN` (which equals no id). */
  function RemoveById(orders: seq<Order>, parsedId: Option<int>): seq<Order>
  {
    if orders == [] then []
    else (if parsedId != Some(orders[0].id) then [orders[0]] else []) + RemoveById(orders[1..], parsedId)
  }

  /** The recursive removal is the filter the handler writes. */
  lemma {:induction false} RemoveByIdIsKeep(orders: seq<Order>, parsedId: Option<int>)
    ensures RemoveById(orders, parsedId) == Keep(orders, (x: Order) => parsedId != Some(x.id))
  {
    if orders != [] {
      RemoveByIdIsKeep(orders[1..], parsedId);
    }
  }

  /** Exactly the orders carrying the id are removed; every other order stays,
      as often as before, and the survivors keep their relative order. */
  lemma RemoveByIdSpec(orders: seq<Order>, parsedId: Option<int>, o: Order)
    ensures multiset(RemoveById(orders, parsedId))[o] == if parsedId == Some(o.id) then 0 else multiset(orders)[o]
    ensures parsedId.None? ==> RemoveById(orders, parsedId) == orders
    ensures RemoveById(orders, parsedId) == Keep(orders, (x: Order) => parsedId != Some(x.id))
  {
    RemoveByIdIsKeep(orders, parsedId);
    KeepCount(orders, (x: Order) => parsedId != Some(x.id), o);
    if parsedId.None? {
      KeepAll(orders, (x: Order) => parsedId != Some(x.id));
    }
  }

  /** An id string written in decimal, as `String(order.id)` writes it, removes
      exactly the orders with that id. */
  lemma RemoveDecimalId(orders: seq<Order>, id: nat, o: Order)
    ensures multiset(RemoveById(orders, ParseIntNoRadix(DecimalString(id))))[o]
         == if o.id == id then 0 else multiset(orders)[o]
  {
    ParseIntNoRadixDecimalString(id);
    RemoveByIdSpec(orders, Some(id), o);
  }

  // ===========================================================================
  // The autocomplete gate
  // ===========================================================================

  /** JavaScript's `length` of a string: its UTF-16 code units, two for each
      character outside the Basic Multilingual Plane. */
  function Utf16Length(s: string): (r: nat)
    ensures |s| <= r <= 2 * |s|
  {
    if s == [] then 0 else (if s[0] as int >= 0x1_0000 then 2 else 1) + Utf16Length(s[1..])
  }

  /** Whether a debounced search term is sent for predictions (line 88). */
  function ShouldFetchPredictions(isManualInput: bool, debouncedSearchTerm: string, serviceReady: bool): (r: bool)
    ensures r <==> isManualInput && serviceReady && Utf16Length(debouncedSearchTerm) >= 2
  {
    isManualInput && debouncedSearchTerm != "" && Utf16Length(debouncedSearchTerm) >= 2 && serviceReady
  }

  /** In characters: a manual term is sent once it has two characters, or a
      single character outside the Basic Multilingual Plane; an empty term or a
      single other character is not. */
  lemma PredictionsByCharacters(term: string)
    ensures ShouldFetchPredictions(true, term, true)
        <==> |term| >= 2 || (|term| == 1 && term[0] as int >= 0x1_0000)
  {
    if |term| == 1 {
      assert term[1..] == [];
    }
  }

  // ===========================================================================
  // The component's state and handlers
  // ===========================================================================

  datatype Destination = Destination(name: string, lat: real, lng: real)
  datatype NavigationTarget = NavigationTarget(driverId: int, finalDestination: Destination, waypoints: seq<string>)

  /** The state of one `DriverOrdersPage`: the fetched order list, the filter
      inputs, the error line and the chosen final destination. */
  class OrdersScreen {
    const driverId: int
    var orders: seq<Order>
    var orderStatus: string
    var startDate: string
    var endDate: string
    var error: string
    var finalDestination: Option<Destination>

    constructor (driverId: int)
      ensures this.driverId == driverId && orders == [] && orderStatus == Accepted
      ensures startDate == "" && endDate == "" && error == "" && finalDestination == None
    {
      this.driverId := driverId;
      orders := [];
      orderStatus := Accepted;
      startDate := "";
      endDate := "";
      error := "";
      finalDestination := None;
    }

    /** The orders on screen. */
    function Shown(): seq<Order>
      reads this
    {
      FinalFilteredOrders(orders, orderStatus, startDate, endDate)
    }

    /** The figure shown as the total price of the orders on screen. */
    function ShownTotal(): (total: real)
      reads this
      ensures total == TotalPrice(RetainedOrders(orders, orderStatus, startDate, endDate))
    {
      TotalOfFiltered(orders, orderStatus, startDate, endDate);
      TotalPrice(Shown())
    }

    /** `aggregatedItemsByLocation`: the item table of the orders on screen. */
    method ItemsByLocation() returns (groups: seq<LocationGroup>)
      ensures groups == Aggregate(AllItems(Shown()))
      ensures WellFormed(groups)
      ensures forall loc, name :: Lookup(groups, loc, name) == MatchTotal(AllItems(Shown()), loc, name)
    {
      groups := AggregateByLocation(Shown());
      AggregateWellFormed(AllItems(Shown()));
      forall loc, name
        ensures Lookup(groups, loc, name) == MatchTotal(AllItems(Shown()), loc, name)
      {
        AggregateLookup(AllItems(Shown()), loc, name);
      }
    }

    /** `fetchDriverOrders`: a successful response replaces the list and clears the
        error; a failure keeps the stale list and sets the error. */
    method ApplyFetchedOrders(response: Option<seq<Order>>)
      modifies this`orders, this`error
      ensures response.Some? ==> orders == response.value && error == ""
      ensures response.None? ==> orders == old(orders) && error == FetchFailedError
    {
      if response.Some? {
        orders := response.value;
        error := "";
      } else {
        error := FetchFailedError;
      }
    }

    /** `handleNavigate`: without a final destination only the error is set;
        otherwise navigation gets the driver, the destination and the waypoints
        of every accepted order (not only those on screen). */
    method HandleNavigate() returns (target: Option<NavigationTarget>)
      modifies this`error
      ensures finalDestination.None? ==> target.None? && error == NoDestinationError
      ensures finalDestination.Some? ==>
        target == Some(NavigationTarget(driverId, finalDestination.value, Waypoints(orders))) && error == old(error)
    {
      if finalDestination.None? {
        error := NoDestinationError;
        return None;
      }
      var waypoints := CollectWaypoints(orders);
      target := Some(NavigationTarget(driverId, finalDestination.value, waypoints));
    }

    /** `handleLocalTransfer`: once the transfer callback resolves, the orders with
        that id leave the list; if it rejects, the list stays and the error is set. */
    method HandleLocalTransfer(orderId: string, newDriverPhone: string, outcome: Settlement)
      modifies this`orders, this`error
      ensures outcome == Resolved ==> orders == RemoveById(old(orders), ParseIntNoRadix(orderId)) && error == old(error)
      ensures outcome == Rejected ==> orders == old(orders) && error == TransferFailedError
    {
      if outcome == Resolved {
        orders := RemoveById(orders, ParseIntNoRadix(orderId));
      } else {
        error := TransferFailedError;
      }
    }

    /** `handleLocalComplete`: the same, with the completion callback. */
    method HandleLocalComplete(orderId: string, service: string, outcome: Settlement)
      modifies this`orders, this`error
      ensures outcome == Resolved ==> orders == RemoveById(old(orders), ParseIntNoRadix(orderId)) && error == old(error)
      ensures outcome == Rejected ==> orders == old(orders) && error == CompleteFailedError
    {
      if outcome == Resolved {
        orders := RemoveById(orders, ParseIntNoRadix(orderId));
      } else {
        error := CompleteFailedError;
      }
    }
  }
}
