/** The driver landing page (`DriverPage`): the unaccepted-orders list, the
    "apply to be a driver" gate, the `is_driver` coercion of the stored user,
    the accept / transfer / complete handlers and the list toggle. Dialogs are
    boolean inputs, alerts are returned messages, and each awaited request is
    represented by its outcome. */
module DriverPage {
  import opened Common
  import opened Sorting
  import opened Orders
  import DriverOrdersView

  const LoginFirstAlert: string := "請先按右上角的登入"
  const AcceptedAlert: string := "接單成功"
  const AcceptFailedAlert: string := "接單失敗"
  const TransferredAlert: string := "轉單成功，已成功交給目標司機"
  const TransferFailedAlert: string := "轉單失敗，請重新整理頁面讓表單重新出現"
  const CompletedAlert: string := "訂單已完成"
  const CompleteFailedAlert: string := "完成訂單失敗"

  // ===========================================================================
  // The stored user and the is_driver coercion
  // ===========================================================================

  /** `is_driver` as local storage may hold it: a boolean, a string, or absent. */
  datatype Flag = FlagBool(b: bool) | FlagString(s: string) | FlagMissing

  /** The user object from local storage; a missing field is `None`, and
      `others` holds every field the page does not look at. */
  datatype User = User(
    id: Option<int>,
    name: Option<string>,
    phone: Option<string>,
    isDriver: Flag,
    others: map<string, string>)

  /** JavaScript truthiness of `user.is_driver`. */
  predicate Truthy(f: Flag)
  {
    match f
    case FlagBool(b) => b
    case FlagString(s) => s != ""
    case FlagMissing => false
  }

  /** The effect at lines 51-56: a string `is_driver` becomes `is_driver === 'true'`. */
  function CoerceIsDriver(user: Option<User>): Option<User>
  {
    if user.Some? && user.value.isDriver.FlagString?
    then Some(user.value.(isDriver := FlagBool(user.value.isDriver.s == "true")))
    else user
  }

  /** A string flag becomes the boolean "equals 'true'" (so "false" is no longer
      truthy); anything else is left alone; all other fields are kept; and a
      second application changes nothing. */
  lemma CoerceIsDriverSpec(user: Option<User>)
    ensures user.None? ==> CoerceIsDriver(user) == None
    ensures user.Some? ==>
      (CoerceIsDriver(user).Some? && CoerceIsDriver(user).value.(isDriver := user.value.isDriver) == user.value)
    ensures user.Some? && user.value.isDriver.FlagString? ==>
      (&& CoerceIsDriver(user).value.isDriver == FlagBool(user.value.isDriver.s == "true")
       && (Truthy(CoerceIsDriver(user).value.isDriver) <==> user.value.isDriver.s == "true"))
    ensures user.Some? && !user.value.isDriver.FlagString? ==> CoerceIsDriver(user) == user
    ensures CoerceIsDriver(CoerceIsDriver(user)) == CoerceIsDriver(user)
    ensures CoerceIsDriver(user).Some? ==> !CoerceIsDriver(user).value.isDriver.FlagString?
  {
  }

  /** `handleApplyDriverClick`'s test: the form opens only for a logged-in user. */
  predicate MayApply(user: Option<User>)
  {
    !(user.None? || user.value.id == Some(0) || user.value.name == Some("empty") || user.value.phone == Some("empty"))
  }

  /** `{ ...user, is_driver: true }`; spreading a null user yields just the flag. */
  function BecomeDriver(user: Option<User>): (r: User)
    ensures r.isDriver == FlagBool(true) && Truthy(r.isDriver)
    ensures user.Some? ==>
      (r.id == user.value.id && r.name == user.value.name && r.phone == user.value.phone && r.others == user.value.others)
    ensures user.None? ==> r.id.None? && r.name.None? && r.phone.None? && r.others == map[]
  {
    if user.Some? then user.value.(isDriver := FlagBool(true))
    else User(None, None, None, FlagBool(true), map[])
  }

  // ===========================================================================
  // The unaccepted-orders list
  // ===========================================================================

  /** `(b.is_urgent ? 1 : 0) - (a.is_urgent ? 1 : 0)`. */
  function UrgentCmp(a: Order, b: Order): real
  {
    (if b.isUrgent then 1.0 else 0.0) - (if a.isUrgent then 1.0 else 0.0)
  }

  /** The key `UrgentCmp` compares by: urgent orders have the smaller key. */
  function UrgencyKey(o: Order): real
  {
    if o.isUrgent then 0.0 else 1.0
  }

  /** The list shown from a fetched response: the "未接單" orders, urgent first. */
  function UnacceptedView(data: seq<Order>): seq<Order>
  {
    Sort(Keep(data, (o: Order) => o.orderStatus == Unaccepted), UrgentCmp)
  }

  /** The orders of `s` with the given urgency, in their order in `s`. */
  function WithUrgency(s: seq<Order>, urgent: bool): (r: seq<Order>)
    ensures forall o :: o in r ==> o in s && o.isUrgent == urgent
  {
    if s == [] then []
    else (if s[0].isUrgent == urgent then [s[0]] else []) + WithUrgency(s[1..], urgent)
  }

  lemma {:induction false} WithUrgencyIsKeyClass(s: seq<Order>, urgent: bool)
    ensures WithUrgency(s, urgent) == KeyClass(s, UrgencyKey, if urgent then 0.0 else 1.0)
  {
    if s != [] {
      WithUrgencyIsKeyClass(s[1..], urgent);
    }
  }

  lemma {:induction false} AllNonUrgent(s: seq<Order>)
    requires forall i :: 0 <= i < |s| ==> !s[i].isUrgent
    ensures WithUrgency(s, true) == [] && WithUrgency(s, false) == s
  {
    if s != [] {
      AllNonUrgent(s[1..]);
    }
  }

  /** A list sorted by urgency is its urgent orders followed by the others. */
  lemma {:induction false} SortedSplits(s: seq<Order>)
    requires SortedByKey(s, UrgencyKey)
    ensures s == WithUrgency(s, true) + WithUrgency(s, false)
  {
    if s != [] {
      if s[0].isUrgent {
        SortedSplits(s[1..]);
      } else {
        forall i | 0 <= i < |s|
          ensures !s[i].isUrgent
        {
          if i > 0 {
            assert UrgencyKey(s[0]) <= UrgencyKey(s[i]);
          }
        }
        AllNonUrgent(s);
      }
    }
  }

  /** The unaccepted list is exactly the fetched "未接單" orders: first the urgent
      ones, then the others, each group in fetched order. */
  lemma UnacceptedViewSpec(data: seq<Order>)
    ensures var pending := Keep(data, (o: Order) => o.orderStatus == Unaccepted);
            UnacceptedView(data) == WithUrgency(pending, true) + WithUrgency(pending, false)
    ensures forall o :: o in UnacceptedView(data) <==> o in data && o.orderStatus == Unaccepted
    ensures multiset(UnacceptedView(data)) == multiset(Keep(data, (o: Order) => o.orderStatus == Unaccepted))
  {
    var pending := Keep(data, (o: Order) => o.orderStatus == Unaccepted);
    var view := UnacceptedView(data);
    assert ComparesByKey(pending, UrgentCmp, UrgencyKey);
    SortSorted(pending, UrgentCmp, UrgencyKey);
    SortedSplits(view);
    SortStable(pending, UrgentCmp, UrgencyKey, 0.0);
    SortStable(pending, UrgentCmp, UrgencyKey, 1.0);
    WithUrgencyIsKeyClass(view, true);
    WithUrgencyIsKeyClass(view, false);
    WithUrgencyIsKeyClass(pending, true);
    WithUrgencyIsKeyClass(pending, false);
    forall o
      ensures o in view <==> o in data && o.orderStatus == Unaccepted
    {
      KeepMembership(data, (o: Order) => o.orderStatus == Unaccepted, o);
      assert o in view <==> o in multiset(view);
    }
  }

  /** An urgent order fetched after a non-urgent one is listed before it. */
  lemma UrgentFirstExample(a: Order, b: Order)
    requires a.orderStatus == Unaccepted && !a.isUrgent
    requires b.orderStatus == Unaccepted && b.isUrgent
    ensures UnacceptedView([a, b]) == [b, a]
  {
    UnacceptedViewSpec([a, b]);
    assert [a, b][1..] == [b];
  }

  // ===========================================================================
  // Accepting an order
  // ===========================================================================

  /** Where `handleAcceptOrder` stops, or the record it sends. */
  datatype AcceptPlan = DeclinedFirst | DeclinedSecond | NoDriver | Send(record: DriverOrder)

  /** The decision chain: two confirmations, the driver check, then the record;
      `now` is `new Date().toISOString()`. */
  function PlanAccept(confirmFirst: bool, confirmSecond: bool, driver: Option<Driver>,
                      orderId: string, service: string, now: string): (plan: AcceptPlan)
    ensures plan.Send? <==> confirmFirst && confirmSecond && driver.Some? && driver.value.id != 0
    ensures !confirmFirst ==> plan == DeclinedFirst
    ensures plan.Send? ==>
      (&& plan.record.driverId == driver.value.id && plan.record.orderId == ParseIntNoRadix(orderId)
       && plan.record.action == Accepted && plan.record.service == service && plan.record.timestamp == now
       && plan.record.previousDriverId.None? && plan.record.previousDriverName.None?
       && plan.record.previousDriverPhone.None?)
  {
    if !confirmFirst then DeclinedFirst
    else if !confirmSecond then DeclinedSecond
    else if driver.None? || driver.value.id == 0 then NoDriver
    else Send(DriverOrder(driver.value.id, ParseIntNoRadix(orderId), Accepted, now, None, None, None, service))
  }

  /** The endpoint `handleTransferOrder` posts to. */
  function TransferUrl(orderId: string): string
  {
    "/api/orders/" + orderId + "/transfer"
  }

  /** The endpoint `handleCompleteOrder` posts to. */
  function CompleteUrl(service: string, orderId: string): string
  {
    "/api/orders/" + service + "/" + orderId + "/complete"
  }

  /** The transfer request: its endpoint and the two fields of its body. */
  datatype TransferRequest = TransferRequest(url: string, currentDriverId: Option<int>, newDriverPhone: string)

  /** The part of `prefix + x + suffix` between the two fixed parts is `x`. */
  lemma Between(prefix: string, x: string, suffix: string)
    ensures (prefix + x + suffix)[|prefix|..|prefix| + |x|] == x
  {
  }

  /** The transfer endpoint names the order: different ids give different URLs. */
  lemma TransferUrlNamesOrder(a: string, b: string)
    ensures TransferUrl(a) == TransferUrl(b) <==> a == b
  {
    if TransferUrl(a) == TransferUrl(b) {
      Between("/api/orders/", a, "/transfer");
      Between("/api/orders/", b, "/transfer");
    }
  }

  /** For one service, the completion endpoint names the order. */
  lemma CompleteUrlNamesOrder(service: string, a: string, b: string)
    ensures CompleteUrl(service, a) == CompleteUrl(service, b) <==> a == b
  {
    if CompleteUrl(service, a) == CompleteUrl(service, b) {
      var prefix := "/api/orders/" + service + "/";
      assert CompleteUrl(service, a) == prefix + a + "/complete";
      assert CompleteUrl(service, b) == prefix + b + "/complete";
      Between(prefix, a, "/complete");
      Between(prefix, b, "/complete");
    }
  }

  // ===========================================================================
  // The page's state and handlers
  // ===========================================================================

  class DriverPageState {
    var user: Option<User>
    var storedUser: Option<User>
    var driverData: Option<Driver>
    var unacceptedOrders: seq<Order>
    var showUnacceptedOrders: bool
    var showRegisterForm: bool

    constructor (stored: Option<User>)
      ensures user == stored && storedUser == stored && driverData == None
      ensures unacceptedOrders == [] && !showUnacceptedOrders && !showRegisterForm
    {
      user := stored;
      storedUser := stored;
      driverData := None;
      unacceptedOrders := [];
      showUnacceptedOrders := false;
      showRegisterForm := false;
    }

    /** The coercion effect: the user's string flag is turned into a boolean in place. */
    method NormalizeIsDriver()
      modifies this`user
      ensures user == CoerceIsDriver(old(user))
    {
      if user.Some? && user.value.isDriver.FlagString? {
        user := Some(user.value.(isDriver := FlagBool(user.value.isDriver.s == "true")));
      }
    }

    /** `handleFetchUnacceptedOrders`: a response replaces the list by its
        unaccepted orders, urgent first; a failed request changes nothing. */
    method FetchUnacceptedOrders(response: Option<seq<Order>>)
      modifies this`unacceptedOrders
      ensures response.Some? ==> unacceptedOrders == UnacceptedView(response.value)
      ensures response.None? ==> unacceptedOrders == old(unacceptedOrders)
    {
      if response.Some? {
        unacceptedOrders := UnacceptedView(response.value);
      }
    }

    /** `handleAcceptOrder`: nothing is sent unless both dialogs are confirmed and
        the driver is known; after a send, success alerts and refetches the
        unaccepted list, failure only alerts. */
    method HandleAcceptOrder(orderId: string, service: string, confirmFirst: bool, confirmSecond: bool,
                             now: string, outcome: Settlement, refetched: Option<seq<Order>>)
      returns (sent: Option<DriverOrder>, alert: Option<string>)
      modifies this`unacceptedOrders
      ensures var plan := PlanAccept(confirmFirst, confirmSecond, driverData, orderId, service, now);
        && (plan.Send? ==> sent == Some(plan.record)) && (!plan.Send? ==> sent.None? && alert.None?)
      ensures sent.Some? && outcome == Resolved ==>
        (&& alert == Some(AcceptedAlert)
         && (refetched.Some? ==> unacceptedOrders == UnacceptedView(refetched.value))
         && (refetched.None? ==> unacceptedOrders == old(unacceptedOrders)))
      ensures sent.Some? && outcome == Rejected ==> alert == Some(AcceptFailedAlert)
      ensures !(sent.Some? && outcome == Resolved) ==> unacceptedOrders == old(unacceptedOrders)
    {
      var plan := PlanAccept(confirmFirst, confirmSecond, driverData, orderId, service, now);
      if !plan.Send? {
        return None, None;
      }
      sent := Some(plan.record);
      if outcome == Resolved {
        alert := Some(AcceptedAlert);
        FetchUnacceptedOrders(refetched);
      } else {
        alert := Some(AcceptFailedAlert);
      }
    }

    /** `handleTransferOrder`: every failure is caught, so the returned promise
        always resolves; a successful transfer also refetches the unaccepted list. */
    method HandleTransferOrder(orderId: string, newDriverPhone: string, ok: bool, refetched: Option<seq<Order>>)
      returns (request: TransferRequest, alert: string, settles: Settlement)
      modifies this`unacceptedOrders
      ensures request == TransferRequest(TransferUrl(orderId), if driverData.Some? then Some(driverData.value.id) else None, newDriverPhone)
      ensures settles == Resolved
      ensures alert == if ok then TransferredAlert else TransferFailedAlert
      ensures ok && refetched.Some? ==> unacceptedOrders == UnacceptedView(refetched.value)
      ensures !(ok && refetched.Some?) ==> unacceptedOrders == old(unacceptedOrders)
    {
      request := TransferRequest(TransferUrl(orderId), if driverData.Some? then Some(driverData.value.id) else None, newDriverPhone);
      if ok {
        alert := TransferredAlert;
        FetchUnacceptedOrders(refetched);
      } else {
        alert := TransferFailedAlert;
      }
      settles := Resolved;
    }

    /** `handleCompleteOrder`: posts to the order's completion endpoint, alerts
        the outcome and always resolves. */
    method HandleCompleteOrder(orderId: string, service: string, ok: bool) returns (url: string, alert: string, settles: Settlement)
      ensures url == CompleteUrl(service, orderId)
      ensures settles == Resolved
      ensures alert == if ok then CompletedAlert else CompleteFailedAlert
    {
      url := CompleteUrl(service, orderId);
      alert := if ok then CompletedAlert else CompleteFailedAlert;
      settles := Resolved;
    }

    /** `handleApplyDriverClick`: opens the form for a logged-in user, otherwise alerts. */
    method HandleApplyDriverClick() returns (alert: Option<string>)
      modifies this`showRegisterForm
      ensures MayApply(user) ==> alert.None? && showRegisterForm
      ensures !MayApply(user) ==> alert == Some(LoginFirstAlert) && showRegisterForm == old(showRegisterForm)
    {
      if user.None? || user.value.id == Some(0) || user.value.name == Some("empty") || user.value.phone == Some("empty") {
        alert := Some(LoginFirstAlert);
      } else {
        alert := None;
        showRegisterForm := true;
      }
    }

    /** `handleUpdateSuccess`: records the driver, marks the user as a driver in
        memory and in local storage, and closes the form. */
    method HandleUpdateSuccess(data: Driver)
      modifies this`driverData, this`user, this`storedUser, this`showRegisterForm
      ensures driverData == Some(data)
      ensures user == Some(BecomeDriver(old(user))) && storedUser == user
      ensures !showRegisterForm
    {
      driverData := Some(data);
      var updatedUser := BecomeDriver(user);
      storedUser := Some(updatedUser);
      user := Some(updatedUser);
      showRegisterForm := false;
    }

    /** `toggleUnacceptedOrders`: flips the list's visibility and fetches only when
        it is being shown while nothing is cached. */
    method ToggleUnacceptedOrders(response: Option<seq<Order>>) returns (fetched: bool)
      modifies this`showUnacceptedOrders, this`unacceptedOrders
      ensures showUnacceptedOrders == !old(showUnacceptedOrders)
      ensures fetched <==> !old(showUnacceptedOrders) && old(unacceptedOrders) == []
      ensures fetched && response.Some? ==> unacceptedOrders == UnacceptedView(response.value)
      ensures !(fetched && response.Some?) ==> unacceptedOrders == old(unacceptedOrders)
    {
      var newState := !showUnacceptedOrders;
      fetched := newState && |unacceptedOrders| == 0;
      if fetched {
        FetchUnacceptedOrders(response);
      }
      showUnacceptedOrders := newState;
    }
  }

  /** Because the page's transfer handler always resolves, the orders screen takes
      every transfer as a success: even when the server refused it, the order
      leaves the driver's local list and no error is shown. */
  method TransferFromOrdersScreen(page: DriverPageState, screen: DriverOrdersView.OrdersScreen,
                                  orderId: string, newDriverPhone: string, ok: bool, refetched: Option<seq<Order>>)
    modifies page`unacceptedOrders, screen`orders, screen`error
    ensures screen.orders == DriverOrdersView.RemoveById(old(screen.orders), ParseIntNoRadix(orderId))
    ensures screen.error == old(screen.error)
  {
    var request, alert, settles := page.HandleTransferOrder(orderId, newDriverPhone, ok, refetched);
    screen.HandleLocalTransfer(orderId, newDriverPhone, settles);
  }

  /** The same holds for completing an order from the orders screen. */
  method CompleteFromOrdersScreen(page: DriverPageState, screen: DriverOrdersView.OrdersScreen,
                                  orderId: string, service: string, ok: bool)
    modifies screen`orders, screen`error
    ensures screen.orders == DriverOrdersView.RemoveById(old(screen.orders), ParseIntNoRadix(orderId))
    ensures screen.error == old(screen.error)
  {
    var url, alert, settles := page.HandleCompleteOrder(orderId, service, ok);
    screen.HandleLocalComplete(orderId, service, settles);
  }
}
