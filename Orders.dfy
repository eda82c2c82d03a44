/** The records the driver screens work on: an order with its line items, as
    the orders endpoints return it, and the accept-action record the driver page
    sends back. Prices are JavaScript numbers, modelled as reals. */
module Orders {
  import opened Common

  /** The three order-status labels the screens compare against. */
  const Unaccepted: string := "未接單"
  const Accepted: string := "接單"
  const Completed: string := "已完成"

  /** What the pages derive from an order's ISO-8601 timestamp string: its UTC
      calendar date as `YYYY-MM-DD` (`toISOString().split('T')[0]`) and its
      instant in milliseconds (`getTime()`). */
  datatype Stamp = Stamp(date: string, millis: int)

  /** A line item; `location` is `None` when the field is missing. */
  datatype Item = Item(itemName: string, quantity: int, location: Option<string>)

  /** An order; `timestamp` is `None` when the field is missing or empty. */
  datatype Order = Order(
    id: int,
    orderStatus: string,
    isUrgent: bool,
    totalPrice: real,
    timestamp: Option<Stamp>,
    service: string,
    location: Option<string>,
    items: seq<Item>)

  /** The driver record; an `id` of 0 counts as missing, as every falsy id does. */
  datatype Driver = Driver(id: int, name: string, phone: string)

  /** The `DriverOrder` action record; `orderId` is `None` when `parseInt` gave `NaN`
      and the `previous*` fields are `None` for `undefined`. */
  datatype DriverOrder = DriverOrder(
    driverId: int,
    orderId: Option<int>,
    action: string,
    timestamp: string,
    previousDriverId: Option<int>,
    previousDriverName: Option<string>,
    previousDriverPhone: Option<string>,
    service: string)

  /** How an awaited call ended: the promise resolved or it rejected. */
  datatype Settlement = Resolved | Rejected
}
