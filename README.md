# CloudTribe core logic in Dafny

CloudTribe connects tribal residents, sellers and volunteer drivers. Buyers browse a
product grid and add items to a cart. Drivers accept, transfer and complete delivery
orders from two screens. New users register with a LINE bot conversation. A small
router mails one-time passwords and checks them. This project models the logic of
those five parts and proves what each one guarantees:

- **Driver order screen** (`DriverOrdersView.dfy`, data in `Orders.dfy`):
  - the status/date filter and the newest-first sort of completed orders;
  - the total price;
  - the per-location item table, built by nested loops into an in-place table;
  - the waypoint set for navigation;
  - the local list update after a transfer or completion;
  - the search gate for place predictions.
- **Driver landing page** (`DriverPage.dfy`):
  - the unaccepted-orders list, filtered and then sorted urgent first;
  - the `is_driver` string coercion;
  - the "apply to be a driver" gate;
  - the accept decision chain;
  - the transfer and complete handlers, which swallow every error;
  - `handleUpdateSuccess` and the list toggle.
- **LINE registration conversation** (`LineRegistration.dfy`): the `user_states`
  dictionary as a class field that `HandleMessage` updates. It is proved against a
  pure step function, which in turn carries the state-machine lemmas.
- **OTP store** (`EmailOtp.dfy`): the `otp_store` dictionary as a class field, with
  the send and verify handlers.
- **Product grid** (`ItemList.dfy`): the price sort, the page slice, the add-to-cart
  quantity guard and the floored price label.

Shared pieces live in two more files:

- `Common.dfy` holds:
  - an order-preserving filter (`Keep`);
  - JavaScript `parseInt`, with radix 10 (`ParseInt`) and without a radix (`ParseIntNoRadix`, which reads a `0x` prefix as hexadecimal);
  - Python `str(n)` (`DecimalString`);
  - code-point string comparison;
  - de-duplication in first-occurrence order, which models a JavaScript `Set`.
- `Sorting.dfy` models `Array.prototype.sort` with a comparator as a stable insertion
  sort. It proves the sort is a permutation, that it is sorted when the comparator
  compares by a key, and that it is stable within each key class.

Inputs the program reads from the outside world become parameters:

- fetch responses and callback outcomes (`Settlement`);
- `window.confirm` answers;
- the current time;
- the random OTP and the SMTP error;
- the database answers in the LINE handler (`Db`).

## Model

| member | source | states |
|---|---|---|
| DriverOrdersView.FilterFusion | client/components/driver/DriverOrdersPage.tsx:279-293 | The three successive filters (status, start date, end date) keep exactly the retained orders, in input order |
| DriverOrdersView.FilterSpec | client/components/driver/DriverOrdersPage.tsx:278-301 | The shown orders are, as a multiset, exactly the orders of the given status within the inclusive date bounds. Membership holds iff an order is in the list and passes the filter. For every status but "已完成" the list is in input order |
| DriverOrdersView.BoundsInclusive | client/components/driver/DriverOrdersPage.tsx:282-292 | An order dated exactly on a bound is kept: both bounds are inclusive |
| DriverOrdersView.BoundExcludesUnstamped | client/components/driver/DriverOrdersPage.tsx:282-292 | With a date bound set, no order without a timestamp is shown |
| DriverOrdersView.CrossedBoundsShowNothing | client/components/driver/DriverOrdersPage.tsx:282-292 | When the end date is set and the start date sorts after it, no order is shown |
| DriverOrdersView.CompletedNewestFirst | client/components/driver/DriverOrdersPage.tsx:294-299 | On the "已完成" tab the list is sorted by timestamp, newest first, whenever every retained order has a timestamp |
| DriverOrdersView.FilterIdempotent | client/components/driver/DriverOrdersPage.tsx:278-301 | Filtering the filtered list again with the same inputs gives the same list, on the "已完成" tab provided every retained order has a timestamp |
| DriverOrdersView.RefilterSameOrders | client/components/driver/DriverOrdersPage.tsx:278-301 | For every input, filtering the filtered list again shows the same orders with the same multiplicities, and off the "已完成" tab the same list |
| DriverOrdersView.RetainedOrdersCount | client/components/driver/DriverOrdersPage.tsx:279-293 | The reference filter keeps every retained order as often as it occurs and drops the others |
| DriverOrdersView.TotalPricePermutation | client/components/driver/DriverOrdersPage.tsx:306 | The summed price does not depend on list order |
| DriverOrdersView.TotalPriceAppend | client/components/driver/DriverOrdersPage.tsx:306 | The total of a concatenation is the sum of the totals |
| DriverOrdersView.TotalOfFiltered | client/components/driver/DriverOrdersPage.tsx:306 | The shown total is the sum of `total_price` over the retained orders, and 0 when none is shown |
| DriverOrdersView.LocationOf | client/components/driver/DriverOrdersPage.tsx:316 | An item's group key is never empty; it is the item's own location when that is present and non-empty, and "未指定地點" otherwise |
| DriverOrdersView.AggregateByLocation | client/components/driver/DriverOrdersPage.tsx:311-326 | The nested loops produce exactly the fold of `AddItem` over all line items of the orders, order by order |
| DriverOrdersView.AddItemStep | client/components/driver/DriverOrdersPage.tsx:315-324 | One inner-loop step creates the location entry when it is missing, then adds the quantity to the named entry or appends a new entry |
| DriverOrdersView.AggregateWellFormed | client/components/driver/DriverOrdersPage.tsx:311-336 | In the item table every location appears once, and every item name appears once within its location |
| DriverOrdersView.AggregateLookup | client/components/driver/DriverOrdersPage.tsx:311-336 | The quantity stored for a (location, name) pair is the sum of the quantities of the matching line items. A pair is missing iff no line item matches |
| DriverOrdersView.AggregateLocationOrder | client/components/driver/DriverOrdersPage.tsx:311-336 | Locations are listed in the order of their first encounter among the line items |
| DriverOrdersView.CollectWaypoints | client/components/driver/DriverOrdersPage.tsx:171-186 | The nested loops produce the de-duplicated candidate stops of the accepted orders: the order's own location before its items' locations |
| DriverOrdersView.AddOrderStops | client/components/driver/DriverOrdersPage.tsx:174-184 | One outer-loop step adds the order's non-empty location and then its items' non-empty locations to the set |
| DriverOrdersView.WaypointsSpec | client/components/driver/DriverOrdersPage.tsx:171-186 | The waypoints are distinct and never empty strings. They are exactly the non-empty locations of orders with status "接單" (the order's own location or an item's), taken from all orders rather than the filtered view |
| DriverOrdersView.RemoveByIdSpec | client/components/driver/DriverOrdersPage.tsx:255 | Removal drops every order whose id equals the parsed id and keeps every other order in its order. An unparsable id (`NaN`) removes nothing |
| DriverOrdersView.RemoveDecimalId | client/components/driver/DriverOrdersPage.tsx:255 | An id written in decimal removes exactly the orders with that id, and keeps every other order as often as before |
| DriverOrdersView.RemoveByIdIsKeep | client/components/driver/DriverOrdersPage.tsx:255 | The recursive removal equals the order-preserving filter by `order.id !== parseInt(orderId)` |
| DriverOrdersView.ShouldFetchPredictions | client/components/driver/DriverOrdersPage.tsx:88 | Predictions are requested iff the input is manual, the service is loaded and the term's JavaScript `length` (UTF-16 code units) is at least 2 |
| DriverOrdersView.PredictionsByCharacters | client/components/driver/DriverOrdersPage.tsx:88 | A manual term is sent iff it has at least two characters, or is one character outside the Basic Multilingual Plane |
| DriverOrdersView.OrdersScreen.constructor | client/components/driver/DriverOrdersPage.tsx:60-84 | The screen starts with no orders, the "接單" tab, no date bounds, no error and no destination |
| DriverOrdersView.OrdersScreen.ShownTotal | client/components/driver/DriverOrdersPage.tsx:306 | The total shown is the sum over the retained orders of the current list |
| DriverOrdersView.OrdersScreen.ItemsByLocation | client/components/driver/DriverOrdersPage.tsx:311-336 | The table built from the orders on screen is well formed, and each entry is the summed quantity of the matching items |
| DriverOrdersView.OrdersScreen.ApplyFetchedOrders | client/components/driver/DriverOrdersPage.tsx:196-225 | A successful fetch replaces the list and clears the error. A failed one keeps the list and sets "獲取訂單失敗" |
| DriverOrdersView.OrdersScreen.HandleNavigate | client/components/driver/DriverOrdersPage.tsx:164-190 | Without a final destination only the error "請先設定最終目的地" is set. Otherwise it navigates with the driver id, the destination and `Waypoints` of all orders |
| DriverOrdersView.OrdersScreen.HandleLocalTransfer | client/components/driver/DriverOrdersPage.tsx:250-260 | If the callback resolves, the orders with the parsed id are removed. If it rejects, the list is unchanged and the transfer error is set |
| DriverOrdersView.OrdersScreen.HandleLocalComplete | client/components/driver/DriverOrdersPage.tsx:263-273 | The same for the completion callback and its error |
| DriverPage.CoerceIsDriverSpec | client/app/driver/page.tsx:51-56 | A string `is_driver` becomes the boolean `is_driver === 'true'`. A boolean or missing flag, and every other field, is left alone. The coercion is idempotent and leaves no string flag |
| DriverPage.BecomeDriver | client/app/driver/page.tsx:252-254 | The updated user has `is_driver` true and keeps every other field of the stored user |
| DriverPage.UnacceptedViewSpec | client/app/driver/page.tsx:102-104 | The list holds exactly the fetched "未接單" orders, with the same multiplicity. It is their urgent orders followed by their non-urgent ones, each group in fetched order |
| DriverPage.UrgentFirstExample | client/app/driver/page.tsx:104 | An urgent order fetched after a non-urgent one is listed before it |
| DriverPage.SortedSplits | client/app/driver/page.tsx:104 | A list sorted by the urgency comparator is its urgent orders followed by the rest |
| DriverPage.PlanAccept | client/app/driver/page.tsx:133-157 | A record is sent iff both dialogs are confirmed and a driver with a non-zero id is known. The record carries that driver, `parseInt(orderId)` (no radix), the action "接單", no previous driver, the service and the current time |
| DriverPage.DriverPageState.constructor | client/app/driver/page.tsx:20-31 | The page starts with the stored user, no driver data, an empty hidden list and a closed form |
| DriverPage.DriverPageState.NormalizeIsDriver | client/app/driver/page.tsx:51-56 | The user becomes the coerced user |
| DriverPage.DriverPageState.FetchUnacceptedOrders | client/app/driver/page.tsx:94-110 | A response replaces the list by its unaccepted view. A failure keeps the list |
| DriverPage.DriverPageState.HandleAcceptOrder | client/app/driver/page.tsx:133-166 | It sends exactly what `PlanAccept` decides. After success the list is refetched; after failure only the failure alert is shown |
| DriverPage.DriverPageState.HandleTransferOrder | client/app/driver/page.tsx:173-197 | It posts to the order's transfer URL with the current driver id and the new phone, alerts success or failure, and always resolves. On success the list is refetched |
| DriverPage.TransferUrlNamesOrder | client/app/driver/page.tsx:175 | Two transfer URLs are equal iff their order ids are equal |
| DriverPage.DriverPageState.HandleCompleteOrder | client/app/driver/page.tsx:212-231 | It posts to the completion URL of the service and order, alerts success or failure, and always resolves |
| DriverPage.CompleteUrlNamesOrder | client/app/driver/page.tsx:214 | For one service, two completion URLs are equal iff their order ids are equal |
| DriverPage.DriverPageState.HandleApplyDriverClick | client/app/driver/page.tsx:236-242 | The form opens iff the user exists with a non-zero id and with name and phone other than 'empty'. Otherwise only the login alert is shown |
| DriverPage.DriverPageState.HandleUpdateSuccess | client/app/driver/page.tsx:248-256 | It records the driver, stores the user with `is_driver` true and other fields kept, and closes the form |
| DriverPage.DriverPageState.ToggleUnacceptedOrders | client/app/driver/page.tsx:262-270 | Visibility flips. A fetch happens iff the list is being shown while the cached list is empty |
| DriverPage.TransferFromOrdersScreen | client/app/driver/page.tsx:191-196 | Because the page's transfer handler never rejects, the orders screen always removes the order and never sets its error, even when the transfer failed |
| DriverPage.CompleteFromOrdersScreen | client/app/driver/page.tsx:227-230 | The same for completion |
| LineRegistration.RegistrationBot.constructor | backend/main.py:13 | The dictionary starts empty |
| LineRegistration.RegistrationBot.HandleMessage | backend/main.py:116-304 | The in-place updates of `user_states` leave the dictionary, the reply and the inserted row that `Step` defines (including no reply and no change when the "註冊" lookup raises), and keep the dictionary well formed |
| LineRegistration.RegistrationBot.ForgetUser | backend/main.py:160-164 | Cancelling deletes the user's step and stored name, whichever of them exist, and leaves every other entry of `user_states` |
| LineRegistration.RegistrationBot.HandleName | backend/main.py:174-199 | At the name step the stripped message is stored with the step moved to waiting_for_phone when it matches the name pattern, and the dictionary is left alone with the format error otherwise, as `AtNameStep` defines |
| LineRegistration.RegistrationBot.HandlePhone | backend/main.py:222-295 | At the phone step a malformed or already registered number leaves `user_states` unchanged with its error reply; a new number inserts the row and then clears both entries; a database failure clears them with the error reply, as `AtPhoneStep` defines |
| LineRegistration.StepOnlyTouchesSender | backend/main.py:116-304 | Every message changes only the sender's step key and name key |
| LineRegistration.RegisterSpec | backend/main.py:134-159 | "註冊" whose LINE-id lookup raises sends no reply and changes nothing; from a bound LINE id it changes nothing. Otherwise it sets the sender's step to waiting_for_name, whatever it was, and changes nothing else |
| LineRegistration.CancelSpec | backend/main.py:161-172 | "取消" removes both of the sender's keys in every state, and nothing else |
| LineRegistration.NameStepSpec | backend/main.py:175-200 | At the name step, a message that strips to a valid name is stored and the step moves to waiting_for_phone. Any other message changes nothing |
| LineRegistration.ValidNameStripped | backend/main.py:176-178 | A string matching the name pattern has no surrounding whitespace |
| LineRegistration.ReenterAtNameStep | backend/main.py:175-222 | At the name step "重新輸入" is stored as a name and moves to waiting_for_phone |
| LineRegistration.RepeatAskNameUnreachable | backend/main.py:202-222 | The handler's own "already at the name step" reply for "重新輸入" can never be sent |
| LineRegistration.ReenterAtPhoneStep | backend/main.py:202-214 | At the phone step "重新輸入" returns to the name step and forgets the stored name |
| LineRegistration.PhoneStepSpec | backend/main.py:225-294 | At the phone step: an invalid phone or a taken phone changes nothing; a database error clears both keys; a success clears both keys and inserts the row with location "未選擇" and `is_driver` false |
| LineRegistration.InsertOnlyFromPhoneStep | backend/main.py:225-276 | A row is inserted only at the phone step, for a valid phone that is free, with no database error |
| LineRegistration.StepKeepsWellFormed | backend/main.py:116-304 | Every step value stays one of the two step names, every stored name matches the pattern, and a user waiting for a phone has a stored name |
| LineRegistration.InsertedRowValid | backend/main.py:259-276 | From a well-formed dictionary every inserted row has a valid name, a valid phone, location "未選擇" and `is_driver` false |
| LineRegistration.HappyPath | backend/main.py:134-276 | "註冊", a valid name and a free valid phone register the user with that name and phone and leave none of the sender's keys behind |
| EmailOtp.AfterSend | backend/routers/email_otp.py:13-14 | After a send the address holds the decimal code, and every other address keeps its code |
| EmailOtp.OtpStore.constructor | backend/routers/email_otp.py:9 | The store starts empty |
| EmailOtp.OtpStore.SendOtp | backend/routers/email_otp.py:12-33 | The code is stored before the mail is attempted. A mail failure answers 500 with the error and keeps the code |
| EmailOtp.OtpStore.VerifyOtp | backend/routers/email_otp.py:36-40 | Verification succeeds iff the stored code equals the given code, and otherwise answers 400. The store is not modified, so a successful verification can be repeated |
| EmailOtp.CodeShape | backend/routers/email_otp.py:13 | Every drawn code is stored as six ASCII digits that read back as the number |
| EmailOtp.SendThenVerify | backend/routers/email_otp.py:13-14 | Right after a send, exactly the mailed code verifies for that address |
| EmailOtp.ResendInvalidatesOldCode | backend/routers/email_otp.py:14 | A second send overwrites the first code, which then fails |
| EmailOtp.SendLeavesOthers | backend/routers/email_otp.py:14 | Sending to one address leaves verification for every other address unchanged |
| EmailOtp.UnknownEmailFails | backend/routers/email_otp.py:37 | An address without a code never verifies |
| ItemList.SortedProductsSpec | client/components/tribe_resident/buyer/ItemList.tsx:24-28 | The sorted list is a permutation of the products. It is non-decreasing by price for ascending and non-increasing for descending, and products of equal price keep their order |
| ItemList.ToggleSortOrder | client/components/tribe_resident/buyer/ItemList.tsx:42-44 | Toggling always changes the direction |
| ItemList.ToggleTwice | client/components/tribe_resident/buyer/ItemList.tsx:42-44 | Toggling twice restores the direction |
| ItemList.JsSlice | client/components/tribe_resident/buyer/ItemList.tsx:48 | A slice is never longer than the list |
| ItemList.PageSpec | client/components/tribe_resident/buyer/ItemList.tsx:46-48 | A page holds at most `itemsPerPage` products. It is the list from `(currentPage-1)*itemsPerPage` on, clamped to the list, and empty past the last page |
| ItemList.FirstPagesPrefix | client/components/tribe_resident/buyer/ItemList.tsx:46-48 | Pages 1 to p concatenated are the list up to the end of page p |
| ItemList.PagesCoverList | client/components/tribe_resident/buyer/ItemList.tsx:46-48 | Pages 1 to ⌈n/itemsPerPage⌉ concatenated are the whole sorted list, in order |
| ItemList.AddToCartClick | client/components/tribe_resident/buyer/ItemList.tsx:115-128 | The product is added iff the parsed quantity is a number greater than 0, with that quantity. Otherwise only "購買數量必須大於 0" is shown |
| ItemList.AddToCartDefault | client/components/tribe_resident/buyer/ItemList.tsx:117 | A missing or empty field adds one item, with the notice "(1 件) 已經加入購物車" |
| ItemList.AddToCartNumber | client/components/tribe_resident/buyer/ItemList.tsx:117-121 | A field holding a positive whole number adds that many items |
| ItemList.AddToCartRefusesZero | client/components/tribe_resident/buyer/ItemList.tsx:117-127 | A field holding "0" is refused with "購買數量必須大於 0" |
| ItemList.AddToCartRefusesNegative | client/components/tribe_resident/buyer/ItemList.tsx:117-127 | A field holding a negative number is refused |
| ItemList.AddToCartRefusesText | client/components/tribe_resident/buyer/ItemList.tsx:117-127 | A handler argument without leading digits parses to `NaN` and is refused (a number input hands the handler "" instead, which adds one item) |
| ItemList.DisplayedPrice | client/components/tribe_resident/buyer/ItemList.tsx:100 | The label is the greatest whole number not above the price |
| Sorting.SortSorted | client/components/tribe_resident/buyer/ItemList.tsx:26 | A comparator that compares by a key sorts the list non-decreasingly by that key |
| Sorting.SortStable | client/app/driver/page.tsx:104 | Elements with equal keys keep their relative order (the sort is stable) |
| Common.ParseIntDecimalString | client/components/tribe_resident/buyer/ItemList.tsx:117 | `parseInt(s, 10)` reads back every non-negative decimal string |
| Common.ParseIntNoRadixDecimalString | client/components/driver/DriverOrdersPage.tsx:255 | `parseInt(s)` without a radix also reads back every non-negative decimal string |
| Common.ParseIntNoRadixHex | client/app/driver/page.tsx:150 | Without a radix, `0x` followed by hex digits reads as the hexadecimal value, where radix 10 reads 0 |

## Left out

- Network and asynchrony are not modelled. Every `fetch`/service call, the `isFetching`/`isMounted` guards, `useEffect` scheduling and `router.push` URL encoding are left out. Responses and callback outcomes are parameters, and a refetch that is not awaited is treated as completing at once.
- `window.confirm`, `alert` and `setTimeout` are not modelled: answers are boolean inputs and alerts are returned strings.
- Google Places autocomplete and details, and the debounce timer, are third-party and timer code. Only the request gate at DriverOrdersPage.tsx:88 is modelled.
- Date parsing is not modelled: a timestamp is given as its `YYYY-MM-DD` date and its milliseconds, which is what the code derives from the ISO string. Invalid dates are out of scope.
- Prices are `real`; floating-point rounding and `toFixed(2)` are not modelled.
- Date strings are compared by code point; JavaScript compares UTF-16 code units, which agree for the ASCII dates compared here.
- DriverOrdersView.CompletedNewestFirst: it needs every retained completed order to have a timestamp. Without one the comparator is inconsistent, and only the permutation property is claimed.
- DriverOrdersView.AggregateLocationOrder: the item table is an ordered list of groups in first-encounter order. JavaScript `Object.entries` lists integer-like keys first, and a location named like an `Object.prototype` member ("constructor", "toString", …) gets no group at all. The model keeps plain insertion order and gives every location a group.
- DriverOrdersView.AddItemStep: the source's `{}` objects see `Object.prototype` members as already present. An item or location named "constructor", "toString", "valueOf" or "__proto__" takes the `+=` branch or is written onto the prototype. The model looks up own entries only, so it creates the entry as for any other name.
- DriverOrdersView.AggregateByLocation: it equals the fold of `AddItemStep`'s own-entry lookup. It does not capture the `Object.prototype` names described for `AddItemStep`.
- DriverOrdersView.AggregateLookup: "each stored quantity is the total of the matching items" holds for the model's own-entry table. In the source it fails for item and location names inherited from `Object.prototype`.
- DriverOrdersView.OrdersScreen.ItemsByLocation: it inherits the `Object.prototype` gap of `AggregateLookup`. Within a group the model keeps item names in insertion order, while `Object.entries` lists integer-like item names first, in numeric order.
- DriverOrdersView.FilterIdempotent: on the "已完成" tab it needs every retained order to have a timestamp, as for `CompletedNewestFirst`. Without one, only the multiset form (`RefilterSameOrders`) is proved.
- Common.ParseInt, Common.ParseIntNoRadix, ItemList.AddToCartClick: JavaScript numbers are 64-bit floats; the model uses unbounded integers for ids and quantities. They agree up to 2^53. Beyond that `parseInt` rounds, and from 10^21 on `${quantity}` prints exponent form, where the model writes every digit with `DecimalString`.
- LINE SDK calls, webhook signatures, the duplicated `/callback` route and reply failures are foreign calls and are left out. The database answers (LINE id bound, phone taken, a query raising) are the `Db` parameter. When the "註冊" lookup raises, the handler sends no reply (`NoReply`) and the webhook's 500 response is not modelled.
- LineRegistration.Step: the handler's two dictionary keys `id` and `id_name` are modelled as distinct keys `StateOf(id)` and `NameOf(id)`. A LINE id that itself ends in `_name` could collide with another user's name key in Python; the model does not capture that.
- LineRegistration.IsPyDigit: Python's `str.isdigit` accepts every Unicode decimal and digit character. The model accepts ASCII, superscript and subscript, Arabic-Indic, extended Arabic-Indic, Devanagari and full-width digits only.
- LineRegistration.Step: `user_message.lower() == "取消"` is modelled as equality with "取消". No character lower-cases to 取 or 消, so the two tests agree.
- SMTP and `random` are I/O and nondeterminism: the drawn code and the mail error are parameters. No expiry is modelled, because the code enforces none.
- `backend/routers/seller.py`, `backend/routers/users.py` and `client/app/page.tsx` are not part of this model. They hold database endpoints and static markup.

The page's transfer and completion handlers catch every error, so the order screen removes the order even when the request failed (`DriverPage.TransferFromOrdersScreen`, `DriverPage.CompleteFromOrdersScreen`).
