# tezwaybot, modelled in Dafny

tezwaybot is a Telegram bot for shared taxi trips and parcel deliveries in
Uzbekistan. This project models its core and proves properties about it.

- **Order lifecycle.** A passenger's trip or delivery order is posted to a channel. Drivers claim it with the post's contact button. The order is then completed or cancelled. A 300-second processing timer puts an unattended claim back on offer. Sweeps at startup and a monitor loop repair the process-local timer registry. The order status is one of `initiated | processing | completed | canceled | failed`.
- **Reminder task.** Every new order starts a task that reminds the passenger and later cancels the order if it is still `initiated`.
- **Helpers and side flows.** The model also covers:
  - the phone-number normaliser and validator;
  - the passenger's paged order history;
  - the admins' region/district directory;
  - the older accept/reject flow that offers an order to every driver;
  - the two length guards of the delivery form.

## Structure

- `text.dfy`: `Text`, the Python string behaviour the rest relies on.
  - `strip()` with Python's whitespace set;
  - ASCII digits;
  - `str(n)` and `int(s)` for unsigned numbers;
  - zero-padded fields.
- `callbacks.dfy`: `Callbacks`, the button tokens `{action}_{id}`.
  - `int(data.split("_")[-1])`;
  - the prefix filters that choose a callback handler.
- `lifecycle.dfy`: `Lifecycle`, the order lifecycle of `handlers/users/departure.py` and `handlers/users/delivery.py`.
  - `Store` holds the database rows: orders, status records and users.
  - `Registry` holds one module's two in-memory dictionaries: processing timers and channel message ids.
  - `Handlers` is one class for both modules. It is built with the module, the shared store and that module's own registry.
  - Each handler is one atomic method. The timer going off is an explicit `FireTimer` step.
- `order_reminder.dfy`: `OrderReminder`, `send_order_reminder` as a `ReminderTask` object.
  - The reminder coroutine has a start check, a reminder checkpoint and an expiry checkpoint.
  - `Checkpoints` describes when the checkpoints happen.
- `validators.dfy`: `Validators`, `normalize_phone`, `validate_phone`, `is_uzbek_phone`, and the registration check of `handlers/users/start.py`.
- `order_history.dfy`: `OrderHistory`, covering:
  - status labels;
  - newest-first ordering;
  - page slicing and the page count;
  - the keyboard built by `show_paginated_history`;
  - the callback handler that reads the keyboard's buttons.
- `regions.dfy`: `Regions`, the directory of `handlers/admins/add_regions.py`.
  - `check_admin_access` and the `notify_admins` loop;
  - a `Directory` class whose methods are the confirm steps.
- `delivery_form.dfy`: `DeliveryForm`, the description and receiver-name steps of the delivery conversation.
- `notifications.dfy`: `Notifications`, the legacy `NEW → ACCEPTED/EXPIRED` flow of `utils/notifications.py`.
  - `LegacyOrders` is a class.
  - The time formatter and the driver loop are also modelled.
- `scenarios.dfy`: `Scenarios`, four runs across modules, each proved:
  - a trip completed from its reminder;
  - a delivery, whose reminder is never sent;
  - two drivers clicking the same order;
  - a timer that reopens an order.

Where the written description of the system and the code disagree, the model follows the code:

- **Claims without a status row.**
  - A claim on an order with no status row reads it as `initiated`.
  - The status update then finds no row and writes nothing.
  - The timer is armed all the same.
- **Timer entries.**
  - A processing timer whose order or status row has vanished returns before it removes its registry entry. The entry stays, marked done, until `cleanup_expired_timers` drops it.
  - Only when the row is found does the timer remove its own entry.
- **Reverts keep the claimant.** Reverting `processing → initiated`, by the timer or by the orphan sweep, keeps the recorded claimant id.
- **Trip sweep scope.** The trip module's orphan sweep and monitor query every status row, deliveries included. The delivery module's own query only DELIVERY orders.
- **Reminder checks.**
  - The reminder task's start check lets an order without a status row through.
  - Its later checks do not.
  - The reminder text formats the departure time, so an order without one ends the reminder coroutine at the reminder checkpoint.
  - Delivery orders are stored without a departure time, so a delivery never gets its reminder and is never expired by this task.
- **History pages.** The history formats each shown order's departure time. A page holding a delivery therefore fails before anything is sent. On the first page this also happens before the history state is set.
- **Processing replies.** The claim handlers load the status row without its user. Every click on a `processing` order is told that the order is already the caller's.
- **Phone input.**
  - `normalize_phone` returns `""` only for an empty string.
  - Input made only of spaces becomes `+998`.

## Model

| member | source | states |
|---|---|---|
| Callbacks.Token | handlers/users/departure.py:401-402 | a button token starts with its action and an underscore |
| Callbacks.LastSegment | handlers/users/departure.py:432 | the text after the last `_` (the whole text when there is none) is a suffix without `_`, preceded by `_` when shorter |
| Callbacks.ParseOrderId | handlers/users/departure.py:567 | an id is read exactly when the last segment is non-empty and all digits; otherwise `int()` raises (None) |
| Callbacks.TokenRoundTrip | handlers/users/departure.py:567 | reading the id back out of any action's token gives the id the button was made for |
| Callbacks.TokensReachTheirHandlers | handlers/users/departure.py:564-606 | each of the eight order tokens reaches the handler registered for its action and no other |
| Lifecycle.CurrentState | handlers/users/departure.py:483-486 | a missing status row reads as `initiated`, a present one as its state |
| Lifecycle.RenderDecision | handlers/users/departure.py:115-171 | no message id: no re-render; `canceled`: delete the post; otherwise edit it showing the state, with the contact button exactly for `initiated` |
| Lifecycle.IntendedProcessingReply | handlers/users/departure.py:538-545 | the reply the `processing` branch was written to give: another driver is handling it exactly when some user other than the caller holds the status row |
| Lifecycle.IntendedReplyTellsDriversApart | handlers/users/departure.py:538-545 | with one holder, the intended reply tells the holder it is already theirs and any other caller that another driver has it |
| Lifecycle.ChannelGate | handlers/users/departure.py:434-447 | a failed membership lookup refuses; left/kicked/restricted users are refused unless they are the bot owner |
| Lifecycle.EvolvesChain | handlers/users/departure.py:483-494 | over any run of handler steps no status row appears or disappears, every order's state stays reachable from its earlier state, and resolved orders never change |
| Lifecycle.OrphanSweep | handlers/users/departure.py:706-732 | every in-scope `processing` row becomes `initiated` keeping its claimant; all other rows are unchanged |
| Lifecycle.SweepLeavesNoOrphan | handlers/users/delivery.py:883-912 | after a sweep no in-scope row is `processing`, a second sweep changes nothing, and the sweep only moves along lifecycle edges |
| Lifecycle.Unwatched | handlers/users/departure.py:682-703 | exactly the in-scope `processing` rows with no timer entry and a known channel message |
| Lifecycle.Rearmed | handlers/users/delivery.py:870-878 | one fresh timer per unwatched order, with that order's channel message id; other entries unchanged |
| Lifecycle.LiveTimers | handlers/users/departure.py:651-660 | exactly the entries whose task has not finished, unchanged |
| Lifecycle.Registry.constructor | handlers/users/departure.py:20 | a module's dictionaries start empty |
| Lifecycle.Handlers.CreateOrder | handlers/users/departure.py:329-396 | a trip carries a departure time and a delivery none (handlers/users/delivery.py:494-503); a fresh order of the module's kind with an `initiated` row naming its owner, who is registered as a passenger if unknown; the channel post is remembered |
| Lifecycle.Handlers.Claim | handlers/users/departure.py:428-558 | the refusals in source order before any write; `initiated` becomes `processing` for the claimer and exactly one fresh timer replaces any old one; `processing` tells every admitted caller it is already theirs and changes nothing, since the status row's user is not loaded (lines 459-469); resolved orders change nothing and re-render the clicked post |
| Lifecycle.Handlers.MsgOf | handlers/users/departure.py:560-562 | the channel message id the module remembers for the order, if any |
| Lifecycle.Handlers.Complete | handlers/users/departure.py:564-603 | refused unless the order exists and is `initiated`/`processing`; then the timer entry goes, the state becomes `completed`, the channel-message entry stays |
| Lifecycle.Handlers.Cancel | handlers/users/departure.py:605-647 | as complete with `canceled`, and the channel-message entry is forgotten |
| Lifecycle.Handlers.FireTimer | handlers/users/departure.py:66-113 | a live timer reverts a still-`processing` order to `initiated` and re-renders with the captured message; any other state is untouched; its entry is removed unless the order or row is gone |
| Lifecycle.Handlers.SweepOrphans | handlers/users/departure.py:721-727 | the loop leaves the status rows equal to `OrphanSweep` of the old rows |
| Lifecycle.Handlers.Monitor | handlers/users/departure.py:692-700 | the loop leaves the registry equal to `Rearmed` of the old registry over the unwatched orders |
| Lifecycle.Handlers.CleanupExpiredTimers | handlers/users/delivery.py:822-831 | the loop leaves exactly the live timer entries |
| OrderReminder.Slept | utils/userordercontrol.py:46 | a negative sleep returns at once |
| OrderReminder.Checkpoints | utils/userordercontrol.py:28-46 | the reminder happens after the reminder time, the expiry after a further `expiry - reminder` |
| OrderReminder.CheckpointTimes | utils/userordercontrol.py:11-12 | with the defaults 900 and 1200 the checks happen at 900 s and 1200 s; for `0 ≤ R ≤ E` the expiry is at `E` |
| OrderReminder.ReminderButtons | utils/userordercontrol.py:22-26 | the reminder has two buttons |
| OrderReminder.ReminderButtonsReachTripHandlers | utils/userordercontrol.py:22-26 | the buttons reach the trip module's complete and cancel handlers for the same order id, whatever the order's kind |
| OrderReminder.StillInitiatedIsStricter | utils/userordercontrol.py:19 | the later checks imply the start check, and differ from it exactly on orders without a status row |
| OrderReminder.ReminderTask.constructor | utils/userordercontrol.py:17-20 | the reminder coroutine ends at once unless the order exists and is `initiated` or has no status row |
| OrderReminder.ReminderTask.ReminderCheckpoint | utils/userordercontrol.py:30-44 | the reminder is sent only when the order is still `initiated`; with no departure time the coroutine ends |
| OrderReminder.ReminderTask.ExpiryCheckpoint | utils/userordercontrol.py:48-66 | only a still-`initiated` order is set to `canceled`, no other state is written, and no module registry is touched |
| Validators.KeepDigitsAndPlus | utils/validators.py:12 | the filter keeps only digits and `+` and never lengthens |
| Validators.KeepLosesNoKept | utils/validators.py:12 | every digit and `+` of the input survives the filter as often as it occurs |
| Validators.KeepDistributes | utils/validators.py:12 | the filter works character by character: filtering a concatenation concatenates the filtered parts, so order is kept |
| Validators.KeepDropsSpaces | utils/validators.py:12 | whitespace is removed entirely by the filter |
| Validators.StripBeforeFilterIsMoot | utils/validators.py:12 | filtering the stripped number gives the same as filtering the raw input |
| Validators.KeepAllKept | utils/validators.py:12 | a string of digits and `+` passes the filter whole |
| Validators.Cleaned | utils/validators.py:12 | the stripped, filtered number holds only digits and `+`, and is exactly the filter applied to the raw input |
| Validators.LocalPart | utils/validators.py:15-16 | one leading `+` is dropped, nothing else |
| Validators.WithCountryCode | utils/validators.py:19-25 | the result starts with `998`; a number already starting so is kept |
| Validators.NormalizeShape | utils/validators.py:4-27 | empty input gives `""`; otherwise the result starts with `+998` followed only by digits and `+` |
| Validators.NormalizeIdempotent | utils/validators.py:38 | normalising twice is normalising once |
| Validators.NormalizedIsClean | utils/validators.py:12 | a normalised number passes strip and filter unchanged |
| Validators.ValidatePhone | utils/validators.py:29-81 | valid exactly when no error is given; the empty string gives the missing-number error |
| Validators.ValidityCondition | utils/validators.py:41-81 | valid exactly when the normalised form is `+998` and nine digits; the operator and missing-prefix errors never occur; shorter than 13 is too short, longer too long |
| Validators.ValidateNormalized | utils/validators.py:38 | validating a normalised number gives the same answer |
| Validators.IsUzbekPhone | utils/validators.py:83-88 | the first component of the validation result |
| Validators.InternationalNumberKept | utils/validators.py:15-27 | `+998` and nine digits is kept as it is and is valid |
| Validators.LocalNumberIsLocalPart | utils/validators.py:21-22 | a nine-digit number starting with 9 reaches the prepend branch unchanged |
| Validators.LocalNumberWithLeading998Rejected | utils/validators.py:19-25 | as written, a local number beginning with 998 only gets a `+` and is rejected as too short |
| Validators.LocalNumberWithLeading998Exists | utils/validators.py:21 | `998123456` is such a local number |
| Validators.LocalNumberAccepted | utils/validators.py:21-22 | with the local-number case first, every local number becomes `+998` and it, and is valid |
| Validators.LocalFirstAgreesElsewhere | utils/validators.py:19-25 | the corrected normalisation differs from the written one only on local numbers beginning with 998 |
| Validators.RegistrationNeverRejects | handlers/users/start.py:132 | as written, registration never rejects a phone; `abc` is stored as the invalid `+998` |
| Validators.RegistrationStoresValidNumbers | handlers/users/start.py:141 | testing the validity flag, registration accepts exactly the valid numbers |
| DeliveryForm.SubmitDescription | handlers/users/delivery.py:352-360 | a stripped description over 200 characters leaves the form unchanged; otherwise it is stored and the receiver is asked |
| DeliveryForm.SubmitReceiverName | handlers/users/delivery.py:385-402 | a stripped name over 100 characters leaves the form unchanged; otherwise it is stored and the phone is asked |
| DeliveryForm.RunKeepsLimits | handlers/users/delivery.py:354-357 | whatever is typed or skipped, the stored description stays within 200 and the name within 100 characters |
| DeliveryForm.SubmitAdvancesOnlyOnAcceptance | handlers/users/delivery.py:348-392 | the form never moves back; a typed answer moves at most one step and only when stored; a skip stores nothing |
| OrderHistory.StatusLabels | handlers/users/orderhistory.py:8-16 | only `processing` gets the unknown label; a missing status shows as `initiated`; the four labels are distinct |
| OrderHistory.SortNewestFirst | handlers/users/orderhistory.py:30 | the sorted history has the same orders |
| OrderHistory.SortedNewestFirst | handlers/users/orderhistory.py:30 | the history is ordered newest first and is a permutation of the orders |
| OrderHistory.Slice | handlers/users/orderhistory.py:46-48 | Python slicing: never longer than the sequence, an ordinary slice for in-range bounds |
| OrderHistory.PageItems | handlers/users/orderhistory.py:46-48 | a page holds at most `n` orders |
| OrderHistory.TotalPages | handlers/users/orderhistory.py:49 | the page count is `ceil(len / n)`: zero only for no orders, and the least count of pages holding them all |
| OrderHistory.ItemOnItsPage | handlers/users/orderhistory.py:44-49 | the `i`-th order appears on page `i / n` at position `i % n`, and that page exists |
| OrderHistory.PagesNotEmpty | handlers/users/orderhistory.py:46-49 | every page below the page count shows at least one order |
| OrderHistory.PageLabelMarksCurrent | handlers/users/orderhistory.py:87 | only the current page's label has the bullets, and every label shows the page counted from one |
| OrderHistory.WindowBounds | handlers/users/orderhistory.py:79-83 | for an in-range page the window has `min(5, total)` pages inside `[0, total)` and contains the page |
| OrderHistory.PageRow | handlers/users/orderhistory.py:85-88 | one button per page of the window, marked exactly when it is the current page |
| OrderHistory.HistoryKeyboard | handlers/users/orderhistory.py:73-110 | the loop-built markup equals the keyboard specification |
| OrderHistory.KeyboardRows | handlers/users/orderhistory.py:74 | close is always the last row; one page has nothing else; otherwise the window row is there |
| OrderHistory.NavArrows | handlers/users/orderhistory.py:75-91 | the left arrow exactly when `page > 0`, the right arrow exactly when `page < total - 1`, and nothing else in that row |
| OrderHistory.CurrentPageMarked | handlers/users/orderhistory.py:86-87 | the window row marks the current page and no other |
| OrderHistory.TargetsInRange | handlers/users/orderhistory.py:93-104 | every button of the keyboard opens an existing page |
| OrderHistory.UpTo | handlers/users/orderhistory.py:119 | `data.split(':')[0]`: the prefix before the first colon |
| OrderHistory.PageDataOpensPage | handlers/users/orderhistory.py:131-133 | `history_page:N` opens page `N` |
| OrderHistory.ButtonRoundTrip | handlers/users/orderhistory.py:117-135 | each button does what it shows: page buttons and arrows open their page, `...` does nothing, close closes |
| OrderHistory.PressStaysInRange | handlers/users/orderhistory.py:131-133 | pressing any button of an in-range page closes, does nothing, or opens another in-range page |
| OrderHistory.ShowPage | handlers/users/orderhistory.py:40-68 | a page is shown exactly when every order on it has a departure time, and then it shows that page's orders |
| OrderHistory.UndatedOrderBreaksItsPage | handlers/users/orderhistory.py:58 | an order without a departure time makes the page it falls on fail |
| OrderHistory.DatedHistoryShows | handlers/users/orderhistory.py:52-58 | when every order has a departure time, every page can be shown |
| OrderHistory.Press | handlers/users/orderhistory.py:117-135 | a press that is not a page request acts as its callback data says; a page request fails when its page cannot be shown, and opens the page only when it can |
| OrderHistory.PressOnDatedHistory | handlers/users/orderhistory.py:131-134 | on a history of dated orders, pressing any button of an in-range page closes, does nothing or opens an in-range page |
| OrderHistory.StartHistory | handlers/users/orderhistory.py:18-38 | non-passengers are refused; a passenger with no orders is told so; otherwise the newest-first history opens on page 0, or fails (before the history state is set) when that page cannot be shown |
| OrderHistory.FirstPageShownIffDated | handlers/users/orderhistory.py:46-58 | page 0 shows exactly when its first three orders all have a departure time |
| OrderHistory.HistoryOpensIffNewestDated | handlers/users/orderhistory.py:18-38 | a passenger's history opens exactly when the three newest orders all have a departure time |
| Regions.AdminAccess | handlers/admins/add_regions.py:17-24 | access exactly for ADMIN and SUPER_ADMIN; a failed lookup denies |
| Regions.RecipientsAreOtherAdmins | handlers/admins/add_regions.py:26-46 | every ADMIN and SUPER_ADMIN is told except the acting admin (a zero id excludes nobody), and nobody else is |
| Regions.NotifyAdmins | handlers/admins/add_regions.py:36-39 | the loop sends to exactly the `Recipients` list |
| Regions.Directory.CheckNewRegionName | handlers/admins/add_regions.py:334-365 | stripped names under two characters are too short; a name any region has is taken; an accepted name is free |
| Regions.Directory.ConfirmAddRegion | handlers/admins/add_regions.py:367-396 | the name is stored under a fresh id without re-checking; names stay unique when it was free |
| Regions.Directory.RenameRegion | handlers/admins/add_regions.py:199-248 | only another region holding the name blocks; renaming to its own name is allowed; names stay unique |
| Regions.Directory.RegionDeleteWarning | handlers/admins/add_regions.py:252-288 | the warning counts the region's districts and its orders as origin plus destination |
| Regions.Directory.ConfirmDeleteRegion | handlers/admins/add_regions.py:290-320 | the region and all its districts are removed whatever orders exist |
| Regions.Directory.CheckNewDistrictName | handlers/admins/add_regions.py:766-808 | as for regions, but a name only has to be free within the district's region |
| Regions.Directory.ConfirmAddDistrict | handlers/admins/add_regions.py:810-846 | a fresh district in an existing region; names stay unique per region when it was free |
| Regions.Directory.RenameDistrict | handlers/admins/add_regions.py:563-621 | only another district of the same region holding the name blocks; names stay unique per region |
| Regions.Directory.DistrictOrderCount | handlers/admins/add_regions.py:643 | zero exactly when no order names the district as origin or destination |
| Regions.Directory.DistrictDeletable | handlers/admins/add_regions.py:625-677 | a district named by any order cannot be deleted |
| Regions.Directory.ConfirmDeleteDistrict | handlers/admins/add_regions.py:679-737 | the order check is repeated; a deleted district is named by no order, so every order's districts still exist |
| Notifications.FormatDateTime | utils/notifications.py:18-23 | the formatted time is sixteen characters: digit fields separated by `-`, `-`, a space and `:` |
| Notifications.FormatRoundTrip | utils/notifications.py:23 | the formatted time reads back to the same date and time |
| Notifications.DepartureFormats | utils/notifications.py:20-25 | strings pass through unchanged, datetimes are formatted, anything else becomes `Noma'lum vaqt` |
| Notifications.OffersGoToDrivers | utils/notifications.py:39-56 | exactly the DRIVER users are offered the order, each with this order's two buttons |
| Notifications.OfferButtonsDispatch | utils/notifications.py:44-47 | the buttons reach the accept and reject handlers with the same order id |
| Notifications.NotifyDrivers | utils/notifications.py:42-56 | the loop sends exactly the `Offers` list |
| Notifications.LeftNewIsFinal | utils/notifications.py:102-111 | once an order has left `NEW` this flow never changes it again |
| Notifications.LegacyOrders.Accept | utils/notifications.py:85-171 | an unregistered driver, a missing order or a non-`NEW` one changes nothing; success sets `ACCEPTED` and the accepting driver's id |
| Notifications.LegacyOrders.Reject | utils/notifications.py:174-195 | the notice is closed exactly when the order is still `NEW`; the order is never written |
| Notifications.LegacyOrders.Expire | utils/notifications.py:62-72 | only `NEW` becomes `EXPIRED`; anything else is untouched |
| Scenarios.ReminderCompletesTrip | utils/userordercontrol.py:22-44 | a trip still `initiated` at the reminder gets its reminder, and its complete button completes it and re-renders the channel post |
| Scenarios.DeliveryReminderNeverSent | utils/userordercontrol.py:30-66 | a delivery has no departure time, so its reminder coroutine ends at the reminder checkpoint: no reminder, no expiry, and the order stays `initiated` |
| Scenarios.TwoDriversOneOrder | handlers/users/departure.py:538-545 | as written, after the first driver takes the order both the second and the first are told it is already theirs; the intended reply to the second is that another driver has it |
| Scenarios.TimerReopensOrder | handlers/users/departure.py:66-113 | when the first driver's timer runs out the order is `initiated` again and a second driver can take it |
| Text.TrimLeftCutsOnlySpace | utils/validators.py:12 | `lstrip()` keeps a suffix and cuts off only whitespace |
| Text.TrimRightCutsOnlySpace | utils/validators.py:12 | `rstrip()` keeps a prefix and cuts off only whitespace |
| Text.Strip | utils/validators.py:12 | `strip()` leaves no whitespace at either end and never lengthens |
| Text.StripCutsOnlySpace | utils/validators.py:12 | `strip()` keeps a contiguous slice of its input and cuts off only whitespace on both sides |
| Text.NatToString | utils/notifications.py:45 | `str(n)` is non-empty, all digits, without a leading zero |
| Text.ParseNatToString | handlers/users/orderhistory.py:132 | `int(str(n)) == n` |
| Text.Padded | utils/notifications.py:23 | a zero-padded field has exactly its width and only digits |
| Text.ParsePadded | utils/notifications.py:23 | a padded field reads back to its number when it fits |

## Left out

- Telegram I/O (sending, editing and deleting messages, membership lookups) is not modelled. The handlers return the decision instead: a `Render`, a reply value, an offer list.
- Message texts and Markdown are not modelled, apart from the labels and callback data the model reasons about.
- Real time and `asyncio` are replaced by explicit steps. The timer is `FireTimer`; the reminder's sleeps are the checkpoint methods. Task cancellation is a registry entry being replaced or removed.
- Concurrency is not modelled. Every handler runs as one atomic step, though the claim is read-then-write in the source. Two admins confirming the same new name between check and confirm is also not modelled.
- Database failures and transaction rollback are not modelled. This includes a failed message edit rolling back a legacy acceptance. The database schema (unique constraints, referential actions) is not part of this model.
- `Regions.Directory.ConfirmDeleteRegion`: removes only the region and its districts. The effect of the schema on orders that name them is not modelled.
- Startup wiring (`app.py`) is not modelled. So is the fact that only the trip module's initialiser is ever called.
- Region and district lookup at order creation is not modelled, nor is the `regions.json` fallback.
- The delivery form's weight step (a float range), its receiver-phone step and the summary are not modelled. Only the description and receiver-name guards and the two skip buttons are.
- Registration (`handlers/users/start.py`) is modelled only as far as its phone check. The profile editor and statistics handlers are not part of this model.
- `Validators`: characters are compared as code points. `\d` is taken as ASCII digits, whereas Python's `re` also accepts other Unicode decimal digits.
- `Callbacks.ParseOrderId` and `OrderHistory.PaginationAction` read only unsigned ASCII digit strings. Python's `int()` also accepts a sign, surrounding whitespace and underscores.
- `Notifications.FormatDateTime` assumes four-digit years. Dates and times are plain fields, not calendar-checked values.
- `OrderHistory.SortedNewestFirst`: does not prove that equal timestamps keep their order. `Insert` keeps them in that order, as Python's stable sort does.
- Telegram ids: registration stores `str(id)` (handlers/users/start.py:155), and the history and admin checks look users up by that string. The trip and delivery handlers and the legacy acceptance look users up by the integer id, create passengers with it and compare the owner's stored id with it (handlers/users/departure.py:330-334, 450, 476; handlers/users/delivery.py:464-468, 606, 632). The admin notifier converts the stored id back with `int()` (handlers/admins/add_regions.py:37).
- `Lifecycle.Handlers.Claim` and `Lifecycle.Handlers.CreateOrder`: the user lookups and the owner check are modelled as if the column held the integer id. Whether a string column matches an integer query is left to the database and is not captured.
- `Lifecycle.Handlers.Claim`: the same missing user in the `processing` branch is in handlers/users/delivery.py:709-716. The one `Handlers` class models both modules, so the finding below covers both.
- `Lifecycle.Store`: users are keyed by Telegram id and their database ids are assumed distinct.

## Findings

| source | as written | input that shows it | evidently intended | confidence | as-written member | corrected member |
|---|---|---|---|---|---|---|
| handlers/users/start.py:132 | `if not validate_phone(phone)` tests the returned pair, which is always truthy, so no phone is rejected | the text `abc`, stored as `+998` | reject when the validity flag is false | high, not executed | Validators.RegistrationNeverRejects | Validators.RegistrationStoresValidNumbers |
| handlers/users/departure.py:538-545 | the order is loaded with `status` but not `status.user`, so `processing_user` is always empty and every click on a `processing` order is told it is already the caller's | driver A claims an order, then driver B clicks its contact button | tell B that another driver is handling the order | medium, not executed | Scenarios.TwoDriversOneOrder | Lifecycle.IntendedReplyTellsDriversApart |
| utils/validators.py:19-25 | the `startswith("9") and len == 9` branch sits under `not startswith("998")`, so a local number beginning with 998 only gets a `+` | `998123456`, normalised to `+998123456` and rejected as too short | every nine-digit local number starting with 9 gets the `998` prefix | medium, not executed | Validators.LocalNumberWithLeading998Rejected | Validators.LocalNumberAccepted |
