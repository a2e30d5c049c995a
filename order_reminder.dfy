/** The background reminder task started for every new order
    (utils/userordercontrol.py). It sleeps, reminds the passenger while the
    order is still `initiated`, sleeps again, and then cancels the order if it
    is still `initiated`. The two sleeps are replaced by explicit checkpoint
    steps; the clock itself is described by `Checkpoints`. */
module OrderReminder {
  import opened Text
  import opened Callbacks
  import opened Lifecycle

  /** The defaults of `ORDER_EXPIRY_TIME` and `ORDER_REMINDER_TIME`, in
      seconds; both can be overridden from the environment. */
  const DefaultExpiryTime: int := 1200
  const DefaultReminderTime: int := 900

  /** How long `asyncio.sleep(d)` actually waits: a delay that is not
      positive returns at once. */
  function Slept(d: int): (s: nat)
    ensures d >= 0 ==> s == d
    ensures d < 0 ==> s == 0
  {
    if d < 0 then 0 else d
  }

  /** The moments, in seconds after the order was created, of the reminder
      check and of the expiry check, for configured times `reminder` and
      `expiry`. */
  function Checkpoints(reminder: int, expiry: int): (r: (nat, nat))
    ensures r.0 == Slept(reminder)
    ensures r.1 == r.0 + Slept(expiry - reminder)
  {
    var first := Slept(reminder);
    (first, first + Slept(expiry - reminder))
  }

  /** With the defaults the passenger is reminded after 15 minutes and the
      order is cancelled after 20. When the reminder is configured at or
      before the expiry, the expiry happens exactly at the configured time;
      when it is configured later, the expiry follows the reminder at once. */
  lemma CheckpointTimes(reminder: int, expiry: int)
    ensures Checkpoints(DefaultReminderTime, DefaultExpiryTime) == (900, 1200)
    ensures 0 <= reminder <= expiry ==> Checkpoints(reminder, expiry).1 == expiry
    ensures expiry < reminder ==> Checkpoints(reminder, expiry).1 == Checkpoints(reminder, expiry).0
    ensures Checkpoints(reminder, expiry).0 <= Checkpoints(reminder, expiry).1
  {
  }

  /** The two buttons of the reminder message. They carry the trip actions
      whatever the order's kind. */
  function ReminderButtons(orderId: nat): (r: seq<string>)
    ensures |r| == 2
  {
    [Token("complete_order", orderId), Token("cancel_order", orderId)]
  }

  /** The reminder's buttons reach the trip module's complete and cancel
      handlers for the same order. */
  lemma ReminderButtonsReachTripHandlers(orderId: nat)
    ensures Dispatch(ReminderButtons(orderId)[0]) == CompleteTrip
    ensures Dispatch(ReminderButtons(orderId)[1]) == CancelTrip
    ensures ParseOrderId(ReminderButtons(orderId)[0]) == Some(orderId)
    ensures ParseOrderId(ReminderButtons(orderId)[1]) == Some(orderId)
  {
    TripTokens(orderId);
    TokenRoundTrip("complete_order", orderId);
    TokenRoundTrip("cancel_order", orderId);
  }

  /** The start check: the order exists and either has no status row or an
      `initiated` one. */
  predicate StartAllowed(orders: map<int, Order>, records: map<int, StatusRecord>, orderId: int) {
    orderId in orders && (orderId !in records || records[orderId].state == Initiated)
  }

  /** The later checks: the order exists and has an `initiated` status row
      (a missing row no longer passes). */
  predicate StillInitiated(orders: map<int, Order>, records: map<int, StatusRecord>, orderId: int) {
    orderId in orders && orderId in records && records[orderId].state == Initiated
  }

  lemma StillInitiatedIsStricter(orders: map<int, Order>, records: map<int, StatusRecord>, orderId: int)
    ensures StillInitiated(orders, records, orderId) ==> StartAllowed(orders, records, orderId)
    ensures StartAllowed(orders, records, orderId) && !StillInitiated(orders, records, orderId) <==>
      orderId in orders && orderId !in records
  {
  }

  datatype Phase = AwaitingReminder | AwaitingExpiry | Finished

  /** What the reminder coroutine sends to the passenger. */
  datatype Notice =
    | NoNotice
    | Reminder(orderId: nat, departure: int, buttons: seq<string>)
    | ExpiredNotice(orderId: nat)

  class ReminderTask {
    const orderId: nat
    const passenger: int
    var phase: Phase

    /** `send_order_reminder` up to its first sleep: the coroutine ends at once
        unless the start check passes. */
    constructor (store: Store, orderId: nat, passenger: int)
      ensures this.orderId == orderId && this.passenger == passenger
      ensures phase == if StartAllowed(store.orders, store.records, orderId) then AwaitingReminder else Finished
    {
      this.orderId := orderId;
      this.passenger := passenger;
      phase := if StartAllowed(store.orders, store.records, orderId) then AwaitingReminder else Finished;
    }

    /** The first sleep ends. If the order is still `initiated` the reminder
        is sent; its text formats the departure time, so an order without one
        makes the coroutine fail and end here. */
    method ReminderCheckpoint(store: Store) returns (notice: Notice)
      modifies this`phase
      ensures old(phase) != AwaitingReminder ==> phase == old(phase) && notice == NoNotice
      ensures old(phase) == AwaitingReminder && !StillInitiated(store.orders, store.records, orderId) ==>
        phase == AwaitingExpiry && notice == NoNotice
      ensures old(phase) == AwaitingReminder && StillInitiated(store.orders, store.records, orderId)
              && store.orders[orderId].departure.None? ==>
        phase == Finished && notice == NoNotice
      ensures old(phase) == AwaitingReminder && StillInitiated(store.orders, store.records, orderId)
              && store.orders[orderId].departure.Some? ==>
        phase == AwaitingExpiry
        && notice == Reminder(orderId, store.orders[orderId].departure.value, ReminderButtons(orderId))
    {
      notice := NoNotice;
      if phase != AwaitingReminder {
        return;
      }
      if StillInitiated(store.orders, store.records, orderId) {
        var departure := store.orders[orderId].departure;
        if departure.None? {
          phase := Finished;
          return;
        }
        notice := Reminder(orderId, departure.value, ReminderButtons(orderId));
      }
      phase := AwaitingExpiry;
    }

    /** The second sleep ends. An order still `initiated` is cancelled, and
        the passenger told so when the departure time can be formatted. The
        module registries (processing timer, channel message) are not touched,
        so the channel post is not re-rendered. */
    method ExpiryCheckpoint(store: Store) returns (notice: Notice)
      requires store.Valid()
      modifies this`phase, store`records
      ensures store.Valid()
      ensures Evolves(old(store.records), store.records)
      ensures old(phase) != AwaitingExpiry ==>
        phase == old(phase) && store.records == old(store.records) && notice == NoNotice
      ensures old(phase) == AwaitingExpiry ==> phase == Finished
      ensures old(phase) == AwaitingExpiry && StillInitiated(store.orders, old(store.records), orderId) ==>
        store.records == old(store.records)[orderId := old(store.records)[orderId].(state := Canceled)]
        && (notice == ExpiredNotice(orderId) <==> store.orders[orderId].departure.Some?)
        && (notice != ExpiredNotice(orderId) ==> notice == NoNotice)
      ensures old(phase) == AwaitingExpiry && !StillInitiated(store.orders, old(store.records), orderId) ==>
        store.records == old(store.records) && notice == NoNotice
    {
      notice := NoNotice;
      if phase != AwaitingExpiry {
        return;
      }
      phase := Finished;
      if StillInitiated(store.orders, store.records, orderId) {
        store.records := store.records[orderId := store.records[orderId].(state := Canceled)];
        // the notice formats the departure time after the write
        if store.orders[orderId].departure.Some? {
          notice := ExpiredNotice(orderId);
        }
      }
    }
  }
}
