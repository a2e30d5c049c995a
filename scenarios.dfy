/** Runs across the handler modules that show how their shared state
    interacts: the trip and delivery handlers share the database but not
    their registries, and the reminder task emits trip buttons for every
    order. */
module Scenarios {
  import opened Text
  import opened Callbacks
  import opened Lifecycle
  import opened OrderReminder

  /** A trip whose reminder button is pressed: the button reaches the trip
      module's complete handler, which completes the order and edits the
      channel post to show it completed, without the contact button. */
  method ReminderCompletesTrip(owner: int, departure: int, msg: MsgId)
    returns (done: bool, render: Render)
    ensures done && render == Edit(msg, Completed, false)
  {
    var store := new Store();
    var reg := new Registry();
    var trips := new Handlers(TripModule, store, reg);

    var id := trips.CreateOrder(owner, Some(departure), msg);
    var task := new ReminderTask(store, id, owner);
    var notice := task.ReminderCheckpoint(store);
    assert notice == Reminder(id, departure, ReminderButtons(id));
    ReminderButtonsReachTripHandlers(id);
    assert Dispatch(notice.buttons[0]) == CompleteTrip;

    done, render := trips.Complete(id);
  }

  /** A delivery has no departure time, so its reminder coroutine fails when
      it formats the reminder: no reminder is sent, and the expiry step never
      comes, so the delivery stays `initiated`. */
  method DeliveryReminderNeverSent(owner: int, msg: MsgId)
    returns (reminder: Notice, expiry: Notice, stillOpen: bool)
    ensures reminder == NoNotice && expiry == NoNotice && stillOpen
  {
    var store := new Store();
    var reg := new Registry();
    var deliveries := new Handlers(DeliveryModule, store, reg);

    var id := deliveries.CreateOrder(owner, None, msg);
    var task := new ReminderTask(store, id, owner);
    assert task.phase == AwaitingReminder;
    reminder := task.ReminderCheckpoint(store);
    assert task.phase == Finished;
    expiry := task.ExpiryCheckpoint(store);
    stillOpen := store.records[id].state == Initiated;
  }

  /** Two drivers click the same post. The first takes the order. As the
      handlers are written, the second is then told the order is already
      theirs, just as the first is on a second click; with the status row's
      user loaded the second would be told another driver has it. */
  method TwoDriversOneOrder(first: int, second: int, owner: int, msg: MsgId)
    returns (r1: ClaimReply, r2: ClaimReply, r3: ClaimReply, intended: ClaimReply)
    requires first != second && first != owner && second != owner
    ensures r1 == Claimed && r2 == AlreadyYours && r3 == AlreadyYours
    ensures intended == HeldByOther
  {
    var store := new Store();
    var reg := new Registry();
    var trips := new Handlers(TripModule, store, reg);
    store.users := map[first := User(1, Driver), second := User(2, Driver)];
    store.nextUserId := 3;

    var id := trips.CreateOrder(owner, Some(0), msg);
    var render;
    assert store.users == map[first := User(1, Driver), second := User(2, Driver), owner := User(3, Passenger)];
    r1, render := trips.Claim(first, Some(Member), 0, id, None);
    assert store.records[id] == StatusRecord(Processing, 1);
    r2, render := trips.Claim(second, Some(Member), 0, id, None);
    assert store.records[id] == StatusRecord(Processing, 1);
    IntendedReplyTellsDriversApart(store.users, store.records[id], first, second);
    intended := IntendedProcessingReply(store.users, store.records[id], second);
    r3, render := trips.Claim(first, Some(Member), 0, id, None);
  }

  /** A driver takes the order and lets the processing timer run out: the
      order is offered again and another driver can take it. */
  method TimerReopensOrder(first: int, second: int, owner: int, msg: MsgId)
    returns (r1: ClaimReply, reverted: bool, r2: ClaimReply)
    requires first != second && first != owner && second != owner
    ensures r1 == Claimed && reverted && r2 == Claimed
  {
    var store := new Store();
    var reg := new Registry();
    var trips := new Handlers(TripModule, store, reg);
    store.users := map[first := User(1, Driver), second := User(2, Driver)];
    store.nextUserId := 3;

    var id := trips.CreateOrder(owner, Some(0), msg);
    var render;
    r1, render := trips.Claim(first, Some(Member), 0, id, None);
    assert store.records[id].state == Processing;
    reverted, render := trips.FireTimer(id);
    assert store.records[id].state == Initiated;
    r2, render := trips.Claim(second, Some(Member), 0, id, None);
  }
}
