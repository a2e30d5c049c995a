/** The order-status lifecycle of trips (handlers/users/departure.py) and
    parcel deliveries (handlers/users/delivery.py).

    The database is one `Store` shared by both handler modules: the orders,
    their status records (`initiated | processing | completed | canceled |
    failed` plus the `userId` of whoever last claimed the order) and the
    users. Each handler module also keeps two process-local dictionaries,
    modelled as one `Registry` per module: the processing-timer registry and
    the channel-message registry. The two source files are near copies, so
    one class `Handlers`, parameterised by the module, models both; a trip
    instance and a delivery instance share the store and own a registry each.

    Every handler runs as one atomic method. Real time is replaced by explicit
    steps: `FireTimer` is the 300-second processing timer going off. The
    Telegram side effects are reduced to the channel re-render decision
    (`Render`). */
module Lifecycle {
  import opened Text

  datatype Status = Initiated | Processing | Completed | Canceled | Failed

  datatype Kind = Trip | Delivery

  datatype Role = Passenger | Driver | Admin | SuperAdmin

  /** A user row, found by Telegram id: its database id and its role. */
  datatype User = User(id: int, role: Role)

  /** An order row: its kind, the Telegram id of the passenger who placed it
      and its departure time (the trip flow sets one, the delivery flow none). */
  datatype Order = Order(kind: Kind, ownerTelegram: int, departure: Option<int>)

  /** The status row of an order: its state and the user id it records. */
  datatype StatusRecord = StatusRecord(state: Status, userId: int)

  /** Telegram message ids are positive, so "present" and "truthy" agree. */
  type MsgId = m: int | m > 0 witness 1

  /** A processing-timer registry entry: the channel message id the timer
      was started with, and whether its coroutine has already returned. */
  datatype Timer = Timer(msg: Option<MsgId>, done: bool)

  datatype Module = TripModule | DeliveryModule

  /** `ChatMember.status` of the clicking user in the channel. */
  datatype Membership = Creator | Administrator | Member | Restricted | Left | Kicked

  /** What `update_channel_order_status` does to the channel post. */
  datatype Render =
    | NoRender
    | Edit(msg: MsgId, shown: Status, button: bool)
    | Delete(msg: MsgId)

  datatype ClaimReply =
    | CheckFailed            // the membership lookup raised
    | NotSubscribed          // left, kicked or restricted, and not the owner
    | NotRegistered
    | OrderNotFound
    | NotOwnOrder            // a passenger clicked someone else's order
    | Claimed
    | HeldByOther            // "another driver is handling it"
    | AlreadyYours           // "you already took it"
    | AlreadyResolved(state: Status)

  predicate Terminal(s: Status) {
    s == Completed || s == Canceled || s == Failed
  }

  /** The status an order is read as: a missing status record reads as
      `initiated` (departure.py:483, delivery.py:639). */
  function CurrentState(records: map<int, StatusRecord>, id: int): (s: Status)
    ensures id !in records ==> s == Initiated
    ensures id in records ==> s == records[id].state
  {
    if id in records then records[id].state else Initiated
  }

  /** The re-render decision of `update_channel_order_status` /
      `update_channel_delivery_status` for a post showing `state`. */
  function RenderDecision(state: Status, msg: Option<MsgId>): (r: Render)
    ensures r.NoRender? <==> msg.None?
    ensures r.Delete? <==> msg.Some? && state == Canceled
    ensures r.Delete? ==> r.msg == msg.value
    ensures r.Edit? ==> r.msg == msg.value && r.shown == state
    ensures r.Edit? ==> (r.button <==> state == Initiated)
  {
    if msg.None? then NoRender
    else if state == Canceled then Delete(msg.value)
    else Edit(msg.value, state, state == Initiated)
  }

  /** The channel-membership gate in front of a claim: `None` lets the click
      through. The bot owner passes even when not subscribed. */
  function ChannelGate(membership: Option<Membership>, caller: int, ownerId: int): (r: Option<ClaimReply>)
    ensures membership.None? ==> r == Some(CheckFailed)
    ensures membership.Some? ==>
      (r.Some? <==> membership.value in {Left, Kicked, Restricted} && caller != ownerId)
    ensures r.Some? ==> r.value in {CheckFailed, NotSubscribed}
  {
    if membership.None? then Some(CheckFailed)
    else if membership.value in {Left, Kicked, Restricted} && caller != ownerId then Some(NotSubscribed)
    else None
  }

  /** The Telegram ids of the users whose database id a status row records. */
  function Holders(users: map<int, User>, rec: StatusRecord): (h: set<int>)
    ensures forall t :: t in h <==> t in users && users[t].id == rec.userId
  {
    set t | t in users && users[t].id == rec.userId
  }

  /** The reply to a click on a `processing` order as the handlers intend it,
      with the status row's user loaded: another driver is told the order is
      being handled, the driver holding it that it is already theirs. */
  function IntendedProcessingReply(users: map<int, User>, rec: StatusRecord, caller: int): (r: ClaimReply)
    ensures r in {HeldByOther, AlreadyYours}
  {
    if Holders(users, rec) - {caller} != {} then HeldByOther else AlreadyYours
  }

  /** With the holder's user row loaded, the holder and every other driver
      are told apart. */
  lemma IntendedReplyTellsDriversApart(users: map<int, User>, rec: StatusRecord, holder: int, caller: int)
    requires holder in users && users[holder].id == rec.userId
    requires forall t :: t in users && users[t].id == rec.userId ==> t == holder
    ensures IntendedProcessingReply(users, rec, caller) == (if caller == holder then AlreadyYours else HeldByOther)
  {
    if caller == holder {
      assert forall t :: t in Holders(users, rec) ==> t == holder;
      assert Holders(users, rec) - {caller} == {};
    } else {
      assert holder in Holders(users, rec) - {caller};
    }
  }

  /** The orders a module's orphan sweep and monitor look at: the trip module
      queries every status row, the delivery module only DELIVERY orders. */
  predicate InScope(mod: Module, orders: map<int, Order>, id: int) {
    mod == TripModule || (id in orders && orders[id].kind == Delivery)
  }

  // ---------------------------------------------------------------------
  // The transition graph

  /** The status changes the handlers make. `failed` is never written. */
  predicate Edge(a: Status, b: Status) {
    (a == Initiated && b in {Processing, Completed, Canceled})
    || (a == Processing && b in {Initiated, Completed, Canceled})
  }

  /** One handler step: no status row appears or disappears, and every state
      either stays or moves along an edge. */
  ghost predicate Evolves(r0: map<int, StatusRecord>, r1: map<int, StatusRecord>) {
    r0.Keys == r1.Keys
    && forall k :: k in r0 ==> r1[k].state == r0[k].state || Edge(r0[k].state, r1[k].state)
  }

  /** Reachability in the graph. */
  predicate Reach(a: Status, b: Status) {
    a == b || (a in {Initiated, Processing} && b in {Initiated, Processing, Completed, Canceled})
  }

  /** Over any run of handler steps, each order's state is reachable from its
      earlier state: a resolved order never changes again and no order ever
      becomes `failed`. */
  lemma {:induction false} EvolvesChain(rs: seq<map<int, StatusRecord>>)
    requires |rs| >= 1
    requires forall i :: 0 <= i < |rs| - 1 ==> Evolves(rs[i], rs[i + 1])
    ensures rs[|rs| - 1].Keys == rs[0].Keys
    ensures forall k :: k in rs[0] ==> Reach(rs[0][k].state, rs[|rs| - 1][k].state)
  {
    if |rs| > 1 {
      var init := rs[..|rs| - 1];
      EvolvesChain(init);
      assert init[|init| - 1] == rs[|rs| - 2];
      assert Evolves(rs[|rs| - 2], rs[|rs| - 1]);
    }
  }

  // ---------------------------------------------------------------------
  // Specification functions for the sweeps

  /** `cleanup_orphaned_processing_*`: every in-scope `processing` row is set
      back to `initiated`; its recorded user id is kept. */
  function OrphanSweep(records: map<int, StatusRecord>, orders: map<int, Order>, mod: Module)
    : (r: map<int, StatusRecord>)
    ensures r.Keys == records.Keys
    ensures forall k :: k in records && records[k].state == Processing && InScope(mod, orders, k) ==>
      r[k] == StatusRecord(Initiated, records[k].userId)
    ensures forall k :: k in records && !(records[k].state == Processing && InScope(mod, orders, k)) ==>
      r[k] == records[k]
  {
    map k | k in records ::
      if records[k].state == Processing && InScope(mod, orders, k)
      then records[k].(state := Initiated) else records[k]
  }

  /** After a sweep no in-scope order is left `processing`, and a second
      sweep changes nothing. */
  lemma SweepLeavesNoOrphan(records: map<int, StatusRecord>, orders: map<int, Order>, mod: Module)
    ensures forall k :: k in OrphanSweep(records, orders, mod) && InScope(mod, orders, k) ==>
      OrphanSweep(records, orders, mod)[k].state != Processing
    ensures OrphanSweep(OrphanSweep(records, orders, mod), orders, mod) == OrphanSweep(records, orders, mod)
    ensures Evolves(records, OrphanSweep(records, orders, mod))
  {
  }

  /** The rows `monitor_processing_*` re-arms a timer for: in-scope,
      `processing`, without a registry entry, with a known channel message. */
  function Unwatched(records: map<int, StatusRecord>, orders: map<int, Order>, mod: Module,
                     timers: map<int, Timer>, channelMsg: map<int, MsgId>): (s: set<int>)
    ensures forall k :: k in s <==>
      k in records && records[k].state == Processing && InScope(mod, orders, k)
      && k !in timers && k in channelMsg
  {
    set k | k in records && records[k].state == Processing && InScope(mod, orders, k)
            && k !in timers && k in channelMsg
  }

  /** The registry after the monitor: one fresh timer per unwatched order,
      started with that order's channel message id; other entries unchanged. */
  function Rearmed(timers: map<int, Timer>, unwatched: set<int>, channelMsg: map<int, MsgId>)
    : (r: map<int, Timer>)
    requires unwatched <= channelMsg.Keys
    ensures r.Keys == timers.Keys + unwatched
    ensures forall k :: k in unwatched ==> r[k] == Timer(Some(channelMsg[k]), false)
    ensures forall k :: k in timers && k !in unwatched ==> r[k] == timers[k]
  {
    map k | k in timers.Keys + unwatched :: if k in unwatched then Timer(Some(channelMsg[k]), false) else timers[k]
  }

  /** `cleanup_expired_timers`: drop the entries whose task has finished. */
  function LiveTimers(timers: map<int, Timer>): (r: map<int, Timer>)
    ensures forall k :: k in r <==> k in timers && !timers[k].done
    ensures forall k :: k in r ==> r[k] == timers[k]
  {
    map k | k in timers && !timers[k].done :: timers[k]
  }

  // ---------------------------------------------------------------------
  // State

  /** The database rows the handlers read and write. */
  class Store {
    var orders: map<int, Order>
    var records: map<int, StatusRecord>
    var users: map<int, User>    // keyed by Telegram id
    var nextOrderId: int
    var nextUserId: int

    ghost predicate Valid()
      reads this
    {
      records.Keys <= orders.Keys
      && nextOrderId > 0
      && (forall k :: k in orders ==> k < nextOrderId)
      && (forall t :: t in users ==> users[t].id < nextUserId)
    }

    constructor ()
      ensures Valid()
      ensures orders == map[] && records == map[] && users == map[]
    {
      orders, records, users := map[], map[], map[];
      nextOrderId, nextUserId := 1, 1;
    }
  }

  /** One module's process-local dictionaries: `processing_timers` and
      `order_channel_messages` (or their `delivery_` twins). */
  class Registry {
    var timers: map<int, Timer>
    var channelMsg: map<int, MsgId>

    constructor ()
      ensures timers == map[] && channelMsg == map[]
    {
      timers, channelMsg := map[], map[];
    }
  }

  class Handlers {
    const mod: Module
    const store: Store
    const reg: Registry

    constructor (mod: Module, store: Store, reg: Registry)
      ensures this.mod == mod && this.store == store && this.reg == reg
    {
      this.mod := mod;
      this.store := store;
      this.reg := reg;
    }

    /** The kind of order this module's flow creates. */
    function OwnKind(): Kind
      reads this
    {
      if mod == TripModule then Trip else Delivery
    }

    /** The checks a claim passes before the status is read: channel
        membership, registration, the order existing, and a passenger only
        claiming their own order. */
    predicate Admitted(caller: int, membership: Option<Membership>, ownerId: int, orderId: int)
      reads store
    {
      ChannelGate(membership, caller, ownerId).None?
      && caller in store.users
      && orderId in store.orders
      && !(store.users[caller].role == Passenger && store.orders[orderId].ownerTelegram != caller)
    }

    /** `confirm_order` / `confirm_delivery`: create the order and its
        `initiated` status row, creating the passenger's user row first if
        needed, and remember the channel post. */
    method CreateOrder(ownerTelegram: int, departure: Option<int>, msg: MsgId) returns (id: int)
      requires store.Valid()
      // the trip flow always stores a departure time, the delivery flow never
      requires departure.Some? <==> mod == TripModule
      modifies store, reg`channelMsg
      ensures store.Valid()
      ensures id !in old(store.orders) && id > 0
      ensures store.orders == old(store.orders)[id := Order(OwnKind(), ownerTelegram, departure)]
      ensures ownerTelegram in old(store.users) ==> store.users == old(store.users)
      ensures ownerTelegram !in old(store.users) ==>
        store.users == old(store.users)[ownerTelegram := User(old(store.nextUserId), Passenger)]
      ensures ownerTelegram in store.users
      ensures store.records == old(store.records)[id := StatusRecord(Initiated, store.users[ownerTelegram].id)]
      ensures reg.channelMsg == old(reg.channelMsg)[id := msg]
    {
      if ownerTelegram !in store.users {
        store.users := store.users[ownerTelegram := User(store.nextUserId, Passenger)];
        store.nextUserId := store.nextUserId + 1;
      }
      id := store.nextOrderId;
      store.nextOrderId := store.nextOrderId + 1;
      store.orders := store.orders[id := Order(OwnKind(), ownerTelegram, departure)];
      store.records := store.records[id := StatusRecord(Initiated, store.users[ownerTelegram].id)];
      reg.channelMsg := reg.channelMsg[id := msg];
    }

    /** `send_passenger_info` / `send_sender_info`: a click on the channel
        post's contact button. Read-then-write, run here as one step. */
    method Claim(caller: int, membership: Option<Membership>, ownerId: int, orderId: int,
                 callbackMsg: Option<MsgId>)
      returns (reply: ClaimReply, render: Render)
      requires store.Valid()
      modifies store`records, reg`timers
      ensures store.Valid()
      ensures Evolves(old(store.records), store.records)
      // refusals before the status is read
      ensures ChannelGate(membership, caller, ownerId).Some? ==>
        reply == ChannelGate(membership, caller, ownerId).value
      ensures ChannelGate(membership, caller, ownerId).None? && caller !in store.users ==>
        reply == NotRegistered
      ensures (ChannelGate(membership, caller, ownerId).None? && caller in store.users
               && orderId !in store.orders) ==> reply == OrderNotFound
      ensures (ChannelGate(membership, caller, ownerId).None? && caller in store.users
               && orderId in store.orders && store.users[caller].role == Passenger
               && store.orders[orderId].ownerTelegram != caller) ==> reply == NotOwnOrder
      // a successful claim
      ensures reply == Claimed <==>
        Admitted(caller, membership, ownerId, orderId) && CurrentState(old(store.records), orderId) == Initiated
      ensures reply == Claimed ==>
        && (orderId in old(store.records) ==>
              store.records == old(store.records)[orderId := StatusRecord(Processing, store.users[caller].id)])
        && (orderId !in old(store.records) ==> store.records == old(store.records))
        && reg.timers == old(reg.timers)[orderId := Timer(MsgOf(orderId), false)]
        && render == RenderDecision(CurrentState(store.records, orderId), MsgOf(orderId))
      ensures reply != Claimed ==> store.records == old(store.records) && reg.timers == old(reg.timers)
      // an order already being handled: every caller, the holder or not, is
      // told it is already theirs, since the status row's user is not loaded
      ensures reply == AlreadyYours <==>
        Admitted(caller, membership, ownerId, orderId) && CurrentState(old(store.records), orderId) == Processing
      ensures reply != HeldByOther
      // an order already resolved: re-render the clicked post
      ensures Admitted(caller, membership, ownerId, orderId) && Terminal(CurrentState(old(store.records), orderId)) ==>
        reply == AlreadyResolved(CurrentState(old(store.records), orderId))
        && render == RenderDecision(CurrentState(old(store.records), orderId), callbackMsg)
      ensures !reply.Claimed? && !reply.AlreadyResolved? ==> render == NoRender
    {
      render := NoRender;
      var gate := ChannelGate(membership, caller, ownerId);
      if gate.Some? {
        reply := gate.value;
        return;
      }
      if caller !in store.users {
        reply := NotRegistered;
        return;
      }
      var user := store.users[caller];
      if orderId !in store.orders {
        reply := OrderNotFound;
        return;
      }
      if user.role == Passenger && store.orders[orderId].ownerTelegram != caller {
        reply := NotOwnOrder;
        return;
      }
      var current := CurrentState(store.records, orderId);
      if current == Initiated {
        if orderId in store.records {
          // prisma's update finds no row when the status record is missing
          store.records := store.records[orderId := StatusRecord(Processing, user.id)];
        }
        var msg := MsgOf(orderId);
        render := RenderDecision(CurrentState(store.records, orderId), msg);
        // an earlier timer is cancelled and replaced
        reg.timers := reg.timers[orderId := Timer(msg, false)];
        reply := Claimed;
      } else if current == Processing {
        // `order.status.user` is empty: the order is loaded with its status
        // but not the status's user
        reply := AlreadyYours;
      } else {
        render := RenderDecision(current, callbackMsg);
        reply := AlreadyResolved(current);
      }
    }

    /** The channel message id the module remembers for an order. */
    function MsgOf(orderId: int): (m: Option<MsgId>)
      reads reg
      ensures m.Some? <==> orderId in reg.channelMsg
      ensures m.Some? ==> m.value == reg.channelMsg[orderId]
    {
      if orderId in reg.channelMsg then Some(reg.channelMsg[orderId]) else None
    }

    /** Complete and cancel accept an existing order whose status is
        `initiated` or `processing`, or that has no status row at all. */
    predicate Resolvable(orderId: int)
      reads store
    {
      orderId in store.orders && CurrentState(store.records, orderId) in {Initiated, Processing}
    }

    /** `complete_order` / `complete_delivery`. */
    method Complete(orderId: int) returns (done: bool, render: Render)
      requires store.Valid()
      modifies store`records, reg`timers
      ensures store.Valid()
      ensures Evolves(old(store.records), store.records)
      ensures done <==> old(Resolvable(orderId))
      ensures !done ==> store.records == old(store.records) && reg.timers == old(reg.timers) && render == NoRender
      ensures done ==> reg.timers == old(reg.timers) - {orderId}
      ensures done && orderId in old(store.records) ==>
        store.records == old(store.records)[orderId := old(store.records)[orderId].(state := Completed)]
      ensures done && orderId !in old(store.records) ==> store.records == old(store.records)
      ensures done ==> render == RenderDecision(CurrentState(store.records, orderId), MsgOf(orderId))
    {
      render := NoRender;
      done := Resolvable(orderId);
      if !done {
        return;
      }
      reg.timers := reg.timers - {orderId};
      if orderId in store.records {
        store.records := store.records[orderId := store.records[orderId].(state := Completed)];
      }
      render := RenderDecision(CurrentState(store.records, orderId), MsgOf(orderId));
    }

    /** `cancel_order_status` / `cancel_delivery_status`: like complete, and
        the channel-message entry is forgotten as well. */
    method Cancel(orderId: int) returns (done: bool, render: Render)
      requires store.Valid()
      modifies store`records, reg`timers, reg`channelMsg
      ensures store.Valid()
      ensures Evolves(old(store.records), store.records)
      ensures done <==> old(Resolvable(orderId))
      ensures !done ==> store.records == old(store.records) && reg.timers == old(reg.timers)
                        && reg.channelMsg == old(reg.channelMsg) && render == NoRender
      ensures done ==> reg.timers == old(reg.timers) - {orderId}
      ensures done ==> reg.channelMsg == old(reg.channelMsg) - {orderId}
      ensures done && orderId in old(store.records) ==>
        store.records == old(store.records)[orderId := old(store.records)[orderId].(state := Canceled)]
      ensures done && orderId !in old(store.records) ==> store.records == old(store.records)
      ensures done ==> render == RenderDecision(CurrentState(store.records, orderId), old(MsgOf(orderId)))
    {
      render := NoRender;
      done := Resolvable(orderId);
      if !done {
        return;
      }
      reg.timers := reg.timers - {orderId};
      if orderId in store.records {
        store.records := store.records[orderId := store.records[orderId].(state := Canceled)];
      }
      var msg := MsgOf(orderId);
      render := RenderDecision(CurrentState(store.records, orderId), msg);
      reg.channelMsg := reg.channelMsg - {orderId};
    }

    /** `processing_timer` / `delivery_processing_timer` going off: the live
        task registered for the order wakes up after 300 seconds. */
    method FireTimer(orderId: int) returns (reverted: bool, render: Render)
      requires store.Valid()
      modifies store`records, reg`timers
      ensures store.Valid()
      ensures Evolves(old(store.records), store.records)
      ensures reverted <==> orderId in old(reg.timers) && !old(reg.timers)[orderId].done
                            && orderId in store.orders && CurrentState(old(store.records), orderId) == Processing
      ensures reverted ==>
        store.records == old(store.records)[orderId := old(store.records)[orderId].(state := Initiated)]
        && render == RenderDecision(Initiated, old(reg.timers)[orderId].msg)
      ensures !reverted ==> store.records == old(store.records) && render == NoRender
      // no live task: nothing happens
      ensures orderId !in old(reg.timers) || old(reg.timers)[orderId].done ==> reg.timers == old(reg.timers)
      // the timer found no order or no status row: it returns early and its entry stays
      ensures orderId in old(reg.timers) && !old(reg.timers)[orderId].done
              && (orderId !in store.orders || orderId !in store.records) ==>
        reg.timers == old(reg.timers)[orderId := old(reg.timers)[orderId].(done := true)]
      // otherwise the timer removes its own entry
      ensures orderId in old(reg.timers) && !old(reg.timers)[orderId].done
              && orderId in store.orders && orderId in store.records ==>
        reg.timers == old(reg.timers) - {orderId}
    {
      reverted, render := false, NoRender;
      if orderId !in reg.timers || reg.timers[orderId].done {
        return;
      }
      var msg := reg.timers[orderId].msg;
      if orderId !in store.orders || orderId !in store.records {
        reg.timers := reg.timers[orderId := reg.timers[orderId].(done := true)];
        return;
      }
      if store.records[orderId].state == Processing {
        store.records := store.records[orderId := store.records[orderId].(state := Initiated)];
        render := RenderDecision(Initiated, msg);
        reverted := true;
      }
      reg.timers := reg.timers - {orderId};
    }

    /** `cleanup_orphaned_processing_orders` / `_deliveries`. */
    method SweepOrphans()
      requires store.Valid()
      modifies store`records
      ensures store.Valid()
      ensures store.records == OrphanSweep(old(store.records), store.orders, mod)
      ensures Evolves(old(store.records), store.records)
    {
      ghost var r0 := store.records;
      var pending := set k | k in store.records && store.records[k].state == Processing
                             && InScope(mod, store.orders, k);
      while pending != {}
        invariant pending <= r0.Keys
        invariant store.records.Keys == r0.Keys
        invariant forall k :: k in r0 ==>
          store.records[k] == if k in pending then r0[k] else OrphanSweep(r0, store.orders, mod)[k]
        decreases pending
      {
        var k :| k in pending;
        store.records := store.records[k := store.records[k].(state := Initiated)];
        pending := pending - {k};
      }
    }

    /** `monitor_processing_orders` / `_deliveries`. */
    method Monitor()
      modifies reg`timers
      ensures reg.timers == Rearmed(old(reg.timers),
        Unwatched(store.records, store.orders, mod, old(reg.timers), reg.channelMsg), reg.channelMsg)
    {
      var todo := Unwatched(store.records, store.orders, mod, reg.timers, reg.channelMsg);
      ghost var t0 := reg.timers;
      ghost var all := todo;
      while todo != {}
        invariant todo <= all
        invariant reg.timers == Rearmed(t0, all - todo, reg.channelMsg)
        decreases todo
      {
        var k :| k in todo;
        reg.timers := reg.timers[k := Timer(Some(reg.channelMsg[k]), false)];
        todo := todo - {k};
      }
    }

    /** `cleanup_expired_timers` / `cleanup_expired_delivery_timers`. */
    method CleanupExpiredTimers()
      modifies reg`timers
      ensures reg.timers == LiveTimers(old(reg.timers))
    {
      var expired := set k | k in reg.timers && reg.timers[k].done;
      ghost var t0 := reg.timers;
      while expired != {}
        invariant expired <= t0.Keys
        invariant forall k :: k in expired ==> t0[k].done
        invariant reg.timers == map k | k in t0 && (!t0[k].done || k in expired) :: t0[k]
        decreases expired
      {
        NonEmptyHasMember(expired);
        var id :| id in expired;
        reg.timers := reg.timers - {id};
        expired := expired - {id};
      }
    }
  }
}
