/** The older accept/reject flow for drivers (utils/notifications.py). An
    order here carries a plain status string that moves from `NEW` to
    `ACCEPTED` (with the accepting driver) or to `EXPIRED`; drivers are
    offered the order with accept and reject buttons. */
module Notifications {
  import opened Text
  import opened Callbacks
  import opened Lifecycle

  const New: string := "NEW"
  const Accepted: string := "ACCEPTED"
  const Expired: string := "EXPIRED"

  /** The delay of `set_order_expiry`, in seconds. */
  const ExpiryDelay: nat := 300

  // ---------------------------------------------------------------------
  // Time formatting

  datatype DateTime = DateTime(year: nat, month: nat, day: nat, hour: nat, minute: nat)

  predicate ValidDateTime(t: DateTime) {
    1000 <= t.year <= 9999 && 1 <= t.month <= 12 && 1 <= t.day <= 31 && t.hour < 24 && t.minute < 60
  }

  /** `strftime('%Y-%m-%d %H:%M')`. */
  function FormatDateTime(t: DateTime): (r: string)
    ensures |r| == 16
    ensures r[4] == '-' && r[7] == '-' && r[10] == ' ' && r[13] == ':'
    ensures AllDigits(r[0..4]) && AllDigits(r[5..7]) && AllDigits(r[8..10])
    ensures AllDigits(r[11..13]) && AllDigits(r[14..16])
  {
    Padded(t.year, 4) + "-" + Padded(t.month, 2) + "-" + Padded(t.day, 2)
    + " " + Padded(t.hour, 2) + ":" + Padded(t.minute, 2)
  }

  /** Reads `YYYY-MM-DD HH:MM` back. */
  function ParseDateTime(s: string): Option<DateTime> {
    if |s| == 16 && s[4] == '-' && s[7] == '-' && s[10] == ' ' && s[13] == ':'
       && AllDigits(s[0..4]) && AllDigits(s[5..7]) && AllDigits(s[8..10])
       && AllDigits(s[11..13]) && AllDigits(s[14..16])
    then Some(DateTime(ParseDigits(s[0..4]), ParseDigits(s[5..7]), ParseDigits(s[8..10]),
                       ParseDigits(s[11..13]), ParseDigits(s[14..16])))
    else None
  }

  /** The formatted time holds every field of a valid date and time. */
  lemma FormatRoundTrip(t: DateTime)
    requires ValidDateTime(t)
    ensures ParseDateTime(FormatDateTime(t)) == Some(t)
  {
    var s := FormatDateTime(t);
    assert s[0..4] == Padded(t.year, 4);
    assert s[5..7] == Padded(t.month, 2);
    assert s[8..10] == Padded(t.day, 2);
    assert s[11..13] == Padded(t.hour, 2);
    assert s[14..16] == Padded(t.minute, 2);
    ParsePadded(t.year, 4);
    ParsePadded(t.month, 2);
    ParsePadded(t.day, 2);
    ParsePadded(t.hour, 2);
    ParsePadded(t.minute, 2);
  }

  /** The departure time as `notify_drivers_about_order` receives it. */
  datatype TimeValue = TextValue(text: string) | DateTimeValue(time: DateTime) | OtherValue

  const UnknownTime: string := "Noma'lum vaqt"

  /** The time line of the driver notice. */
  function FormatDeparture(v: TimeValue): string {
    match v
    case TextValue(s) => s
    case DateTimeValue(t) => FormatDateTime(t)
    case OtherValue => UnknownTime
  }

  /** Text passes through unchanged, a date and time is formatted so that
      it reads back to itself, and anything else becomes the unknown-time
      label, which no date and time formats to. */
  lemma DepartureFormats(v: TimeValue)
    ensures v.TextValue? ==> FormatDeparture(v) == v.text
    ensures v.DateTimeValue? && ValidDateTime(v.time) ==> ParseDateTime(FormatDeparture(v)) == Some(v.time)
    ensures v.OtherValue? ==> FormatDeparture(v) == UnknownTime
    ensures v.DateTimeValue? ==> FormatDeparture(v) != UnknownTime
  {
    if v.DateTimeValue? && ValidDateTime(v.time) {
      FormatRoundTrip(v.time);
    }
  }

  // ---------------------------------------------------------------------
  // Offering the order to drivers

  /** A registered user as the notice loop sees one. */
  datatype Contact = Contact(telegramId: int, role: Role)

  /** One notice: the chat it goes to and the callback data of its two
      buttons. */
  datatype Offer = Offer(chat: int, buttons: seq<string>)

  function OfferButtons(orderId: nat): seq<string> {
    [Token("accept_order", orderId), Token("reject_order", orderId)]
  }

  /** The notices `notify_drivers_about_order` sends, one per driver in
      the order the drivers are listed. */
  function Offers(users: seq<Contact>, orderId: nat): seq<Offer> {
    if users == [] then []
    else
      var u := users[|users| - 1];
      Offers(users[..|users| - 1], orderId) + (if u.role == Driver then [Offer(u.telegramId, OfferButtons(orderId))] else [])
  }

  /** The chats a list of notices goes to. */
  function Chats(offers: seq<Offer>): set<int> {
    set o | o in offers :: o.chat
  }

  /** The chats of the users with the DRIVER role. */
  function DriverChats(users: seq<Contact>): set<int> {
    set i | 0 <= i < |users| && users[i].role == Driver :: users[i].telegramId
  }

  /** Every driver, and only a driver, is offered the order, and every
      offer carries this order's buttons. */
  lemma {:induction false} OffersGoToDrivers(users: seq<Contact>, orderId: nat)
    ensures forall o :: o in Offers(users, orderId) ==> o.buttons == OfferButtons(orderId)
    ensures Chats(Offers(users, orderId)) == DriverChats(users)
  {
    if users != [] {
      var init := users[..|users| - 1];
      var u := users[|users| - 1];
      OffersGoToDrivers(init, orderId);
      var last := if u.role == Driver then [Offer(u.telegramId, OfferButtons(orderId))] else [];
      assert Offers(users, orderId) == Offers(init, orderId) + last;
      assert Chats(Offers(users, orderId)) == Chats(Offers(init, orderId)) + Chats(last);
      assert DriverChats(users) == DriverChats(init) + (if u.role == Driver then {u.telegramId} else {}) by {
        forall c | c in DriverChats(users)
          ensures c in DriverChats(init) + (if u.role == Driver then {u.telegramId} else {})
        {
          var i :| 0 <= i < |users| && users[i].role == Driver && users[i].telegramId == c;
          if i < |init| {
            assert init[i] == users[i];
          }
        }
        forall c | c in DriverChats(init)
          ensures c in DriverChats(users)
        {
          var i :| 0 <= i < |init| && init[i].role == Driver && init[i].telegramId == c;
          assert users[i] == init[i];
        }
        if u.role == Driver {
          assert users[|users| - 1] == u;
        }
      }
    }
  }

  lemma OfferButtonsDispatch(orderId: nat)
    ensures Dispatch(OfferButtons(orderId)[0]) == AcceptLegacy
    ensures Dispatch(OfferButtons(orderId)[1]) == RejectLegacy
    ensures ParseOrderId(OfferButtons(orderId)[0]) == Some(orderId)
    ensures ParseOrderId(OfferButtons(orderId)[1]) == Some(orderId)
  {
    LegacyTokens(orderId);
    TokenRoundTrip("accept_order", orderId);
    TokenRoundTrip("reject_order", orderId);
  }

  /** The loop of `notify_drivers_about_order` over the users with the
      DRIVER role. */
  method NotifyDrivers(users: seq<Contact>, orderId: nat) returns (sent: seq<Offer>)
    ensures sent == Offers(users, orderId)
  {
    sent := [];
    var i := 0;
    while i < |users|
      invariant 0 <= i <= |users|
      invariant sent == Offers(users[..i], orderId)
    {
      assert users[..i + 1][..i] == users[..i];
      if users[i].role == Driver {
        sent := sent + [Offer(users[i].telegramId, OfferButtons(orderId))];
      }
      i := i + 1;
    }
    assert users[..i] == users;
  }

  // ---------------------------------------------------------------------
  // The order record

  datatype LegacyOrder = LegacyOrder(status: string, driverId: Option<int>, departure: Option<DateTime>)

  /** The only changes this flow makes to an order: `NEW` to `ACCEPTED`,
      or `NEW` to `EXPIRED`. */
  predicate LegacyStep(a: LegacyOrder, b: LegacyOrder) {
    b == a || (a.status == New && (b.status == Accepted || b.status == Expired))
  }

  predicate LegacyEvolves(before: map<int, LegacyOrder>, after: map<int, LegacyOrder>) {
    before.Keys == after.Keys && forall id :: id in before ==> LegacyStep(before[id], after[id])
  }

  /** Once an order has left `NEW` this flow never changes it again: a
      driver who accepted keeps the order, and an expired order stays
      expired. */
  lemma {:induction false} LeftNewIsFinal(rs: seq<map<int, LegacyOrder>>, id: int)
    requires |rs| >= 1 && id in rs[0] && rs[0][id].status != New
    requires forall k :: 0 <= k < |rs| - 1 ==> LegacyEvolves(rs[k], rs[k + 1])
    ensures id in rs[|rs| - 1] && rs[|rs| - 1][id] == rs[0][id]
  {
    if |rs| > 1 {
      LeftNewIsFinal(rs[..|rs| - 1], id);
      assert LegacyEvolves(rs[|rs| - 2], rs[|rs| - 1]);
    }
  }

  /** The outcome of an accept press. */
  datatype Acceptance =
    | AcceptFailed           // an exception: unreadable id, or no departure time to format
    | UnknownDriver          // the presser is not a known user
    | OrderMissing
    | AlreadyIn(status: string)
    | AcceptedBy(driverId: int)

  /** The outcome of a reject press. */
  datatype Rejection = RejectFailed | RejectedByDriver | NotAvailable

  class LegacyOrders {
    var orders: map<int, LegacyOrder>

    constructor (orders: map<int, LegacyOrder>)
      ensures this.orders == orders
    {
      this.orders := orders;
    }

    /** `handle_order_acceptance`: `driver` is the presser's user id, when
        the lookup finds them. Only an order still `NEW` with a departure
        time is taken, by that driver. */
    method Accept(data: string, driver: Option<int>) returns (r: Acceptance)
      modifies this
      ensures LegacyEvolves(old(orders), orders)
      ensures r.AcceptedBy? <==>
        ParseOrderId(data).Some? && driver.Some?
        && ParseOrderId(data).value in old(orders)
        && old(orders)[ParseOrderId(data).value].status == New
        && old(orders)[ParseOrderId(data).value].departure.Some?
      ensures r.AcceptedBy? ==>
        r.driverId == driver.value
        && orders == old(orders)[ParseOrderId(data).value :=
             old(orders)[ParseOrderId(data).value].(status := Accepted, driverId := driver)]
      ensures !r.AcceptedBy? ==> orders == old(orders)
      ensures ParseOrderId(data).Some? && driver.None? ==> r == UnknownDriver
      ensures ParseOrderId(data).Some? && driver.Some? && ParseOrderId(data).value !in old(orders) ==> r == OrderMissing
      ensures ParseOrderId(data).Some? && driver.Some? && ParseOrderId(data).value in old(orders)
              && old(orders)[ParseOrderId(data).value].status != New ==>
        r == AlreadyIn(old(orders)[ParseOrderId(data).value].status)
    {
      var id := ParseOrderId(data);
      if id.None? {
        return AcceptFailed;
      }
      if driver.None? {
        return UnknownDriver;
      }
      if id.value !in orders {
        return OrderMissing;
      }
      var order := orders[id.value];
      if order.status != New {
        return AlreadyIn(order.status);
      }
      if order.departure.None? {
        return AcceptFailed;
      }
      orders := orders[id.value := order.(status := Accepted, driverId := driver)];
      r := AcceptedBy(driver.value);
    }

    /** `handle_order_rejection`: the driver's own notice is closed while
        the order is still `NEW`; the order itself is never written. */
    function Reject(data: string): (r: Rejection)
      reads this
      ensures r == RejectFailed <==> ParseOrderId(data).None?
      ensures r == RejectedByDriver <==>
        ParseOrderId(data).Some? && ParseOrderId(data).value in orders && orders[ParseOrderId(data).value].status == New
    {
      match ParseOrderId(data)
      case None => RejectFailed
      case Some(id) => if id in orders && orders[id].status == New then RejectedByDriver else NotAvailable
    }

    /** `set_order_expiry` after its sleep: a `NEW` order becomes
        `EXPIRED` and the drivers are told; any other order is left as it
        is. */
    method Expire(orderId: int) returns (expired: bool)
      modifies this
      ensures LegacyEvolves(old(orders), orders)
      ensures expired <==> orderId in old(orders) && old(orders)[orderId].status == New
      ensures expired ==> orders == old(orders)[orderId := old(orders)[orderId].(status := Expired)]
      ensures !expired ==> orders == old(orders)
    {
      expired := orderId in orders && orders[orderId].status == New;
      if expired {
        orders := orders[orderId := orders[orderId].(status := Expired)];
      }
    }
  }
}
