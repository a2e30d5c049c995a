/** Inline-button callback data. Every order button carries a token
    `{action}_{orderId}`; a handler is chosen by the token's prefix and reads
    the order id back with `int(data.split("_")[-1])`. */
module Callbacks {
  import opened Text

  /** The token a button carries, e.g. `complete_order_42`. */
  function Token(action: string, id: nat): (r: string)
    ensures StartsWith(r, action + "_")
  {
    action + "_" + NatToString(id)
  }

  /** Python's `s.split("_")[-1]`: the text after the last underscore,
      or the whole string when it has none. */
  function LastSegment(s: string): (r: string)
    ensures |r| <= |s| && r == s[|s| - |r|..]
    ensures '_' !in r
    ensures |r| < |s| ==> s[|s| - |r| - 1] == '_'
  {
    if s == [] then []
    else if s[|s| - 1] == '_' then []
    else LastSegment(s[..|s| - 1]) + [s[|s| - 1]]
  }

  /** `int(data.split("_")[-1])`; `None` where Python's `int()` raises. */
  function ParseOrderId(data: string): (r: Option<nat>)
    ensures r.Some? <==> AllDigits(LastSegment(data)) && LastSegment(data) != []
  {
    var seg := LastSegment(data);
    if seg != [] && AllDigits(seg) then Some(ParseDigits(seg)) else None
  }

  lemma {:induction false} LastSegmentAfterUnderscore(prefix: string, tail: string)
    requires '_' !in tail
    ensures LastSegment(prefix + "_" + tail) == tail
  {
    var s := prefix + "_" + tail;
    if tail == [] {
      assert s[|s| - 1] == '_';
    } else {
      assert s[..|s| - 1] == prefix + "_" + tail[..|tail| - 1];
      assert tail[|tail| - 1] in tail;
      LastSegmentAfterUnderscore(prefix, tail[..|tail| - 1]);
    }
  }

  /** Reading the order id back out of a button's token gives the id the
      button was made for, whatever the action. */
  lemma TokenRoundTrip(action: string, id: nat)
    ensures ParseOrderId(Token(action, id)) == Some(id)
  {
    var digits := NatToString(id);
    assert forall i :: 0 <= i < |digits| ==> digits[i] != '_';
    LastSegmentAfterUnderscore(action, digits);
    ParseNatToString(id);
  }

  /** The callback handlers that act on orders, keyed by the prefix filters of
      their registrations. */
  datatype Handler =
    | ClaimTrip          // contact_passenger_  (departure.send_passenger_info)
    | ClaimDelivery      // contact_sender_     (delivery.send_sender_info)
    | CompleteTrip       // complete_order_     (departure.complete_order)
    | CancelTrip         // cancel_order_       (departure.cancel_order_status)
    | CompleteDelivery   // complete_delivery_  (delivery.complete_delivery)
    | CancelDelivery     // cancel_delivery_    (delivery.cancel_delivery_status)
    | AcceptLegacy       // accept_order_       (notifications.handle_order_acceptance)
    | RejectLegacy       // reject_order_       (notifications.handle_order_rejection)
    | Unhandled

  function Dispatch(data: string): Handler {
    if StartsWith(data, "contact_passenger_") then ClaimTrip
    else if StartsWith(data, "contact_sender_") then ClaimDelivery
    else if StartsWith(data, "complete_order_") then CompleteTrip
    else if StartsWith(data, "cancel_order_") then CancelTrip
    else if StartsWith(data, "complete_delivery_") then CompleteDelivery
    else if StartsWith(data, "cancel_delivery_") then CancelDelivery
    else if StartsWith(data, "accept_order_") then AcceptLegacy
    else if StartsWith(data, "reject_order_") then RejectLegacy
    else Unhandled
  }

  /** A string that starts with `p` cannot start with a `q` that differs
      from `p` at some position `k` both have. */
  lemma NotBothPrefixes(s: string, p: string, q: string, k: nat)
    requires StartsWith(s, p) && k < |p| && k < |q| && p[k] != q[k]
    ensures !StartsWith(s, q)
  {
    assert s[k] == s[..|p|][k];
  }

  /** Every button token the bot emits reaches the handler registered for its
      action, and no other. */
  lemma TokensReachTheirHandlers(id: nat)
    ensures Dispatch(Token("contact_passenger", id)) == ClaimTrip
    ensures Dispatch(Token("contact_sender", id)) == ClaimDelivery
    ensures Dispatch(Token("complete_order", id)) == CompleteTrip
    ensures Dispatch(Token("cancel_order", id)) == CancelTrip
    ensures Dispatch(Token("complete_delivery", id)) == CompleteDelivery
    ensures Dispatch(Token("cancel_delivery", id)) == CancelDelivery
    ensures Dispatch(Token("accept_order", id)) == AcceptLegacy
    ensures Dispatch(Token("reject_order", id)) == RejectLegacy
  {
    ClaimTokens(id);
    TripTokens(id);
    DeliveryTokens(id);
    LegacyTokens(id);
  }

  lemma ClaimTokens(id: nat)
    ensures Dispatch(Token("contact_passenger", id)) == ClaimTrip
    ensures Dispatch(Token("contact_sender", id)) == ClaimDelivery
  {
    NotBothPrefixes(Token("contact_sender", id), "contact_sender_", "contact_passenger_", 8);
  }

  lemma TripTokens(id: nat)
    ensures Dispatch(Token("complete_order", id)) == CompleteTrip
    ensures Dispatch(Token("cancel_order", id)) == CancelTrip
  {
    var t3 := Token("complete_order", id);
    NotBothPrefixes(t3, "complete_order_", "contact_passenger_", 2);
    NotBothPrefixes(t3, "complete_order_", "contact_sender_", 2);
    var t4 := Token("cancel_order", id);
    NotBothPrefixes(t4, "cancel_order_", "contact_passenger_", 1);
    NotBothPrefixes(t4, "cancel_order_", "contact_sender_", 1);
    NotBothPrefixes(t4, "cancel_order_", "complete_order_", 1);
  }

  lemma DeliveryTokens(id: nat)
    ensures Dispatch(Token("complete_delivery", id)) == CompleteDelivery
    ensures Dispatch(Token("cancel_delivery", id)) == CancelDelivery
  {
    var t5 := Token("complete_delivery", id);
    NotBothPrefixes(t5, "complete_delivery_", "contact_passenger_", 2);
    NotBothPrefixes(t5, "complete_delivery_", "contact_sender_", 2);
    NotBothPrefixes(t5, "complete_delivery_", "complete_order_", 9);
    NotBothPrefixes(t5, "complete_delivery_", "cancel_order_", 1);
    var t6 := Token("cancel_delivery", id);
    NotBothPrefixes(t6, "cancel_delivery_", "contact_passenger_", 1);
    NotBothPrefixes(t6, "cancel_delivery_", "contact_sender_", 1);
    NotBothPrefixes(t6, "cancel_delivery_", "complete_order_", 1);
    NotBothPrefixes(t6, "cancel_delivery_", "cancel_order_", 7);
    NotBothPrefixes(t6, "cancel_delivery_", "complete_delivery_", 1);
  }

  lemma LegacyTokens(id: nat)
    ensures Dispatch(Token("accept_order", id)) == AcceptLegacy
    ensures Dispatch(Token("reject_order", id)) == RejectLegacy
  {
    var t7 := Token("accept_order", id);
    var t8 := Token("reject_order", id);
    NotBothPrefixes(t7, "accept_order_", "contact_passenger_", 0);
    NotBothPrefixes(t7, "accept_order_", "contact_sender_", 0);
    NotBothPrefixes(t7, "accept_order_", "complete_order_", 0);
    NotBothPrefixes(t7, "accept_order_", "cancel_order_", 0);
    NotBothPrefixes(t7, "accept_order_", "complete_delivery_", 0);
    NotBothPrefixes(t7, "accept_order_", "cancel_delivery_", 0);
    NotBothPrefixes(t8, "reject_order_", "contact_passenger_", 0);
    NotBothPrefixes(t8, "reject_order_", "contact_sender_", 0);
    NotBothPrefixes(t8, "reject_order_", "complete_order_", 0);
    NotBothPrefixes(t8, "reject_order_", "cancel_order_", 0);
    NotBothPrefixes(t8, "reject_order_", "complete_delivery_", 0);
    NotBothPrefixes(t8, "reject_order_", "cancel_delivery_", 0);
    NotBothPrefixes(t8, "reject_order_", "accept_order_", 0);
  }
}
