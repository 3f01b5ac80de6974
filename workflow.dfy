/**
 * The order workflow offered on each card: the next status chosen from the current one,
 * the list updates applied after the server accepts a status or availability change,
 * the availability button each line item offers, and the total shown on the card.
 */
module Workflow {
  import opened Wrappers
  import opened Text
  import opened Orders
  import opened Snapshot

  const Confirmed := "Confirmed"
  const ReadyToCollect := "Ready to Collect"

  /** The fee taken off every order's total before it is shown. */
  const ServiceFee := 22

  lemma LowerConfirmed()
    ensures ToLower(Confirmed) == "confirmed"
  {
    var c := ToLower(Confirmed);
    assert forall i | 0 <= i < |c| :: c[i] == "confirmed"[i];
  }

  lemma LowerReadyToCollect()
    ensures ToLower(ReadyToCollect) == "ready to collect"
  {
    var r := ToLower(ReadyToCollect);
    assert forall i | 0 <= i < |r| :: r[i] == "ready to collect"[i];
  }

  /** The two statuses the workflow sends, as the status checks see them. */
  lemma NormalizeConfirmed()
    ensures Normalize(Confirmed) == "confirmed"
  {
    NormalizeOfUnpadded(Confirmed);
    LowerConfirmed();
  }

  lemma NormalizeReadyToCollect()
    ensures Normalize(ReadyToCollect) == "ready to collect"
  {
    NormalizeOfUnpadded(ReadyToCollect);
    LowerReadyToCollect();
  }

  /**
   * The status button a card offers: "Mark as Confirmed" on an assigned order,
   * "Mark as Ready to Collect" on a confirmed one, and none otherwise. Only the
   * normalised current status is consulted.
   */
  function NextStatus(status: string): (r: Option<string>)
    ensures r == Some(Confirmed) <==> Normalize(status) == "assigned"
    ensures r == Some(ReadyToCollect) <==> Normalize(status) == "confirmed"
    ensures r.None? <==> Normalize(status) != "assigned" && Normalize(status) != "confirmed"
  {
    var n := Normalize(status);
    if n == "assigned" then Some(Confirmed)
    else if n == "confirmed" then Some(ReadyToCollect)
    else None
  }

  /**
   * The workflow runs forward and ends: confirming an order offers exactly one more step,
   * "Ready to Collect", which offers none, and no step leads back to "assigned".
   */
  lemma WorkflowIsForwardOnly(status: string, next: string)
    requires NextStatus(status) == Some(next)
    ensures Normalize(next) != "assigned"
    ensures next == Confirmed ==> NextStatus(next) == Some(ReadyToCollect)
    ensures next == ReadyToCollect ==> NextStatus(next).None?
  {
    NormalizeConfirmed();
    NormalizeReadyToCollect();
  }

  /**
   * `prev.map(o => o._id === orderId ? { ...o, status } : o)`: every order keeps its
   * place and every field but its status; the matching orders take the new status.
   */
  function WithStatus(orders: seq<Order>, orderId: string, status: string): (r: seq<Order>)
    ensures |r| == |orders|
    ensures forall i :: 0 <= i < |r| ==> r[i].(status := orders[i].status) == orders[i]
    ensures forall i :: 0 <= i < |r| ==>
              r[i].status == if orders[i].id == orderId then status else orders[i].status
  {
    if orders == [] then []
    else
      var o := orders[0];
      [if o.id == orderId then o.(status := status) else o] + WithStatus(orders[1..], orderId, status)
  }

  /** A status update never changes the ids the list holds, nor their order. */
  lemma WithStatusKeepsIds(orders: seq<Order>, orderId: string, status: string)
    ensures Ids(WithStatus(orders, orderId, status)) == Ids(orders)
  {
    var r := WithStatus(orders, orderId, status);
    assert forall i | 0 <= i < |r| :: Ids(r)[i] == Ids(orders)[i];
  }

  /**
   * Advancing an order through the workflow never makes the list contain an assigned
   * order it did not already contain.
   */
  lemma AdvanceCreatesNoAssigned(orders: seq<Order>, orderId: string, current: string, next: string)
    requires NextStatus(current) == Some(next)
    ensures HasAssigned(WithStatus(orders, orderId, next)) ==> HasAssigned(orders)
  {
    var r := WithStatus(orders, orderId, next);
    WorkflowIsForwardOnly(current, next);
    if HasAssigned(r) {
      var i :| 0 <= i < |r| && IsAssigned(r[i]);
      if orders[i].id == orderId {
        assert false;
      }
      assert r[i] == orders[i];
    }
  }

  function FromBool(available: bool): Availability {
    if available then Available else Unavailable
  }

  /**
   * The availability button a line item offers: "Mark as Unavailable" (sending `false`)
   * when it is available, "Mark as Available" (sending `true`) when it is unavailable,
   * and none while the flag is absent.
   */
  function AvailabilityToggle(a: Availability): (r: Option<bool>)
    ensures r.None? <==> a == Unknown
    ensures r.Some? ==> FromBool(r.value) != a && FromBool(r.value) != Unknown
  {
    match a
    case Unknown => None
    case Available => Some(false)
    case Unavailable => Some(true)
  }

  /** Pressing the offered button twice brings an item back to where it was. */
  lemma ToggleTwice(a: Availability)
    requires a != Unknown
    ensures AvailabilityToggle(FromBool(AvailabilityToggle(a).value)).Some?
    ensures FromBool(AvailabilityToggle(FromBool(AvailabilityToggle(a).value)).value) == a
  {
  }

  /**
   * `order.items.map(item => item.productId === productId ? { ...item, isAvailable: available } : item)`:
   * every item keeps its place and every field but its flag; matching items take the new flag.
   */
  function WithItemAvailability(items: seq<Item>, productId: string, available: bool): (r: seq<Item>)
    ensures |r| == |items|
    ensures forall i :: 0 <= i < |r| ==> r[i].(isAvailable := items[i].isAvailable) == items[i]
    ensures forall i :: 0 <= i < |r| ==>
              r[i].isAvailable == if items[i].productId == productId then FromBool(available) else items[i].isAvailable
  {
    if items == [] then []
    else
      var it := items[0];
      [if it.productId == productId then it.(isAvailable := FromBool(available)) else it]
        + WithItemAvailability(items[1..], productId, available)
  }

  /**
   * The update applied after the server accepts an availability change: only the items
   * of the matching order are touched, and every other field of every order is kept.
   */
  function WithAvailability(orders: seq<Order>, orderId: string, productId: string, available: bool): (r: seq<Order>)
    ensures |r| == |orders|
    ensures forall i :: 0 <= i < |r| ==> r[i].(items := orders[i].items) == orders[i]
    ensures forall i :: 0 <= i < |r| && orders[i].id != orderId ==> r[i] == orders[i]
    ensures forall i :: 0 <= i < |r| && orders[i].id == orderId ==>
              r[i].items == WithItemAvailability(orders[i].items, productId, available)
  {
    if orders == [] then []
    else
      var o := orders[0];
      [if o.id == orderId then o.(items := WithItemAvailability(o.items, productId, available)) else o]
        + WithAvailability(orders[1..], orderId, productId, available)
  }

  /** An availability change never alters any order's status, so it never changes the alarm decision. */
  lemma WithAvailabilityKeepsDecision(orders: seq<Order>, orderId: string, productId: string, available: bool,
                                      prevOrderIds: seq<string>)
    ensures Decide(WithAvailability(orders, orderId, productId, available), prevOrderIds) == Decide(orders, prevOrderIds)
  {
    var r := WithAvailability(orders, orderId, productId, available);
    forall i | 0 <= i < |r| ensures r[i].status == orders[i].status && r[i].id == orders[i].id {
      assert r[i].(items := orders[i].items) == orders[i];
    }
    DecideSeesOnlyStatusAndId(r, orders, prevOrderIds);
  }

  /** `Math.max(order.totalAmount - 22, 0)`: the fee comes off, and the result never drops below zero. */
  function AdjustedTotal(totalAmount: int): (r: int)
    ensures r >= 0
    ensures totalAmount >= ServiceFee ==> r == totalAmount - ServiceFee
    ensures totalAmount <= ServiceFee ==> r == 0
  {
    if totalAmount - ServiceFee > 0 then totalAmount - ServiceFee else 0
  }

  /** The shown total never exceeds a non-negative total and grows with it. */
  lemma AdjustedTotalBounds(a: int, b: int)
    requires 0 <= a <= b
    ensures AdjustedTotal(a) <= a
    ensures AdjustedTotal(a) <= AdjustedTotal(b)
    ensures AdjustedTotal(21) == 0 && AdjustedTotal(100) == 78
  {
  }
}
