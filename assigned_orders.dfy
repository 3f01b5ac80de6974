/**
 * The assigned-orders screen: its state (`orders`, `prevOrderIds`, `error`), the poll
 * that refreshes it, and the two commands that change an order after the server has
 * accepted the change. Each server call is an input saying whether it succeeded and,
 * for the poll, which orders came back.
 */
module AssignedOrders {
  import opened Wrappers
  import opened Orders
  import opened Snapshot
  import opened Workflow
  import opened AlarmControl

  const FetchError := "Failed to fetch orders"
  const StatusError := "Failed to update order status"

  /** The outcome of `GET /shop/get-assigned-orders`. */
  datatype FetchResponse = Fetched(data: seq<Order>) | FetchFailed

  /** The `Alert.alert(title, message)` an availability command shows. */
  datatype Notice = Notice(title: string, message: string)

  function AvailabilityNotice(ok: bool, available: bool): (n: Notice)
    ensures n.title == "Success" <==> ok
    ensures ok ==> n.message == "Marked product as " + (if available then "Available" else "Unavailable")
  {
    if !ok then Notice("Error", "Could not update product availability")
    else Notice("Success", "Marked product as " + (if available then "Available" else "Unavailable"))
  }

  class AssignedOrdersScreen {
    var orders: seq<Order>
    var prevOrderIds: seq<string>
    var error: string
    /** The module-level alarm every screen shares. */
    const alarm: Alarm

    ghost predicate Valid()
      reads this, alarm
    {
      alarm.Valid()
    }

    /** The screen's first render: no orders, no ids seen, no error. */
    constructor (alarm: Alarm)
      requires alarm.Valid()
      ensures Valid() && this.alarm == alarm
      ensures orders == [] && prevOrderIds == [] && error == ""
    {
      this.alarm := alarm;
      orders, prevOrderIds, error := [], [], "";
    }

    /**
     * `fetchOrders`: on success, sorts newest first, triggers the alarm when an assigned
     * order is new, stops it when none is assigned, then replaces the list and the seen
     * ids wholesale; on failure, records the error and touches nothing else. `calls`
     * reports which alarm functions ran.
     */
    method FetchOrders(response: FetchResponse, granted: bool, loaded: bool) returns (calls: AlarmCalls)
      requires Valid()
      modifies this, alarm
      ensures Valid()
      ensures response.Fetched? ==>
                && orders == SortNewestFirst(response.data)
                && prevOrderIds == Ids(orders)
                && error == old(error)
                && calls == Decide(response.data, old(prevOrderIds))
                && alarm.State() == AfterPoll(old(alarm.State()), calls.trigger, calls.stop, granted, loaded)
      ensures response.FetchFailed? ==>
                && orders == old(orders) && prevOrderIds == old(prevOrderIds)
                && error == FetchError
                && calls == AlarmCalls(false, false)
                && alarm.State() == old(alarm.State())
    {
      if response.FetchFailed? {
        error := FetchError;
        return AlarmCalls(false, false);
      }
      var sortedOrders := SortNewestFirst(response.data);
      var hasAssigned := HasAssigned(sortedOrders);
      var isNewAssignedOrder := IsNewAssignedOrder(sortedOrders, prevOrderIds);
      calls := AlarmCalls(isNewAssignedOrder, !hasAssigned);
      DecideIgnoresOrder(sortedOrders, response.data, prevOrderIds);
      if isNewAssignedOrder {
        var _ := alarm.TriggerAlarm(granted, loaded);
      }
      if !hasAssigned {
        alarm.StopAlarm();
      }
      orders := sortedOrders;
      prevOrderIds := Ids(sortedOrders);
    }

    /** `handleStatusUpdate`: on success only the matching order's status changes; on failure only the error. */
    method HandleStatusUpdate(orderId: string, status: string, ok: bool)
      modifies this
      ensures prevOrderIds == old(prevOrderIds)
      ensures ok ==> orders == WithStatus(old(orders), orderId, status) && error == old(error)
      ensures !ok ==> orders == old(orders) && error == StatusError
    {
      if ok {
        orders := WithStatus(orders, orderId, status);
      } else {
        error := StatusError;
      }
    }

    /**
     * `updateProductAvailability`: on success only the matching items of the matching
     * order change; a failure leaves the list as it was. Neither sets `error`.
     */
    method UpdateProductAvailability(orderId: string, productId: string, available: bool, ok: bool)
      returns (notice: Notice)
      modifies this
      ensures prevOrderIds == old(prevOrderIds) && error == old(error)
      ensures orders == if ok then WithAvailability(old(orders), orderId, productId, available) else old(orders)
      ensures notice == AvailabilityNotice(ok, available)
    {
      if ok {
        orders := WithAvailability(orders, orderId, productId, available);
      }
      notice := AvailabilityNotice(ok, available);
    }

    /** The effect's clean-up when the screen goes away: the alarm is stopped unconditionally. */
    method Teardown()
      requires Valid()
      modifies alarm
      ensures Valid() && !alarm.isAlarmPlaying && !alarm.vibrating
      ensures alarm.State() == Stop(old(alarm.State()))
    {
      alarm.StopAlarm();
    }
  }

  /**
   * The decision the ten-second interval computes as the effect is written: the effect
   * runs once, so the interval keeps calling the first render's `fetchOrders`, whose
   * `prevOrderIds` is still `[]`. Edge detection then degenerates into a level: every
   * poll that sees an assigned order asks for the alarm.
   */
  function IntervalDecide(data: seq<Order>): (c: AlarmCalls)
    ensures c.trigger <==> exists i :: 0 <= i < |data| && IsAssigned(data[i])
    ensures c.trigger <==> !c.stop
  {
    Decide(data, [])
  }

  /**
   * One assigned order returned by two polls in a row: as written the second poll
   * triggers again (and, while the sound fails to load, creates a second sound), where
   * polling with the ids of the previous poll, as `FetchOrders` does, does not.
   */
  lemma StaleClosureRetriggers(a: Order)
    requires IsAssigned(a)
    ensures IntervalDecide(SortNewestFirst([a])).trigger
    ensures !Decide(SortNewestFirst([a]), Ids(SortNewestFirst([a]))).trigger
    ensures var c := IntervalDecide(SortNewestFirst([a]));
            var st1 := AfterPoll(Initial, c.trigger, c.stop, true, false);
            AfterPoll(st1, c.trigger, c.stop, true, false).soundsCreated == 2
  {
    SingleOrderPoll(a, []);
    SingleOrderPoll(a, [a.id]);
    var c := IntervalDecide(SortNewestFirst([a]));
    assert c == AlarmCalls(true, false);
    var st1 := AfterPoll(Initial, true, false, true, false);
    assert st1 == AlarmState(false, Some(Sound(0, false, false)), true, 1);
  }

  /**
   * Three polls against one alarm, as `FetchOrders` computes them: a new assigned order
   * starts the alarm, the same order polled again leaves it playing without a second
   * sound, and once the order has moved on through the workflow the next poll silences it.
   */
  lemma PollingScenario(a: Order, next: string)
    requires IsAssigned(a) && NextStatus(a.status) == Some(next)
    ensures var first := Decide([a], []);
            var second := Decide([a], Ids(SortNewestFirst([a])));
            var third := Decide([a.(status := next)], Ids(SortNewestFirst([a])));
            var st1 := AfterPoll(Initial, first.trigger, first.stop, true, true);
            var st2 := AfterPoll(st1, second.trigger, second.stop, true, true);
            var st3 := AfterPoll(st2, third.trigger, third.stop, true, true);
            && first == AlarmCalls(true, false) && st1.isAlarmPlaying && st1.soundsCreated == 1
            && second == AlarmCalls(false, false) && st2 == st1
            && third == AlarmCalls(false, true) && !st3.isAlarmPlaying && !st3.vibrating
  {
    var advanced := a.(status := next);
    SingleOrderPoll(a, []);
    SingleOrderPoll(a, [a.id]);
    WorkflowIsForwardOnly(a.status, next);
    assert !IsAssigned(advanced);
    SingleOrderPoll(advanced, [a.id]);
    var first := Decide([a], []);
    assert first == AlarmCalls(true, false);
    var second := Decide([a], [a.id]);
    assert second == AlarmCalls(false, false);
    var third := Decide([advanced], [a.id]);
    assert third == AlarmCalls(false, true);
    var st1 := AfterPoll(Initial, true, false, true, true);
    assert st1.isAlarmPlaying && st1.soundsCreated == 1;
    assert AfterPoll(st1, false, false, true, true) == st1;
    assert Consistent(st1);
  }
}
