# Assigned-orders polling and alarm, in Dafny

This project models the shop-side "Assigned Orders" screen of the grocery delivery app,
`src/components/GetAssignedOrders.tsx`. Every ten seconds the screen fetches the orders
assigned to the shop and sorts them newest first. It starts an alarm (a looping sound plus
vibration) when an assigned order's id is missing from `prevOrderIds`, and it stops the
alarm when no order is assigned any more. The code means `prevOrderIds` to hold the ids of
the previous poll. As written, though, the interval's polls always read the initial empty
list (see "## Findings"). The shopkeeper moves each order through
its workflow (assigned → Confirmed → Ready to Collect) and marks line items as available or
unavailable.

Modules:

- `Text`: ECMAScript `trim` (the full WhiteSpace and LineTerminator set) and `toLowerCase`,
  and the status normalisation `status.trim().toLowerCase()`.
- `Orders`: the `Order` and `Item` records and the "assigned" test.
- `Snapshot`: what one successful poll computes before it changes any state:
  - the stable newest-first sort;
  - `hasAssigned` and `isNewAssignedOrder`;
  - the alarm calls that follow from them;
  - the ids remembered for the next poll.
- `AlarmControl`: the module-level `isAlarmPlaying` / `alarmSound` pair and the vibrator.
  It is given both as pure transitions (`Trigger`, `Stop`) and as a class `Alarm` whose
  methods update the fields in place and are proved against those transitions.
- `Workflow`: the status button each card offers, the list updates applied after the server
  accepts a status or availability change, the availability button of each line item, and
  the total shown on the card.
- `AssignedOrders`: the screen itself. It is a class holding `orders`, `prevOrderIds`,
  `error` and the shared alarm. Its methods are the poll (`FetchOrders`), the two commands,
  and the effect's clean-up.

Each server call is an input to the model. The poll receives either the fetched list or a
failure; each command receives whether the server accepted it. The vibration permission and
whether the sound file loads are boolean inputs.

Behaviour of the code that the model keeps as it is:

- A failed poll or command is handled the same way whatever the cause, including an authentication failure.
- A successful poll never clears an earlier `error`.
- A poll triggers on any assigned order whose id is missing from `prevOrderIds` (lines 116-120).
  `FetchOrders` reads the screen's current `prevOrderIds`, which is the intended edge trigger.
  The code as written reads the first render's empty list on every interval poll.
  `IntervalDecide` models that; the row under "## Findings" records it.

## Model

| member | source | states |
|---|---|---|
| Text.Trim | src/components/GetAssignedOrders.tsx:113 | `trim`: the result is no longer than the input and carries no ECMAScript white space or line terminator at either end |
| Text.ToLower | src/components/GetAssignedOrders.tsx:113 | `toLowerCase`: same length, each character lower-cased on its own, and no upper-case letter left |
| Text.NormalizeShape | src/components/GetAssignedOrders.tsx:113 | `Normalize`, i.e. `status.trim().toLowerCase()`: the result is no longer than the status, unpadded at both ends, and has no upper-case letter |
| Text.TrimKeepsSlice | src/components/GetAssignedOrders.tsx:113 | `trim` keeps one contiguous slice of the status, and everything it cut off on either side is ECMAScript white space or a line terminator |
| Text.TrimStripsPadding | src/components/GetAssignedOrders.tsx:113 | any padding around an unpadded core trims away to exactly that core, so `" Assigned\n"` is compared as `"Assigned"` |
| Text.NormalizeIdempotent | src/components/GetAssignedOrders.tsx:113 | normalising (`trim` then `toLowerCase`) a normalised status changes nothing |
| Orders.AssignedIsPaddedSpelling | src/components/GetAssignedOrders.tsx:113 | `IsAssigned`, the test `=== 'assigned'` on the normalised status: an assigned order's status is an eight-character spelling of "assigned" in any case, with only padding on either side |
| Orders.PaddedAssignedIsAssigned | src/components/GetAssignedOrders.tsx:113 | conversely, any status that is a spelling of "assigned" in any case, padded on either side, makes the order assigned |
| Snapshot.SortNewestFirst | src/components/GetAssignedOrders.tsx:105-109 | the sorted list is newest first, is a permutation of the fetched list, and keeps the fetched order among equal timestamps (a stable sort, as ECMAScript requires of `Array.prototype.sort`) |
| Snapshot.StableNewestFirstUnique | src/components/GetAssignedOrders.tsx:105-109 | two lists that are both newest first and stable with respect to each other are equal, so the stable newest-first order is unique |
| Snapshot.SortNewestFirstIsTheStableSort | src/components/GetAssignedOrders.tsx:105-109 | any newest-first list that is stable with respect to the fetched list is exactly the model's sorted list |
| Snapshot.Any | src/components/GetAssignedOrders.tsx:112-120 | `Array.prototype.some`: true exactly when some order satisfies the predicate |
| Snapshot.HasAssigned | src/components/GetAssignedOrders.tsx:112-114 | true exactly when some order's normalised status is "assigned" |
| Snapshot.IsNewAssignedOrder | src/components/GetAssignedOrders.tsx:116-120 | true exactly when some assigned order's id is not among the previous poll's ids |
| Snapshot.Ids | src/components/GetAssignedOrders.tsx:130 | the remembered ids are the orders' ids, one per order, in list order |
| Snapshot.Decide | src/components/GetAssignedOrders.tsx:112-127 | the poll calls `triggerAlarm` exactly when an assigned order is new and `stopAlarm` exactly when no order is assigned, and never both |
| Snapshot.SingleOrderPoll | src/components/GetAssignedOrders.tsx:105-130 | a poll returning one order keeps it, remembers its id, triggers exactly when it is assigned with an unseen id, and stops exactly when it is not assigned |
| Snapshot.DecideSeesOnlyStatusAndId | src/components/GetAssignedOrders.tsx:112-120 | the decision depends on each order's status and id only |
| Snapshot.DecideIgnoresOrder | src/components/GetAssignedOrders.tsx:105-120 | the decision is the same for any arrangement of the same orders, so deciding on the sorted list equals deciding on the fetched one |
| Snapshot.NoTriggerWithoutNewId | src/components/GetAssignedOrders.tsx:116-130 | edge triggering: when every assigned order of the next poll had its id in the previous poll, the next poll does not trigger |
| Snapshot.RefetchDoesNotTrigger | src/components/GetAssignedOrders.tsx:116-130 | fetching the same orders twice in a row does not trigger on the second poll |
| AlarmControl.Trigger | src/components/GetAssignedOrders.tsx:60-79 | refused permission or an alarm already playing changes nothing; otherwise exactly one new sound is created, it plays once loaded, the flag follows it, vibration starts, consistency is kept, and a playing sound is never replaced |
| AlarmControl.Stop | src/components/GetAssignedOrders.tsx:81-87 | the existing sound (the same one) is stopped and released and the flag is cleared; with no sound the flag is left alone; vibration is cancelled; a consistent alarm ends silent |
| AlarmControl.TriggerTwice | src/components/GetAssignedOrders.tsx:66 | a trigger right after one that started the alarm changes nothing, so one alarm never creates two sounds |
| AlarmControl.StopIdempotent | src/components/GetAssignedOrders.tsx:81-87 | stopping twice is stopping once |
| AlarmControl.AfterPoll | src/components/GetAssignedOrders.tsx:122-127 | trigger-then-stop keeps the alarm consistent, a stop leaves it silent and not vibrating, no trigger creates no sound, and no calls change nothing |
| AlarmControl.Alarm.constructor | src/components/GetAssignedOrders.tsx:36-37 | the alarm starts with no sound and the flag cleared |
| AlarmControl.Alarm.TriggerAlarm | src/components/GetAssignedOrders.tsx:60-79 | updates the fields in place to exactly `Trigger` of the old state, keeps them consistent, and reports which branch ran |
| AlarmControl.Alarm.StopAlarm | src/components/GetAssignedOrders.tsx:81-87 | updates the fields in place to exactly `Stop` of the old state and leaves the alarm consistent and silent |
| Workflow.NextStatus | src/components/GetAssignedOrders.tsx:283-299 | "Mark as Confirmed" exactly on an assigned order, "Mark as Ready to Collect" exactly on a confirmed one, no button otherwise |
| Workflow.WorkflowIsForwardOnly | src/components/GetAssignedOrders.tsx:283-299 | no offered status is "assigned" again; Confirmed offers exactly Ready to Collect, which offers nothing |
| Workflow.WithStatus | src/components/GetAssignedOrders.tsx:147-149 | every order keeps its place and all its fields except the status; exactly the orders with the matching id take the new status |
| Workflow.WithStatusKeepsIds | src/components/GetAssignedOrders.tsx:147-149 | a status update keeps the list's ids and their order |
| Workflow.AdvanceCreatesNoAssigned | src/components/GetAssignedOrders.tsx:283-299 | sending an offered status never makes the list contain an assigned order where it had none |
| Workflow.AvailabilityToggle | src/components/GetAssignedOrders.tsx:257-277 | no button while the flag is absent; otherwise the button sends the opposite of the current flag |
| Workflow.ToggleTwice | src/components/GetAssignedOrders.tsx:257-277 | pressing the offered button and then the newly offered one restores the original flag |
| Workflow.WithItemAvailability | src/components/GetAssignedOrders.tsx:187-191 | every item keeps its place and all its fields except the flag; exactly the items with the matching product id take the new flag |
| Workflow.WithAvailability | src/components/GetAssignedOrders.tsx:182-195 | only the matching order's items change; every other order, and every other field of the matching one, is unchanged |
| Workflow.WithAvailabilityKeepsDecision | src/components/GetAssignedOrders.tsx:182-195 | `Decide` gives the same result on the list before and after an availability update, for any previous ids, because statuses and ids are untouched |
| Workflow.AdjustedTotal | src/components/GetAssignedOrders.tsx:228 | the shown total is the total less the 22 fee, and never below zero |
| Workflow.AdjustedTotalBounds | src/components/GetAssignedOrders.tsx:228 | for a non-negative total the shown total never exceeds it and grows with it |
| AssignedOrders.AvailabilityNotice | src/components/GetAssignedOrders.tsx:197-203 | the alert's title is "Success" exactly when the server accepted the change, and then names the new state |
| AssignedOrders.AssignedOrdersScreen.constructor | src/components/GetAssignedOrders.tsx:90-93 | the screen starts with no orders, no remembered ids and no error |
| AssignedOrders.AssignedOrdersScreen.FetchOrders | src/components/GetAssignedOrders.tsx:95-137 | on success the list becomes the sorted fetch, the remembered ids become its ids, the alarm calls are `Decide` of the fetch against the old ids, and the alarm ends in `AfterPoll` of its old state; on failure only the error is set |
| AssignedOrders.AssignedOrdersScreen.HandleStatusUpdate | src/components/GetAssignedOrders.tsx:140-153 | on success the list becomes `WithStatus` of the old list and nothing else changes; on failure only the error is set |
| AssignedOrders.AssignedOrdersScreen.UpdateProductAvailability | src/components/GetAssignedOrders.tsx:170-205 | on success the list becomes `WithAvailability` of the old list; a failure changes nothing; the error is never set; the alert is `AvailabilityNotice` |
| AssignedOrders.AssignedOrdersScreen.Teardown | src/components/GetAssignedOrders.tsx:210-213 | leaving the screen stops the alarm unconditionally, which leaves it silent and not vibrating |
| AssignedOrders.IntervalDecide | src/components/GetAssignedOrders.tsx:207-214 | as the effect is written, every interval poll decides against the empty id list, so it triggers exactly when any order is assigned |
| AssignedOrders.StaleClosureRetriggers | src/components/GetAssignedOrders.tsx:207-214 | one assigned order polled twice: as written the second poll triggers again, and with a sound that fails to load it creates a second sound; with the previous poll's ids it does not trigger |
| AssignedOrders.PollingScenario | src/components/GetAssignedOrders.tsx:95-137 | from a fresh alarm: a new assigned order starts the alarm with one sound; the same order polled again leaves the alarm exactly as it was; once the order moves on to its next status the next poll silences it |

## Left out

- The HTTP calls (`axios.get`, `axios.put`), their URLs and credentials are not modelled. Each call is an input saying whether it succeeded and, for the poll, which orders came back.
- The platform check and the `PermissionsAndroid` request are one boolean input (`granted`). The "Permission Denied" alert is reported only as the `PermissionDenied` outcome.
- Sound loading is a boolean input (`loaded`), and the asynchronous load callback is treated as if it ran before the next alarm call.
- The `stop()` completion callback is treated as if it always runs, so stopping an existing sound releases it and clears the flag straight away.
- AlarmControl.Trigger: the vibration pattern and its repeat flag are not modelled; the model records only whether the vibrator runs.
- Text.ToLower: lower-cases ASCII letters only. This decides every comparison the screen makes, against "assigned" and "confirmed", exactly as full Unicode `toLowerCase` would: no other character lower-cases to a string made of those letters.
- Snapshot.SortNewestFirst: `createdAt` is modelled as the already-parsed millisecond timestamp. Date strings that fail to parse (`NaN` in the comparator) are not modelled.
- Workflow.AdjustedTotal: amounts are integers, while the source uses JavaScript numbers, which can be fractional.
- The `loading` flag is not modelled; it only drives the "Loading..." text.
- Overlapping polls are not modelled. Nothing in the code prevents two polls from running at once, but each poll here is one atomic `FetchOrders` call. Two cases are therefore lost:
  - two polls can both reach `triggerAlarm` before the first sound's load callback sets `isAlarmPlaying` (lines 66-76, 123), which creates two sounds;
  - an older GET can finish after a newer one and overwrite its list and ids.
- A poll that finishes after the screen has been left is not modelled. React ignores that poll's `setOrders` and `setPrevOrderIds`, but its `triggerAlarm` still changes the module-level alarm. The clean-up has already run `stopAlarm` (line 212), so a late trigger leaves the alarm sounding with nothing left to stop it.
- The ten-second `setInterval` timing and React's batching of state updates are not modelled. Each poll is one atomic method call; IntervalDecide models only which `prevOrderIds` the interval's polls read.
- The rendering is not modelled: the card layout, `getStatusStyle`'s colours, the date formatting and `console` logging.
- The other screens and files of the app (login, registration, logout, the customer's own orders, navigation, `App.tsx`, the Android activity) are not part of this model.

## Findings

| source | as written | input that shows it | evidently intended | confidence | as-written member | corrected member |
|---|---|---|---|---|---|---|
| src/components/GetAssignedOrders.tsx:207-214 | The effect runs once with empty dependencies, so `setInterval` keeps calling the first render's `fetchOrders`. That closure always reads `prevOrderIds == []`, so every poll that sees an assigned order calls `triggerAlarm` again. | One assigned order returned by two consecutive polls while the sound fails to load (or permission is refused). The second poll triggers again: a second sound is created, or the permission alert is shown again. | Edge triggering against the ids of the previous poll: the second poll does not trigger. | not executed; follows from how closures capture React state | AssignedOrders.IntervalDecide, AssignedOrders.StaleClosureRetriggers | AssignedOrders.AssignedOrdersScreen.FetchOrders, Snapshot.RefetchDoesNotTrigger |
