# Round-trip approver, modelled in Dafny

This project models the decision that the newspaper round-trip approver makes
for one round trip of a batch. A round trip is one scanning or reprocessing
attempt. The component reads the event histories of all round trips of the
batch and finds the round trip flagged with a `Manual_QA_Flagged` event (0 when
none is flagged). It then compares the current round trip with that number.

- **Equal:** the round trip is approved, and nothing else happens.
- **Smaller:** one failure is reported: the round trip is superseded by a later, approved round trip.
- **Larger:** one failure is reported: the round trip is preceded by an earlier, approved round trip. A `Manually_Stopped` event is also added to the current round trip's own history.

Files:

- `autonomous.dfy` (module `Autonomous`): the records the framework hands
  out (`Event`, `Batch`) and the two collaborators the component changes.
  - `ResultCollector` is a class whose state is its sequence of failures.
  - `EventStore` is the event storage, seen as the log of events appended to it.
- `decimal.dfy` (module `Decimal`): how Java writes an `int` in `"RT" + n`.
  A digit parser is proved to read back the digits of a `nat` (`DecimalRoundTrip`)
  and the digits after the sign of any `int` (`IntDecimalRoundTrip`).
- `approver.dfy` (module `RoundtripApprover`): the component.
  - `GetMaxRoundtripQAFlagged` is the nested scan loop. It is proved equal to the function `LastQAFlagged`.
  - `MaxQAFlagged` is an independent maximum.
  - `Decide` is the pure three-way decision.
  - `DoWorkOnBatch` holds the side effects.

The scan overwrites its result every time it meets a flag, so it returns the
*last* flagged round trip in list order, not the highest. `LastIsMaxWhenSorted`
proves that the two agree when the list is sorted ascending by round-trip
number. That is the order the doc comment of `getMaxRoundtripQAFlagged`
requires (line 68), and the comment at line 73 relies on it. `UnsortedScanIsNotMax` exhibits a list where they
differ, so the result depends on the order of the list. The stop event's ID is
`Manually_Stopped` (line 61).

## Model

| member | source | states |
|---|---|---|
| `RoundtripApprover.GetMaxRoundtripQAFlagged` | src/main/java/dk/statsbiblioteket/newspaper/roundtripapprover/RoundtripApproverComponent.java:71-81 | the nested loop over round trips and their events returns exactly `LastQAFlagged` of the list |
| `RoundtripApprover.LastQAFlagged` | src/main/java/dk/statsbiblioteket/newspaper/roundtripapprover/RoundtripApproverComponent.java:72-80 | with no flagged round trip (an empty list included) the result is 0; otherwise it is the number of a flagged round trip with no flagged round trip after it in the list |
| `RoundtripApprover.MaxQAFlagged` | src/main/java/dk/statsbiblioteket/newspaper/roundtripapprover/RoundtripApproverComponent.java:66-69 | the value the doc comment promises: the number of some flagged round trip that is at least every flagged number, or 0 when none is flagged, for any order of the list |
| `RoundtripApprover.LastIsMaxWhenSorted` | src/main/java/dk/statsbiblioteket/newspaper/roundtripapprover/RoundtripApproverComponent.java:66-80 | on a list sorted ascending by round-trip number, the last flagged round trip found by the scan is the highest flagged one |
| `RoundtripApprover.UnsortedScanIsNotMax` | src/main/java/dk/statsbiblioteket/newspaper/roundtripapprover/RoundtripApproverComponent.java:73-77 | out of order (RT2 flagged, then RT1 flagged) the scan gives 1 while the highest flagged round trip is 2 |
| `RoundtripApprover.ScanSeesOnlyFlags` | src/main/java/dk/statsbiblioteket/newspaper/roundtripapprover/RoundtripApproverComponent.java:73-77 | two lists that agree position by position on round-trip numbers and on being flagged give the same scan result |
| `RoundtripApprover.InsertKeepsFlag` | src/main/java/dk/statsbiblioteket/newspaper/roundtripapprover/RoundtripApproverComponent.java:74-75 | inserting an event anywhere in a history leaves it flagged or unflagged as before, unless the event is the first QA flag |
| `RoundtripApprover.OtherEventsDoNotMatter` | src/main/java/dk/statsbiblioteket/newspaper/roundtripapprover/RoundtripApproverComponent.java:74-77 | inserting an event that is not a QA flag into any round trip, or another QA flag into an already flagged round trip, leaves the scan result unchanged |
| `RoundtripApprover.Decide` | src/main/java/dk/statsbiblioteket/newspaper/roundtripapprover/RoundtripApproverComponent.java:47-62 | exactly one outcome applies: approved iff equal, superseded iff smaller, preceded iff larger; a rejection carries the flagged round-trip number |
| `RoundtripApprover.ApprovedMeaning` | src/main/java/dk/statsbiblioteket/newspaper/roundtripapprover/RoundtripApproverComponent.java:46-48 | on a sorted history, approved iff the round trip is the highest flagged one, or has number 0 with nothing flagged |
| `RoundtripApprover.SupersededMeaning` | src/main/java/dk/statsbiblioteket/newspaper/roundtripapprover/RoundtripApproverComponent.java:46-53 | on a sorted history, superseded iff a higher round trip is flagged, or the number is negative with nothing flagged |
| `RoundtripApprover.PrecededMeaning` | src/main/java/dk/statsbiblioteket/newspaper/roundtripapprover/RoundtripApproverComponent.java:46-61 | on a sorted history, preceded iff every flagged round trip is lower, and the number is above 0 when nothing is flagged |
| `RoundtripApprover.SupersededMessage` | src/main/java/dk/statsbiblioteket/newspaper/roundtripapprover/RoundtripApproverComponent.java:53 | the superseded failure text is the fixed line-53 wording with the decimal rendering of the approved number between "(RT" and ")", so the number can be read off the message |
| `RoundtripApprover.PrecededMessage` | src/main/java/dk/statsbiblioteket/newspaper/roundtripapprover/RoundtripApproverComponent.java:58 | the preceded failure text is the fixed line-58 wording with the decimal rendering of the approved number between "(RT" and ")", so the number can be read off the message |
| `RoundtripApprover.SupersededMessageNamesRoundTrip` | src/main/java/dk/statsbiblioteket/newspaper/roundtripapprover/RoundtripApproverComponent.java:53 | the superseded message determines the round-trip number it names: different numbers give different messages |
| `RoundtripApprover.PrecededMessageNamesRoundTrip` | src/main/java/dk/statsbiblioteket/newspaper/roundtripapprover/RoundtripApproverComponent.java:58 | the preceded message determines the round-trip number it names: different numbers give different messages |
| `RoundtripApprover.DoWorkOnBatch` | src/main/java/dk/statsbiblioteket/newspaper/roundtripapprover/RoundtripApproverComponent.java:45-62 | the outcome is `Decide` of the current number and the scan. Approved: failures and event log unchanged. Superseded: exactly one failure for the batch's full ID naming RT<max>, event log unchanged. Preceded: exactly one failure naming RT<max>, plus exactly one event appended to the current batch ID and round trip (`Manually_Stopped`, the fixed message, the given time, success `true`); nothing else in the log changes |
| `Autonomous.ResultCollector.AddFailure` | src/main/java/dk/statsbiblioteket/newspaper/roundtripapprover/RoundtripApproverComponent.java:50-53 | one failure (reference, type, component, description) is appended; earlier failures are kept |
| `Autonomous.EventStore.AddEventToBatch` | src/main/java/dk/statsbiblioteket/newspaper/roundtripapprover/RoundtripApproverComponent.java:59-61 | one event for the given batch and round trip is appended to the log; earlier entries are kept |
| `Decimal.NatToDecimal` | src/main/java/dk/statsbiblioteket/newspaper/roundtripapprover/RoundtripApproverComponent.java:53 | the rendering of `maxQaFlagged` is a non-empty run of decimal digits without a leading zero |
| `Decimal.IntToDecimal` | src/main/java/dk/statsbiblioteket/newspaper/roundtripapprover/RoundtripApproverComponent.java:58 | the rendering starts with '-' exactly when the number is negative |
| `Decimal.IntDecimalRoundTrip` | src/main/java/dk/statsbiblioteket/newspaper/roundtripapprover/RoundtripApproverComponent.java:53 | for any `int`, the digits after the sign (if any) read back as its absolute value |
| `Decimal.DecimalRoundTrip` | src/main/java/dk/statsbiblioteket/newspaper/roundtripapprover/RoundtripApproverComponent.java:53 | reading back the digits written for a number gives that number |
| `Decimal.IntToDecimalInjective` | src/main/java/dk/statsbiblioteket/newspaper/roundtripapprover/RoundtripApproverComponent.java:58 | different integers are written as different strings |

## Left out

- Building the event storage from the configured URL, user name and password (lines 39-44): this is configuration and network set-up.
- `getAllRoundTrips` (line 45) is a call to the storage service. Its result is the `allRoundTrips` parameter of `DoWorkOnBatch`, which the model does not check against the batch ID.
- `addEventToBatch` (lines 59-61) is a call to the storage service. The model appends to `EventStore.log` instead. Failures of the service (exceptions) are not modelled.
- Other exceptions that `doWorkOnBatch` can throw (it is declared `throws Exception`, line 37) are not modelled. A failing `getAllRoundTrips` (line 45) throws before any effect. A null event list or null event ID throws a `NullPointerException` at lines 74-75; the model's `seq<Event>` and `string` cannot be null.
- `new Date()` (line 60) is the wall-clock time; it is the `now` parameter.
- Logging (lines 23, 38, 48) has no observable effect. The approved branch is an empty branch.
- The framework base class, the constructor and `getEventID`/`ROUNDTRIP_APPROVED_EVENT` (lines 21-34) are framework plumbing.
- `Batch.getFullID` belongs to the framework library, which is not part of this model. The full ID is carried as the `fullID` field of `Batch`.
- `getClass().getSimpleName()` is the constant `ComponentName`.
- Round-trip numbers are Java `int`s. They are only compared, never computed with, so they are modelled as unbounded `int`.
- `DoWorkOnBatch` returns the `Outcome`. The source returns nothing; the outcome only makes the branch visible and adds no behaviour.
- Concurrent evaluation of round trips of the same batch is the host framework's concern. The source has no locking.
