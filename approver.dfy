/**
 The round-trip approver. For one round trip of a batch it scans the event
 histories of all round trips of that batch for the manual-QA flag, takes the
 number of the round trip found flagged (0 when none is), and compares the
 current round trip with it: equal means approved, smaller means superseded
 by a later approval, larger means preceded by an earlier approval, in which
 case the current round trip is also stopped by an event in its own history.

 The scan overwrites its result on every flagged round trip, so it finds the
 LAST flagged round trip in list order (LastQAFlagged). It agrees with the
 greatest flagged round trip (MaxQAFlagged) when the list is sorted by
 round-trip number, the order the doc comment of getMaxRoundtripQAFlagged
 requires (RoundtripApproverComponent.java:68, relied on at line 73).
 */
module RoundtripApprover {
  import opened Autonomous
  import Decimal

  /** The event that marks a round trip as flagged for manual QA. */
  const QaFlaggedEventID := "Manual_QA_Flagged"
  /** The event written to stop a round trip that came after an approved one. */
  const ManuallyStoppedEventID := "Manually_Stopped"
  const StoppedDetails := "An earlier Roundtrip for this batch has already been approved."
  /** The simple class name the component reports under and writes events as. */
  const ComponentName := "RoundtripApproverComponent"
  const FailureType := "exception"

  // ---------------------------------------------------------------------
  // Which round trips are flagged

  predicate HasQAFlag(events: seq<Event>) {
    exists k :: 0 <= k < |events| && events[k].eventID == QaFlaggedEventID
  }

  predicate IsQAFlagged(roundtrip: Batch) {
    HasQAFlag(roundtrip.eventList)
  }

  predicate SomeQAFlagged(roundtrips: seq<Batch>) {
    exists i :: 0 <= i < |roundtrips| && IsQAFlagged(roundtrips[i])
  }

  /** Position `i` holds the last flagged round trip of the list. */
  predicate IsLastQAFlaggedAt(roundtrips: seq<Batch>, i: int) {
    && 0 <= i < |roundtrips|
    && IsQAFlagged(roundtrips[i])
    && forall j :: i < j < |roundtrips| ==> !IsQAFlagged(roundtrips[j])
  }

  /** Ascending by round-trip number, the order the scan's doc comment requires of its argument. */
  predicate SortedByRoundTrip(roundtrips: seq<Batch>) {
    forall i, j :: 0 <= i < j < |roundtrips| ==> roundtrips[i].roundTripNumber <= roundtrips[j].roundTripNumber
  }

  // ---------------------------------------------------------------------
  // What the scan computes, and what it is meant to compute

  /**
   The value the scan leaves behind: the number of the last flagged round
   trip in list order, 0 when no round trip is flagged.
   */
  function LastQAFlagged(roundtrips: seq<Batch>): (r: int)
    ensures !SomeQAFlagged(roundtrips) ==> r == 0
    ensures SomeQAFlagged(roundtrips) ==>
      exists i :: IsLastQAFlaggedAt(roundtrips, i) && r == roundtrips[i].roundTripNumber
  {
    if |roundtrips| == 0 then 0
    else
      var n := |roundtrips| - 1;
      if IsQAFlagged(roundtrips[n]) then
        assert IsLastQAFlaggedAt(roundtrips, n);
        roundtrips[n].roundTripNumber
      else
        var r := LastQAFlagged(roundtrips[..n]);
        UnflaggedLastStep(roundtrips);
        if SomeQAFlagged(roundtrips[..n]) then
          var i :| IsLastQAFlaggedAt(roundtrips[..n], i) && r == roundtrips[..n][i].roundTripNumber;
          UnflaggedLastKeepsLastAt(roundtrips, i);
          r
        else
          r
  }

  /** With the last round trip unflagged, some round trip is flagged iff one before it is. */
  lemma UnflaggedLastStep(roundtrips: seq<Batch>)
    requires |roundtrips| > 0 && !IsQAFlagged(roundtrips[|roundtrips| - 1])
    ensures SomeQAFlagged(roundtrips) == SomeQAFlagged(roundtrips[..|roundtrips| - 1])
  {
    var p := roundtrips[..|roundtrips| - 1];
    if SomeQAFlagged(roundtrips) {
      var i :| 0 <= i < |roundtrips| && IsQAFlagged(roundtrips[i]);
      assert p[i] == roundtrips[i];
    }
    if SomeQAFlagged(p) {
      var i :| 0 <= i < |p| && IsQAFlagged(p[i]);
      assert p[i] == roundtrips[i];
    }
  }

  /** With the last round trip unflagged, the last flagged one before it is the last flagged one. */
  lemma UnflaggedLastKeepsLastAt(roundtrips: seq<Batch>, i: int)
    requires |roundtrips| > 0 && !IsQAFlagged(roundtrips[|roundtrips| - 1])
    requires IsLastQAFlaggedAt(roundtrips[..|roundtrips| - 1], i)
    ensures IsLastQAFlaggedAt(roundtrips, i)
  {
    var p := roundtrips[..|roundtrips| - 1];
    assert forall j :: 0 <= j < |p| ==> p[j] == roundtrips[j];
  }

  /** `m` is the greatest number of a flagged round trip, or 0 when none is flagged. */
  predicate IsMaxQAFlagged(roundtrips: seq<Batch>, m: int) {
    if SomeQAFlagged(roundtrips) then
      && (exists i :: 0 <= i < |roundtrips| && IsQAFlagged(roundtrips[i]) && roundtrips[i].roundTripNumber == m)
      && (forall i :: 0 <= i < |roundtrips| && IsQAFlagged(roundtrips[i]) ==> roundtrips[i].roundTripNumber <= m)
    else
      m == 0
  }

  /** The highest round trip flagged for manual QA, whatever the order of the list. */
  function MaxQAFlagged(roundtrips: seq<Batch>): (m: int)
    ensures IsMaxQAFlagged(roundtrips, m)
  {
    if |roundtrips| == 0 then 0
    else
      var n := |roundtrips| - 1;
      var rest := MaxQAFlagged(roundtrips[..n]);
      assert forall i :: 0 <= i < n ==> roundtrips[..n][i] == roundtrips[i];
      if !IsQAFlagged(roundtrips[n]) then rest
      else if !SomeQAFlagged(roundtrips[..n]) then roundtrips[n].roundTripNumber
      else if rest < roundtrips[n].roundTripNumber then roundtrips[n].roundTripNumber
      else rest
  }

  /** There is one greatest flagged number. */
  lemma MaxQAFlaggedUnique(roundtrips: seq<Batch>, a: int, b: int)
    requires IsMaxQAFlagged(roundtrips, a) && IsMaxQAFlagged(roundtrips, b)
    ensures a == b
  {
    if SomeQAFlagged(roundtrips) {
      var i :| 0 <= i < |roundtrips| && IsQAFlagged(roundtrips[i]) && roundtrips[i].roundTripNumber == a;
      var j :| 0 <= j < |roundtrips| && IsQAFlagged(roundtrips[j]) && roundtrips[j].roundTripNumber == b;
      assert a <= b && b <= a;
    }
  }

  /** On a list sorted by round-trip number, the last flagged round trip is the highest one. */
  lemma {:induction false} LastIsMaxWhenSorted(roundtrips: seq<Batch>)
    requires SortedByRoundTrip(roundtrips)
    ensures LastQAFlagged(roundtrips) == MaxQAFlagged(roundtrips)
  {
    var r := LastQAFlagged(roundtrips);
    if SomeQAFlagged(roundtrips) {
      var i :| IsLastQAFlaggedAt(roundtrips, i) && r == roundtrips[i].roundTripNumber;
      forall j | 0 <= j < |roundtrips| && IsQAFlagged(roundtrips[j])
        ensures roundtrips[j].roundTripNumber <= r
      {
        assert j <= i;
      }
      assert IsMaxQAFlagged(roundtrips, r);
    }
    MaxQAFlaggedUnique(roundtrips, r, MaxQAFlagged(roundtrips));
  }

  /**
   Out of order, the scan reports the last flagged round trip and not the
   highest: round trip 2 flagged, then round trip 1 flagged, gives 1.
   */
  lemma UnsortedScanIsNotMax(flag: Event)
    requires flag.eventID == QaFlaggedEventID
    ensures var roundtrips := [Batch("b", 2, "B-RT2", [flag]), Batch("b", 1, "B-RT1", [flag])];
            LastQAFlagged(roundtrips) == 1 && MaxQAFlagged(roundtrips) == 2
  {
    var roundtrips := [Batch("b", 2, "B-RT2", [flag]), Batch("b", 1, "B-RT1", [flag])];
    assert roundtrips[0].eventList[0] == flag && roundtrips[1].eventList[0] == flag;
    assert IsQAFlagged(roundtrips[0]) && IsQAFlagged(roundtrips[1]);
    assert roundtrips[..1] == [roundtrips[0]];
  }

  /** The scan looks at each round trip only through its number and whether it is flagged. */
  lemma {:induction false} ScanSeesOnlyFlags(a: seq<Batch>, b: seq<Batch>)
    requires |a| == |b|
    requires forall i :: 0 <= i < |a| ==>
      a[i].roundTripNumber == b[i].roundTripNumber && IsQAFlagged(a[i]) == IsQAFlagged(b[i])
    ensures LastQAFlagged(a) == LastQAFlagged(b)
  {
    if |a| > 0 {
      var n := |a| - 1;
      ScanSeesOnlyFlags(a[..n], b[..n]);
    }
  }

  /** `events` with `e` inserted at position `k`. */
  function InsertAt(events: seq<Event>, k: nat, e: Event): seq<Event>
    requires k <= |events|
  {
    events[..k] + [e] + events[k..]
  }

  /** Inserting an event changes whether a history is flagged only when it is the first flag. */
  lemma InsertKeepsFlag(events: seq<Event>, k: nat, e: Event)
    requires k <= |events|
    requires e.eventID != QaFlaggedEventID || HasQAFlag(events)
    ensures HasQAFlag(InsertAt(events, k, e)) == HasQAFlag(events)
  {
    var ins := InsertAt(events, k, e);
    if HasQAFlag(ins) {
      var m :| 0 <= m < |ins| && ins[m].eventID == QaFlaggedEventID;
      if m < k {
        assert events[m] == ins[m];
      } else if m > k {
        assert events[m - 1] == ins[m];
      }
    }
    if HasQAFlag(events) {
      var m :| 0 <= m < |events| && events[m].eventID == QaFlaggedEventID;
      if m < k {
        assert ins[m] == events[m];
      } else {
        assert ins[m + 1] == events[m];
      }
    }
  }

  /**
   Adding an event other than the QA flag to any round trip's history, or
   another QA flag to a round trip already flagged, leaves the scan's result
   as it was.
   */
  lemma OtherEventsDoNotMatter(roundtrips: seq<Batch>, i: nat, k: nat, e: Event)
    requires i < |roundtrips| && k <= |roundtrips[i].eventList|
    requires e.eventID != QaFlaggedEventID || IsQAFlagged(roundtrips[i])
    ensures var changed := roundtrips[i := roundtrips[i].(eventList := InsertAt(roundtrips[i].eventList, k, e))];
            LastQAFlagged(changed) == LastQAFlagged(roundtrips)
  {
    var changed := roundtrips[i := roundtrips[i].(eventList := InsertAt(roundtrips[i].eventList, k, e))];
    InsertKeepsFlag(roundtrips[i].eventList, k, e);
    ScanSeesOnlyFlags(roundtrips, changed);
  }

  /**
   The scan itself, `getMaxRoundtripQAFlagged`: for every round trip, for
   every event, a QA flag overwrites the result with the round trip's number.
   */
  method GetMaxRoundtripQAFlagged(roundtrips: seq<Batch>) returns (max: int)
    ensures max == LastQAFlagged(roundtrips)
  {
    max := 0;
    for i := 0 to |roundtrips|
      invariant max == LastQAFlagged(roundtrips[..i])
    {
      var roundtrip := roundtrips[i];
      for j := 0 to |roundtrip.eventList|
        invariant max == if HasQAFlag(roundtrip.eventList[..j]) then roundtrip.roundTripNumber
                         else LastQAFlagged(roundtrips[..i])
      {
        if roundtrip.eventList[j].eventID == QaFlaggedEventID {
          max := roundtrip.roundTripNumber;
        }
        assert roundtrip.eventList[..j + 1][..j] == roundtrip.eventList[..j];
      }
      assert roundtrip.eventList[..|roundtrip.eventList|] == roundtrip.eventList;
      assert roundtrips[..i + 1][..i] == roundtrips[..i];
    }
    assert roundtrips[..|roundtrips|] == roundtrips;
  }

  // ---------------------------------------------------------------------
  // The decision

  /** The three ways a round trip can come out, with the approved round trip it was measured against. */
  datatype Outcome = Approved | Superseded(approvedRoundTrip: int) | Preceded(approvedRoundTrip: int)

  /** Compares the current round trip with the flagged one; exactly one outcome applies. */
  function Decide(roundTripNumber: int, maxQaFlagged: int): (o: Outcome)
    ensures o.Approved? <==> roundTripNumber == maxQaFlagged
    ensures o.Superseded? <==> roundTripNumber < maxQaFlagged
    ensures o.Preceded? <==> roundTripNumber > maxQaFlagged
    ensures !o.Approved? ==> o.approvedRoundTrip == maxQaFlagged
  {
    if roundTripNumber == maxQaFlagged then Approved
    else if roundTripNumber < maxQaFlagged then Superseded(maxQaFlagged)
    else Preceded(maxQaFlagged)
  }

  /**
   On a history sorted by round-trip number, a round trip is approved exactly
   when it is the highest flagged one, or has number 0 when nothing is flagged.
   */
  lemma ApprovedMeaning(roundtrips: seq<Batch>, n: int)
    requires SortedByRoundTrip(roundtrips)
    ensures Decide(n, LastQAFlagged(roundtrips)).Approved? <==> IsMaxQAFlagged(roundtrips, n)
  {
    LastIsMaxWhenSorted(roundtrips);
    if IsMaxQAFlagged(roundtrips, n) {
      MaxQAFlaggedUnique(roundtrips, n, MaxQAFlagged(roundtrips));
    }
  }

  /**
   On a history sorted by round-trip number, a round trip is superseded exactly
   when a higher round trip is flagged (or, with nothing flagged, its number is
   below the sentinel 0).
   */
  lemma SupersededMeaning(roundtrips: seq<Batch>, n: int)
    requires SortedByRoundTrip(roundtrips)
    ensures Decide(n, LastQAFlagged(roundtrips)).Superseded? <==>
      (exists j :: 0 <= j < |roundtrips| && IsQAFlagged(roundtrips[j]) && roundtrips[j].roundTripNumber > n)
      || (!SomeQAFlagged(roundtrips) && n < 0)
  {
    LastIsMaxWhenSorted(roundtrips);
    var m := MaxQAFlagged(roundtrips);
    if SomeQAFlagged(roundtrips) {
      var i :| 0 <= i < |roundtrips| && IsQAFlagged(roundtrips[i]) && roundtrips[i].roundTripNumber == m;
    }
  }

  /**
   On a history sorted by round-trip number, a round trip is preceded exactly
   when every flagged round trip is lower (and, with nothing flagged, its
   number is above the sentinel 0).
   */
  lemma PrecededMeaning(roundtrips: seq<Batch>, n: int)
    requires SortedByRoundTrip(roundtrips)
    ensures Decide(n, LastQAFlagged(roundtrips)).Preceded? <==>
      (forall j :: 0 <= j < |roundtrips| && IsQAFlagged(roundtrips[j]) ==> roundtrips[j].roundTripNumber < n)
      && (SomeQAFlagged(roundtrips) || n > 0)
  {
    LastIsMaxWhenSorted(roundtrips);
    var m := MaxQAFlagged(roundtrips);
    if SomeQAFlagged(roundtrips) {
      var i :| 0 <= i < |roundtrips| && IsQAFlagged(roundtrips[i]) && roundtrips[i].roundTripNumber == m;
    }
  }

  // ---------------------------------------------------------------------
  // Reporting

  const SupersededPrefix := "Round trip is superseded by a later round trip (RT"
  const SupersededSuffix := ") which is approved."
  const PrecededPrefix := "Round trip is preceded by an earlier round trip (RT"
  const PrecededSuffix := ") which has been approved."

  /**
   The failure text for a superseded round trip: the fixed wording with the
   approved round trip's number, rendered as Java renders an `int`, after "RT".
   */
  function SupersededMessage(approved: int): (m: string)
    ensures |m| > |SupersededPrefix| + |SupersededSuffix|
    ensures m[..|SupersededPrefix|] == SupersededPrefix
    ensures m[|m| - |SupersededSuffix|..] == SupersededSuffix
    ensures m[|SupersededPrefix|..|m| - |SupersededSuffix|] == Decimal.IntToDecimal(approved)
  {
    SupersededPrefix + Decimal.IntToDecimal(approved) + SupersededSuffix
  }

  /**
   The failure text for a preceded round trip: the fixed wording with the
   approved round trip's number, rendered as Java renders an `int`, after "RT".
   */
  function PrecededMessage(approved: int): (m: string)
    ensures |m| > |PrecededPrefix| + |PrecededSuffix|
    ensures m[..|PrecededPrefix|] == PrecededPrefix
    ensures m[|m| - |PrecededSuffix|..] == PrecededSuffix
    ensures m[|PrecededPrefix|..|m| - |PrecededSuffix|] == Decimal.IntToDecimal(approved)
  {
    PrecededPrefix + Decimal.IntToDecimal(approved) + PrecededSuffix
  }

  lemma FramedEqual(p: string, x: string, y: string, s: string)
    requires p + x + s == p + y + s
    ensures x == y
  {
    assert |x| == |y|;
    assert x == (p + x + s)[|p|..|p| + |x|];
    assert y == (p + y + s)[|p|..|p| + |y|];
  }

  /** A superseded failure names the approved round trip it reports: different numbers give different messages. */
  lemma SupersededMessageNamesRoundTrip(a: int, b: int)
    ensures SupersededMessage(a) == SupersededMessage(b) ==> a == b
  {
    if SupersededMessage(a) == SupersededMessage(b) {
      FramedEqual(SupersededPrefix, Decimal.IntToDecimal(a), Decimal.IntToDecimal(b), SupersededSuffix);
      Decimal.IntToDecimalInjective(a, b);
    }
  }

  /** A preceded failure names the approved round trip it reports: different numbers give different messages. */
  lemma PrecededMessageNamesRoundTrip(a: int, b: int)
    ensures PrecededMessage(a) == PrecededMessage(b) ==> a == b
  {
    if PrecededMessage(a) == PrecededMessage(b) {
      FramedEqual(PrecededPrefix, Decimal.IntToDecimal(a), Decimal.IntToDecimal(b), PrecededSuffix);
      Decimal.IntToDecimalInjective(a, b);
    }
  }

  /**
   `doWorkOnBatch` from the point where the history of the batch is known:
   scan it, compare, and report. Approval has no effect; a superseded round
   trip gets one failure; a preceded round trip gets one failure and one
   "Manually_Stopped" event in its own history. The outcome is returned so
   that callers can see which branch was taken.
   */
  method DoWorkOnBatch(batch: Batch, allRoundTrips: seq<Batch>, now: Timestamp,
                       storage: EventStore, resultCollector: ResultCollector) returns (outcome: Outcome)
    modifies storage, resultCollector
    ensures outcome == Decide(batch.roundTripNumber, LastQAFlagged(allRoundTrips))
    ensures outcome.Approved? ==>
      && resultCollector.failures == old(resultCollector.failures)
      && storage.log == old(storage.log)
    ensures outcome.Superseded? ==>
      && resultCollector.failures == old(resultCollector.failures)
           + [Failure(batch.fullID, FailureType, ComponentName, SupersededMessage(outcome.approvedRoundTrip))]
      && storage.log == old(storage.log)
    ensures outcome.Preceded? ==>
      && resultCollector.failures == old(resultCollector.failures)
           + [Failure(batch.fullID, FailureType, ComponentName, PrecededMessage(outcome.approvedRoundTrip))]
      && storage.log == old(storage.log)
           + [StoredEvent(batch.batchID, batch.roundTripNumber, ComponentName,
                          Event(ManuallyStoppedEventID, now, StoppedDetails, true))]
  {
    var maxQaFlagged := GetMaxRoundtripQAFlagged(allRoundTrips);
    if batch.roundTripNumber == maxQaFlagged {
      outcome := Approved;
    } else if batch.roundTripNumber < maxQaFlagged {
      resultCollector.AddFailure(batch.fullID, FailureType, ComponentName, SupersededMessage(maxQaFlagged));
      outcome := Superseded(maxQaFlagged);
    } else {
      resultCollector.AddFailure(batch.fullID, FailureType, ComponentName, PrecededMessage(maxQaFlagged));
      storage.AddEventToBatch(batch.batchID, batch.roundTripNumber, ComponentName, now,
                              StoppedDetails, ManuallyStoppedEventID, true);
      outcome := Preceded(maxQaFlagged);
    }
  }
}
