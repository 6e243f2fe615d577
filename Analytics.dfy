/** The append-only analytics log of src/services/analytics.ts and its report. */
module AnalyticsLog {
  import opened Types
  import opened Folds

  /** One tracked event; `eventLabel` is the optional `label` (a Dafny keyword), and
      `timestamp` is the event's `Date` as milliseconds. */
  datatype AnalyticsEvent = AnalyticsEvent(
    category: string,
    action: string,
    eventLabel: Option<string>,
    value: Option<int>,
    timestamp: int)

  datatype Summary = Summary(totalEvents: nat, categoryCounts: map<string, int>)

  datatype AnalyticsReport = AnalyticsReport(events: seq<AnalyticsEvent>, summary: Summary)

  predicate AnyEvent(e: AnalyticsEvent) { true }
  function CategoryOf(e: AnalyticsEvent): string { e.category }
  function OneEvent(e: AnalyticsEvent): int { 1 }

  /** The `reduce` that counts events per category. */
  function CategoryCounts(events: seq<AnalyticsEvent>): map<string, int> {
    GroupSum(events, AnyEvent, CategoryOf, OneEvent)
  }

  /** Number of logged events with category `c`. */
  function CountInCategory(events: seq<AnalyticsEvent>, c: string): int {
    KeySum(events, AnyEvent, CategoryOf, OneEvent, c)
  }

  /** Some logged event has category `c`. */
  ghost predicate Logged(events: seq<AnalyticsEvent>, c: string) {
    exists i :: 0 <= i < |events| && events[i].category == c
  }

  /** Counting one per event adds up to the number of events. */
  lemma {:induction false} CountAll(events: seq<AnalyticsEvent>)
    ensures KeptSum(events, AnyEvent, OneEvent) == |events|
    decreases |events|
  {
    if events != [] {
      CountAll(events[..|events| - 1]);
    }
  }

  /** A category has a key exactly when it was logged, its value is the number of its
      events, and the values add up to the number of events. */
  lemma CategoryCountsSpec(events: seq<AnalyticsEvent>)
    ensures forall c :: c in CategoryCounts(events) <==> Logged(events, c)
    ensures forall c :: Lookup(CategoryCounts(events), c) == CountInCategory(events, c)
    ensures MapSum(CategoryCounts(events)) == |events|
  {
    forall c
      ensures c in CategoryCounts(events) <==> Logged(events, c)
      ensures Lookup(CategoryCounts(events), c) == CountInCategory(events, c)
    {
      GroupSumAt(events, AnyEvent, CategoryOf, OneEvent, c);
      if Logged(events, c) {
        var i :| 0 <= i < |events| && events[i].category == c;
        assert AnyEvent(events[i]) && CategoryOf(events[i]) == c;
      }
    }
    GroupSumTotal(events, AnyEvent, CategoryOf, OneEvent);
    CountAll(events);
  }

  /** A category's count is between 1 and the number of events when it was logged, and
      0 otherwise. */
  lemma {:induction false} CountInCategoryBounds(events: seq<AnalyticsEvent>, c: string)
    ensures 0 <= CountInCategory(events, c) <= |events|
    ensures CountInCategory(events, c) > 0 <==> Logged(events, c)
    decreases |events|
  {
    if events != [] {
      var init := events[..|events| - 1];
      CountInCategoryBounds(init, c);
      if Logged(init, c) {
        var i :| 0 <= i < |init| && init[i].category == c;
        assert events[i] == init[i];
      }
      if Logged(events, c) && events[|events| - 1].category != c {
        var i :| 0 <= i < |events| && events[i].category == c;
        assert init[i] == events[i];
      }
    }
  }

  /** Tracking an event raises the count of its category by one and leaves every other
      category's count as it was. */
  lemma {:induction false} TrackedCounts(events: seq<AnalyticsEvent>, e: AnalyticsEvent, c: string)
    ensures CountInCategory(events + [e], c) == CountInCategory(events, c) + (if e.category == c then 1 else 0)
  {
    assert (events + [e])[..|events + [e]| - 1] == events;
  }

  class Analytics {
    var events: seq<AnalyticsEvent>

    /** A new log is empty. */
    constructor()
      ensures events == []
    {
      events := [];
    }

    /** `events.push(event)`: the event goes at the end and nothing before it changes. */
    method TrackEvent(event: AnalyticsEvent)
      modifies this
      ensures events == old(events) + [event]
    {
      events := events + [event];
    }

    /** The log in insertion order, its length, and the count per logged category. The
        report is computed from the log without changing it. */
    function GenerateReport(): (r: AnalyticsReport)
      reads this
      ensures r.events == events
      ensures r.summary.totalEvents == |events|
      ensures forall c :: c in r.summary.categoryCounts <==> Logged(events, c)
      ensures forall c :: c in r.summary.categoryCounts ==>
        r.summary.categoryCounts[c] == CountInCategory(events, c) && r.summary.categoryCounts[c] >= 1
      ensures MapSum(r.summary.categoryCounts) == r.summary.totalEvents
    {
      CategoryCountsSpec(events);
      var counts := CategoryCounts(events);
      assert forall c :: c in counts ==> counts[c] >= 1 by {
        forall c | c in counts ensures counts[c] >= 1 {
          CountInCategoryBounds(events, c);
        }
      }
      AnalyticsReport(events, Summary(|events|, counts))
    }
  }
}
