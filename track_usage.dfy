/**
 * The usage log (app/actions/trackUsage.ts): an append-only list of events used to decide
 * refund eligibility. `storeFails` stands for the database rejecting the insert, which the
 * action catches.
 */
module TrackUsage {
  import opened Wrappers
  import opened Text
  import opened Store
  import opened Auth

  /** The default of `hasConsumedContent`'s `threshold`. */
  const DefaultThreshold: int := 3

  /** `usageEvent.count({ where: { userId } })`, counted from the end of the log. */
  function UsageCount(events: seq<UsageEvent>, userId: string): (count: nat)
    ensures count <= |events|
  {
    if events == [] then 0
    else UsageCount(events[..|events| - 1], userId) + (if events[|events| - 1].userId == userId then 1 else 0)
  }

  /** The positions of `userId`'s events in the log. */
  ghost function EventsOf(events: seq<UsageEvent>, userId: string): set<nat> {
    set i: nat | i < |events| && events[i].userId == userId
  }

  /** The count is the number of logged events whose user id is `userId`. */
  lemma {:induction false} UsageCountIsNumberOfEvents(events: seq<UsageEvent>, userId: string)
    ensures UsageCount(events, userId) == |EventsOf(events, userId)|
  {
    if events != [] {
      var n := |events| - 1;
      var prefix := events[..n];
      UsageCountIsNumberOfEvents(prefix, userId);
      if events[n].userId == userId {
        assert EventsOf(events, userId) == EventsOf(prefix, userId) + {n};
        assert n !in EventsOf(prefix, userId);
      } else {
        assert EventsOf(events, userId) == EventsOf(prefix, userId);
      }
    }
  }

  /** Appending one event raises its user's count by one and leaves every other count alone. */
  lemma UsageCountAppend(events: seq<UsageEvent>, e: UsageEvent, userId: string)
    ensures UsageCount(events + [e], userId) == UsageCount(events, userId) + (if e.userId == userId then 1 else 0)
  {
    assert (events + [e])[..|events|] == events;
  }

  /**
   * `hasConsumedContent`: the user's count has reached the threshold, 3 unless given;
   * that is, the user has at least `threshold` events in the log.
   */
  predicate HasConsumedContent(events: seq<UsageEvent>, userId: string, threshold: int := DefaultThreshold)
    ensures HasConsumedContent(events, userId, threshold) <==> |EventsOf(events, userId)| >= threshold
  {
    UsageCountIsNumberOfEvents(events, userId);
    UsageCount(events, userId) >= threshold
  }

  /** The log only grows, so once content counts as consumed it stays consumed. */
  lemma {:induction false} ConsumedStaysConsumed(events: seq<UsageEvent>, more: seq<UsageEvent>,
                                                 userId: string, threshold: int)
    requires HasConsumedContent(events, userId, threshold)
    ensures HasConsumedContent(events + more, userId, threshold)
    decreases |more|
  {
    if more != [] {
      var last := more[|more| - 1];
      var init := more[..|more| - 1];
      ConsumedStaysConsumed(events, init, userId, threshold);
      UsageCountAppend(events + init, last, userId);
      assert events + init + [last] == events + more;
    } else {
      assert events + more == events;
    }
  }

  /**
   * `trackUsage` for the session's user id: signed out it reports failure and logs
   * nothing; a failing insert also reports failure and logs nothing; otherwise exactly
   * one event is appended, with the metadata when it was given and null otherwise, and
   * only that user's count rises, by one.
   */
  method TrackUsage(db: Database, session: SessionCookie, event: string, slug: string,
                    metadata: Option<map<string, string>>, storeFails: bool)
    returns (ok: bool)
    modifies db`usageEvents
    ensures !Truthy(session.GetSessionUserId()) || storeFails ==>
              !ok && db.usageEvents == old(db.usageEvents)
    ensures Truthy(session.GetSessionUserId()) && !storeFails ==>
              var userId := session.GetSessionUserId().value;
              && ok
              && db.usageEvents == old(db.usageEvents) + [UsageEvent(userId, event, slug, metadata)]
              && UsageCount(db.usageEvents, userId) == UsageCount(old(db.usageEvents), userId) + 1
              && forall other :: other != userId ==>
                   UsageCount(db.usageEvents, other) == UsageCount(old(db.usageEvents), other)
  {
    var userId := session.GetSessionUserId();
    if !Truthy(userId) {
      return false;
    }
    if storeFails {
      return false;
    }
    var e := UsageEvent(userId.value, event, slug, metadata);
    forall other {
      UsageCountAppend(db.usageEvents, e, other);
    }
    db.usageEvents := db.usageEvents + [e];
    ok := true;
  }
}
