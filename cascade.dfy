/**
 * The deactivation cascade of app.py.
 *
 * After a selection is settled or switched off, the store runs
 *   UPDATE events SET active = 0 WHERE name IN
 *     (SELECT event FROM selections GROUP BY event HAVING SUM(active) = 0)
 * and then the same statement one level up, for sports over events
 * (app.py:679-686, app.py:694-701; the sport level alone at app.py:474-476
 * and app.py:485-487). Both recomputes are global: every parent that has at
 * least one child and no active child is switched off. A parent without
 * children forms no group, so the cascade never touches it, and the cascade
 * never switches anything on.
 */
module Deactivation {
  import opened Wrappers
  import opened Records

  /** An event with at least one selection, none of them active. */
  predicate IdleEvent(db: Db, e: Name)
  {
    SelectionsOf(db.selections, e) != {} && ActiveSelectionsOf(db.selections, e) == {}
  }

  /** A sport with at least one event, none of them active. */
  predicate IdleSport(db: Db, s: Name)
  {
    EventsOf(db.events, s) != {} && ActiveEventsOf(db.events, s) == {}
  }

  /** The state the event-level recompute establishes. */
  predicate EventsSettled(db: Db)
  {
    forall e :: e in db.events && IdleEvent(db, e) ==> !db.events[e].active
  }

  /** The state the sport-level recompute establishes. */
  predicate SportsSettled(db: Db)
  {
    forall s :: s in db.sports && IdleSport(db, s) ==> !db.sports[s].active
  }

  /** `after` has the rows of `before`, each unchanged or with `active` switched off. */
  predicate EventsOnlyDeactivated(before: map<Name, Event>, after: map<Name, Event>)
  {
    && after.Keys == before.Keys
    && forall e :: e in before ==>
         after[e] == before[e] || after[e] == before[e].(active := false)
  }

  predicate SportsOnlyDeactivated(before: map<Name, Sport>, after: map<Name, Sport>)
  {
    && after.Keys == before.Keys
    && forall s :: s in before ==>
         after[s] == before[s] || after[s] == before[s].(active := false)
  }

  /** The event-level recompute. */
  function DeactivateIdleEvents(db: Db): (r: Db)
    ensures r.sports == db.sports && r.selections == db.selections
    ensures EventsOnlyDeactivated(db.events, r.events)
    ensures EventsSettled(r)
    // exactly the idle events are affected: the rest, childless ones included, keep their row
    ensures forall e :: e in db.events && !IdleEvent(db, e) ==> r.events[e] == db.events[e]
    ensures forall e :: e in db.events && SelectionsOf(db.selections, e) == {} ==> r.events[e] == db.events[e]
    ensures Linked(db) ==> Linked(r)
  {
    db.(events := map e | e in db.events ::
          if IdleEvent(db, e) then db.events[e].(active := false) else db.events[e])
  }

  /** The sport-level recompute. */
  function DeactivateIdleSports(db: Db): (r: Db)
    ensures r.events == db.events && r.selections == db.selections
    ensures SportsOnlyDeactivated(db.sports, r.sports)
    ensures SportsSettled(r)
    ensures forall s :: s in db.sports && !IdleSport(db, s) ==> r.sports[s] == db.sports[s]
    ensures forall s :: s in db.sports && EventsOf(db.events, s) == {} ==> r.sports[s] == db.sports[s]
    ensures Linked(db) ==> Linked(r)
  {
    db.(sports := map s | s in db.sports ::
          if IdleSport(db, s) then db.sports[s].(active := false) else db.sports[s])
  }

  /** Events first, then sports, as after a selection change. */
  function Cascade(db: Db): Db
  {
    DeactivateIdleSports(DeactivateIdleEvents(db))
  }

  // ---------------------------------------------------------------------
  // Properties of the cascade
  // ---------------------------------------------------------------------

  lemma OnlyDeactivatedTransitive(a: Db, b: Db, c: Db)
    requires EventsOnlyDeactivated(a.events, b.events) && EventsOnlyDeactivated(b.events, c.events)
    requires SportsOnlyDeactivated(a.sports, b.sports) && SportsOnlyDeactivated(b.sports, c.sports)
    ensures EventsOnlyDeactivated(a.events, c.events)
    ensures SportsOnlyDeactivated(a.sports, c.sports)
  {
  }

  /**
   * After the full cascade both levels are settled, the selections are
   * untouched, and events and sports have at most lost their `active` flag:
   * nothing is switched back on, no other field changes.
   */
  lemma CascadeSettles(db: Db)
    ensures EventsSettled(Cascade(db)) && SportsSettled(Cascade(db))
    ensures Cascade(db).selections == db.selections
    ensures EventsOnlyDeactivated(db.events, Cascade(db).events)
    ensures SportsOnlyDeactivated(db.sports, Cascade(db).sports)
    ensures Linked(db) ==> Linked(Cascade(db))
  {
    var mid := DeactivateIdleEvents(db);
    assert Cascade(db).events == mid.events;
    assert forall e :: IdleEvent(Cascade(db), e) == IdleEvent(mid, e);
  }

  /** A settled level is left alone by its recompute. */
  lemma {:induction false} SettledEventsUnchanged(db: Db)
    requires EventsSettled(db)
    ensures DeactivateIdleEvents(db) == db
  {
    var r := DeactivateIdleEvents(db);
    assert r.events == db.events by {
      forall e | e in db.events ensures r.events[e] == db.events[e] {
        if IdleEvent(db, e) {
          assert !db.events[e].active;
          assert db.events[e].(active := false) == db.events[e];
        }
      }
    }
  }

  lemma {:induction false} SettledSportsUnchanged(db: Db)
    requires SportsSettled(db)
    ensures DeactivateIdleSports(db) == db
  {
    var r := DeactivateIdleSports(db);
    assert r.sports == db.sports by {
      forall s | s in db.sports ensures r.sports[s] == db.sports[s] {
        if IdleSport(db, s) {
          assert !db.sports[s].active;
          assert db.sports[s].(active := false) == db.sports[s];
        }
      }
    }
  }

  /** Running the cascade a second time changes nothing. */
  lemma CascadeIdempotent(db: Db)
    ensures Cascade(Cascade(db)) == Cascade(db)
  {
    var once := Cascade(db);
    CascadeSettles(db);
    SettledEventsUnchanged(once);
    SettledSportsUnchanged(once);
  }

  /**
   * The sport recompute after the event recompute: a sport whose events are
   * all switched off by the first step is switched off by the second, in the
   * same cascade.
   */
  lemma GrandparentFollows(db: Db, s: Name)
    requires s in db.sports
    requires EventsOf(db.events, s) != {}
    requires forall e :: e in EventsOf(db.events, s) ==> IdleEvent(db, e) || !db.events[e].active
    ensures !Cascade(db).sports[s].active
  {
    var mid := DeactivateIdleEvents(db);
    assert EventsOf(mid.events, s) == EventsOf(db.events, s);
    assert ActiveEventsOf(mid.events, s) == {} by {
      forall e | e in EventsOf(mid.events, s) ensures !mid.events[e].active {
        assert e in EventsOf(db.events, s);
      }
    }
    assert IdleSport(mid, s);
  }
}
