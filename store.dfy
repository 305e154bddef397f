/**
 * The store as an object whose three tables each request updates in place.
 * Every request method ends in the state the matching function of
 * `Changes` computes, and a refused request leaves the tables as they were
 * (the source commits only after every statement has run).
 *
 * The update handlers build their SET clause by walking the request's
 * parameters one at a time (app.py:232-234, app.py:444-451,
 * app.py:659-664); the `*SetClause` methods are that walk.
 */
module BettingStore {
  import opened Wrappers
  import opened Records
  import opened Deactivation
  import Changes

  // ---------------------------------------------------------------------
  // Building the SET clause
  // ---------------------------------------------------------------------

  lemma SportColumnStep(data: Params, done: set<string>, k: string)
    requires k in data && k !in done
    ensures Changes.SportDeltaOn(data, done + {k})
         == Changes.SetSportColumn(Changes.SportDeltaOn(data, done), k, data[k])
  {
  }

  lemma EventColumnStep(data: Params, done: set<string>, k: string, codecs: Codecs)
    requires k in data && k !in done
    ensures Changes.EventDeltaOn(data, done + {k}, codecs)
         == Changes.SetEventColumn(Changes.EventDeltaOn(data, done, codecs), k, data[k], codecs)
  {
    var before := Changes.EventDeltaOn(data, done, codecs);
    var after := Changes.EventDeltaOn(data, done + {k}, codecs);
    if k == "name" {
      assert after == before.(name := Some(data[k]));
    } else if k == "slug" {
      assert after == before.(slug := Some(data[k]));
    } else if k == "active" {
      assert after == before.(active := Some(StoredFlag(data[k])));
    } else if k == "type" {
      assert after == before.(kind := DecodeType(data[k]));
    } else if k == "sport" {
      assert after == before.(sport := Some(data[k]));
    } else if k == "status" {
      assert after == before.(status := DecodeStatus(data[k]));
    } else if k == "scheduled_start" {
      assert after == before.(scheduledStart := codecs.parseTime(data[k]));
    } else if k == "actual_start" {
      assert after == before.(actualStart := codecs.parseTime(data[k]));
    } else {
      assert after == before;
    }
  }

  lemma SelectionColumnStep(data: Params, done: set<string>, k: string, codecs: Codecs)
    requires k in data && k !in done
    ensures Changes.SelectionDeltaOn(data, done + {k}, codecs)
         == Changes.SetSelectionColumn(Changes.SelectionDeltaOn(data, done, codecs), k, data[k], codecs)
  {
  }

  /** One column per parameter; a parameter that names no column is refused. */
  method SportSetClause(data: Params) returns (r: Result<Changes.SportDelta, Error>)
    ensures r.Success? <==> forall k :: k in data ==> k in Changes.SportColumns
    ensures r.Failure? ==> r.error == UnknownColumn
    ensures r.Success? ==> r.value == Changes.SportDeltaOn(data, data.Keys)
  {
    var d := Changes.SportDelta(None, None, None);
    var unknown := false;
    var remaining := data.Keys;
    var done: set<string> := {};
    while remaining != {}
      invariant remaining + done == data.Keys && remaining !! done
      invariant d == Changes.SportDeltaOn(data, done)
      invariant unknown <==> exists k :: k in done && k !in Changes.SportColumns
      decreases remaining
    {
      var k :| k in remaining;
      if k !in Changes.SportColumns {
        unknown := true;
      }
      SportColumnStep(data, done, k);
      d := Changes.SetSportColumn(d, k, data[k]);
      remaining, done := remaining - {k}, done + {k};
    }
    if unknown {
      r := Failure(UnknownColumn);
    } else {
      r := Success(d);
    }
  }

  /**
   * Every parameter must be a column whose value decodes; a parameter that
   * is no column at all is reported in preference to a bad value.
   */
  method EventSetClause(data: Params, codecs: Codecs) returns (r: Result<Changes.EventDelta, Error>)
    ensures r.Success? <==> forall k :: k in data ==> Changes.EventColumnOk(k, data[k], codecs)
    ensures r.Failure? ==>
      (r.error == UnknownColumn <==> exists k :: k in data && k !in Changes.EventColumns)
    ensures r.Failure? ==> r.error in {UnknownColumn, InvalidValue}
    ensures r.Success? ==> r.value == Changes.EventDeltaOn(data, data.Keys, codecs)
  {
    var d := Changes.EventDelta(None, None, None, None, None, None, None, None);
    var unknown, invalid := false, false;
    var remaining := data.Keys;
    var done: set<string> := {};
    while remaining != {}
      invariant remaining + done == data.Keys && remaining !! done
      invariant d == Changes.EventDeltaOn(data, done, codecs)
      invariant unknown <==> exists k :: k in done && k !in Changes.EventColumns
      invariant invalid <==> exists k :: k in done && !Changes.EventColumnOk(k, data[k], codecs)
      decreases remaining
    {
      var k :| k in remaining;
      if k !in Changes.EventColumns {
        unknown := true;
      }
      if !Changes.EventColumnOk(k, data[k], codecs) {
        invalid := true;
      }
      EventColumnStep(data, done, k, codecs);
      d := Changes.SetEventColumn(d, k, data[k], codecs);
      remaining, done := remaining - {k}, done + {k};
    }
    if !invalid {
      r := Success(d);
    } else if unknown {
      r := Failure(UnknownColumn);
    } else {
      r := Failure(InvalidValue);
    }
  }

  method SelectionSetClause(data: Params, codecs: Codecs) returns (r: Result<Changes.SelectionDelta, Error>)
    ensures r.Success? <==> forall k :: k in data ==> Changes.SelectionColumnOk(k, data[k], codecs)
    ensures r.Failure? ==>
      (r.error == UnknownColumn <==> exists k :: k in data && k !in Changes.SelectionColumns)
    ensures r.Failure? ==> r.error in {UnknownColumn, InvalidValue}
    ensures r.Success? ==> r.value == Changes.SelectionDeltaOn(data, data.Keys, codecs)
  {
    var d := Changes.SelectionDelta(None, None, None, None, None);
    var unknown, invalid := false, false;
    var remaining := data.Keys;
    var done: set<string> := {};
    while remaining != {}
      invariant remaining + done == data.Keys && remaining !! done
      invariant d == Changes.SelectionDeltaOn(data, done, codecs)
      invariant unknown <==> exists k :: k in done && k !in Changes.SelectionColumns
      invariant invalid <==> exists k :: k in done && !Changes.SelectionColumnOk(k, data[k], codecs)
      decreases remaining
    {
      var k :| k in remaining;
      if k !in Changes.SelectionColumns {
        unknown := true;
      }
      if !Changes.SelectionColumnOk(k, data[k], codecs) {
        invalid := true;
      }
      SelectionColumnStep(data, done, k, codecs);
      d := Changes.SetSelectionColumn(d, k, data[k], codecs);
      remaining, done := remaining - {k}, done + {k};
    }
    if !invalid {
      r := Success(d);
    } else if unknown {
      r := Failure(UnknownColumn);
    } else {
      r := Failure(InvalidValue);
    }
  }

  // ---------------------------------------------------------------------
  // The store
  // ---------------------------------------------------------------------

  class Store {
    var sports: map<Name, Sport>
    var events: map<Name, Event>
    var selections: map<Name, Selection>
    const codecs: Codecs

    function Snapshot(): Db
      reads this
    {
      Db(sports, events, selections)
    }

    /** The foreign keys the schema declares hold. */
    ghost predicate Valid()
      reads this
    {
      Linked(Snapshot())
    }

    /** A fresh database with the three tables empty. */
    constructor (codecs: Codecs)
      ensures Snapshot() == EmptyDb && Valid()
      ensures this.codecs == codecs
    {
      sports, events, selections := map[], map[], map[];
      this.codecs := codecs;
    }

    method Commit(db: Db)
      modifies this
      ensures Snapshot() == db
    {
      sports, events, selections := db.sports, db.events, db.selections;
    }

    /** Applies a request's outcome: the new tables, or the error and no change. */
    method Apply(r: Result<Db, Error>) returns (err: Option<Error>)
      modifies this
      ensures r.Success? ==> err == None && Snapshot() == r.value
      ensures r.Failure? ==> err == Some(r.error) && Snapshot() == old(Snapshot())
    {
      if r.Success? {
        Commit(r.value);
        err := None;
      } else {
        err := Some(r.error);
      }
    }

    method CreateSport(args: Params) returns (err: Option<Error>)
      requires Valid()
      modifies this
      ensures var r := Changes.CreateSport(old(Snapshot()), args, codecs);
        && (r.Success? ==> err == None && Snapshot() == r.value)
        && (r.Failure? ==> err == Some(r.error) && Snapshot() == old(Snapshot()))
      ensures Valid()
    {
      err := Apply(Changes.CreateSport(Snapshot(), args, codecs));
    }

    method CreateEvent(args: Params) returns (err: Option<Error>)
      requires Valid()
      modifies this
      ensures var r := Changes.CreateEvent(old(Snapshot()), args, codecs);
        && (r.Success? ==> err == None && Snapshot() == r.value)
        && (r.Failure? ==> err == Some(r.error) && Snapshot() == old(Snapshot()))
      ensures Valid()
    {
      err := Apply(Changes.CreateEvent(Snapshot(), args, codecs));
    }

    method CreateSelection(args: Params) returns (err: Option<Error>)
      requires Valid()
      modifies this
      ensures var r := Changes.CreateSelection(old(Snapshot()), args, codecs);
        && (r.Success? ==> err == None && Snapshot() == r.value)
        && (r.Failure? ==> err == Some(r.error) && Snapshot() == old(Snapshot()))
      ensures Valid()
    {
      err := Apply(Changes.CreateSelection(Snapshot(), args, codecs));
    }

    method DeleteSport(name: Name) returns (err: Option<Error>)
      requires Valid()
      modifies this
      ensures var r := Changes.DeleteSport(old(Snapshot()), name);
        && (r.Success? ==> err == None && Snapshot() == r.value)
        && (r.Failure? ==> err == Some(r.error) && Snapshot() == old(Snapshot()))
      ensures Valid()
    {
      err := Apply(Changes.DeleteSport(Snapshot(), name));
    }

    method DeleteEvent(name: Name) returns (err: Option<Error>)
      requires Valid()
      modifies this
      ensures var r := Changes.DeleteEvent(old(Snapshot()), name);
        && (r.Success? ==> err == None && Snapshot() == r.value)
        && (r.Failure? ==> err == Some(r.error) && Snapshot() == old(Snapshot()))
      ensures Valid()
    {
      err := Apply(Changes.DeleteEvent(Snapshot(), name));
    }

    method DeleteSelection(name: Name)
      requires Valid()
      modifies this
      ensures Snapshot() == Changes.DeleteSelection(old(Snapshot()), name)
      ensures Valid()
    {
      selections := selections - {name};
    }

    /** The sport-level recompute (app.py:474-476, app.py:485-487). */
    method RecomputeSports()
      modifies this
      ensures Snapshot() == DeactivateIdleSports(old(Snapshot()))
    {
      Commit(DeactivateIdleSports(Snapshot()));
    }

    /** The event-level recompute followed by the sport-level one (app.py:679-686). */
    method RunCascade()
      modifies this
      ensures Snapshot() == Cascade(old(Snapshot()))
    {
      Commit(DeactivateIdleEvents(Snapshot()));
      RecomputeSports();
    }

    method UpdateSport(name: Name, data: Params) returns (err: Option<Error>)
      requires Valid()
      modifies this
      ensures var r := Changes.SportUpdate(old(Snapshot()), name, data);
        && (r.Success? ==> err == None && Snapshot() == r.value)
        && (r.Failure? ==> err == Some(r.error) && Snapshot() == old(Snapshot()))
      ensures Valid()
    {
      if "active" in data && Lower(data["active"]) != "false" && Lower(data["active"]) != "true" {
        return Some(InvalidValue);
      }
      if data == map[] {
        return Some(NoData);
      }
      var clause := SportSetClause(data);
      if clause.Failure? {
        return Some(clause.error);
      }
      err := Apply(Changes.WriteSport(Snapshot(), name, clause.value));
    }

    method UpdateEvent(name: Name, data: Params, now: Instant) returns (err: Option<Error>)
      requires Valid()
      modifies this
      ensures var r := Changes.EventUpdate(old(Snapshot()), name, data, now, codecs);
        && (r.Success? ==> err == None && Snapshot() == r.value)
        && (r.Failure? ==> err == Some(r.error) && Snapshot() == old(Snapshot()))
      ensures Valid()
    {
      if data == map[] {
        return Some(NoData);
      }
      if "status" in data && DecodeStatus(data["status"]).None? {
        return Some(InvalidValue);
      }
      if "type" in data && DecodeType(data["type"]).None? {
        return Some(InvalidValue);
      }
      var clause := EventSetClause(data, codecs);
      if clause.Failure? {
        return Some(clause.error);
      }
      err := Apply(Changes.WriteEvent(Snapshot(), name, clause.value));
      if err.Some? {
        return;
      }
      if Changes.StartsEvent(data) {
        Commit(Changes.MarkStarted(Snapshot(), name, now));
      } else if Changes.EndsEvent(data) {
        Commit(Changes.ForceEventInactive(Snapshot(), name));
        RecomputeSports();
      }
      if Changes.Deactivates(data) {
        RecomputeSports();
      }
    }

    method UpdateSelection(name: Name, data: Params) returns (err: Option<Error>)
      requires Valid()
      modifies this
      ensures var r := Changes.SelectionUpdate(old(Snapshot()), name, data, codecs);
        && (r.Success? ==> err == None && Snapshot() == r.value)
        && (r.Failure? ==> err == Some(r.error) && Snapshot() == old(Snapshot()))
      ensures Valid()
    {
      if data == map[] {
        return Some(NoData);
      }
      if "outcome" in data && DecodeOutcome(data["outcome"]).None? {
        return Some(InvalidValue);
      }
      var clause := SelectionSetClause(data, codecs);
      if clause.Failure? {
        return Some(clause.error);
      }
      err := Apply(Changes.WriteSelection(Snapshot(), name, clause.value));
      if err.Some? {
        return;
      }
      if Changes.Settles(data) {
        Commit(Changes.ForceSelectionInactive(Snapshot(), name));
        RunCascade();
      }
      if Changes.Deactivates(data) {
        RunCascade();
      }
    }
  }
}
