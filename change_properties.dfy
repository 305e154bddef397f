/**
 * What the writes of app.py promise across requests: the side effects of a
 * status or outcome change, what an update may and may not touch,
 * referential integrity, and the round trips between create, search and
 * delete.
 */
module ChangeProperties {
  import opened Wrappers
  import opened Records
  import opened Deactivation
  import opened Changes
  import Search

  // ---------------------------------------------------------------------
  // The steps of a successful update, named
  // ---------------------------------------------------------------------

  lemma SelectionUpdateSteps(db: Db, name: Name, data: Params, codecs: Codecs) returns (written: Db)
    requires SelectionUpdate(db, name, data, codecs).Success?
    ensures SelectionDeltaOf(data, codecs).Success?
    ensures WriteSelection(db, name, SelectionDeltaOf(data, codecs).value) == Success(written)
    ensures
      var settled := if Settles(data) then Cascade(ForceSelectionInactive(written, name)) else written;
      SelectionUpdate(db, name, data, codecs).value == if Deactivates(data) then Cascade(settled) else settled
    // what the cascades after the write leave alone
    ensures var after := SelectionUpdate(db, name, data, codecs).value;
      && after.selections
           == (if Settles(data) then ForceSelectionInactive(written, name) else written).selections
      && EventsOnlyDeactivated(written.events, after.events)
      && SportsOnlyDeactivated(written.sports, after.sports)
      && (Linked(written) ==> Linked(after))
  {
    written := WriteSelection(db, name, SelectionDeltaOf(data, codecs).value).value;
    var forced := ForceSelectionInactive(written, name);
    var settled := if Settles(data) then Cascade(forced) else written;
    CascadeSettles(forced);
    CascadeSettles(settled);
    if Deactivates(data) {
      OnlyDeactivatedTransitive(written, settled, Cascade(settled));
    }
  }

  lemma EventUpdateSteps(db: Db, name: Name, data: Params, now: Instant, codecs: Codecs) returns (written: Db)
    requires EventUpdate(db, name, data, now, codecs).Success?
    ensures EventDeltaOf(data, codecs).Success?
    ensures WriteEvent(db, name, EventDeltaOf(data, codecs).value) == Success(written)
    ensures
      var afterStatus :=
        if StartsEvent(data) then MarkStarted(written, name, now)
        else if EndsEvent(data) then DeactivateIdleSports(ForceEventInactive(written, name))
        else written;
      EventUpdate(db, name, data, now, codecs).value
        == if Deactivates(data) then DeactivateIdleSports(afterStatus) else afterStatus
  {
    written := WriteEvent(db, name, EventDeltaOf(data, codecs).value).value;
  }

  lemma SportUpdateSteps(db: Db, name: Name, data: Params) returns (d: SportDelta)
    requires SportUpdate(db, name, data).Success?
    ensures SportDeltaOf(data) == Success(d)
    ensures "active" in data ==> Lower(data["active"]) == "true" || Lower(data["active"]) == "false"
    ensures WriteSport(db, name, d) == SportUpdate(db, name, data)
  {
    d := SportDeltaOf(data).value;
  }

  // ---------------------------------------------------------------------
  // Selections
  // ---------------------------------------------------------------------

  /**
   * A settling outcome, or an `active` of false, leaves both levels of the
   * cascade settled: every event whose selections are all off is off, and
   * every sport whose events are all off is off.
   */
  lemma SelectionUpdateSettles(db: Db, name: Name, data: Params, codecs: Codecs)
    requires SelectionUpdate(db, name, data, codecs).Success?
    requires Settles(data) || Deactivates(data)
    ensures EventsSettled(SelectionUpdate(db, name, data, codecs).value)
    ensures SportsSettled(SelectionUpdate(db, name, data, codecs).value)
  {
    var written := SelectionUpdateSteps(db, name, data, codecs);
    var settled := if Settles(data) then Cascade(ForceSelectionInactive(written, name)) else written;
    if Settles(data) {
      CascadeSettles(ForceSelectionInactive(written, name));
    }
    if Deactivates(data) {
      CascadeSettles(settled);
    }
  }

  /**
   * A settled selection is switched off, even when the same request asks
   * for `active=true`: the outcome's effect runs after the field writes.
   */
  lemma SettledSelectionIsOff(db: Db, name: Name, data: Params, codecs: Codecs)
    requires SelectionUpdate(db, name, data, codecs).Success?
    requires Settles(data)
    ensures var after := SelectionUpdate(db, name, data, codecs).value;
      name in after.selections ==> !after.selections[name].active
  {
    var written := SelectionUpdateSteps(db, name, data, codecs);
  }

  /**
   * A selection update writes at most the named row (under its new name),
   * never switches an event or sport on, and changes no other field of
   * them. An update of a name that is not there writes no selection.
   */
  lemma SelectionUpdateFrame(db: Db, name: Name, data: Params, codecs: Codecs)
    requires SelectionUpdate(db, name, data, codecs).Success?
    ensures var after := SelectionUpdate(db, name, data, codecs).value;
      && EventsOnlyDeactivated(db.events, after.events)
      && SportsOnlyDeactivated(db.sports, after.sports)
      && (forall n :: n in db.selections && n != name && n != NewKey(data, name) ==>
            n in after.selections && after.selections[n] == db.selections[n])
      && (name !in db.selections ==> after.selections == db.selections)
      && (name in db.selections ==>
            after.selections.Keys == db.selections.Keys - {name} + {NewKey(data, name)})
  {
    var written := SelectionUpdateSteps(db, name, data, codecs);
    assert SelectionDeltaOf(data, codecs).value.name.GetOr(name) == NewKey(data, name);
    if name !in db.selections {
      assert written == db;
    }
  }

  lemma SelectionUpdateKeepsLinked(db: Db, name: Name, data: Params, codecs: Codecs)
    requires Linked(db)
    requires SelectionUpdate(db, name, data, codecs).Success?
    ensures Linked(SelectionUpdate(db, name, data, codecs).value)
  {
    var written := SelectionUpdateSteps(db, name, data, codecs);
  }

  /**
   * The fields a selection update writes on a row it does not rename: each
   * given column takes the decoded value, the rest keep theirs, and a
   * settling outcome overrides `active`.
   */
  lemma SelectionUpdateFields(db: Db, name: Name, data: Params, codecs: Codecs)
    requires name in db.selections && "name" !in data
    requires SelectionUpdate(db, name, data, codecs).Success?
    ensures var after := SelectionUpdate(db, name, data, codecs).value;
      var before := db.selections[name];
      && name in after.selections
      && after.selections[name].event == (if "event" in data then data["event"] else before.event)
      && Some(after.selections[name].price)
           == (if "price" in data then codecs.parseCents(data["price"]) else Some(before.price))
      && Some(after.selections[name].outcome)
           == (if "outcome" in data then DecodeOutcome(data["outcome"]) else Some(before.outcome))
      && after.selections[name].active
           == (!Settles(data) && (if "active" in data then StoredFlag(data["active"]) else before.active))
  {
    var written := SelectionUpdateSteps(db, name, data, codecs);
    var d := SelectionDeltaOf(data, codecs).value;
    assert d == SelectionDeltaOn(data, data.Keys, codecs);
    assert d.name == None;
    assert written.selections[name] == ApplySelectionDelta(db.selections[name], d);
    if "price" in data {
      assert SelectionColumnOk("price", data["price"], codecs);
    }
  }

  // ---------------------------------------------------------------------
  // Events
  // ---------------------------------------------------------------------

  /** A status of "started" records the clock reading and makes the event in-play. */
  lemma StartedEventIsInplay(db: Db, name: Name, data: Params, now: Instant, codecs: Codecs)
    requires EventUpdate(db, name, data, now, codecs).Success?
    requires StartsEvent(data)
    ensures var after := EventUpdate(db, name, data, now, codecs).value;
      name in after.events ==>
        && after.events[name].status == Started
        && after.events[name].actualStart == Some(now)
        && after.events[name].kind == Inplay
  {
    var written := EventUpdateSteps(db, name, data, now, codecs);
    assert DecodeStatus(data["status"]) == Some(Started);
  }

  /**
   * A status of "ended" or "cancelled" switches the event off and leaves
   * the sports settled.
   */
  lemma EndedEventIsOff(db: Db, name: Name, data: Params, now: Instant, codecs: Codecs)
    requires EventUpdate(db, name, data, now, codecs).Success?
    requires EndsEvent(data)
    ensures var after := EventUpdate(db, name, data, now, codecs).value;
      && (name in after.events ==> !after.events[name].active)
      && SportsSettled(after)
  {
    var written := EventUpdateSteps(db, name, data, now, codecs);
  }

  /** An `active` of false on an event leaves the sports settled. */
  lemma DeactivatedEventSettlesSports(db: Db, name: Name, data: Params, now: Instant, codecs: Codecs)
    requires EventUpdate(db, name, data, now, codecs).Success?
    requires Deactivates(data)
    ensures SportsSettled(EventUpdate(db, name, data, now, codecs).value)
  {
    var written := EventUpdateSteps(db, name, data, now, codecs);
  }

  /**
   * An event update leaves the selections alone, never switches a sport on,
   * and writes no event but the named one.
   */
  lemma EventUpdateFrame(db: Db, name: Name, data: Params, now: Instant, codecs: Codecs)
    requires EventUpdate(db, name, data, now, codecs).Success?
    ensures var after := EventUpdate(db, name, data, now, codecs).value;
      && after.selections == db.selections
      && SportsOnlyDeactivated(db.sports, after.sports)
      && (forall e :: e in db.events && e != name && e != NewKey(data, name) ==>
            e in after.events && after.events[e] == db.events[e])
      && (name !in db.events ==> after.events == db.events)
  {
    var written := EventUpdateSteps(db, name, data, now, codecs);
    var afterStatus :=
      if StartsEvent(data) then MarkStarted(written, name, now)
      else if EndsEvent(data) then DeactivateIdleSports(ForceEventInactive(written, name))
      else written;
    assert SportsOnlyDeactivated(db.sports, afterStatus.sports);
    if name !in db.events {
      assert written == db;
    }
  }

  lemma EventUpdateKeepsLinked(db: Db, name: Name, data: Params, now: Instant, codecs: Codecs)
    requires Linked(db)
    requires EventUpdate(db, name, data, now, codecs).Success?
    ensures Linked(EventUpdate(db, name, data, now, codecs).value)
  {
    var written := EventUpdateSteps(db, name, data, now, codecs);
  }

  /** The row an event update's write leaves, field by field. */
  lemma EventDeltaFields(before: Event, data: Params, codecs: Codecs)
    requires forall k :: k in data ==> EventColumnOk(k, data[k], codecs)
    ensures var w := ApplyEventDelta(before, EventDeltaOn(data, data.Keys, codecs));
      && w.slug == (if "slug" in data then data["slug"] else before.slug)
      && w.sport == (if "sport" in data then data["sport"] else before.sport)
      && Some(w.status) == (if "status" in data then DecodeStatus(data["status"]) else Some(before.status))
      && Some(w.scheduledStart)
           == (if "scheduled_start" in data then codecs.parseTime(data["scheduled_start"])
               else Some(before.scheduledStart))
      && Some(w.kind) == (if "type" in data then DecodeType(data["type"]) else Some(before.kind))
      && w.actualStart
           == (if "actual_start" in data then codecs.parseTime(data["actual_start"]) else before.actualStart)
      && w.active == (if "active" in data then StoredFlag(data["active"]) else before.active)
  {
    if "status" in data {
      assert EventColumnOk("status", data["status"], codecs);
    }
    if "type" in data {
      assert EventColumnOk("type", data["type"], codecs);
    }
    if "scheduled_start" in data {
      assert EventColumnOk("scheduled_start", data["scheduled_start"], codecs);
    }
    if "actual_start" in data {
      assert EventColumnOk("actual_start", data["actual_start"], codecs);
    }
  }

  /**
   * The fields an event update writes on a row it does not rename: each
   * given column takes its decoded value and the rest keep theirs; a status
   * of "started" overrides the type with Inplay and the actual start with
   * the clock reading, and "ended" or "cancelled" overrides `active`.
   */
  lemma EventUpdateFields(db: Db, name: Name, data: Params, now: Instant, codecs: Codecs)
    requires name in db.events && "name" !in data
    requires EventUpdate(db, name, data, now, codecs).Success?
    ensures var after := EventUpdate(db, name, data, now, codecs).value;
      var before := db.events[name];
      && name in after.events
      && after.events[name].slug == (if "slug" in data then data["slug"] else before.slug)
      && after.events[name].sport == (if "sport" in data then data["sport"] else before.sport)
      && Some(after.events[name].status)
           == (if "status" in data then DecodeStatus(data["status"]) else Some(before.status))
      && Some(after.events[name].scheduledStart)
           == (if "scheduled_start" in data then codecs.parseTime(data["scheduled_start"])
               else Some(before.scheduledStart))
      && Some(after.events[name].kind)
           == (if StartsEvent(data) then Some(Inplay)
               else if "type" in data then DecodeType(data["type"]) else Some(before.kind))
      && after.events[name].actualStart
           == (if StartsEvent(data) then Some(now)
               else if "actual_start" in data then codecs.parseTime(data["actual_start"])
               else before.actualStart)
      && after.events[name].active
           == (!EndsEvent(data) && (if "active" in data then StoredFlag(data["active"]) else before.active))
  {
    var written := EventUpdateSteps(db, name, data, now, codecs);
    var d := EventDeltaOf(data, codecs).value;
    assert d == EventDeltaOn(data, data.Keys, codecs);
    var w := ApplyEventDelta(db.events[name], d);
    assert d.name == None;
    assert written.events[name] == w;
    EventDeltaFields(db.events[name], data, codecs);
    var row :=
      if StartsEvent(data) then w.(actualStart := Some(now), kind := Inplay)
      else if EndsEvent(data) then w.(active := false)
      else w;
    assert EventUpdate(db, name, data, now, codecs).value.events[name] == row;
  }

  // ---------------------------------------------------------------------
  // Sports
  // ---------------------------------------------------------------------

  /**
   * A sport update without a rename: a given slug is stored, and `active`
   * is on exactly when its text reads "true" in any letter case.
   */
  lemma SportUpdateFields(db: Db, name: Name, data: Params)
    requires name in db.sports && "name" !in data
    requires SportUpdate(db, name, data).Success?
    ensures var after := SportUpdate(db, name, data).value;
      && name in after.sports
      && after.sports[name].slug == (if "slug" in data then data["slug"] else db.sports[name].slug)
      && after.sports[name].active
           == (if "active" in data then Lower(data["active"]) == "true" else db.sports[name].active)
  {
    var d := SportUpdateSteps(db, name, data);
  }

  /** A sport update writes no event, no selection and no other sport. */
  lemma SportUpdateFrame(db: Db, name: Name, data: Params)
    requires SportUpdate(db, name, data).Success?
    ensures var after := SportUpdate(db, name, data).value;
      && after.events == db.events && after.selections == db.selections
      && (forall s :: s in db.sports && s != name && s != NewKey(data, name) ==>
            s in after.sports && after.sports[s] == db.sports[s])
      && (Linked(db) ==> Linked(after))
  {
    var d := SportUpdateSteps(db, name, data);
  }

  // ---------------------------------------------------------------------
  // When an update is accepted
  // ---------------------------------------------------------------------

  /**
   * A sport update is accepted exactly when it has parameters, each one
   * names a column, `active` reads "true" or "false", and a rename moves to
   * a free name a sport that no event references. An absent name is
   * accepted and writes nothing.
   */
  lemma SportUpdateAccepts(db: Db, name: Name, data: Params)
    ensures SportUpdate(db, name, data).Success? <==>
      && data != map[]
      && (forall k :: k in data ==> k in SportColumns)
      && ("active" in data ==> Lower(data["active"]) == "true" || Lower(data["active"]) == "false")
      && (name in db.sports && NewKey(data, name) != name ==>
            NewKey(data, name) !in db.sports && EventsOf(db.events, name) == {})
  {
    if data != map[] && forall k :: k in data ==> k in SportColumns {
      var d := SportDeltaOn(data, data.Keys);
      assert SportDeltaOf(data) == Success(d);
      assert d.name.GetOr(name) == NewKey(data, name);
    }
  }

  /**
   * An event update is accepted exactly when it has parameters, each one
   * names a column and its value decodes, a rename moves to a free name an
   * event that no selection references, and the sport the row ends with
   * exists.
   */
  lemma EventUpdateAccepts(db: Db, name: Name, data: Params, now: Instant, codecs: Codecs)
    ensures EventUpdate(db, name, data, now, codecs).Success? <==>
      && data != map[]
      && (forall k :: k in data ==> EventColumnOk(k, data[k], codecs))
      && (name in db.events ==>
            && (NewKey(data, name) != name ==>
                  NewKey(data, name) !in db.events && SelectionsOf(db.selections, name) == {})
            && (if "sport" in data then data["sport"] else db.events[name].sport) in db.sports)
  {
    if data != map[] && forall k :: k in data ==> EventColumnOk(k, data[k], codecs) {
      if "status" in data {
        assert EventColumnOk("status", data["status"], codecs);
      }
      if "type" in data {
        assert EventColumnOk("type", data["type"], codecs);
      }
      var d := EventDeltaOn(data, data.Keys, codecs);
      assert EventDeltaOf(data, codecs) == Success(d);
      assert d.name.GetOr(name) == NewKey(data, name);
      if name in db.events {
        assert ApplyEventDelta(db.events[name], d).sport
            == if "sport" in data then data["sport"] else db.events[name].sport;
      }
    }
  }

  /**
   * A selection update is accepted exactly when it has parameters, each one
   * names a column and its value decodes, a rename moves to a free name, and
   * the event the row ends with exists.
   */
  lemma SelectionUpdateAccepts(db: Db, name: Name, data: Params, codecs: Codecs)
    ensures SelectionUpdate(db, name, data, codecs).Success? <==>
      && data != map[]
      && (forall k :: k in data ==> SelectionColumnOk(k, data[k], codecs))
      && (name in db.selections ==>
            && (NewKey(data, name) != name ==> NewKey(data, name) !in db.selections)
            && (if "event" in data then data["event"] else db.selections[name].event) in db.events)
  {
    if data != map[] && forall k :: k in data ==> SelectionColumnOk(k, data[k], codecs) {
      if "outcome" in data {
        assert SelectionColumnOk("outcome", data["outcome"], codecs);
      }
      var d := SelectionDeltaOn(data, data.Keys, codecs);
      assert SelectionDeltaOf(data, codecs) == Success(d);
      assert d.name.GetOr(name) == NewKey(data, name);
      if name in db.selections {
        assert ApplySelectionDelta(db.selections[name], d).event
            == if "event" in data then data["event"] else db.selections[name].event;
      }
    }
  }

  // ---------------------------------------------------------------------
  // Deletes
  // ---------------------------------------------------------------------

  /** Deleting a name that is not there succeeds and changes nothing. */
  lemma DeleteAbsent(db: Db, name: Name)
    requires Linked(db)
    ensures name !in db.sports ==> DeleteSport(db, name) == Success(db)
    ensures name !in db.events ==> DeleteEvent(db, name) == Success(db)
    ensures name !in db.selections ==> DeleteSelection(db, name) == db
  {
    if name !in db.sports {
      assert EventsOf(db.events, name) == {};
      assert db.sports - {name} == db.sports;
    }
    if name !in db.events {
      assert SelectionsOf(db.selections, name) == {};
      assert db.events - {name} == db.events;
    }
    if name !in db.selections {
      assert db.selections - {name} == db.selections;
    }
  }

  /** A sport just created has no events, so deleting it restores the tables. */
  lemma CreateThenDeleteSport(db: Db, args: Params, codecs: Codecs)
    requires Linked(db)
    requires CreateSport(db, args, codecs).Success?
    ensures DeleteSport(CreateSport(db, args, codecs).value, args["name"]) == Success(db)
  {
    var after := CreateSport(db, args, codecs).value;
    var name := args["name"];
    assert EventsOf(after.events, name) == {};
    assert after.sports - {name} == db.sports;
  }

  lemma CreateThenDeleteEvent(db: Db, args: Params, codecs: Codecs)
    requires Linked(db)
    requires CreateEvent(db, args, codecs).Success?
    ensures DeleteEvent(CreateEvent(db, args, codecs).value, args["name"]) == Success(db)
  {
    var after := CreateEvent(db, args, codecs).value;
    var name := args["name"];
    assert SelectionsOf(after.selections, name) == {};
    assert after.events - {name} == db.events;
  }

  lemma CreateThenDeleteSelection(db: Db, args: Params, codecs: Codecs)
    requires CreateSelection(db, args, codecs).Success?
    ensures DeleteSelection(CreateSelection(db, args, codecs).value, args["name"]) == db
  {
    var after := CreateSelection(db, args, codecs).value;
    assert after.selections - {args["name"]} == db.selections;
  }

  /** While a sport has events it cannot be deleted; the same for events with selections. */
  lemma ReferencedRowsStay(db: Db, e: Name, n: Name)
    requires e in db.events && n in db.selections
    ensures DeleteSport(db, db.events[e].sport) == Failure(Integrity)
    ensures DeleteEvent(db, db.selections[n].event) == Failure(Integrity)
  {
    assert e in EventsOf(db.events, db.events[e].sport);
    assert n in SelectionsOf(db.selections, db.selections[n].event);
  }

  // ---------------------------------------------------------------------
  // Create, then search
  // ---------------------------------------------------------------------

  /** A created sport is what a search on its exact name returns. */
  lemma CreatedSportIsFound(db: Db, args: Params, codecs: Codecs)
    requires CreateSport(db, args, codecs).Success?
    ensures var after := CreateSport(db, args, codecs).value;
      && Search.SearchSports(after, map["name" := args["name"]], codecs).Success?
      && Search.SearchSports(after, map["name" := args["name"]], codecs).value.Keys == {args["name"]}
  {
    var after := CreateSport(db, args, codecs).value;
    var name := args["name"];
    Search.NoDashColumn("name");
    assert Search.DecodeSportFilter("name", name, codecs) == Success(Search.SportName(Search.Equals(name)));
    Search.OneSportParam(after, "name", name, codecs);
  }

  lemma CreatedSelectionIsFound(db: Db, args: Params, codecs: Codecs)
    requires CreateSelection(db, args, codecs).Success?
    ensures var after := CreateSelection(db, args, codecs).value;
      && Search.SearchSelections(after, map["name" := args["name"]], codecs).Success?
      && Search.SearchSelections(after, map["name" := args["name"]], codecs).value.Keys == {args["name"]}
  {
    var after := CreateSelection(db, args, codecs).value;
    var name := args["name"];
    Search.NoDashColumn("name");
    assert Search.DecodeSelectionFilter("name", name, codecs)
        == Success(Search.SelectionName(Search.Equals(name)));
    Search.OneSelectionParam(after, "name", name, codecs);
  }

  // ---------------------------------------------------------------------
  // The cascade end to end
  // ---------------------------------------------------------------------

  /**
   * Settling the only selection of the only event of a sport switches all
   * three off in one request.
   */
  lemma SettlingLastSelectionClosesEventAndSport(db: Db, x: Name, data: Params, codecs: Codecs)
    requires Linked(db)
    requires x in db.selections
    requires SelectionsOf(db.selections, db.selections[x].event) == {x}
    requires EventsOf(db.events, db.events[db.selections[x].event].sport) == {db.selections[x].event}
    requires Settles(data) && "name" !in data && "event" !in data
    requires SelectionUpdate(db, x, data, codecs).Success?
    ensures var after := SelectionUpdate(db, x, data, codecs).value;
      var e := db.selections[x].event;
      var s := db.events[e].sport;
      && x in after.selections && !after.selections[x].active
      && e in after.events && !after.events[e].active
      && s in after.sports && !after.sports[s].active
  {
    var after := SelectionUpdate(db, x, data, codecs).value;
    var e := db.selections[x].event;
    var s := db.events[e].sport;
    SelectionUpdateSettles(db, x, data, codecs);
    SelectionUpdateFrame(db, x, data, codecs);
    LastSelectionLeavesEventIdle(db, x, data, codecs);
    assert !after.events[e].active;
    OnlyEventOffLeavesSportIdle(db, after, e);
  }

  /** The first half of the scenario above: the event is left without an active selection. */
  lemma LastSelectionLeavesEventIdle(db: Db, x: Name, data: Params, codecs: Codecs)
    requires Linked(db)
    requires x in db.selections
    requires SelectionsOf(db.selections, db.selections[x].event) == {x}
    requires Settles(data) && "name" !in data && "event" !in data
    requires SelectionUpdate(db, x, data, codecs).Success?
    ensures var after := SelectionUpdate(db, x, data, codecs).value;
      && x in after.selections && !after.selections[x].active
      && db.selections[x].event in after.events
      && IdleEvent(after, db.selections[x].event)
  {
    var after := SelectionUpdate(db, x, data, codecs).value;
    var e := db.selections[x].event;
    SelectionUpdateFields(db, x, data, codecs);
    SelectionUpdateFrame(db, x, data, codecs);
    assert x in SelectionsOf(after.selections, e);
    assert ActiveSelectionsOf(after.selections, e) == {};
  }

  /**
   * The second half: when the only event of a sport is switched off and the
   * rows changed only by switching off, the sport is idle.
   */
  lemma OnlyEventOffLeavesSportIdle(db: Db, after: Db, e: Name)
    requires e in db.events && db.events[e].sport in db.sports
    requires EventsOf(db.events, db.events[e].sport) == {e}
    requires EventsOnlyDeactivated(db.events, after.events)
    requires SportsOnlyDeactivated(db.sports, after.sports)
    requires !after.events[e].active
    requires SportsSettled(after)
    ensures db.events[e].sport in after.sports && !after.sports[db.events[e].sport].active
  {
    var s := db.events[e].sport;
    assert e in EventsOf(after.events, s);
    forall f | f in after.events && after.events[f].sport == s
      ensures f == e
    {
      assert f in EventsOf(db.events, s);
    }
    assert ActiveEventsOf(after.events, s) == {};
    assert IdleSport(after, s);
  }
}
