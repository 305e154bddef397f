/**
 * The writes of app.py as functions from the three tables before a request
 * to the tables after it, or to the error that leaves them as they were.
 *
 * Creates insert one row with its defaults (app.py:84-124, app.py:260-329,
 * app.py:510-557). Updates validate the request, turn its parameters into
 * the SET clause of one UPDATE on the named row, and then run the side
 * effects of a status, outcome or `active` change, among them the
 * deactivation cascade (app.py:195-241, app.py:402-491, app.py:625-704).
 * Deletes are refused while a child row still references the row, and
 * deleting a name that is not there succeeds (app.py:243-258, app.py:493-508,
 * app.py:706-721).
 */
module Changes {
  import opened Wrappers
  import opened Records
  import opened Deactivation

  // ---------------------------------------------------------------------
  // Create
  // ---------------------------------------------------------------------

  /** The slug parameter, or the slug generated from the name when none is given. */
  function SlugFor(args: Params, name: Name, codecs: Codecs): string
  {
    if Given(args, "slug") then args["slug"] else codecs.slugify(name)
  }

  /**
   * The initial `active` flag: false unless the parameter reads as true.
   * (The source's coercion of the text is guarded by `type(active) == "str"`,
   * which never holds, so the text is stored as given and never rejected.)
   */
  function ActiveFor(args: Params): bool
  {
    Given(args, "active") && StoredFlag(args["active"])
  }

  function CreateSport(db: Db, args: Params, codecs: Codecs): (r: Result<Db, Error>)
    ensures r.Success? <==> Given(args, "name") && args["name"] !in db.sports
    ensures !Given(args, "name") ==> r == Failure(MissingField)
    ensures r.Success? ==>
      var name := args["name"];
      && r.value.events == db.events && r.value.selections == db.selections
      && r.value.sports.Keys == db.sports.Keys + {name}
      && (forall s :: s in db.sports ==> r.value.sports[s] == db.sports[s])
      && (Given(args, "slug") ==> r.value.sports[name].slug == args["slug"])
      && (!Given(args, "slug") ==> r.value.sports[name].slug == codecs.slugify(name))
      && (Given(args, "active") ==> r.value.sports[name].active == StoredFlag(args["active"]))
      && (!Given(args, "active") ==> !r.value.sports[name].active)
    ensures r.Success? && Linked(db) ==> Linked(r.value)
  {
    if !Given(args, "name") then Failure(MissingField)
    else
      var name := args["name"];
      if name in db.sports then Failure(Conflict)
      else Success(db.(sports := db.sports[name := Sport(SlugFor(args, name, codecs), ActiveFor(args))]))
  }

  /**
   * The scheduled start is parsed (and converted to UTC) before the required
   * parameters are checked, so text that does not parse is an error even
   * when a required parameter is also missing.
   */
  function CreateEvent(db: Db, args: Params, codecs: Codecs): (r: Result<Db, Error>)
    ensures r.Success? <==>
      && Given(args, "name") && Given(args, "sport") && Given(args, "scheduled-start")
      && codecs.parseTime(args["scheduled-start"]).Some?
      && args["name"] !in db.events && args["sport"] in db.sports
    ensures r.Success? ==>
      var name := args["name"];
      && r.value.sports == db.sports && r.value.selections == db.selections
      && r.value.events.Keys == db.events.Keys + {name}
      && (forall e :: e in db.events ==> r.value.events[e] == db.events[e])
      && var row := r.value.events[name];
      && row.status == Pending && row.kind == Preplay && row.actualStart == None
      && row.sport == args["sport"]
      && Some(row.scheduledStart) == codecs.parseTime(args["scheduled-start"])
      && (Given(args, "slug") ==> row.slug == args["slug"])
      && (!Given(args, "slug") ==> row.slug == codecs.slugify(name))
      && (Given(args, "active") ==> row.active == StoredFlag(args["active"]))
      && (!Given(args, "active") ==> !row.active)
    ensures r.Success? && Linked(db) ==> Linked(r.value)
  {
    if Given(args, "scheduled-start") && codecs.parseTime(args["scheduled-start"]).None? then
      Failure(InvalidValue)
    else if !(Given(args, "name") && Given(args, "sport") && Given(args, "scheduled-start")) then
      Failure(MissingField)
    else
      var name := args["name"];
      var start := codecs.parseTime(args["scheduled-start"]).value;
      if name in db.events then Failure(Conflict)
      else if args["sport"] !in db.sports then Failure(Integrity)
      else
        var row := Event(SlugFor(args, name, codecs), ActiveFor(args), Preplay, args["sport"], Pending, start, None);
        Success(db.(events := db.events[name := row]))
  }

  /**
   * The price is converted before the required parameters are checked. A
   * missing price is reported as a missing parameter (the source fails on
   * it with a type error instead of its 400 reply).
   */
  function CreateSelection(db: Db, args: Params, codecs: Codecs): (r: Result<Db, Error>)
    ensures r.Success? <==>
      && "price" in args && codecs.parseCents(args["price"]).Some?
      && Given(args, "name") && Given(args, "event")
      && args["name"] !in db.selections && args["event"] in db.events
    ensures r.Success? ==>
      var name := args["name"];
      && r.value.sports == db.sports && r.value.events == db.events
      && r.value.selections.Keys == db.selections.Keys + {name}
      && (forall n :: n in db.selections ==> r.value.selections[n] == db.selections[n])
      && var row := r.value.selections[name];
      && row.outcome == Unsettled && row.event == args["event"]
      && Some(row.price) == codecs.parseCents(args["price"])
      && (Given(args, "active") ==> row.active == StoredFlag(args["active"]))
      && (!Given(args, "active") ==> !row.active)
    ensures r.Success? && Linked(db) ==> Linked(r.value)
  {
    if "price" !in args then Failure(MissingField)
    else if codecs.parseCents(args["price"]).None? then Failure(InvalidValue)
    else if !(Given(args, "name") && Given(args, "event")) then Failure(MissingField)
    else
      var name := args["name"];
      if name in db.selections then Failure(Conflict)
      else if args["event"] !in db.events then Failure(Integrity)
      else
        var row := Selection(args["event"], codecs.parseCents(args["price"]).value, ActiveFor(args), Unsettled);
        Success(db.(selections := db.selections[name := row]))
  }

  // ---------------------------------------------------------------------
  // Delete
  // ---------------------------------------------------------------------

  function DeleteSport(db: Db, name: Name): (r: Result<Db, Error>)
    ensures r.Failure? <==> EventsOf(db.events, name) != {}
    ensures r.Failure? ==> r.error == Integrity
    ensures r.Success? ==>
      && r.value.sports.Keys == db.sports.Keys - {name}
      && (forall s :: s in r.value.sports ==> r.value.sports[s] == db.sports[s])
      && r.value.events == db.events && r.value.selections == db.selections
    ensures r.Success? && Linked(db) ==> Linked(r.value)
  {
    if EventsOf(db.events, name) != {} then Failure(Integrity)
    else
      assert forall e :: e in db.events ==> e !in EventsOf(db.events, name);
      Success(db.(sports := db.sports - {name}))
  }

  function DeleteEvent(db: Db, name: Name): (r: Result<Db, Error>)
    ensures r.Failure? <==> SelectionsOf(db.selections, name) != {}
    ensures r.Failure? ==> r.error == Integrity
    ensures r.Success? ==>
      && r.value.events.Keys == db.events.Keys - {name}
      && (forall e :: e in r.value.events ==> r.value.events[e] == db.events[e])
      && r.value.sports == db.sports && r.value.selections == db.selections
    ensures r.Success? && Linked(db) ==> Linked(r.value)
  {
    if SelectionsOf(db.selections, name) != {} then Failure(Integrity)
    else
      assert forall n :: n in db.selections ==> n !in SelectionsOf(db.selections, name);
      Success(db.(events := db.events - {name}))
  }

  /** No table references selections, so deleting one always succeeds. */
  function DeleteSelection(db: Db, name: Name): (r: Db)
    ensures r.selections.Keys == db.selections.Keys - {name}
    ensures forall n :: n in r.selections ==> r.selections[n] == db.selections[n]
    ensures r.sports == db.sports && r.events == db.events
    ensures Linked(db) ==> Linked(r)
  {
    db.(selections := db.selections - {name})
  }

  // ---------------------------------------------------------------------
  // The SET clause of an update
  // ---------------------------------------------------------------------

  /** The parameter `k` among the keys read so far, as given. */
  function Raw(data: Params, keys: set<string>, k: string): Option<string>
  {
    if k in keys && k in data then Some(data[k]) else None
  }

  /** The parameter `k` among the keys read so far, decoded. */
  function Decoded<T>(data: Params, keys: set<string>, k: string, decode: string -> Option<T>): Option<T>
  {
    if k in keys && k in data then decode(data[k]) else None
  }

  function FlagOf(data: Params, keys: set<string>): Option<bool>
  {
    if "active" in keys && "active" in data then Some(StoredFlag(data["active"])) else None
  }

  datatype SportDelta = SportDelta(name: Option<Name>, slug: Option<string>, active: Option<bool>)

  const SportColumns: set<string> := {"name", "slug", "active"}

  function SportDeltaOn(data: Params, keys: set<string>): SportDelta
  {
    SportDelta(Raw(data, keys, "name"), Raw(data, keys, "slug"), FlagOf(data, keys))
  }

  /** Every parameter must name a column of the table. */
  function SportDeltaOf(data: Params): Result<SportDelta, Error>
  {
    if forall k :: k in data ==> k in SportColumns then Success(SportDeltaOn(data, data.Keys))
    else Failure(UnknownColumn)
  }

  function SetSportColumn(d: SportDelta, k: string, v: string): SportDelta
  {
    if k == "name" then d.(name := Some(v))
    else if k == "slug" then d.(slug := Some(v))
    else if k == "active" then d.(active := Some(StoredFlag(v)))
    else d
  }

  function ApplySportDelta(row: Sport, d: SportDelta): Sport
  {
    Sport(d.slug.GetOr(row.slug), d.active.GetOr(row.active))
  }

  datatype EventDelta = EventDelta(
    name: Option<Name>,
    slug: Option<string>,
    active: Option<bool>,
    kind: Option<EventType>,
    sport: Option<Name>,
    status: Option<Status>,
    scheduledStart: Option<Instant>,
    actualStart: Option<Instant>)

  /**
   * `scheduled-start` is not among them: the source reads an undefined
   * variable for it and fails, so the model rejects it like any non-column.
   */
  const EventColumns: set<string> :=
    {"name", "slug", "active", "type", "sport", "status", "scheduled_start", "actual_start"}

  predicate EventColumnOk(k: string, v: string, codecs: Codecs)
  {
    && k in EventColumns
    && (k == "type" ==> DecodeType(v).Some?)
    && (k == "status" ==> DecodeStatus(v).Some?)
    && (k == "scheduled_start" || k == "actual_start" ==> codecs.parseTime(v).Some?)
  }

  function EventDeltaOn(data: Params, keys: set<string>, codecs: Codecs): EventDelta
  {
    EventDelta(
      Raw(data, keys, "name"),
      Raw(data, keys, "slug"),
      FlagOf(data, keys),
      Decoded(data, keys, "type", DecodeType),
      Raw(data, keys, "sport"),
      Decoded(data, keys, "status", DecodeStatus),
      Decoded(data, keys, "scheduled_start", codecs.parseTime),
      Decoded(data, keys, "actual_start", codecs.parseTime))
  }

  function EventDeltaOf(data: Params, codecs: Codecs): Result<EventDelta, Error>
  {
    if forall k :: k in data ==> EventColumnOk(k, data[k], codecs) then
      Success(EventDeltaOn(data, data.Keys, codecs))
    else if forall k :: k in data ==> k in EventColumns then
      Failure(InvalidValue)
    else
      Failure(UnknownColumn)
  }

  function SetEventColumn(d: EventDelta, k: string, v: string, codecs: Codecs): EventDelta
  {
    if k == "name" then d.(name := Some(v))
    else if k == "slug" then d.(slug := Some(v))
    else if k == "active" then d.(active := Some(StoredFlag(v)))
    else if k == "type" then d.(kind := DecodeType(v))
    else if k == "sport" then d.(sport := Some(v))
    else if k == "status" then d.(status := DecodeStatus(v))
    else if k == "scheduled_start" then d.(scheduledStart := codecs.parseTime(v))
    else if k == "actual_start" then d.(actualStart := codecs.parseTime(v))
    else d
  }

  function ApplyEventDelta(row: Event, d: EventDelta): Event
  {
    Event(
      d.slug.GetOr(row.slug),
      d.active.GetOr(row.active),
      d.kind.GetOr(row.kind),
      d.sport.GetOr(row.sport),
      d.status.GetOr(row.status),
      d.scheduledStart.GetOr(row.scheduledStart),
      if d.actualStart.Some? then d.actualStart else row.actualStart)
  }

  datatype SelectionDelta = SelectionDelta(
    name: Option<Name>,
    event: Option<Name>,
    price: Option<int>,
    active: Option<bool>,
    outcome: Option<Outcome>)

  const SelectionColumns: set<string> := {"name", "event", "price", "active", "outcome"}

  predicate SelectionColumnOk(k: string, v: string, codecs: Codecs)
  {
    && k in SelectionColumns
    && (k == "price" ==> codecs.parseCents(v).Some?)
    && (k == "outcome" ==> DecodeOutcome(v).Some?)
  }

  function SelectionDeltaOn(data: Params, keys: set<string>, codecs: Codecs): SelectionDelta
  {
    SelectionDelta(
      Raw(data, keys, "name"),
      Raw(data, keys, "event"),
      Decoded(data, keys, "price", codecs.parseCents),
      FlagOf(data, keys),
      Decoded(data, keys, "outcome", DecodeOutcome))
  }

  function SelectionDeltaOf(data: Params, codecs: Codecs): Result<SelectionDelta, Error>
  {
    if forall k :: k in data ==> SelectionColumnOk(k, data[k], codecs) then
      Success(SelectionDeltaOn(data, data.Keys, codecs))
    else if forall k :: k in data ==> k in SelectionColumns then
      Failure(InvalidValue)
    else
      Failure(UnknownColumn)
  }

  function SetSelectionColumn(d: SelectionDelta, k: string, v: string, codecs: Codecs): SelectionDelta
  {
    if k == "name" then d.(name := Some(v))
    else if k == "event" then d.(event := Some(v))
    else if k == "price" then d.(price := codecs.parseCents(v))
    else if k == "active" then d.(active := Some(StoredFlag(v)))
    else if k == "outcome" then d.(outcome := DecodeOutcome(v))
    else d
  }

  function ApplySelectionDelta(row: Selection, d: SelectionDelta): Selection
  {
    Selection(
      d.event.GetOr(row.event),
      d.price.GetOr(row.price),
      d.active.GetOr(row.active),
      d.outcome.GetOr(row.outcome))
  }

  // ---------------------------------------------------------------------
  // The UPDATE statement on the named row
  // ---------------------------------------------------------------------

  /** The key of the row after the update: a `name` parameter renames it. */
  function NewKey(data: Params, name: Name): Name
  {
    if "name" in data then data["name"] else name
  }

  /**
   * `UPDATE sports SET ... WHERE name = ?`: no row matches an absent name. A
   * new name must be free, and the old one must not be referenced by an
   * event (ON UPDATE RESTRICT).
   */
  function WriteSport(db: Db, name: Name, d: SportDelta): (r: Result<Db, Error>)
    ensures name !in db.sports ==> r == Success(db)
    ensures r.Success? ==> r.value.events == db.events && r.value.selections == db.selections
    ensures r.Success? && name in db.sports ==>
      var key := d.name.GetOr(name);
      && r.value.sports.Keys == db.sports.Keys - {name} + {key}
      && r.value.sports[key] == ApplySportDelta(db.sports[name], d)
      && (forall s :: s in db.sports && s != name && s != key ==> r.value.sports[s] == db.sports[s])
    ensures name in db.sports && d.name.Some? && d.name.value != name && d.name.value in db.sports ==>
      r == Failure(Conflict)
    ensures r.Success? && Linked(db) ==> Linked(r.value)
  {
    if name !in db.sports then Success(db)
    else
      var key := d.name.GetOr(name);
      if key != name && key in db.sports then Failure(Conflict)
      else if key != name && EventsOf(db.events, name) != {} then Failure(Integrity)
      else
        assert key != name ==> forall e :: e in db.events ==> e !in EventsOf(db.events, name);
        Success(db.(sports := Rekey(db.sports, name, key, ApplySportDelta(db.sports[name], d))))
  }

  /** As WriteSport; in addition a new `sport` value must name an existing sport. */
  function WriteEvent(db: Db, name: Name, d: EventDelta): (r: Result<Db, Error>)
    ensures name !in db.events ==> r == Success(db)
    ensures r.Success? ==> r.value.sports == db.sports && r.value.selections == db.selections
    ensures r.Success? && name in db.events ==>
      var key := d.name.GetOr(name);
      && r.value.events.Keys == db.events.Keys - {name} + {key}
      && r.value.events[key] == ApplyEventDelta(db.events[name], d)
      && r.value.events[key].sport in db.sports
      && (forall e :: e in db.events && e != name && e != key ==> r.value.events[e] == db.events[e])
    ensures name in db.events && d.name.Some? && d.name.value != name && d.name.value in db.events ==>
      r == Failure(Conflict)
    ensures r.Success? && Linked(db) ==> Linked(r.value)
  {
    if name !in db.events then Success(db)
    else
      var key := d.name.GetOr(name);
      var row := ApplyEventDelta(db.events[name], d);
      if key != name && key in db.events then Failure(Conflict)
      else if key != name && SelectionsOf(db.selections, name) != {} then Failure(Integrity)
      else if row.sport !in db.sports then Failure(Integrity)
      else
        assert key != name ==> forall n :: n in db.selections ==> n !in SelectionsOf(db.selections, name);
        Success(db.(events := Rekey(db.events, name, key, row)))
  }

  function WriteSelection(db: Db, name: Name, d: SelectionDelta): (r: Result<Db, Error>)
    ensures name !in db.selections ==> r == Success(db)
    ensures r.Success? ==> r.value.sports == db.sports && r.value.events == db.events
    ensures r.Success? && name in db.selections ==>
      var key := d.name.GetOr(name);
      && r.value.selections.Keys == db.selections.Keys - {name} + {key}
      && r.value.selections[key] == ApplySelectionDelta(db.selections[name], d)
      && r.value.selections[key].event in db.events
      && (forall n :: n in db.selections && n != name && n != key ==> r.value.selections[n] == db.selections[n])
    ensures name in db.selections && d.name.Some? && d.name.value != name && d.name.value in db.selections ==>
      r == Failure(Conflict)
    ensures r.Success? && Linked(db) ==> Linked(r.value)
  {
    if name !in db.selections then Success(db)
    else
      var key := d.name.GetOr(name);
      var row := ApplySelectionDelta(db.selections[name], d);
      if key != name && key in db.selections then Failure(Conflict)
      else if row.event !in db.events then Failure(Integrity)
      else Success(db.(selections := Rekey(db.selections, name, key, row)))
  }

  // ---------------------------------------------------------------------
  // Side effects
  // ---------------------------------------------------------------------

  predicate StartsEvent(data: Params)
  {
    "status" in data && Lower(data["status"]) == "started"
  }

  predicate EndsEvent(data: Params)
  {
    "status" in data && (Lower(data["status"]) == "ended" || Lower(data["status"]) == "cancelled")
  }

  /** An `active` parameter of "false" or "0", in any letter case. */
  predicate Deactivates(data: Params)
  {
    "active" in data && DecodeFlag(data["active"]) == Some(false)
  }

  /** An outcome other than "unsettled", in any letter case. */
  predicate Settles(data: Params)
  {
    "outcome" in data && Lower(data["outcome"]) != "unsettled"
  }

  /** The side effects of a status of "started", on the row still named `name`. */
  function MarkStarted(db: Db, name: Name, now: Instant): (r: Db)
    ensures r.sports == db.sports && r.selections == db.selections
    ensures r.events.Keys == db.events.Keys
    ensures forall e :: e in db.events && e != name ==> r.events[e] == db.events[e]
    ensures name in db.events ==>
      r.events[name] == db.events[name].(actualStart := Some(now), kind := Inplay)
    ensures Linked(db) ==> Linked(r)
  {
    if name in db.events then
      db.(events := db.events[name := db.events[name].(actualStart := Some(now), kind := Inplay)])
    else db
  }

  function ForceEventInactive(db: Db, name: Name): (r: Db)
    ensures r.sports == db.sports && r.selections == db.selections
    ensures r.events.Keys == db.events.Keys
    ensures forall e :: e in db.events && e != name ==> r.events[e] == db.events[e]
    ensures name in db.events ==> r.events[name] == db.events[name].(active := false)
    ensures Linked(db) ==> Linked(r)
  {
    if name in db.events then db.(events := db.events[name := db.events[name].(active := false)]) else db
  }

  function ForceSelectionInactive(db: Db, name: Name): (r: Db)
    ensures r.sports == db.sports && r.events == db.events
    ensures r.selections.Keys == db.selections.Keys
    ensures forall n :: n in db.selections && n != name ==> r.selections[n] == db.selections[n]
    ensures name in db.selections ==> r.selections[name] == db.selections[name].(active := false)
    ensures Linked(db) ==> Linked(r)
  {
    if name in db.selections then
      db.(selections := db.selections[name := db.selections[name].(active := false)])
    else db
  }

  // ---------------------------------------------------------------------
  // Update requests
  // ---------------------------------------------------------------------

  /** update_sport: only "true" or "false" is accepted for `active`. */
  function SportUpdate(db: Db, name: Name, data: Params): (r: Result<Db, Error>)
    ensures data == map[] ==> r == Failure(NoData)
    ensures "active" in data && Lower(data["active"]) != "true" && Lower(data["active"]) != "false" ==>
              r == Failure(InvalidValue)
    ensures (exists k :: k in data && k !in SportColumns) ==> r.Failure?
  {
    if "active" in data && Lower(data["active"]) != "false" && Lower(data["active"]) != "true" then
      Failure(InvalidValue)
    else if data == map[] then Failure(NoData)
    else
      var d :- SportDeltaOf(data);
      WriteSport(db, name, d)
  }

  /**
   * update_event. `now` is the clock reading stored as the actual start.
   * A status of "started" sets the actual start and forces the type to
   * Inplay; "ended" or "cancelled" switches the event off and recomputes the
   * sports; an `active` of "false" or "0" recomputes the sports too.
   */
  function EventUpdate(db: Db, name: Name, data: Params, now: Instant, codecs: Codecs): (r: Result<Db, Error>)
    ensures data == map[] ==> r == Failure(NoData)
    ensures "status" in data && DecodeStatus(data["status"]).None? ==> r == Failure(InvalidValue)
    ensures "type" in data && DecodeType(data["type"]).None? ==> r == Failure(InvalidValue)
    ensures (exists k :: k in data && k !in EventColumns) ==> r.Failure?
  {
    if data == map[] then Failure(NoData)
    else if "status" in data && DecodeStatus(data["status"]).None? then Failure(InvalidValue)
    else if "type" in data && DecodeType(data["type"]).None? then Failure(InvalidValue)
    else
      var d :- EventDeltaOf(data, codecs);
      var written :- WriteEvent(db, name, d);
      var afterStatus :=
        if StartsEvent(data) then MarkStarted(written, name, now)
        else if EndsEvent(data) then DeactivateIdleSports(ForceEventInactive(written, name))
        else written;
      Success(if Deactivates(data) then DeactivateIdleSports(afterStatus) else afterStatus)
  }

  /**
   * update_selection. A settling outcome switches the selection off after
   * the field writes and runs the cascade; an `active` of "false" or "0"
   * runs the cascade too.
   */
  function SelectionUpdate(db: Db, name: Name, data: Params, codecs: Codecs): (r: Result<Db, Error>)
    ensures data == map[] ==> r == Failure(NoData)
    ensures "outcome" in data && DecodeOutcome(data["outcome"]).None? ==> r == Failure(InvalidValue)
    ensures (exists k :: k in data && k !in SelectionColumns) ==> r.Failure?
  {
    if data == map[] then Failure(NoData)
    else if "outcome" in data && DecodeOutcome(data["outcome"]).None? then Failure(InvalidValue)
    else
      var d :- SelectionDeltaOf(data, codecs);
      var written :- WriteSelection(db, name, d);
      var settled := if Settles(data) then Cascade(ForceSelectionInactive(written, name)) else written;
      Success(if Deactivates(data) then Cascade(settled) else settled)
  }
}
