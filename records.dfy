/**
 * The entities of the betting store (app.py): sports, the events held under
 * each sport, and the selections offered within each event, kept in three
 * tables keyed by name. Events reference sports and selections reference
 * events by foreign key (app.py:42-45, app.py:53-56).
 *
 * Requests reach the store as a flat mapping from parameter name to text.
 * Text that the store hands to libraries it does not own (slug generation,
 * number and date parsing) goes through the collaborators in `Codecs`.
 */
module Records {
  import opened Wrappers

  type Name = string

  /** The query-string arguments of one request; each key occurs once. */
  type Params = map<string, string>

  datatype EventType = Preplay | Inplay
  datatype Status = Pending | Started | Ended | Cancelled
  datatype Outcome = Unsettled | Win | Lose | Void

  /** A point in time, already normalised to UTC. */
  datatype Instant = Instant(utcSeconds: int)

  datatype Sport = Sport(slug: string, active: bool)

  datatype Event = Event(
    slug: string,
    active: bool,
    kind: EventType,
    sport: Name,
    status: Status,
    scheduledStart: Instant,
    actualStart: Option<Instant>)

  /** `price` is in cents: the source keeps prices with two fraction digits. */
  datatype Selection = Selection(event: Name, price: int, active: bool, outcome: Outcome)

  /** The three tables. */
  datatype Db = Db(
    sports: map<Name, Sport>,
    events: map<Name, Event>,
    selections: map<Name, Selection>)

  datatype Error =
    | MissingField   // a required create parameter is absent or empty
    | InvalidValue   // a value that fails enum, flag, number or date decoding
    | NoData         // an update with no parameters
    | UnknownColumn  // a parameter that names no column of the table
    | Conflict       // a primary key that is already taken
    | Integrity      // a foreign key that would dangle

  /**
   * The libraries the store calls: slug generation, the float-and-format
   * step that turns price text into cents, date parsing with conversion to
   * UTC, and integer parsing.
   */
  datatype Codecs = Codecs(
    slugify: string -> string,
    parseCents: string -> Option<int>,
    parseTime: string -> Option<Instant>,
    parseInt: string -> Option<int>)

  const EmptyDb := Db(map[], map[], map[])

  /** Referential integrity: every foreign key names an existing row. */
  predicate Linked(db: Db)
  {
    && (forall e :: e in db.events ==> db.events[e].sport in db.sports)
    && (forall n :: n in db.selections ==> db.selections[n].event in db.events)
  }

  // ---------------------------------------------------------------------
  // Request text
  // ---------------------------------------------------------------------

  /** A parameter that is present and not empty (Python truthiness of `args.get`). */
  predicate Given(args: Params, key: string)
  {
    key in args && args[key] != ""
  }

  function LowerChar(c: char): char
  {
    if 'A' <= c <= 'Z' then (c as int + 32) as char else c
  }

  /** ASCII lower-casing (`str.lower` on the texts the store compares). */
  function Lower(s: string): (r: string)
    ensures |r| == |s|
    ensures forall i :: 0 <= i < |s| ==> r[i] == LowerChar(s[i])
  {
    seq(|s|, i requires 0 <= i < |s| => LowerChar(s[i]))
  }

  /**
   * An `active` value: "true"/"1" and "false"/"0" in any letter case;
   * anything else is not a flag.
   */
  function DecodeFlag(s: string): Option<bool>
  {
    var l := Lower(s);
    if l == "true" || l == "1" then Some(true)
    else if l == "false" || l == "0" then Some(false)
    else None
  }

  function DecodeStatus(s: string): Option<Status>
  {
    var l := Lower(s);
    if l == "pending" then Some(Pending)
    else if l == "started" then Some(Started)
    else if l == "ended" then Some(Ended)
    else if l == "cancelled" then Some(Cancelled)
    else None
  }

  function DecodeType(s: string): Option<EventType>
  {
    var l := Lower(s);
    if l == "preplay" then Some(Preplay)
    else if l == "inplay" then Some(Inplay)
    else None
  }

  function DecodeOutcome(s: string): Option<Outcome>
  {
    var l := Lower(s);
    if l == "win" then Some(Win)
    else if l == "lose" then Some(Lose)
    else if l == "void" then Some(Void)
    else if l == "unsettled" then Some(Unsettled)
    else None
  }

  /**
   * The flag the model keeps for an `active` text: on exactly when the text
   * reads as true. This is the intended meaning, not SQLite's storage of
   * the text, which sums "true" as 0 and "2" as 2.
   */
  function StoredFlag(s: string): bool
  {
    DecodeFlag(s) == Some(true)
  }

  // ---------------------------------------------------------------------
  // Children of a row
  // ---------------------------------------------------------------------

  function EventsOf(events: map<Name, Event>, sport: Name): set<Name>
  {
    set e | e in events && events[e].sport == sport
  }

  function ActiveEventsOf(events: map<Name, Event>, sport: Name): set<Name>
  {
    set e | e in events && events[e].sport == sport && events[e].active
  }

  function SelectionsOf(selections: map<Name, Selection>, event: Name): set<Name>
  {
    set n | n in selections && selections[n].event == event
  }

  function ActiveSelectionsOf(selections: map<Name, Selection>, event: Name): set<Name>
  {
    set n | n in selections && selections[n].event == event && selections[n].active
  }

  /** `m` with the row at `from` moved to `to` and replaced by `v`. */
  function Rekey<V>(m: map<Name, V>, from: Name, to: Name, v: V): (r: map<Name, V>)
    ensures r.Keys == m.Keys - {from} + {to}
    ensures to in r && r[to] == v
    ensures forall k :: k in m && k != from && k != to ==> r[k] == m[k]
  {
    (m - {from})[to := v]
  }
}
