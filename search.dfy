/**
 * The search handlers of app.py (search_sports, search_events,
 * search_selections). Each request parameter becomes one condition on a row
 * and the conditions are ANDed; no parameter returns the whole table
 * (app.py:151-193, app.py:358-400, app.py:585-623).
 *
 * A parameter is read as follows, first match wins:
 *   min-events / min-selections  the row has children and at least N active ones
 *   min-price / max-price        price >= N / price <= N (selections)
 *   timeframe                    scheduled start between now and the given time (events)
 *   name-start / -end / -contains  prefix / suffix / substring of the name
 *   any other name-...           the name equals the value (a LIKE pattern without wildcards)
 *   any other key with a '-'     an error: the handler rewrites '-' to '_' and then looks the
 *                                value up in the request under that spelling, which a request
 *                                carrying only the dashed key does not have
 *   anything else                equality on the column the key names; a key that names no
 *                                column is an error
 * Name tests are plain, case-sensitive string tests.
 */
module Search {
  import opened Wrappers
  import opened Records

  // ---------------------------------------------------------------------
  // Name tests
  // ---------------------------------------------------------------------

  datatype NameTest = StartsWith(p: string) | EndsWith(p: string) | Contains(p: string) | Equals(p: string)

  /** `p` occurs in `s` at some position. */
  predicate IsSubstring(p: string, s: string)
  {
    p <= s || (s != [] && IsSubstring(p, s[1..]))
  }

  predicate NameMatches(t: NameTest, name: string)
  {
    match t
    case StartsWith(p) => p <= name
    case EndsWith(p) => |p| <= |name| && name[|name| - |p|..] == p
    case Contains(p) => IsSubstring(p, name)
    case Equals(p) => name == p
  }

  function NameTestFor(key: string, value: string): NameTest
  {
    if key == "name-start" then StartsWith(value)
    else if key == "name-end" then EndsWith(value)
    else if key == "name-contains" then Contains(value)
    else Equals(value)
  }

  /** The column a plain key names: every '-' read as '_'. */
  function Column(key: string): (c: string)
    ensures |c| == |key|
    ensures forall i :: 0 <= i < |key| ==> c[i] == if key[i] == '-' then '_' else key[i]
  {
    seq(|key|, i requires 0 <= i < |key| => if key[i] == '-' then '_' else key[i])
  }

  lemma NoDashColumn(key: string)
    requires forall i :: 0 <= i < |key| ==> key[i] != '-'
    ensures Column(key) == key
  {
  }

  // ---------------------------------------------------------------------
  // Sports
  // ---------------------------------------------------------------------

  datatype SportFilter =
    | SportMinEvents(n: int)
    | SportName(test: NameTest)
    | SportSlug(slug: string)
    | SportActive(flag: Option<bool>)

  function DecodeSportFilter(key: string, value: string, codecs: Codecs): Result<SportFilter, Error>
  {
    if key == "min-events" then
      (match codecs.parseInt(value)
       case Some(n) => Success(SportMinEvents(n))
       case None => Failure(InvalidValue))
    else if "name-" <= key then Success(SportName(NameTestFor(key, value)))
    else if Column(key) != key then Failure(UnknownColumn)
    else if key == "name" then Success(SportName(Equals(value)))
    else if key == "slug" then Success(SportSlug(value))
    else if key == "active" then Success(SportActive(DecodeFlag(value)))
    else Failure(UnknownColumn)
  }

  predicate SportMatches(db: Db, name: Name, f: SportFilter)
    requires name in db.sports
  {
    match f
    case SportMinEvents(n) =>
      EventsOf(db.events, name) != {} && |ActiveEventsOf(db.events, name)| >= n
    case SportName(t) => NameMatches(t, name)
    case SportSlug(slug) => db.sports[name].slug == slug
    case SportActive(flag) => flag == Some(db.sports[name].active)
  }

  /** The row passes the condition of every parameter. */
  predicate SportSelected(db: Db, name: Name, args: Params, codecs: Codecs)
    requires name in db.sports
  {
    forall k :: k in args && DecodeSportFilter(k, args[k], codecs).Success? ==>
      SportMatches(db, name, DecodeSportFilter(k, args[k], codecs).value)
  }

  /** A parameter that cannot be read as a condition fails the whole search. */
  function SearchError(unknown: bool): Error
  {
    if unknown then UnknownColumn else InvalidValue
  }

  function SearchSports(db: Db, args: Params, codecs: Codecs): (r: Result<map<Name, Sport>, Error>)
    ensures r.Failure? <==> exists k :: k in args && DecodeSportFilter(k, args[k], codecs).Failure?
    ensures r.Success? ==> forall n :: n in r.value ==> n in db.sports && r.value[n] == db.sports[n]
  {
    if exists k :: k in args && DecodeSportFilter(k, args[k], codecs).Failure? then
      Failure(SearchError(exists k :: k in args && DecodeSportFilter(k, args[k], codecs) == Failure(UnknownColumn)))
    else
      Success(map n | n in db.sports && SportSelected(db, n, args, codecs) :: db.sports[n])
  }

  // ---------------------------------------------------------------------
  // Events
  // ---------------------------------------------------------------------

  datatype EventFilter =
    | EventMinSelections(n: int)
    | EventTimeframe(until: Instant)
    | EventName(test: NameTest)
    | EventSlug(slug: string)
    | EventActive(flag: Option<bool>)
    | EventKind(kind: Option<EventType>)
    | EventSport(sport: Name)
    | EventStatus(status: Option<Status>)
    | EventScheduledStart(scheduled: Option<Instant>)
    | EventActualStart(at: Option<Instant>)

  function DecodeEventFilter(key: string, value: string, codecs: Codecs): Result<EventFilter, Error>
  {
    if key == "min-selections" then
      (match codecs.parseInt(value)
       case Some(n) => Success(EventMinSelections(n))
       case None => Failure(InvalidValue))
    else if key == "timeframe" then
      (match codecs.parseTime(value)
       case Some(t) => Success(EventTimeframe(t))
       case None => Failure(InvalidValue))
    else if "name-" <= key then Success(EventName(NameTestFor(key, value)))
    else if Column(key) != key then Failure(UnknownColumn)
    else if key == "name" then Success(EventName(Equals(value)))
    else if key == "slug" then Success(EventSlug(value))
    else if key == "active" then Success(EventActive(DecodeFlag(value)))
    else if key == "type" then Success(EventKind(DecodeType(value)))
    else if key == "sport" then Success(EventSport(value))
    else if key == "status" then Success(EventStatus(DecodeStatus(value)))
    else if key == "scheduled_start" then Success(EventScheduledStart(codecs.parseTime(value)))
    else if key == "actual_start" then Success(EventActualStart(codecs.parseTime(value)))
    else Failure(UnknownColumn)
  }

  predicate EventMatches(db: Db, now: Instant, name: Name, f: EventFilter)
    requires name in db.events
  {
    var row := db.events[name];
    match f
    case EventMinSelections(n) =>
      SelectionsOf(db.selections, name) != {} && |ActiveSelectionsOf(db.selections, name)| >= n
    case EventTimeframe(until) =>
      now.utcSeconds <= row.scheduledStart.utcSeconds <= until.utcSeconds
    case EventName(t) => NameMatches(t, name)
    case EventSlug(slug) => row.slug == slug
    case EventActive(flag) => flag == Some(row.active)
    case EventKind(kind) => kind == Some(row.kind)
    case EventSport(sport) => row.sport == sport
    case EventStatus(status) => status == Some(row.status)
    case EventScheduledStart(at) => at == Some(row.scheduledStart)
    case EventActualStart(at) => at.Some? && at == row.actualStart
  }

  predicate EventSelected(db: Db, now: Instant, name: Name, args: Params, codecs: Codecs)
    requires name in db.events
  {
    forall k :: k in args && DecodeEventFilter(k, args[k], codecs).Success? ==>
      EventMatches(db, now, name, DecodeEventFilter(k, args[k], codecs).value)
  }

  /** `now` is the clock reading that the `timeframe` condition compares against. */
  function SearchEvents(db: Db, now: Instant, args: Params, codecs: Codecs): (r: Result<map<Name, Event>, Error>)
    ensures r.Failure? <==> exists k :: k in args && DecodeEventFilter(k, args[k], codecs).Failure?
    ensures r.Success? ==> forall n :: n in r.value ==> n in db.events && r.value[n] == db.events[n]
  {
    if exists k :: k in args && DecodeEventFilter(k, args[k], codecs).Failure? then
      Failure(SearchError(exists k :: k in args && DecodeEventFilter(k, args[k], codecs) == Failure(UnknownColumn)))
    else
      Success(map n | n in db.events && EventSelected(db, now, n, args, codecs) :: db.events[n])
  }

  // ---------------------------------------------------------------------
  // Selections
  // ---------------------------------------------------------------------

  datatype SelectionFilter =
    | SelectionMinPrice(cents: int)
    | SelectionMaxPrice(cents: int)
    | SelectionName(test: NameTest)
    | SelectionEvent(event: Name)
    | SelectionPrice(exact: Option<int>)
    | SelectionActive(flag: Option<bool>)
    | SelectionOutcome(outcome: Option<Outcome>)

  function DecodeSelectionFilter(key: string, value: string, codecs: Codecs): Result<SelectionFilter, Error>
  {
    if key == "min-price" then
      (match codecs.parseCents(value)
       case Some(c) => Success(SelectionMinPrice(c))
       case None => Failure(InvalidValue))
    else if key == "max-price" then
      (match codecs.parseCents(value)
       case Some(c) => Success(SelectionMaxPrice(c))
       case None => Failure(InvalidValue))
    else if "name-" <= key then Success(SelectionName(NameTestFor(key, value)))
    else if Column(key) != key then Failure(UnknownColumn)
    else if key == "name" then Success(SelectionName(Equals(value)))
    else if key == "event" then Success(SelectionEvent(value))
    else if key == "price" then Success(SelectionPrice(codecs.parseCents(value)))
    else if key == "active" then Success(SelectionActive(DecodeFlag(value)))
    else if key == "outcome" then Success(SelectionOutcome(DecodeOutcome(value)))
    else Failure(UnknownColumn)
  }

  predicate SelectionMatches(db: Db, name: Name, f: SelectionFilter)
    requires name in db.selections
  {
    var row := db.selections[name];
    match f
    case SelectionMinPrice(c) => row.price >= c
    case SelectionMaxPrice(c) => row.price <= c
    case SelectionName(t) => NameMatches(t, name)
    case SelectionEvent(event) => row.event == event
    case SelectionPrice(c) => c == Some(row.price)
    case SelectionActive(flag) => flag == Some(row.active)
    case SelectionOutcome(outcome) => outcome == Some(row.outcome)
  }

  predicate SelectionSelected(db: Db, name: Name, args: Params, codecs: Codecs)
    requires name in db.selections
  {
    forall k :: k in args && DecodeSelectionFilter(k, args[k], codecs).Success? ==>
      SelectionMatches(db, name, DecodeSelectionFilter(k, args[k], codecs).value)
  }

  function SearchSelections(db: Db, args: Params, codecs: Codecs): (r: Result<map<Name, Selection>, Error>)
    ensures r.Failure? <==> exists k :: k in args && DecodeSelectionFilter(k, args[k], codecs).Failure?
    ensures r.Success? ==> forall n :: n in r.value ==> n in db.selections && r.value[n] == db.selections[n]
  {
    if exists k :: k in args && DecodeSelectionFilter(k, args[k], codecs).Failure? then
      Failure(SearchError(exists k :: k in args && DecodeSelectionFilter(k, args[k], codecs) == Failure(UnknownColumn)))
    else
      Success(map n | n in db.selections && SelectionSelected(db, n, args, codecs) :: db.selections[n])
  }

  // ---------------------------------------------------------------------
  // Properties of the search
  // ---------------------------------------------------------------------

  /** No parameter: the whole table. */
  lemma NoParamsWholeTable(db: Db, now: Instant, codecs: Codecs)
    ensures SearchSports(db, map[], codecs) == Success(db.sports)
    ensures SearchEvents(db, now, map[], codecs) == Success(db.events)
    ensures SearchSelections(db, map[], codecs) == Success(db.selections)
  {
    assert SearchSports(db, map[], codecs).value == db.sports;
    assert SearchEvents(db, now, map[], codecs).value == db.events;
    assert SearchSelections(db, map[], codecs).value == db.selections;
  }

  /** One readable parameter: the rows that pass its condition. */
  lemma OneSportParam(db: Db, k: string, v: string, codecs: Codecs)
    requires DecodeSportFilter(k, v, codecs).Success?
    ensures SearchSports(db, map[k := v], codecs).Success?
    ensures forall n :: n in SearchSports(db, map[k := v], codecs).value
                     <==> n in db.sports && SportMatches(db, n, DecodeSportFilter(k, v, codecs).value)
  {
    var args := map[k := v];
    assert args.Keys == {k};
    forall n | n in db.sports
      ensures SportSelected(db, n, args, codecs) <==> SportMatches(db, n, DecodeSportFilter(k, v, codecs).value)
    {
    }
  }

  lemma OneEventParam(db: Db, now: Instant, k: string, v: string, codecs: Codecs)
    requires DecodeEventFilter(k, v, codecs).Success?
    ensures SearchEvents(db, now, map[k := v], codecs).Success?
    ensures forall n :: n in SearchEvents(db, now, map[k := v], codecs).value
                     <==> n in db.events && EventMatches(db, now, n, DecodeEventFilter(k, v, codecs).value)
  {
    var args := map[k := v];
    assert args.Keys == {k};
    forall n | n in db.events
      ensures EventSelected(db, now, n, args, codecs) <==> EventMatches(db, now, n, DecodeEventFilter(k, v, codecs).value)
    {
    }
  }

  lemma OneSelectionParam(db: Db, k: string, v: string, codecs: Codecs)
    requires DecodeSelectionFilter(k, v, codecs).Success?
    ensures SearchSelections(db, map[k := v], codecs).Success?
    ensures forall n :: n in SearchSelections(db, map[k := v], codecs).value
                     <==> n in db.selections && SelectionMatches(db, n, DecodeSelectionFilter(k, v, codecs).value)
  {
    var args := map[k := v];
    assert args.Keys == {k};
    forall n | n in db.selections
      ensures SelectionSelected(db, n, args, codecs) <==> SelectionMatches(db, n, DecodeSelectionFilter(k, v, codecs).value)
    {
    }
  }

  /**
   * Parameters are ANDed: a search with the parameters of two requests
   * returns the rows both of them return.
   */
  lemma SportParamsConjoin(db: Db, a: Params, b: Params, codecs: Codecs)
    requires a.Keys !! b.Keys
    requires SearchSports(db, a, codecs).Success? && SearchSports(db, b, codecs).Success?
    ensures SearchSports(db, a + b, codecs).Success?
    ensures SearchSports(db, a + b, codecs).value.Keys
         == SearchSports(db, a, codecs).value.Keys * SearchSports(db, b, codecs).value.Keys
  {
    var ab := a + b;
    forall k | k in ab ensures DecodeSportFilter(k, ab[k], codecs).Success? {
      if k in a { assert ab[k] == a[k]; } else { assert ab[k] == b[k]; }
    }
    forall n | n in db.sports
      ensures SportSelected(db, n, ab, codecs) <==> SportSelected(db, n, a, codecs) && SportSelected(db, n, b, codecs)
    {
      forall k | k in ab ensures ab[k] == if k in a then a[k] else b[k] { }
    }
  }

  lemma SelectionParamsConjoin(db: Db, a: Params, b: Params, codecs: Codecs)
    requires a.Keys !! b.Keys
    requires SearchSelections(db, a, codecs).Success? && SearchSelections(db, b, codecs).Success?
    ensures SearchSelections(db, a + b, codecs).Success?
    ensures SearchSelections(db, a + b, codecs).value.Keys
         == SearchSelections(db, a, codecs).value.Keys * SearchSelections(db, b, codecs).value.Keys
  {
    var ab := a + b;
    forall k | k in ab ensures DecodeSelectionFilter(k, ab[k], codecs).Success? {
      if k in a { assert ab[k] == a[k]; } else { assert ab[k] == b[k]; }
    }
    forall n | n in db.selections
      ensures SelectionSelected(db, n, ab, codecs) <==> SelectionSelected(db, n, a, codecs) && SelectionSelected(db, n, b, codecs)
    {
      forall k | k in ab ensures ab[k] == if k in a then a[k] else b[k] { }
    }
  }

  lemma EventParamsConjoin(db: Db, now: Instant, a: Params, b: Params, codecs: Codecs)
    requires a.Keys !! b.Keys
    requires SearchEvents(db, now, a, codecs).Success? && SearchEvents(db, now, b, codecs).Success?
    ensures SearchEvents(db, now, a + b, codecs).Success?
    ensures SearchEvents(db, now, a + b, codecs).value.Keys
         == SearchEvents(db, now, a, codecs).value.Keys * SearchEvents(db, now, b, codecs).value.Keys
  {
    var ab := a + b;
    forall k | k in ab ensures DecodeEventFilter(k, ab[k], codecs).Success? {
      if k in a { assert ab[k] == a[k]; } else { assert ab[k] == b[k]; }
    }
    forall n | n in db.events
      ensures EventSelected(db, now, n, ab, codecs) <==> EventSelected(db, now, n, a, codecs) && EventSelected(db, now, n, b, codecs)
    {
      forall k | k in ab ensures ab[k] == if k in a then a[k] else b[k] { }
    }
  }

  /** `name-start`, `name-end`, `name-contains`: exactly the rows with that prefix, suffix, substring. */
  lemma SportNameStart(db: Db, p: string, codecs: Codecs)
    ensures SearchSports(db, map["name-start" := p], codecs).Success?
    ensures forall n :: n in SearchSports(db, map["name-start" := p], codecs).value <==> n in db.sports && p <= n
  {
    assert DecodeSportFilter("name-start", p, codecs) == Success(SportName(StartsWith(p)));
    OneSportParam(db, "name-start", p, codecs);
  }

  lemma SportNameEnd(db: Db, p: string, codecs: Codecs)
    ensures SearchSports(db, map["name-end" := p], codecs).Success?
    ensures forall n :: n in SearchSports(db, map["name-end" := p], codecs).value
                     <==> n in db.sports && |p| <= |n| && n[|n| - |p|..] == p
  {
    assert DecodeSportFilter("name-end", p, codecs) == Success(SportName(EndsWith(p)));
    OneSportParam(db, "name-end", p, codecs);
  }

  lemma SportNameContains(db: Db, p: string, codecs: Codecs)
    ensures SearchSports(db, map["name-contains" := p], codecs).Success?
    ensures forall n :: n in SearchSports(db, map["name-contains" := p], codecs).value
                     <==> n in db.sports && IsSubstring(p, n)
  {
    assert DecodeSportFilter("name-contains", p, codecs) == Success(SportName(Contains(p)));
    OneSportParam(db, "name-contains", p, codecs);
  }

  lemma SelectionNameContains(db: Db, p: string, codecs: Codecs)
    ensures SearchSelections(db, map["name-contains" := p], codecs).Success?
    ensures forall n :: n in SearchSelections(db, map["name-contains" := p], codecs).value
                     <==> n in db.selections && IsSubstring(p, n)
  {
    assert DecodeSelectionFilter("name-contains", p, codecs) == Success(SelectionName(Contains(p)));
    OneSelectionParam(db, "name-contains", p, codecs);
  }

  /** An exact name that no row has matches nothing, and is not an error. */
  lemma UnmatchedNameEmpty(db: Db, x: string, codecs: Codecs)
    requires x !in db.sports
    ensures SearchSports(db, map["name" := x], codecs) == Success(map[])
  {
    NoDashColumn("name");
    assert !("name-" <= "name");
    assert DecodeSportFilter("name", x, codecs) == Success(SportName(Equals(x)));
    OneSportParam(db, "name", x, codecs);
    assert SearchSports(db, map["name" := x], codecs).value.Keys == {};
  }

  /**
   * A key that is none of the special parameters and names no column of
   * the table fails the search, whatever its value and whatever the other
   * parameters are; `invalid=test` on sports is one such request.
   */
  lemma SportUnknownKeyFails(db: Db, args: Params, k: string, codecs: Codecs)
    requires k in args && k != "min-events" && !("name-" <= k)
    requires k != "name" && k != "slug" && k != "active"
    ensures SearchSports(db, args, codecs) == Failure(UnknownColumn)
  {
    assert DecodeSportFilter(k, args[k], codecs) == Failure(UnknownColumn);
  }

  lemma EventUnknownKeyFails(db: Db, now: Instant, args: Params, k: string, codecs: Codecs)
    requires k in args && k != "min-selections" && k != "timeframe" && !("name-" <= k)
    requires k != "name" && k != "slug" && k != "active" && k != "type" && k != "sport"
    requires k != "status" && k != "scheduled_start" && k != "actual_start"
    ensures SearchEvents(db, now, args, codecs) == Failure(UnknownColumn)
  {
    assert DecodeEventFilter(k, args[k], codecs) == Failure(UnknownColumn);
  }

  lemma SelectionUnknownKeyFails(db: Db, args: Params, k: string, codecs: Codecs)
    requires k in args && k != "min-price" && k != "max-price" && !("name-" <= k)
    requires k != "name" && k != "event" && k != "price" && k != "active" && k != "outcome"
    ensures SearchSelections(db, args, codecs) == Failure(UnknownColumn)
  {
    assert DecodeSelectionFilter(k, args[k], codecs) == Failure(UnknownColumn);
  }

  lemma UnknownKeyFails(db: Db, codecs: Codecs)
    ensures SearchSports(db, map["invalid" := "test"], codecs) == Failure(UnknownColumn)
  {
    assert "invalid"[0] != "name-"[0];
    SportUnknownKeyFails(db, map["invalid" := "test"], "invalid", codecs);
  }

  /**
   * `min-events`: a sport is kept when it has events and at least N of them
   * are active; a sport with no event is never kept, whatever N is.
   */
  lemma MinEventsMeaning(db: Db, v: string, n: int, codecs: Codecs)
    requires codecs.parseInt(v) == Some(n)
    ensures SearchSports(db, map["min-events" := v], codecs).Success?
    ensures forall s :: s in SearchSports(db, map["min-events" := v], codecs).value
                     <==> s in db.sports && EventsOf(db.events, s) != {} && |ActiveEventsOf(db.events, s)| >= n
  {
    assert DecodeSportFilter("min-events", v, codecs) == Success(SportMinEvents(n));
    OneSportParam(db, "min-events", v, codecs);
  }

  lemma MinSelectionsMeaning(db: Db, now: Instant, v: string, n: int, codecs: Codecs)
    requires codecs.parseInt(v) == Some(n)
    ensures SearchEvents(db, now, map["min-selections" := v], codecs).Success?
    ensures forall e :: e in SearchEvents(db, now, map["min-selections" := v], codecs).value
                     <==> e in db.events && SelectionsOf(db.selections, e) != {}
                          && |ActiveSelectionsOf(db.selections, e)| >= n
  {
    assert DecodeEventFilter("min-selections", v, codecs) == Success(EventMinSelections(n));
    OneEventParam(db, now, "min-selections", v, codecs);
  }

  /** `min-price` and `max-price` together: the selections priced inside the closed range. */
  lemma PriceRange(db: Db, lo: string, hi: string, l: int, h: int, codecs: Codecs)
    requires codecs.parseCents(lo) == Some(l) && codecs.parseCents(hi) == Some(h)
    ensures SearchSelections(db, map["min-price" := lo, "max-price" := hi], codecs).Success?
    ensures forall n :: n in SearchSelections(db, map["min-price" := lo, "max-price" := hi], codecs).value
                     <==> n in db.selections && l <= db.selections[n].price <= h
  {
    var args := map["min-price" := lo, "max-price" := hi];
    assert DecodeSelectionFilter("min-price", lo, codecs) == Success(SelectionMinPrice(l));
    assert DecodeSelectionFilter("max-price", hi, codecs) == Success(SelectionMaxPrice(h));
    forall n | n in db.selections
      ensures SelectionSelected(db, n, args, codecs) <==> l <= db.selections[n].price <= h
    {
      assert args.Keys == {"min-price", "max-price"};
    }
  }

  /** `timeframe`: the events scheduled between now and the given time. */
  lemma TimeframeMeaning(db: Db, now: Instant, v: string, until: Instant, codecs: Codecs)
    requires codecs.parseTime(v) == Some(until)
    ensures SearchEvents(db, now, map["timeframe" := v], codecs).Success?
    ensures forall e :: e in SearchEvents(db, now, map["timeframe" := v], codecs).value
                     <==> e in db.events && now.utcSeconds <= db.events[e].scheduledStart.utcSeconds <= until.utcSeconds
  {
    assert DecodeEventFilter("timeframe", v, codecs) == Success(EventTimeframe(until));
    OneEventParam(db, now, "timeframe", v, codecs);
  }
}
