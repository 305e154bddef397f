# Betting store and internal-node counter, modelled in Dafny

This project models two pieces of logic.

**The betting store (`app.py`).** It keeps three tables keyed by name:
- sports;
- events, each under a sport;
- selections, each under an event.

Foreign keys link events to sports and selections to events. Both keys are `ON UPDATE RESTRICT ON DELETE RESTRICT` (app.py:42-45, app.py:53-56). The model covers:
- the create, update and delete handlers, with their defaults, required parameters, enum validation and side effects;
- the search handlers, as pure filters;
- the deactivation cascade. A settled selection or a deactivated row switches off every parent whose children are all inactive: first events, then sports.

**The internal-node counter.** `find_internal_nodes_num` appears in both `find-internal-nodes.py` and `FindInternalNodes.py`. It counts the distinct entries of a parent array that are valid indices, that is, the nodes with at least one child.

## Layout

| file | module | contents |
|---|---|---|
| `wrappers.dfy` | `Wrappers` | `Option`, and `Result` (usable with `:-`) |
| `records.dfy` | `Records` | rows, the three tables (`Db`), request parameters, enum and flag decoding, the library collaborators (`Codecs`), children of a row |
| `cascade.dfy` | `Deactivation` | the two global recomputes and their properties |
| `search.dfy` | `Search` | the search handlers as filters over the tables |
| `changes.dfy` | `Changes` | create, update and delete as functions from the tables before a request to the tables after it, or to an error |
| `change_properties.dfy` | `ChangeProperties` | side effects, frames, referential integrity, round trips |
| `store.dfy` | `BettingStore` | class `Store`, whose three map fields the request methods update in place, and the loops that build an update's SET clause |
| `internal_nodes.dfy` | `InternalNodes` | `find-internal-nodes.py`: the counting loop, its specification and the asserted examples |
| `internal_nodes_sample.dfy` | `InternalNodesSample` | `FindInternalNodes.py`: the same loop, agreement with the other copy, the sample call |

**How requests are modelled.**
- A request is a map from parameter name to text.
- Libraries outside the store are the function values in `Codecs`:
  - slug generation;
  - converting price text to cents;
  - date parsing with conversion to UTC;
  - integer parsing.
- The clock reading used for "now" is a parameter.
- A refused request returns an `Error` and leaves every table as it was. The source only commits after every statement has run.

**How active flags are decoded.**
- `active` text is decoded as "true"/"1" or "false"/"0", in any ASCII letter case.
- The model stores any other text as inactive, and such text triggers no cascade. This is the model's reading of the flag. What SQLite stores differs; see "Left out".

## Model

| member | source | states |
|---|---|---|
| InternalNodes.FindInternalNodesNum | find-internal-nodes.py:15-45 | the loop returns the number of distinct entries v with 0 <= v < len(tree) |
| InternalNodes.OutOfRangeNeverCounted | find-internal-nodes.py:37-41 | an entry outside the index range, such as the root marker -1, is never counted |
| InternalNodes.CountedIffParent | find-internal-nodes.py:34-41 | v is counted exactly when it is a valid index and some node has v as its parent |
| InternalNodes.CountBound | find-internal-nodes.py:26-29 | the count is at most len(tree), and at most len(tree)-1 when some entry, such as a root marker, is out of range |
| InternalNodes.RepeatedParentCountedOnce | find-internal-nodes.py:32 | a parent index that occurs twice makes the count smaller than the number of in-range entries: duplicates count once |
| InternalNodes.ValuesBound | find-internal-nodes.py:32-45 | a list has at most as many distinct values as it has elements |
| InternalNodes.StraightLineCount | find-internal-nodes.py:56-58 | the vertical-line tree of n >= 1 nodes, the worst case, has n-1 internal nodes |
| InternalNodes.EmptyTreeCount | find-internal-nodes.py:68 | the empty tree gives 0 |
| InternalNodes.RootOnlyCount | find-internal-nodes.py:69 | [-1] gives 0 |
| InternalNodes.SampleTreeCount | find-internal-nodes.py:67 | [4,4,1,5,-1,4,5] gives 3 |
| InternalNodes.StraightLineTreeCount | find-internal-nodes.py:70 | [-1,0,1,2,3,4,5] gives 6 |
| InternalNodes.BigTreeLength | find-internal-nodes.py:61-64 | big_tree has 71 entries |
| InternalNodes.BigTreeValues | find-internal-nodes.py:61-64 | the values of big_tree are -1 and 0 through 12 |
| InternalNodes.BigTreeCount | find-internal-nodes.py:71 | big_tree gives 13 |
| InternalNodesSample.FindInternalNodesNum | FindInternalNodes.py:15-29 | the second copy of the loop returns the same count of distinct in-range entries, at most len(tree) |
| InternalNodesSample.BothFilesAgree | FindInternalNodes.py:15-29 | on every input the two copies return the same number |
| InternalNodesSample.SampleCall | FindInternalNodes.py:31-32 | the sample call prints 3 |
| Deactivation.DeactivateIdleEvents | app.py:679-681 | switches off every event with at least one selection and no active one; leaves childless and other events, sports and selections alone; only clears `active`; keeps the foreign keys valid |
| Deactivation.DeactivateIdleSports | app.py:474-476 | the same, one level up: sports over events |
| Deactivation.CascadeSettles | app.py:679-686 | after events-then-sports, both levels are settled, selections are untouched, and events and sports have at most lost their `active` flag |
| Deactivation.SettledEventsUnchanged | app.py:679-681 | the event recompute changes nothing on tables where it has nothing to do |
| Deactivation.SettledSportsUnchanged | app.py:684-686 | the same for the sport recompute |
| Deactivation.CascadeIdempotent | app.py:694-701 | a second cascade in the same request (settle plus `active=false`) changes nothing more |
| Deactivation.GrandparentFollows | app.py:682-686 | a sport whose events are all switched off by the event step is switched off by the sport step of the same cascade |
| Search.SearchSports | app.py:151-193 | fails exactly when some parameter cannot be decoded; otherwise returns rows of the table, unchanged |
| Search.SearchEvents | app.py:358-400 | the same for events |
| Search.SearchSelections | app.py:585-623 | the same for selections |
| Search.NoParamsWholeTable | app.py:155-190 | no parameters returns the whole table, for each of the three searches |
| Search.OneSportParam | app.py:157-185 | with one decodable parameter, a sport is returned exactly when it satisfies that parameter's condition |
| Search.OneEventParam | app.py:364-391 | the same for events |
| Search.OneSelectionParam | app.py:591-613 | the same for selections |
| Search.SportParamsConjoin | app.py:157-186 | parameters are ANDed: the result for a + b is the intersection of the results for a and for b |
| Search.EventParamsConjoin | app.py:364-392 | the same for events |
| Search.SelectionParamsConjoin | app.py:591-614 | the same for selections |
| Search.SportNameStart | app.py:165-170 | name-start keeps exactly the sports whose name has the value as a prefix |
| Search.SportNameEnd | app.py:171-172 | name-end keeps exactly the names with the value as a suffix |
| Search.SportNameContains | app.py:173-174 | name-contains keeps exactly the names containing the value |
| Search.SelectionNameContains | app.py:599-608 | the same substring test on selection names |
| Search.UnmatchedNameEmpty | app.py:180-184 | an exact name that matches no row returns an empty result, not an error |
| Search.SportUnknownKeyFails | app.py:176-184 | any sport search that carries a key that is neither a special parameter nor a column of the table fails with UnknownColumn, whatever the other parameters |
| Search.EventUnknownKeyFails | app.py:387-390 | the same for events |
| Search.SelectionUnknownKeyFails | app.py:609-612 | the same for selections |
| Search.UnknownKeyFails | app.py:176-184 | the request `invalid=test` on sports is an error |
| Search.MinEventsMeaning | app.py:160-164 | min-events N keeps exactly the sports with at least one event and at least N active events; childless sports never match |
| Search.MinSelectionsMeaning | app.py:365-368 | min-selections N does the same for events over selections |
| Search.PriceRange | app.py:593-598 | min-price and max-price together keep exactly the selections priced between them, inclusive |
| Search.TimeframeMeaning | app.py:370-375 | timeframe keeps exactly the events scheduled between now and the given time |
| Changes.CreateSport | app.py:95-122 | succeeds exactly when a name is given and not taken; adds only that row; a given slug is stored, otherwise slugify(name); a given `active` is stored as its decoded flag, otherwise false |
| Changes.CreateEvent | app.py:272-327 | succeeds exactly when name, sport and a parsable scheduled start are given, the name is free and the sport exists; the new event is Pending, Preplay, without an actual start, under the given sport and start; a given slug and `active` are stored, otherwise slugify(name) and false |
| Changes.CreateSelection | app.py:519-555 | succeeds exactly when a convertible price, a name and an existing event are given and the name is free; the new selection is Unsettled, under the given event, priced as given; a given `active` is stored as its decoded flag, otherwise false |
| Changes.DeleteSport | app.py:243-258 | refused, with nothing changed, exactly while an event references the sport; otherwise only that row goes |
| Changes.DeleteEvent | app.py:493-508 | refused exactly while a selection references the event; otherwise only that row goes |
| Changes.DeleteSelection | app.py:706-721 | always succeeds and removes only that row |
| Changes.WriteSport | app.py:232-238 | the UPDATE of a sport: no row for an absent name; otherwise only the named row changes, under a new name if one is given, which must be free |
| Changes.WriteEvent | app.py:444-456 | the UPDATE of an event: as for sports; a new sport must exist; a renamed event must have no selections |
| Changes.WriteSelection | app.py:659-669 | the UPDATE of a selection: as for sports; a new event must exist |
| Changes.SportUpdate | app.py:211-241 | no parameters, an `active` other than true/false, or a non-column is refused |
| Changes.EventUpdate | app.py:425-491 | no parameters, an unknown status or type, or a non-column is refused |
| Changes.SelectionUpdate | app.py:644-704 | no parameters, an unknown outcome, or a non-column is refused |
| Changes.MarkStarted | app.py:464-468 | sets the actual start to now and the type to Inplay on the named event, touching no other row |
| Changes.ForceEventInactive | app.py:473 | switches the named event off, touching nothing else |
| Changes.ForceSelectionInactive | app.py:677-678 | switches the named selection off, touching nothing else |
| ChangeProperties.SelectionUpdateSettles | app.py:671-701 | after a settling outcome or `active` false/0, every event with selections and none active is off, and every sport with events and none active is off |
| ChangeProperties.SettledSelectionIsOff | app.py:659-678 | after a settling outcome the selection is inactive, even when the same request sets `active=true` |
| ChangeProperties.SelectionUpdateFrame | app.py:668-701 | a selection update writes only the named row; events and sports are at most switched off; an absent name writes no selection |
| ChangeProperties.SelectionUpdateKeepsLinked | app.py:53-56 | a selection update keeps every foreign key valid |
| ChangeProperties.SelectionUpdateFields | app.py:659-669 | event, price and outcome take the given values and keep theirs otherwise; `active` is the given flag unless a settling outcome forces it off |
| ChangeProperties.EventDeltaFields | app.py:444-451 | the SET clause of an accepted event update gives each given column its decoded value and leaves the rest |
| ChangeProperties.EventUpdateFields | app.py:444-476 | on a row it does not rename, each given column takes its decoded value and the rest keep theirs; "started" forces Inplay and the actual start to now; "ended" or "cancelled" forces `active` off |
| ChangeProperties.StartedEventIsInplay | app.py:458-468 | after status "started" the event is Started, starts now and is Inplay, overriding any type in the same request |
| ChangeProperties.EndedEventIsOff | app.py:470-476 | after "ended" or "cancelled" the event is off and the sports are settled |
| ChangeProperties.DeactivatedEventSettlesSports | app.py:479-487 | after an event `active` of false/0 the sports are settled |
| ChangeProperties.EventUpdateFrame | app.py:444-487 | an event update leaves the selections alone, only switches sports off, and writes only the named event; an absent name writes no event |
| ChangeProperties.EventUpdateKeepsLinked | app.py:42-45 | an event update keeps every foreign key valid |
| ChangeProperties.SportUpdateFields | app.py:213-238 | a sport update stores a given slug, and `active` is on exactly when its text reads "true" |
| ChangeProperties.SportUpdateAccepts | app.py:213-238 | a sport update succeeds exactly when it has parameters, all of them columns, `active` reads true or false, and a rename moves to a free name a sport no event references |
| ChangeProperties.EventUpdateAccepts | app.py:427-456 | an event update succeeds exactly when it has parameters, all of them columns whose values decode, a rename moves to a free name an event no selection references, and the resulting sport exists |
| ChangeProperties.SelectionUpdateAccepts | app.py:646-669 | a selection update succeeds exactly when it has parameters, all of them columns whose values decode, a rename moves to a free name, and the resulting event exists |
| ChangeProperties.SportUpdateFrame | app.py:232-238 | a sport update writes no event, no selection and no other sport, and keeps the foreign keys valid |
| ChangeProperties.DeleteAbsent | app.py:243-258 | deleting a name that is not there succeeds and changes nothing, for all three tables |
| ChangeProperties.ReferencedRowsStay | app.py:42-56 | a sport that an event references, or an event that a selection references, cannot be deleted |
| ChangeProperties.CreateThenDeleteSport | app.py:250-258 | deleting a sport just created restores the tables |
| ChangeProperties.CreateThenDeleteEvent | app.py:500-508 | deleting an event just created restores the tables |
| ChangeProperties.CreateThenDeleteSelection | app.py:713-721 | deleting a selection just created restores the tables |
| ChangeProperties.CreatedSportIsFound | app.py:180-184 | a search on a created sport's exact name returns that sport alone |
| ChangeProperties.CreatedSelectionIsFound | app.py:609-612 | a search on a created selection's exact name returns it alone |
| ChangeProperties.SettlingLastSelectionClosesEventAndSport | app.py:671-686 | settling the only selection of the only event of a sport switches off all three in one request |
| ChangeProperties.LastSelectionLeavesEventIdle | app.py:676-681 | after that settle, the event has selections but no active one |
| ChangeProperties.OnlyEventOffLeavesSportIdle | app.py:682-686 | when a sport's only event is off and the sport recompute has run, the sport is off |
| BettingStore.SportSetClause | app.py:232-234 | the walk over the parameters accepts exactly when every key is a column, and yields the fields the update writes |
| BettingStore.EventSetClause | app.py:444-451 | accepts exactly when every key is a column whose value decodes; reports a non-column ahead of a bad value |
| BettingStore.SelectionSetClause | app.py:659-664 | the same for selections |
| BettingStore.Store.constructor | app.py:17-59 | a fresh store has three empty tables and valid foreign keys |
| BettingStore.Store.CreateSport | app.py:84-124 | ends in the tables CreateSport computes, or unchanged with its error; keeps the foreign keys valid |
| BettingStore.Store.CreateEvent | app.py:260-329 | the same for CreateEvent |
| BettingStore.Store.CreateSelection | app.py:510-557 | the same for CreateSelection |
| BettingStore.Store.UpdateSport | app.py:195-241 | ends in the tables SportUpdate computes, or unchanged with its error |
| BettingStore.Store.UpdateEvent | app.py:402-491 | ends in the tables EventUpdate computes: the write, then the status effects, then the sport recompute |
| BettingStore.Store.UpdateSelection | app.py:625-704 | ends in the tables SelectionUpdate computes: the write, then the settle effects, then the cascade |
| BettingStore.Store.DeleteSport | app.py:243-258 | ends in the tables DeleteSport computes, or unchanged with its error |
| BettingStore.Store.DeleteEvent | app.py:493-508 | the same for DeleteEvent |
| BettingStore.Store.DeleteSelection | app.py:706-721 | removes only the named selection |
| BettingStore.Store.RecomputeSports | app.py:474-476 | the tables after the sport recompute |
| BettingStore.Store.RunCascade | app.py:679-686 | the tables after the event recompute and then the sport recompute |

## Left out

- HTTP and sqlite plumbing is not modelled: routing, JSON replies, status codes, connections, `init_db` and `print`. A request's outcome is a `Result`.
- SQL text building is not modelled. The model states the predicate a query means.
- LIKE is ASCII case-insensitive and treats `%` and `_` in user input as wildcards. The model uses plain, case-sensitive prefix, suffix, substring and equality tests instead.
- Enum equality filters in search compare decoded values. SQL compares the exact text.
- Date parsing and UTC conversion (dateutil) are the `parseTime` collaborator. Timestamps are opaque seconds.
- The timeframe filter's `DATETIME('now')` and the actual start written for "started" come from a clock. Both take the `now` parameter.
- Float parsing and two-decimal formatting of prices are the `parseCents` collaborator. Prices are integer cents.
- `slugify` and `int()` are the `slugify` and `parseInt` collaborators.
- Storage types are not modelled. The `active` columns are BOOLEAN, which SQLite gives NUMERIC affinity (app.py:31, app.py:36, app.py:51). Numeric text such as "1", "0" or "2" is stored as a number. Other text, "true" and "false" included, is stored as text. The model keeps the decoded flag instead.
- StoredFlag: a row switched on with the text "true" counts as active in the model, but its text sums as 0 in the source. So the source's recomputes (app.py:474-476, app.py:484-487, app.py:679-686, app.py:694-701) and its min-events / min-selections subqueries (app.py:160-163, app.py:366-369) treat it as inactive. Numeric text other than 0 and 1, such as "2", sums as active in the source but is stored as inactive by the model.
- Changes.CreateEvent: the source writes the four-letter text "NULL" as a new event's actual start (app.py:303), not SQL NULL. The model writes `None`. So a search with `actual_start=NULL` returns every event never started in the source, and no event in the model.
- Column names in search keys are matched case-sensitively, and only the table's own columns are accepted. SQLite accepts column names in any letter case (`NAME=x`) and the pseudo-column `rowid`; the model refuses both with UnknownColumn.
- Raw text written to the timestamp columns is not modelled. Updating `scheduled_start` or `actual_start` with text that `parseTime` rejects is refused, where the source would store the text.
- Row order is not modelled: search results are maps from name to row.
- A missing `price` on create is reported as a missing field. The source fails with a type error, outside its error handling.
- Some parameters make the source fail with an unhandled exception, not a reply. The model refuses them as ordinary errors:
  - `scheduled-start` on an event update: the handler reads an undefined variable;
  - a non-numeric min-events, min-selections or price;
  - a search key containing a dash that is not a recognised filter, such as `scheduled-start`: the handler rewrites the dash to an underscore and then looks that spelling up in the request.
- Search.SearchEvents, Search.SearchSports, Search.SearchSelections: a dashed key fails even when the request also carries its underscore spelling. In that case the source does not fail: it repeats the condition of the underscore key, and its result is that of the request without the dashed key.
- The model states the intended condition for a search that combines min-selections or a price bound with other parameters, where the source omits a space before AND.
- The create handlers coerce `active` under a guard, `type(active) == "str"`, that is never true. The model stores the flag's meaning and never refuses the text.
- Changes.SportUpdate, Changes.EventUpdate, Changes.SelectionUpdate: their own contracts state only the refusals. When an update is accepted is stated in both directions by SportUpdateAccepts, EventUpdateAccepts and SelectionUpdateAccepts. What a successful update writes to a row it does not rename is stated by SportUpdateFields, EventUpdateFields and SelectionUpdateFields. The frames and side effects are stated by the other ChangeProperties lemmas cited above. For a renamed row, the value written is stated by WriteSport, WriteEvent and WriteSelection.
