# Verified model of the data access core

This project models, in Dafny, three parts of a data-driven application server and proves what they
are for.

* **The statement cache and the connection pool** (`libkycore/arc.h`, `libsqldb/`). A cache with an
  LRU list, an ordered (use count, key) set and a size limit that adjusts itself; a pool that prunes
  idle connections and grows after a timeout; and `SqlDrvPg::query`, where every pooled connection has
  a cache of statements prepared on it.
* **Query generation** (`libkycore/SqlGenius.h`, `libkycore/rack.cpp`). Dotted field names become a
  memoised tree of qualified tables; the tree becomes `SELECT ... FROM ... LEFT JOIN ... WHERE ...
  ORDER BY ... LIMIT`, in which unsaved foreign-key edits replace the join condition.
* **Record editing** (`libkycore/rec.cpp`). Fields edited in memory, loaded, refreshed and saved.

## How it is built

Code that changes state in place is a `class` whose methods update the same fields in the same order
as the original. Each method is proved equal to a function on plain values, and the properties are
lemmas about those functions, over every input and every run.

| files | content |
|---|---|
| `ArcSpec`, `ArcRuns`, `ArcWindows`, `ArcTheorems` | the cache on values, its runs, its sampling windows, properties over several calls |
| `ArcCache` | the cache class: map of entries with iterators, list, ordered set, trim loop |
| `PoolSpec`, `PoolTheorems`, `PgPool` | the pool on values, all interleavings of threads, the pool class |
| `PrepStmt`, `Sessions`, `PgConn`, `Driver` | statement ownership, one connection, `query` in a thread, all threads |
| `Ordering`, `Lists`, `Text`, `Connection` | container orders, lists without repetition, numerals and splitting, connection names |
| `QTree`, `QModel` | the table tree and the lookups that grow it |
| `Sql`, `Navigation`, `QueryMeaning`, `SortTheorems`, `PageTheorems`, `PathMeaning` | clauses with their meaning on a database, and navigation |
| `Schedule`, `SqlGenius` | join scheduling and the generator class |
| `Filter`, `FilterTheorems` | the filter parser class and what filters select |
| `Tokens`, `Statements` | statement text as pieces, the parameter scanner |
| `Lexing`, `Reading`, `StatementText`, `ReadBack` | text as words, a reader for the statements, what the printed statements say when read back |
| `Editing`, `Record` | saving and loading on values, the record class |

The meaning of a query is denotational. A database is a map from table to rows with unique ids. A
`FROM` list turns every master row into environments that bind aliases to rows, `LEFT JOIN` extends
them, `WHERE` selects under the rule that a comparison with NULL selects nothing, `ORDER BY` is a
stable sort, and `LIMIT`/`OFFSET` take a slice. The reference it is compared with is navigation:
follow the references of a path from the master row, NULL once a link dangles.

## What is proved, in short

* Evaluating a generated query gives one answer per matching master row. Every column is the value its
  dotted name navigates to, with exactly the edited links replaced, whatever the aliases, the order of
  the joins or the order in which the tree was grown.
* Joins are written once each, after their parent, and nothing else is joined, so every alias of the
  three main queries is bound. For `gen_select_by_ids`, which sorts by tables it may not have joined,
  the exact condition is proved.
* The count query, the ids query and its pages agree. The ids come ranked by what the sort paths
  navigate to, and the records loaded for a page come in the order of its ids.
* A filter string means the disjunction of its segments. For any list of filters the rows selected are
  characterised exactly; several filters keep their operands if and only if no two of them differ at a
  shared position, and a row selected wrongly otherwise is given.
* The scanner recovers the placeholders of every generated statement, so each statement is executed
  with the intended values in the intended order. On any text at all it is said which names it looks up.
* Read back word by word, every generated statement is the query or the change it was printed from: columns, joins and
  what they are joined on, operators with their operands, sort columns with their directions, limit and offset. Beside
  every column an `INSERT` or `UPDATE` names stands the placeholder of its own edited value.
* The cache keeps its representation and capacity in every reachable state, refines an unbounded map,
  and evicts the coldest entry. From any state, windows under one half raise its limit by a step each, windows over nine
  tenths lower it by a step each, and others leave it. `put` followed by `get` misses in exactly one situation, and a run
  that reaches it under the limit the pool uses is given.
* Every value put into the cache is destroyed exactly once or is still resident.
* The pool is safe in every interleaving. `acquire` returns without waiting if and only if some free
  connection is unexpired or nothing is held.
* In every interleaving of `query`, a thread executes a statement open on its own connection that was
  prepared there from the text its call was given. A connection nobody holds has exactly its cache entries open on
  the server, at most fifteen.
* Saves change exactly the edited columns and saves of disjoint columns commute. Loading after a save
  gives back what was edited in, except that null comes back as the empty text. All along a path, the
  edited-link query shows before a save what navigation shows after it, if and only if the save changes
  nothing where the path comes back to the record's own row and every link edited below the record,
  which no save writes, leads where the stored one does. For each of the two ways to fail an input is
  given. Likewise the reload after a save shows what is stored if and only if those deeper links stay.

## Model

| member | source | states |
|---|---|---|
| ArcSpec.SidesPartition | libkycore/arc.h:43-88 | the list and the use counts past the threshold partition the keys, so the two sizes add up to the size of the map |
| ArcSpec.EvictRemovesOne | libkycore/arc.h:53-80 | on a non-empty cache eviction removes exactly one entry, the victim, whichever side it picks, and keeps the structure: the measure of the trim loop |
| ArcRuns.InitHolds | libkycore/arc.h:119-125 | a new cache satisfies the invariant for any hard limit, also below one |
| ArcRuns.PutKeepsInv | libkycore/arc.h:128-154 | put keeps the structure, `minLimit <= softLimit <= max(minLimit, hardLimit)`, `size <= softLimit` and the bounds of both counters |
| ArcRuns.PutEffect | libkycore/arc.h:128-154 | the key put is resident with its value and first in the list; a key already present costs no other entry; otherwise only the victim of a full cache goes |
| ArcRuns.GetKeepsInv | libkycore/arc.h:157-184 | get keeps the same invariant, also when it resizes and trims |
| ArcRuns.AdjustSeesFullWindow | libkycore/arc.h:160-164 | resizing sees exactly `10 * softLimit` accesses and a hit rate in [0, 1], although the triggering hit is credited to the next window |
| ArcRuns.TrimKeepsEntries | libkycore/arc.h:90-94 | trimming changes no value it leaves |
| ArcRuns.ResidentIsLastWritten | libkycore/arc.h:128-184 | over every run, whatever is resident is the value written last under its key |
| ArcRuns.GetRefinesMap | libkycore/arc.h:157-184 | over every run, get returns nothing or the value of the latest put |
| ArcRuns.LruIsOrderedByLastAccess | libkycore/arc.h:147-178 | over every run, the list is strictly ordered by last access |
| ArcRuns.VictimIsColdest | libkycore/arc.h:53-80 | over every run, the victim is the least recently used key of the LRU side, or, when the LFU side is strictly larger, the key there with the least use count, the least key among equals |
| ArcTheorems.TrimFront | libkycore/arc.h:90-94 | trim spares the front of the list if and only if nothing is cut, two or more entries stay, or the LFU side is empty |
| ArcTheorems.FrontIsFoundIff | libkycore/arc.h:157-184 | a get of the front key misses exactly when this get shrinks the cache to one entry while the LFU side is occupied |
| ArcTheorems.PutThenGet | libkycore/arc.h:128-184 | put(k) then get(k) returns the value put, except exactly in that situation |
| ArcTheorems.PutThenGetHitsFromTwenty | libkycore/arc.h:119-125 | with a hard limit of at least 20 (minimum two) put(k) then get(k) always hits |
| ArcTheorems.FreshKeyCanBeLost | libkycore/arc.h:90-116 | a run from the constructor with hard limit 15 after which a value just put is gone at the next get |
| ArcWindows.PutCounters | libkycore/arc.h:128-154 | a put changes no counter and no limit; the key put starts with one use, every other use count stays |
| ArcWindows.WindowStaysOpen | libkycore/arc.h:157-164 | a get that does not fill the window only counts |
| ArcWindows.WindowCloses | libkycore/arc.h:96-116 | with h hits among t accesses: `2h >= t` and `10h <= 9t` leaves limit, values and list as they are; `2h < t` raises the limit by a step up to the hard limit, `10h > 9t` lowers it by a step down to the minimum; counters restart |
| ArcWindows.HotWindowTrims | libkycore/arc.h:90-116 | lowering the limit evicts exactly the victims in turn, as many as there are entries too many |
| ArcWindows.GetEffect | libkycore/arc.h:157-184 | after the sampling a resident key answers its value, is credited one use and one hit and moves to the front or to its place in the ordered set; another key answers nothing and changes nothing |
| ArcWindows.UsesAreGets | libkycore/arc.h:147-178 | over every run, the use count of a resident key is one more than the gets since it was last put |
| ArcWindows.SideOfKey | libkycore/arc.h:82-88 | over every run, a resident key is on the list if and only if that count is at most `max(2, hardLimit / 20)` |
| ArcWindows.ColdWindowsRaise | libkycore/arc.h:96-116 | from any state, whatever happened before: if every window a run closes is under one half, n windows raise the limit to exactly `min(softLimit + n * step, max(minLimit, hardLimit))` |
| ArcWindows.HardLimitReached | libkycore/arc.h:96-116 | so ceil((hardLimit - softLimit) / step) such windows lead from any state to the hard limit |
| ArcWindows.HardLimitReachedAfter | libkycore/arc.h:96-116 | in particular, after any history since the constructor, ceil((hardLimit - minLimit) / step) of them do |
| ArcWindows.SteadyWindowsKeep | libkycore/arc.h:96-116 | from any state, a run whose windows all lie between one half and nine tenths ends with the limit it began with |
| ArcWindows.HotWindowsLower | libkycore/arc.h:96-116 | from any state, n windows over nine tenths lower the limit to exactly `max(softLimit - n * step, minLimit)` |
| ArcTheorems.ValuesAreConserved | libkycore/arc.h:43-154 | over every run the values put are, as a multiset, the destroyed ones and the resident ones: none lost, none destroyed twice |
| ArcCache.LinkedIsStruct | libkycore/arc.h:43-88 | map, list, set, flags and iterators in agreement represent a well-formed abstract cache |
| ArcCache.MoveFront | libkycore/arc.h:175-177 | erasing a node and pushing its key to the front keeps every stored iterator on its own key |
| ArcCache.Recount | libkycore/arc.h:171-173 | replacing (count, key) in the ordered set keeps map and set in agreement |
| ArcCache.AdaptiveReplacementCache.constructor | libkycore/arc.h:119-125 | starts empty, with the soft limit `max(1, hardLimit / 10)` and zero counters, as the empty abstract cache |
| ArcCache.AdaptiveReplacementCache.RemoveEntry | libkycore/arc.h:43-51 | removes the entry from the map and its side and destroys its value, nothing else |
| ArcCache.AdaptiveReplacementCache.EvictFromLru | libkycore/arc.h:61-69 | drops the back of the list, or does nothing on an empty list |
| ArcCache.AdaptiveReplacementCache.EvictFromLfu | libkycore/arc.h:71-80 | drops the first element of the ordered set, or does nothing on an empty set |
| ArcCache.AdaptiveReplacementCache.Evict | libkycore/arc.h:53-59 | equals the abstract eviction |
| ArcCache.AdaptiveReplacementCache.Trim | libkycore/arc.h:90-94 | the loop ends and equals the abstract trim |
| ArcCache.AdaptiveReplacementCache.AdjustSize | libkycore/arc.h:96-116 | equals the abstract adjustment: new limit, trim if it went down, both counters zero; ArcWindows.WindowCloses says which limit |
| ArcCache.AdaptiveReplacementCache.MoveLimit | libkycore/arc.h:96-110 | the new soft limit of the abstract cache, and whether it went down; ArcWindows.WindowCloses says which one |
| ArcCache.AdaptiveReplacementCache.MoveToLfu | libkycore/arc.h:82-88 | moves one entry from the list to the ordered set under its current count |
| ArcCache.AdaptiveReplacementCache.Put | libkycore/arc.h:128-154 | keeps the representation, equals the abstract put, returns the stored value |
| ArcCache.AdaptiveReplacementCache.Get | libkycore/arc.h:157-184 | keeps the representation, equals the abstract get, returns the abstract answer; ArcWindows.GetEffect says which one |
| PoolSpec.DiscardKeepsOk | libsqldb/pgpool.cpp:63-69 | discarding a free connection removes it and only it from both containers and keeps them sorted and duplicate free |
| PoolTheorems.PruneMeaning | libsqldb/pgpool.cpp:51-77 | only free connections idle longer than the timeout go, from both containers, survivors in order; it stops with one connection left, none free, or the newest free one idle no longer than that |
| PoolTheorems.WakeEffect | libsqldb/pgpool.cpp:80-85 | going round the loop takes the front of the queue, or waits and changes nothing |
| PoolTheorems.GrowsIff | libsqldb/pgpool.cpp:87-94 | the pool grows if and only if a wait times out below the hard limit and a connection can be opened; the new one is stored last and goes to the thread that waited |
| PoolTheorems.TimeOutEffect | libsqldb/pgpool.cpp:87-98 | a timeout at the hard limit goes round the loop; a connection that cannot be opened ends the call and leaves the pool as it is |
| PoolTheorems.ReleaseEffect | libsqldb/pgpool.cpp:41-46 | a release stamps the connection with the time and queues it last, nothing else |
| PoolTheorems.FreshShieldsOlder | libsqldb/pgpool.cpp:56-76 | a free unexpired connection shields itself and everything older from pruning |
| PoolTheorems.NextSafe | libsqldb/pgpool.cpp:41-100 | every step of every thread keeps the pool safe: storage is the disjoint union of free and held connections, no connection is held twice, `1 <= size <= max(1, hardLimit)` |
| PoolTheorems.PoolIsSafe | libsqldb/pgpool.cpp:26-100 | so every reachable state is safe, including waiting, spurious wake-ups, timeouts, failed connects and growth |
| PoolTheorems.TakesLongestIdle | libsqldb/pgpool.cpp:81-85 | what acquire takes from the queue was released no later than any other free connection |
| PoolTheorems.EnterTakesIff | libsqldb/pgpool.cpp:48-87 | acquire returns without waiting if and only if some free connection is unexpired or all connections are free |
| PgPool.PgPool.constructor | libsqldb/pgpool.cpp:26-37 | one connection, free |
| PgPool.PgPool.Prune | libsqldb/pgpool.cpp:51-77 | the downward loop equals the abstract pruning |
| PgPool.PgPool.EnterAcquire | libsqldb/pgpool.cpp:48-87 | prune, then take the front or wait |
| PgPool.PgPool.TakeOrWait | libsqldb/pgpool.cpp:80-87 | takes the front of the queue, or waits and changes nothing |
| PgPool.PgPool.TimedOut | libsqldb/pgpool.cpp:87-98 | under the hard limit a new connection goes straight to the caller, or the exception leaves the pool unchanged; at the limit the loop goes on |
| PgPool.PgPool.Release | libsqldb/pgpool.cpp:41-46 | stamps the connection and queues it last |
| PrepStmt.StmtNameInjective | libsqldb/pgpool.h:26-27 | statements with different counter values have different names |
| PrepStmt.PgPrepStmt.Prepare | libsqldb/pgpool.h:26-45 | succeeds exactly on a connection, with a text the server accepts and an unused name; owns exactly the new statement; every failure leaves nothing open and still moves the counter |
| PrepStmt.PgPrepStmt.Moved | libsqldb/pgpool.h:56-60 | takes over ownership, the source owns nothing |
| PrepStmt.PgPrepStmt.Assign | libsqldb/pgpool.h:62-75 | closes what it owned, takes over ownership; self-assignment changes nothing |
| PrepStmt.PgPrepStmt.Destroy | libsqldb/pgpool.h:47-51 | closes exactly what it owns |
| PrepStmt.HandOver | libkycore/arc.h:142-151 | on its way into the cache a statement is never closed and ends up owned by the map's value alone |
| PrepStmt.Lifetime | libsqldb/pgpool.h:26-75 | preparing, moving and destroying leaves the server as it was |
| Sessions.GetAgrees | libsqldb/sqldrvpg.cpp:50 | a lookup, with the statements closed by what it trims, keeps cache and server in agreement; a hit returns what stays in the cache |
| Sessions.PrepareAgrees | libsqldb/sqldrvpg.cpp:52 | preparing opens exactly one statement beside the cache |
| Sessions.PutAgrees | libsqldb/sqldrvpg.cpp:52 | storing it restores full agreement, with the evicted statement closed |
| Sessions.EvictionAgrees | libkycore/arc.h:43-51 | destroyed entries are exactly the statements closed on the server |
| Sessions.OpenCount | libsqldb/sqldrvpg.cpp:49-53 | the server holds exactly as many statements as the cache, plus one between preparing and storing; the cache never exceeds 15 |
| PgConn.PgConn.LookUp | libsqldb/sqldrvpg.cpp:50 | the cached statement and the session after it, evictions closed |
| PgConn.PrepareOwned | libsqldb/pgpool.h:26-75 | the `PgPrepStmt` prepared and moved leaves exactly one more statement open on its connection, and none on others; a failure leaves nothing |
| PgConn.CloseAll | libsqldb/pgpool.h:47-51 | destroying cached statements closes exactly them and touches no other connection |
| PgConn.PgConn.PrepareAndPut | libsqldb/sqldrvpg.cpp:51-53 | the statement prepared, stored and owned by the cache, and the session after it; a failed preparation changes nothing |
| PgConn.PgConn.PutOwned | libsqldb/sqldrvpg.cpp:52 | the put, with the evicted statement closed |
| PgConn.PgConn.Statement | libsqldb/sqldrvpg.cpp:49-53 | a hit prepares nothing, a miss prepares once; the result is open on this connection and was prepared from this text |
| Driver.NextSafe | libsqldb/sqldrvpg.cpp:45-70 | every step of every thread, in the pool or in query, keeps all caches, the server and the pool in agreement |
| Driver.SafeAlways | libsqldb/sqldrvpg.cpp:45-70 | so does every run |
| Driver.ExecutesItsOwnText | libsqldb/sqldrvpg.cpp:45-61 | in every interleaving, a thread about to execute uses a statement open on the connection it holds and prepared there from the text given to its latest call, read off the events alone |
| Driver.WorksOnItsCall | libsqldb/sqldrvpg.cpp:45-61 | in every interleaving, however long it waits, a thread in a call works on the text it entered that call with |
| Driver.FreeConnectionMatchesCache | libsqldb/sqldrvpg.cpp:45-70 | in every interleaving a free connection has exactly its cache entries open, with distinct names, at most 15 |
| Driver.HeldConnectionHasAtMostOneMore | libsqldb/sqldrvpg.cpp:49-53 | a held connection has one more exactly while its holder is between preparing and storing |
| Text.DecInjective | libkycore/SqlGenius.h:234 | different numbers print differently |
| Text.DecReadsBack | libkycore/SqlGenius.h:493-499 | reading the digits back in base ten gives the number, and there is no leading zero |
| Text.JoinSplit | libkycore/rack.cpp:9-15 | splitting at dots and joining gives the name back, and no part holds a dot |
| Text.SplitJoin | libkycore/rack.cpp:9-15 | joining dot-free parts and splitting gives the parts back |
| QTree.AliasInjective | libkycore/rack.cpp:67-70 | different counter values give different aliases |
| QModel.SplitParts | libkycore/rack.cpp:9-15 | the queue holds the parts of the name in order |
| QModel.PathNamesOneTable | libkycore/rack.h:198-204 | equal reference prefixes lead to one table node |
| QModel.NameFindsOneField | libkycore/rack.cpp:51-82 | two fields have the same full name if and only if they are the same field, and share a node if and only if their prefixes agree |
| QModel.ClimbingRebuildsName | libkycore/rack.h:169-185 | climbing from a resolved field to the master and joining with dots gives the name asked for |
| QModel.AliasesAreNames | libkycore/rack.cpp:67-70 | all aliases are made of name characters, so the scanner can read parameters named after them |
| QModel.GrownIsOk | libkycore/rack.h:169-204 | a new child keeps parents first, aliases distinct and different from master, and every node on the table its references lead to |
| QModel.QModel.NextAlias | libkycore/rack.cpp:67-70 | issues the next number once |
| QModel.QModel.Child | libkycore/rack.h:198-204 | returns the remembered child or adds exactly the one for this key; existing nodes stay |
| QModel.QModel.Walk | libkycore/rack.cpp:51-65 | ends on the node whose path is the start's path and the parts consumed |
| QModel.QModel.GetQField | libkycore/rack.cpp:75-82 | the result climbs to the name; a remembered name changes nothing; the tree only grows |
| QModel.QModel.LookUpAll | libkycore/rack.cpp:51-82 | over any sequence of lookups equal names and only equal names give equal results, all still valid in the final tree |
| Navigation.MatchingIsLookup | libkycore/SqlGenius.h:414-423 | with unique ids a join condition matches the row a lookup finds, or none |
| Navigation.JoinsNavigate | libkycore/SqlGenius.h:398-431 | the joins turn a master row into exactly one environment, every alias bound to the row navigation reaches, in any order that puts parents first |
| Navigation.FromNavigates | libkycore/SqlGenius.h:398-431 | the whole FROM clause gives one such environment per master row |
| Navigation.CellIsNavField | libkycore/SqlGenius.h:387-396 | a selected column is the field navigation reaches |
| Navigation.UntouchedPathsReadStored | libkycore/SqlGenius.h:412-423 | paths through no edited link read what is stored |
| Navigation.EditedLinkDecides | libkycore/SqlGenius.h:412-423 | an edited link leads to the row with the edited id even below a missing parent; edited to null it leads nowhere if no row has the empty id |
| PathMeaning.NavFollows | libkycore/rack.cpp:51-65 | navigation in the grown tree is following the dotted path through the schema |
| PathMeaning.NamesAreLoaded | libkycore/SqlGenius.h:128-143 | fields looked up by dotted names are answered with the values of those names under the current edits, independently of tree, aliases and join order |
| QueryMeaning.SelectOneMeans | libkycore/SqlGenius.h:128-143 | the query answers the row with the id, column by column as navigated, or nothing |
| QueryMeaning.CountMeans | libkycore/SqlGenius.h:245-260 | the count is the number of master rows that pass the filters, whatever else is joined |
| QueryMeaning.CountAgreesWithIds | libkycore/SqlGenius.h:245-280 | the count equals the length of the unpaged ids query although that joins the sort tables too |
| QueryMeaning.KeptIsPassing | libkycore/SqlGenius.h:442-476 | WHERE keeps exactly the rows whose navigated values pass every clause |
| QueryMeaning.PagesPartition | libkycore/SqlGenius.h:493-499 | successive pages put together are the list up to that point, and the whole list once they reach its end |
| SortTheorems.SortRowsRanks | libkycore/SqlGenius.h:478-491 | sorting keeps the rows and leaves none behind a row it should go before |
| Ordering.StrLessMeans | libkycore/SqlGenius.h:75-80 | a text comes before another if and only if they part at some position: the first ends there and the second goes on, or its character there is less |
| SortTheorems.RowBeforeMeans | libkycore/SqlGenius.h:478-491 | a row goes before another if and only if the first sort key in which they differ says so: the smaller value first, the larger with DESC, NULL after every text and with DESC before |
| SortTheorems.RankedIsInOrder | libkycore/SqlGenius.h:478-491 | so no row of a ranked list stands behind one it goes before in that sense |
| SortTheorems.IdsComeRanked | libkycore/SqlGenius.h:262-280 | the ids query answers the ids of exactly the passing rows, ranked by the values their sort paths navigate to |
| PageTheorems.SortKeep | libkycore/SqlGenius.h:478-491 | sorting and selecting commute |
| PageTheorems.PageAgain | libkycore/SqlGenius.h:282-308 | the rows with the ids of a page, sorted again, are the page |
| PageTheorems.RowsComeRanked | libkycore/SqlGenius.h:282-308 | the by-ids query, its sort columns in scope, answers the rows with the ids in ranked order |
| PageTheorems.PageIds | libkycore/SqlGenius.h:262-280 | the ids that a freshly generated ids query fetches are those of a slice of the passing rows, ranked |
| PageTheorems.PageLoadsInOrder | libkycore/rec.cpp:288-299 | for those ids, row i of the by-ids answer is the record with the i-th id, so that pairing them by position is right; the sort columns must be in scope |
| Schedule.JoinWritten | libkycore/SqlGenius.h:410-425 | writing the join of a pending table whose parent is there keeps the bookkeeping: one join more, one table less, its parameter bound |
| Schedule.HoldsErased | libkycore/SqlGenius.h:425 | erasing an alias removes exactly its table from those that wait |
| Schedule.SmartParamsBind | libkycore/SqlGenius.h:415-419 | every join on an edited link finds the edited value under its own parameter |
| Schedule.ScheduledIsScoped | libkycore/SqlGenius.h:398-431 | joins in such an order mention only aliases bound before them |
| SqlGenius.SqlGenius.AddChain | libkycore/SqlGenius.h:349-353 | adds a table and all its ancestors, nothing else |
| SqlGenius.SqlGenius.AddFields | libkycore/SqlGenius.h:342-377 | adds the ancestor chains of all fields |
| SqlGenius.SqlGenius.BuildJoins | libkycore/SqlGenius.h:404-426 | the recursion joins missing ancestors first, then the table unless it is joined; terminates on depth |
| SqlGenius.SqlGenius.WriteJoin | libkycore/SqlGenius.h:408-425 | writes one join and takes its table off the waiting ones |
| SqlGenius.SqlGenius.ClauseFrom | libkycore/SqlGenius.h:398-431 | from an ancestor-closed set, joins every table but the master exactly once, after its parent, and no other; binds exactly the edited links |
| SqlGenius.SqlGenius.WhereFilters | libkycore/SqlGenius.h:442-476 | the conjunction of the filter clauses; of equally named operands the first stays |
| SqlGenius.SqlGenius.GenSelectOne | libkycore/SqlGenius.h:128-143 | no text without fields, an exception without id; otherwise a well-scoped query that loads the record on every database |
| SqlGenius.SqlGenius.GenSelectCount | libkycore/SqlGenius.h:245-260 | an exception outside a Recordset; otherwise a well-scoped query that counts the passing rows on every database |
| SqlGenius.SqlGenius.GenSelectIds | libkycore/SqlGenius.h:262-280 | an exception outside a Recordset; otherwise a well-scoped query that lists the passing rows, sorted and paged as asked |
| SqlGenius.SqlGenius.GenSelectByIds | libkycore/SqlGenius.h:282-308 | no text without ids or fields; otherwise loads the rows with the ids; well scoped if and only if every sort table lies on the chain of some field |
| SqlGenius.SqlGenius.BindIds | libkycore/SqlGenius.h:297-303 | binds the i-th id under the i-th name |
| SqlGenius.SqlGenius.GenDeleteByIds | libkycore/SqlGenius.h:219-241 | no text without ids; otherwise, on every database, the statement removes exactly the rows with those ids and touches nothing else |
| SqlGenius.DeletedOrLeft | libkycore/SqlGenius.h:219-241 | the rows with the ids and the rows left are together the rows there were |
| SqlGenius.SqlGenius.ClauseSort | libkycore/SqlGenius.h:478-491 | one key per sort in order, with its direction |
| SqlGenius.SqlGenius.GenInsert | libkycore/SqlGenius.h:145-171 | no text without edited master fields; otherwise columns and parameters that together assign exactly the edits |
| SqlGenius.SqlGenius.GenUpdate | libkycore/SqlGenius.h:173-198 | no text without edited master fields, an exception without id; otherwise columns and parameters that assign exactly the edits, and the id under its own name |
| SqlGenius.SqlGenius.Assignments | libkycore/SqlGenius.h:152-163 | the loop lists the columns of modified master fields but the id, in field order, and binds each to its value |
| SqlGenius.SortTableNotJoined | libkycore/SqlGenius.h:282-308 | a book sorted by its author's name while only the title is loaded: the statement names a table it has not joined |
| SqlGenius.SelectOneLoads | libkycore/SqlGenius.h:128-143 | the query as generated is well scoped and answers the navigated record on every database |
| SqlGenius.CountIsRight | libkycore/SqlGenius.h:245-260 | the count query as generated is well scoped and counts on every database |
| SqlGenius.IdsAreRight | libkycore/SqlGenius.h:262-280 | the ids query as generated is well scoped and lists exactly the passing rows on every database |
| SqlGenius.RowsAreRight | libkycore/SqlGenius.h:282-308 | the rows with the given ids are answered, and the exact condition under which the sort columns are in scope |
| SqlGenius.CountAndPagesAgree | libkycore/SqlGenius.h:245-280 | count equals list length, any page of it has `min(limit, max(0, count - offset))` ids, enough pages give the whole list |
| SqlGenius.FetchesThePage | libkycore/SqlGenius.h:493-499 | the server sends the page the bound parameters ask for |
| Filter.FilterParser.constructor | libkycore/SqlGenius.h:40 | parsing is done on construction: clause, parameters and counter are those of the non-empty segments |
| Filter.FilterParser.Parse | libkycore/SqlGenius.h:49-96 | the getline loop visits the segments in order and skips the empty ones |
| Filter.FilterParser.AddSegment | libkycore/SqlGenius.h:61-93 | one segment adds one alternative and its operands |
| Filter.FilterParser.Operator | libkycore/SqlGenius.h:71-92 | the operator chosen and the operands bound under the next names |
| Filter.AtomTestsOperands | libkycore/SqlGenius.h:71-92 | an alternative applies its operator to whatever operands its placeholders carry |
| Filter.AtomTestsSegment | libkycore/SqlGenius.h:71-92 | with its own operands bound, an alternative tests what its segment says: `!=`, `>`, `<`, first-colon range, prefix |
| Filter.ClauseMeansOperators | libkycore/SqlGenius.h:49-96 | the clause is the disjunction of its operators applied to the operands bound, handed out from left to right |
| Filter.ClauseMeansSegments | libkycore/SqlGenius.h:49-96 | with its own operands bound, the clause holds of a value if and only if some segment does |
| Filter.PlaceholdersInOrder | libkycore/SqlGenius.h:69-92 | placeholders are f_0, f_1, ... from left to right, segments plus ranges many |
| Filter.PlainTextIsPrefix | libkycore/SqlGenius.h:89-90 | a segment without wildcards selects the values that begin with it |
| Filter.LikeMeans | libkycore/SqlGenius.h:88-91 | with wildcards inside: LIKE matches if and only if the text splits into pieces, one per character of the pattern, any piece for `%`, one character for `_`, the character itself otherwise |
| Filter.SegmentSays | libkycore/SqlGenius.h:71-92 | `!=x` tests unequal, `>x` after, `<x` before and `x:y` from x up to y, for any operands that do not read as another sign |
| Filter.BarsSeparate | libkycore/SqlGenius.h:61-62 | alternatives written with bars between them are read as those alternatives, empty ones skipped |
| Filter.ReceivedIsBound | libkycore/SqlGenius.h:465-472 | after merging, every placeholder carries the operand of the first filter that has one at its position, for any list of filters |
| Filter.FiltersKeepOperandsIff | libkycore/SqlGenius.h:458-475 | every filter keeps its own operands if and only if no two differ at a shared position |
| FilterTheorems.SecondFilterLosesOperand | libkycore/SqlGenius.h:465-472 | two filters, `>1` on one field and `>2` on another, and a row they select although the second does not accept it |
| FilterTheorems.FiltersSelectReceived | libkycore/SqlGenius.h:442-476 | any list of filters selects exactly the rows that each clause accepts with the operands it receives |
| FilterTheorems.FiltersSelect | libkycore/SqlGenius.h:442-476 | so filters that agree on shared operands select exactly the rows each of them accepts |
| FilterTheorems.TwoComparisons | libkycore/SqlGenius.h:465-472 | of two `>` filters the second compares with the operand of the first |
| FilterTheorems.OneFilterAgrees | libkycore/SqlGenius.h:442-476 | one filter always qualifies |
| FilterTheorems.NoSegmentsIff | libkycore/SqlGenius.h:61-62 | a filter has no segment if and only if its text is empty or made of bars |
| FilterTheorems.ClausesPrintableIff | libkycore/SqlGenius.h:59-95 | every printed clause holds an alternative if and only if no filter is of that kind; otherwise `()` is printed |
| FilterTheorems.OperandValues | libkycore/SqlGenius.h:49-96 | scanning a clause yields the operands bound for it from left to right |
| FilterTheorems.CountQueryParams | libkycore/SqlGenius.h:245-260 | the count statement, whatever the filters, is executed with the edited values in join order, then the operands the filters receive |
| FilterTheorems.IdsQueryParams | libkycore/SqlGenius.h:262-280 | the ids statement likewise, then limit and offset |
| FilterTheorems.OperandsAsWritten | libkycore/SqlGenius.h:465-472 | these are the operands as written if and only if no two differ at a shared position |
| FilterTheorems.CachedIdsTextFails | libkycore/rec.cpp:264-276 | a load that reuses the cached ids text with a new generator always fails on a parameter not found |
| FilterTheorems.CachedCountTextIff | libkycore/rec.cpp:246-252 | a cached count text can be reused if and only if none of its joins is on an edited link and no filter has an alternative |
| Tokens.GetOrderedParams | libkycore/SqlGenius.h:310-337 | the loop computes the character machine, including the error on an unknown name |
| Tokens.ScannerReadsPlaceholders | libkycore/SqlGenius.h:310-337 | on any printed statement the result is the values of its placeholders in writing order, or the first name without a value |
| Tokens.ScannerMeans | libkycore/SqlGenius.h:310-337 | on any text the names looked up are the runs of name characters behind each dollar: the empty one unless it ends the text, none that runs into the next dollar |
| Tokens.NameLengthIs | libkycore/SqlGenius.h:318-328 | such a run goes up to the first character that is no letter, digit or underscore |
| Statements.StatementScans | libkycore/SqlGenius.h:387-499 | the placeholders of a statement are those of the joins, then of WHERE, then of the page |
| Statements.SelectOneParams | libkycore/SqlGenius.h:128-143 | the single-record query is executed with the edited values in join order, then the id |
| Statements.SelectByIdsParams | libkycore/SqlGenius.h:282-308 | the by-ids query is executed with the edited values in join order, then the ids as given |
| Statements.DeleteByIdsParams | libkycore/SqlGenius.h:219-241 | the delete is executed with exactly the ids it was given, in order |
| Statements.InsertParams | libkycore/SqlGenius.h:145-171 | the insert is executed with the edited values in field order |
| Statements.UpdateParams | libkycore/SqlGenius.h:173-198 | the update is executed with the edited values in field order, then the id |
| Lexing.LexConcat | libkycore/SqlGenius.h:387-499 | texts put together read as the words of one and then of the other, unless a word would run across the border |
| Reading.SelectReads | libkycore/SqlGenius.h:387-499 | the words of any query read back as its columns, tables, joins, condition, sort columns and page |
| Reading.ChangeReads | libkycore/SqlGenius.h:145-241 | the words of any INSERT, UPDATE or DELETE read back as its table, columns and placeholders |
| ReadBack.SelectOneIsRead | libkycore/SqlGenius.h:128-143 | the printed single-record query reads back as the query: columns in order, each join with its ON column or placeholder, the id test |
| ReadBack.SelectByIdsIsRead | libkycore/SqlGenius.h:282-308 | the printed by-ids query reads back as the query, with its ids in order and its sort columns with their directions |
| ReadBack.CountIsReadBack | libkycore/SqlGenius.h:245-260 | the printed count reads back as the query, every clause with its column, operators and operands, if no filter is empty or made of bars |
| ReadBack.IdsAreReadBack | libkycore/SqlGenius.h:262-280 | the printed ids query likewise, with its sort columns, and LIMIT and OFFSET with their own placeholders |
| StatementText.InsertIsRead | libkycore/SqlGenius.h:152-169 | the printed INSERT reads back with the table, and with the columns and the placeholders in one and the same order |
| ReadBack.InsertStoresSets | libkycore/SqlGenius.h:145-171 | the columns it names, each with the value bound to the placeholder in the same place, are exactly the edits |
| ReadBack.UpdateStoresSets | libkycore/SqlGenius.h:173-198 | the columns the printed UPDATE names, each with the value bound to its placeholder, are exactly the edits, and its id placeholder carries the id |
| ReadBack.DeleteNamesIds | libkycore/SqlGenius.h:219-241 | the printed DELETE reads back with its table and one placeholder for each id, in order |
| Editing.SaveWritesOnlyItsFields | libkycore/rec.cpp:152-193 | an update changes exactly the assigned columns of exactly the row with the id |
| Editing.InsertAddsOneRow | libkycore/SqlGenius.h:145-171 | an insert appends one row with the new id and exactly the assigned columns, and changes nothing else |
| Editing.SetsHold | libkycore/SqlGenius.h:173-188 | every modified master field but the id is assigned its value |
| Editing.SetsNames | libkycore/SqlGenius.h:173-188 | nothing else is assigned: every assigned column is that of a modified field of the master table, and never the id |
| Editing.EditedMeans | libkycore/SqlGenius.h:412-419 | a link has an edited value if and only if its field is modified, and it is the value of that field |
| Editing.AssignedAreSets | libkycore/SqlGenius.h:152-163 | columns and parameters of the statement together assign exactly the edits |
| Editing.SavesCommute | libkycore/SqlGenius.h:173-198 | two updates with disjoint columns commute and both survive |
| Editing.RecordSavesCommute | libkycore/rec.cpp:152-193 | so do the saves of two records of one table with no edited field in common |
| Editing.ModifiedRecord | libkycore/rec.cpp:23-32 | an edit replaces exactly one link of later queries and adds exactly one column to the next save |
| Editing.ReadAfterWrite | libkycore/rec.cpp:152-193 | after an update, loading any choice of fields gives every edited one among them the value edited in; null comes back as the empty text |
| Editing.ReadAfterInsert | libkycore/rec.cpp:172-192 | and so after an insert |
| Editing.UpdateKeepsDb | libkycore/rec.cpp:187 | an update keeps ids unique |
| Editing.PreviewIsRightIff | libkycore/SqlGenius.h:412-423 | for any edits: all along a path the query before a save reaches the rows navigation reaches after it, if and only if the save changes nothing where the path comes back to the record's own row and every link edited below the record leads to the same row as the stored one |
| Editing.SmartJoinPreviewsSave | libkycore/SqlGenius.h:412-423 | in particular along every path that has no edited link below the record and does not come back to it |
| Editing.PreviewOfOwnRowDiffers | libkycore/SqlGenius.h:412-423 | a record referring to itself for which they differ |
| Editing.PreviewOfDeepEditDiffers | libkycore/SqlGenius.h:173-188 | a book whose author's city is edited: preview and reload show the edited city, the row stored after the save leads to the old one |
| Editing.ReloadShowsStoredIff | libkycore/rec.cpp:190-192 | once the record's own links are stored, a load, which still navigates with the edited links, shows what is stored all along a path if and only if the links edited further down stay |
| Editing.FieldShowsStored | libkycore/rec.cpp:190-192 | so a field whose path has no such link is read as stored |
| Record.Record.Modify | libkycore/rec.cpp:23-32 | one field takes the value and is marked, the others stay; of the links of later queries exactly this one is replaced, and the next save writes exactly this column more |
| Record.Record.New | libkycore/rec.cpp:89-109 | every field takes its default, or becomes empty and null without one, and none is marked |
| Record.Record.DoLoad | libkycore/rec.cpp:111-136 | the chosen fields take what navigation of the current row reads, if the row exists: null and the empty text for NULL, the text otherwise, unmarked; nothing else changes; new is cleared only by a row |
| Record.Record.Load | libkycore/rec.cpp:138 | that for the visible fields |
| Record.Record.Refresh | libkycore/rec.cpp:140-148 | no edited field is touched; every other one takes, as in a load, null and empty text or the text, what navigation reads with the edited links in place; without an id an exception if there is anything to load, and nothing changes |
| Record.Record.WriteOut | libkycore/rec.cpp:152-188 | which of update, insert, nothing or an exception happens, and the database, id and new flag after it |
| Record.Record.Save | libkycore/rec.cpp:152-193 | nothing without edits; otherwise the update or insert, the reload, every edited visible field back with its edited value, and every visible field, edited or not, as plain navigation of the stored row reads it unless a link edited below the record leads elsewhere; each failure with what it leaves |

## Left out

- Integer width: counters are unbounded; `useCount`, `total_accesses` and `softLimit * 10` never come near the limits of `int` in use, and pager limit and offset are taken as non-negative.
- Hit rates are compared as integers (`2 * hits < total`, `10 * hits > 9 * total`) instead of as doubles.
- Mutexes and condition variables: a step of the pool is what runs between two releases of the mutex; fairness of wake-ups and real time are not modelled, the clock is an integer that never goes back.
- Pointer validity of what `get` and `put` return: values are returned; holding the connection exclusively is what justifies it.
- libpq and the network: a database is a map of tables, the server a map of prepared names; whether the server accepts a statement or a connection is an input. The step from `$name` to numbered parameters is not in this code.
- Closing a connection: `PQfinish` runs before the cache member is destroyed, so statement ownership is stated for live connections and a pruned session simply ends.
- `SqlDrvPg::execute`, which uses no statement cache, and results of queries as the driver returns them.
- PathMeaning.NamesAreLoaded: speaks about names resolved before the query; the tree is fixed while one query is generated.
- QModel.QModel.Walk: node identity is the position in one list instead of a pointer, and a `QField` is its node and name, so the per-node map of `QField` objects has nothing left to state. An unresolvable name, which fails an assertion in the original, is excluded.
- Tables, fields, types, layouts and the `.ky` format: a schema maps field names to the table they refer to, if any; the column of a reference carries the suffix `_id`.
- Sql.Sorted: `ORDER BY` is a stable sort over the stored order with text compared by bytes; PostgreSQL fixes neither ties nor the collation.
- Sql.LikeMatch: `%` and `_` only, no escape character.
- Filter.FilterParser.Parse: a filter without a non-empty segment prints `()`, which is not valid SQL; the model lets such a clause select nothing, and FilterTheorems.ClausesPrintableIff says exactly when that happens.
- Filters starting with `~`: `doc/FieldFilters.md` announces regular expressions, the code treats the text as a prefix, and so does the model.
- Filters that differ on a shared operand do not select what they ask for, because every parser restarts its numbering at f_0 and the first value inserted stays; the model follows the code.
- Validity of the WHERE in `gen_update` and `gen_delete`: it names the alias `master`, which the statement does not declare; the update is modelled as one of the row with the id. `gen_delete` is not modelled.
- Record.Record.Save: assumes that an id reported by an INSERT is new in its table.
- `Record::getRField(name)` creating fields and their keys (one field per name is taken as given), `Delete`, and all of `Recordset` but its queries and the order of their answers: its cursor and selection are not modelled, and of its cached texts only whether they can be reused.
- ReadBack.SelectOneIsRead: like the other read-back results, for tables, aliases and fields whose names are non-empty identifiers.
- The scanner classifies characters as `isalnum` does in the C locale.
- `arc.h` is not the published adaptive replacement algorithm: there are no ghost lists; the model follows the code.
- `finalize.cpp`, `types.cpp`, `session_view`, `RUIDGen`, `findBestLayout` and the planned features under `doc/`.
