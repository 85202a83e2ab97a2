# atlas-web_back_end, modelled in Dafny

This project models the core of the atlas-web_back_end exercises, a mix of
Python and JavaScript, and proves properties of the model:

- the six caching policies: BasicCache, FIFOCache, LIFOCache, LRUCache,
  MRUCache and LFUCache, each over a bounded `cache_data` dict with
  `MAX_ITEMS` as a constructor parameter;
- the authentication helpers: `Auth.require_auth` (slash-tolerant path
  matching with a trailing `*` wildcard), `BasicAuth.extract_base64_authorization_header`,
  and the session stores of `SessionAuth` and `SessionExpAuth` (duration
  parsing, expiry at the boundary);
- pagination: `index_range`, `Server.get_page` and `Server.get_hyper`;
- the ES6 exercises: the student-list helpers (ids, by location, sum,
  grade update by city), typed arrays, `hasValuesFromArray`, `cleanSet`,
  `updateUniqueItems`, the WeakMap query counter, the neighborhoods
  closure, `appendToEachArrayValue`, the report iterator and
  `iterateThroughObject`, and `guardrail`;
- the Python annotation helpers `zoom_array`, `safely_get_value` and
  `safe_first_element`;
- the Node.js CSV readers `readDatabase` and `countStudents` (both the
  synchronous and the asynchronous copies), with JavaScript's object key
  order and `String.prototype.trim`/`split` semantics written out.

Each source file keeps its own form. A cache is a `class` whose fields are
the source's fields and whose methods change them in place; every method is
proved against a pure step function on a `State` value
(`ensures (Snapshot(), discarded) == PutStep(old(Snapshot()), ...)`), and
the policy's properties (which key is evicted, the invariant tying the
recency list to the dict, that a put is seen by a later get) are lemmas
about those functions. Code that loops in the source (the CSV readers, the
LFU victim search, `updateUniqueItems`, the iterators) is a `method` with
its loops and invariants, proved equal to a recursive reference function.
Pure helpers are functions with lemmas. Python's `None` arguments are
`Option` values; a thrown exception or an error result is an `Outcome`
(`Return` or `Throw` with the message). A line the source prints (the
`DISCARD:` notice, the student report) is returned as a value.

Shared helpers: `Wrappers` (`Option`, `Outcome`), `Seqs` (`list.remove`,
`list.pop(i)`, duplicate-free lists and their agreement with a dict's keys)
and `Strings` (JavaScript `trim`, `split`, `join`, decimal text).

The CSV readers' report follows JavaScript's object semantics. The
`for...of` over `Object.entries(fields)` lists the fields with names that
are array indices ("0", "42") first, in numeric order, and the other
fields in the order they first appear; `StudentCsv.FieldReport` states that
order. A field named after a property every object inherits (`toString`,
`constructor`, `__proto__`, ...) makes the grouping throw, which the readers
turn into 'Cannot load the database'.

## Model

| member | source | states |
|---|---|---|
| BasicCaching.PutStep | caching/0-basic_cache.py:15-20 | a None key or item leaves the dict alone; otherwise the key maps to the item, no key is lost and every other key keeps its value |
| BasicCaching.GetStep | caching/0-basic_cache.py:22-28 | the result is present exactly when the key is present and cached, and is then the stored item |
| BasicCaching.PutThenGet | caching/0-basic_cache.py:15-28 | a get after a put of that key returns the item; a get of any other key is unaffected |
| BasicCaching.BasicCache.constructor | caching/0-basic_cache.py:10-13 | the cache starts empty |
| BasicCaching.BasicCache.Put | caching/0-basic_cache.py:15-20 | the dict after the call is PutStep of the dict before it |
| BasicCaching.BasicCache.Get | caching/0-basic_cache.py:22-28 | the item is returned exactly for a cached key, and nothing changes |
| FifoCaching.PutStep | caching/1-fifo_cache.py:22-36 | a None key or item is a no-op; otherwise the item is stored under its key unless that key was itself discarded |
| FifoCaching.PutStepConsistent | caching/1-fifo_cache.py:28-36 | with MAX_ITEMS >= 1, every put keeps the size bound and keeps `order` a duplicate-free listing of exactly the cached keys |
| FifoCaching.PutStepEviction | caching/1-fifo_cache.py:28-36 | a key is discarded exactly when a new key arrives at a full cache; the victim is `order[0]`, never the new key, is gone afterwards, and the order becomes `order[1:] + [key]` |
| FifoCaching.PutStepPlacement | caching/1-fifo_cache.py:28-31 | re-putting a cached key replaces its value in place without reordering; a new key without overflow is appended |
| FifoCaching.PutStepFrame | caching/1-fifo_cache.py:28-36 | every key other than the put key and the victim keeps its value, and no key appears except the put key |
| FifoCaching.GetStep | caching/1-fifo_cache.py:38-44 | the item is returned exactly for a present, cached key |
| FifoCaching.ScenarioEvictsOldest | caching/1-fifo_cache.py:28-36 | with capacity 2, putting A, B, C discards A and leaves B and C in that order |
| FifoCaching.FIFOCache.constructor | caching/1-fifo_cache.py:14-20 | empty dict, empty order, the invariant holds |
| FifoCaching.FIFOCache.Put | caching/1-fifo_cache.py:22-36 | the fields and the discarded key after the call are PutStep of the fields before it, and the invariant is kept |
| FifoCaching.FIFOCache.Get | caching/1-fifo_cache.py:38-44 | the item is returned exactly for a cached key, and nothing changes |
| LifoCaching.PutStep | caching/2-lifo_cache.py:22-36 | a None key or item is a no-op |
| LifoCaching.PutStepConsistent | caching/2-lifo_cache.py:28-36 | every put keeps the bound, keeps every cached key somewhere on the stack, and keeps a cached key on top, so `pop(-2)` and `del` never fail |
| LifoCaching.PutWithoutOverflow | caching/2-lifo_cache.py:28-32 | a put of a cached key, or of a new key while there is room, stores the item, pushes the key (duplicates included) and discards nothing |
| LifoCaching.PutNewKeyWhenFull | caching/2-lifo_cache.py:28-36 | a new key at a full cache discards the previous top of the stack, which is cached and is not the new key, and the stack becomes the old stack without its top plus the new key |
| LifoCaching.PushPopCovers | caching/2-lifo_cache.py:29-35 | after the overflow the remaining stack still covers every cached key, with the new key on top |
| LifoCaching.UpdatePushesDuplicate | caching/2-lifo_cache.py:29-30 | putting A twice leaves A twice on the stack |
| LifoCaching.GetStep | caching/2-lifo_cache.py:38-42 | `dict.get(key, None)`: the item exactly for a cached key |
| LifoCaching.ScenarioEvictsPrevious | caching/2-lifo_cache.py:28-36 | with capacity 2, putting A, B, C discards B and keeps A and C |
| LifoCaching.LIFOCache.constructor | caching/2-lifo_cache.py:14-20 | empty dict, empty stack, the invariant holds |
| LifoCaching.LIFOCache.Put | caching/2-lifo_cache.py:22-36 | the fields and the discarded key after the call are PutStep of the fields before it, and the invariant is kept |
| LifoCaching.LIFOCache.Get | caching/2-lifo_cache.py:38-42 | the item is returned exactly for a cached key, and nothing changes |
| LruCaching.PutStep | caching/3-lru_cache.py:22-39 | a None key or item is a no-op |
| LruCaching.Stored | caching/3-lru_cache.py:30-33 | after the store the put key is the last, most recently used, entry of the order |
| LruCaching.GetStep | caching/3-lru_cache.py:41-50 | a hit returns the stored item; a None or absent key returns None and changes nothing |
| LruCaching.PutStepConsistent | caching/3-lru_cache.py:28-39 | every put keeps the bound and keeps `usage_order` a duplicate-free listing of exactly the cached keys |
| LruCaching.StoredTracked | caching/3-lru_cache.py:30-33 | the store keeps the listing, and the dict grows by one exactly when the key is new |
| LruCaching.EvictTracked | caching/3-lru_cache.py:37-38 | popping a position of the order and deleting that key keeps the listing and shrinks the dict by one |
| LruCaching.GetStepConsistent | caching/3-lru_cache.py:45-49 | a get keeps the listing and the bound and changes no key or value |
| LruCaching.PutStepEviction | caching/3-lru_cache.py:28-39 | a put stores its item and makes its key most recent; an update never evicts; a new key evicts exactly at a full cache, and the victim is `usage_order[0]`, the least recently used key, never the new key |
| LruCaching.GetProtectsFromEviction | caching/3-lru_cache.py:36-49 | a key just read survives the next overflowing put when the capacity is at least 2 |
| LruCaching.LRUCache.constructor | caching/3-lru_cache.py:14-20 | empty dict, empty order, the invariant holds |
| LruCaching.LRUCache.Put | caching/3-lru_cache.py:22-39 | the fields and the discarded key after the call are PutStep of the fields before it, and the invariant is kept |
| LruCaching.LRUCache.Get | caching/3-lru_cache.py:41-50 | the fields and the result are GetStep of the fields before the call, and the invariant is kept |
| MruCaching.PutStep | caching/4-mru_cache.py:22-39 | a None key or item is a no-op |
| MruCaching.Stored | caching/4-mru_cache.py:30-33 | after the store the put key is the last entry of the order, and the order still matches the dict in length |
| MruCaching.GetStep | caching/4-mru_cache.py:41-50 | a hit returns the stored item; a None or absent key returns None and changes nothing |
| MruCaching.PutStepConsistent | caching/4-mru_cache.py:28-39 | every put keeps the bound and the listing of the cached keys |
| MruCaching.PutStoresTracked | caching/4-mru_cache.py:28-39 | a put of a real key and item keeps the order listing exactly the cached keys |
| MruCaching.PutStoresBounded | caching/4-mru_cache.py:28-39 | a put of a real key and item never leaves more than MAX_ITEMS keys |
| MruCaching.OverflowTracked | caching/4-mru_cache.py:36-38 | the overflow check keeps the listing |
| MruCaching.OverflowBounded | caching/4-mru_cache.py:36-38 | when the store added at most one key, the overflow check restores the bound |
| MruCaching.StoredTracked | caching/4-mru_cache.py:30-33 | the store keeps the listing, and the dict grows by one exactly when the key is new |
| MruCaching.EvictTracked | caching/4-mru_cache.py:37-38 | popping a position of the order and deleting that key keeps the listing and shrinks the dict by one |
| MruCaching.GetStepConsistent | caching/4-mru_cache.py:45-49 | a get keeps the listing and the bound and changes no key or value |
| MruCaching.PutCachedKey | caching/4-mru_cache.py:30-33 | re-putting a cached key stores the item, moves the key to the end and discards nothing |
| MruCaching.PutNewKeyWithRoom | caching/4-mru_cache.py:32-33 | a new key with room left is stored and appended, and nothing is discarded |
| MruCaching.PutNewKeyWhenFull | caching/4-mru_cache.py:32-39 | a new key at a full cache discards the most recently used key before this put, never the new key, and the new key ends the order |
| MruCaching.GetThenPutEvictsIt | caching/4-mru_cache.py:36-49 | a get followed by a put of a new key into a full cache discards exactly the key just read |
| MruCaching.MRUCache.constructor | caching/4-mru_cache.py:14-20 | empty dict, empty order, the invariant holds |
| MruCaching.MRUCache.Put | caching/4-mru_cache.py:22-39 | the fields and the discarded key after the call are PutStep of the fields before it, and the invariant is kept |
| MruCaching.MRUCache.Store | caching/4-mru_cache.py:30-33 | the fields after the call are the Stored state of the fields before it |
| MruCaching.MRUCache.PopMostRecentButOne | caching/4-mru_cache.py:37-38 | `pop(-2)` and `del`: the fields become the state without the key at position -2, which is returned |
| MruCaching.MRUCache.Get | caching/4-mru_cache.py:41-50 | the fields and the result are GetStep of the fields before the call, and the invariant is kept |
| LfuCaching.KeysWithFrequency | caching/100-lfu_cache.py:45-46 | the filtered keys are keys of the order with the given frequency, and none are found when no key has it |
| LfuCaching.Victim | caching/100-lfu_cache.py:44-49 | the victim is a key of the order |
| LfuCaching.MinFrequencyAttained | caching/100-lfu_cache.py:44 | the minimum is a lower bound of every frequency and is the frequency of some key |
| LfuCaching.MinFrequencyOfValues | caching/100-lfu_cache.py:44 | when the order and the frequency dict have the same keys, the minimum along the order is `min(usage_frequency.values())` |
| LfuCaching.KeysWithFrequencyFirst | caching/100-lfu_cache.py:45-49 | when some key has the frequency, `lfu_keys[0]` exists, has it, and every key before it in the order has another frequency |
| LfuCaching.VictimIsLeastFrequentThenLeastRecent | caching/100-lfu_cache.py:42-49 | the victim has the least frequency of all keys and every key before it in `usage_order` is used more often |
| LfuCaching.PutStep | caching/100-lfu_cache.py:24-58 | a None key or item is a no-op |
| LfuCaching.MakeRoom | caching/100-lfu_cache.py:42-53 | a key is discarded exactly when the cache is full; otherwise nothing changes |
| LfuCaching.GetStep | caching/100-lfu_cache.py:60-72 | a hit returns the stored item; a None or absent key returns None and changes nothing |
| LfuCaching.PutStepConsistent | caching/100-lfu_cache.py:24-58 | every put keeps the bound and keeps the keys of the three fields equal, with a duplicate-free order |
| LfuCaching.GetStepConsistent | caching/100-lfu_cache.py:60-72 | a get keeps the three fields in agreement and changes no value |
| LfuCaching.UpdateTracked | caching/100-lfu_cache.py:35-39 | counting a cached key and moving it to the end keeps the fields in agreement |
| LfuCaching.RemoveTracked | caching/100-lfu_cache.py:50-52 | deleting one key from all three fields keeps them in agreement and shrinks the dict by one |
| LfuCaching.MakeRoomTracked | caching/100-lfu_cache.py:42-53 | making room keeps the agreement and leaves fewer than MAX_ITEMS keys |
| LfuCaching.InsertTracked | caching/100-lfu_cache.py:56-58 | inserting a new key with frequency 1 at the end keeps the agreement and grows the dict by one |
| LfuCaching.AccessCountsAndRefreshes | caching/100-lfu_cache.py:35-39 | re-putting a cached key and a successful get both add one to its frequency and move it to the end; the put discards nothing |
| LfuCaching.NewKeyEviction | caching/100-lfu_cache.py:40-58 | a new key enters with frequency 1 at the end; it evicts exactly when the cache was full, and then the victim is the least frequently used key, the least recently used among ties, never the new key |
| LfuCaching.LFUCache.constructor | caching/100-lfu_cache.py:15-22 | empty dict, frequencies and order; the invariant holds |
| LfuCaching.LFUCache.Put | caching/100-lfu_cache.py:24-58 | the fields and the discarded key after the call are PutStep of the fields before it, and the invariant is kept |
| LfuCaching.LFUCache.Insert | caching/100-lfu_cache.py:40-58 | the new-key branch: the fields become InsertStep after MakeRoom, and the discarded key is MakeRoom's |
| LfuCaching.LFUCache.Touch | caching/100-lfu_cache.py:37-39 | one more use of the key and the key moved to the end; the dict is untouched |
| LfuCaching.LFUCache.Get | caching/100-lfu_cache.py:60-72 | the fields and the result are GetStep of the fields before the call, and the invariant is kept |
| LfuCaching.LeastFrequentlyUsed | caching/100-lfu_cache.py:44-49 | the loops return the Victim, a key whose frequency is at most every other |
| LfuCaching.MinOfValues | caching/100-lfu_cache.py:44 | the loop over the frequency values returns the minimum frequency |
| LfuCaching.KeysWith | caching/100-lfu_cache.py:45-46 | the loop returns the keys of the order with the given frequency, in order |
| Auth.Normalize | Basic_authentication/api/v1/auth/auth.py:18 | the normalised path ends with '/', is the path itself when it already did, and the path plus '/' otherwise |
| Auth.RequireAuth | Basic_authentication/api/v1/auth/auth.py:12-29 | a None path, a None list and an empty list all require authentication |
| Auth.NoneMatchIff | Basic_authentication/api/v1/auth/auth.py:20-29 | the loop returns False exactly when some entry matches the normalised path |
| Auth.RequireAuthIff | Session_authentication/api/v1/auth/auth.py:13-27 | with a path and a non-empty list, authentication is not required exactly when some entry, a '*' prefix pattern or an exact string, matches the normalised path |
| Auth.RequireAuthOrderFree | Basic_authentication/api/v1/auth/auth.py:20-29 | the answer does not depend on the order of the excluded paths |
| Auth.WildcardMatchesPrefix | Basic_authentication/api/v1/auth/auth.py:21-24 | an entry `prefix*` matches exactly the normalised paths that start with `prefix` |
| Auth.SlashTolerantExact | Basic_authentication/api/v1/auth/auth.py:18-27 | an entry `path/` matches the path with and without its trailing slash |
| Auth.UnslashedEntryNeverMatches | Basic_authentication/api/v1/auth/auth.py:18-27 | an entry ending in neither '/' nor '*' never matches any path |
| Auth.Main101WildcardCalls | Basic_authentication/main_101.py:9-15 | the three prefix-pattern calls return True, False, False, as their comments expect |
| Auth.Main101Calls | Basic_authentication/main_101.py:18 | this call returns True, although its comment expects False (see Findings) |
| Auth.Main101SlashedCalls | Basic_authentication/main_101.py:21-22 | an entry with a trailing slash excludes the path written without one: both calls return False |
| Auth.RequireAuthBothNormalized | Basic_authentication/api/v1/auth/auth.py:25-27 | the corrected matcher: a None path, a None list and an empty list all require authentication |
| Auth.BothNormalizedExcludesListed | Basic_authentication/main_101.py:17-18 | with the corrected matcher, listing a path with or without its trailing slash excludes it |
| Auth.BothNormalizedAgrees | Basic_authentication/api/v1/auth/auth.py:20-29 | the corrected matcher gives the original answer on every list whose entries end in '/' or '*' |
| Auth.Main101Line18Corrected | Basic_authentication/main_101.py:18 | with the corrected matcher the call returns the expected False |
| BasicAuth.ExtractBase64AuthorizationHeader | Basic_authentication/api/v1/auth/basic_auth.py:11-23 | the result is present exactly for a string header starting with "Basic ", and is then the rest of the header after that prefix |
| BasicAuth.ExtractAfterPrefix | Basic_authentication/api/v1/auth/basic_auth.py:21-23 | extracting from "Basic " followed by s gives back s, for every s |
| BasicAuth.SchemeIsCaseSensitive | Basic_authentication/api/v1/auth/basic_auth.py:21-22 | "basic " and "Basic" followed by a tab are refused |
| Sessions.UserIdFor | Session_authentication/api/v1/auth/session_auth.py:28-32 | a user id is returned exactly for a string id that is in the dict, and it is the stored one |
| Sessions.CreateStep | Session_authentication/api/v1/auth/session_auth.py:16-26 | a missing or non-string user id returns None and stores nothing |
| Sessions.DestroyStep | Session_authentication/api/v1/auth/session_auth.py:52-69 | a False answer leaves the dict unchanged |
| Sessions.CreateThenLookup | Session_authentication/api/v1/auth/session_auth.py:16-32 | a created session returns its id, that id then looks up the user, and every other id keeps its answer |
| Sessions.DestroyThenLookup | Session_authentication/api/v1/auth/session_auth.py:52-69 | destroying succeeds exactly when the request's cookie names a known session; the session is then gone and every other id keeps its answer |
| Sessions.SessionStore.constructor | Session_authentication/api/v1/auth/session_auth.py:14 | the shared dict starts empty |
| Sessions.SessionAuth.constructor | Session_authentication/api/v1/auth/session_auth.py:11-14 | an instance uses the one shared dict |
| Sessions.SessionAuth.CreateSession | Session_authentication/api/v1/auth/session_auth.py:16-26 | the shared dict and the returned id are CreateStep of the dict before the call |
| Sessions.SessionAuth.DestroySession | Session_authentication/api/v1/auth/session_auth.py:52-69 | the shared dict and the returned flag are DestroyStep of the dict before the call |
| Sessions.SessionAuth.UserIdForSessionId | Session_authentication/api/v1/auth/session_auth.py:28-32 | an instance answers exactly for string ids present in the shared dict, with the user id stored there |
| ExpiringSessions.SessionDuration | Session_authentication/api/v1/auth/session_exp_auth.py:18-22 | an unset variable gives 0, and any non-zero duration is the value `int()` parses from the variable's text |
| ExpiringSessions.SessionDurationOfDecimal | Session_authentication/api/v1/auth/session_exp_auth.py:19-20 | a duration written as a decimal number is read as that number |
| ExpiringSessions.SessionDurationOfNegative | Session_authentication/api/v1/auth/session_exp_auth.py:19-20 | a duration written with a minus sign is read as the negative number |
| ExpiringSessions.SessionDurationDefaults | Session_authentication/api/v1/auth/session_exp_auth.py:19-22 | an unset variable and a value `int` rejects both give 0 |
| ExpiringSessions.UserIdFor | Session_authentication/api/v1/auth/session_exp_auth.py:38-59 | an answer is only ever given for a string id present in the dict, and is the user id stored in its record; with a positive duration, only for a record with a creation time whose expiry has not passed |
| ExpiringSessions.LookupOfUnknown | Session_authentication/api/v1/auth/session_exp_auth.py:40-45 | a None or unknown session id gives None, whatever the duration |
| ExpiringSessions.NoDurationNeverExpires | Session_authentication/api/v1/auth/session_exp_auth.py:47-48 | with a duration of 0 or less a known session always answers its user |
| ExpiringSessions.NoCreationTimeIsRefused | Session_authentication/api/v1/auth/session_exp_auth.py:50-51 | with a positive duration a record without 'created_at' gives None |
| ExpiringSessions.ExpiryBoundary | Session_authentication/api/v1/auth/session_exp_auth.py:53-59 | a session answers exactly up to and including its creation time plus the duration, gives None after that, and stays expired as time moves on |
| ExpiringSessions.CreateStep | Session_authentication/api/v1/auth/session_exp_auth.py:24-36 | a missing or non-string user id returns None and stores nothing |
| ExpiringSessions.CreateThenLookup | Session_authentication/api/v1/auth/session_exp_auth.py:24-59 | a session created at a time looks up its user for the duration (forever when it is not positive), and every other id keeps its answer |
| ExpiringSessions.ExpSessionStore.constructor | Session_authentication/api/v1/auth/session_auth.py:14 | the shared dict starts empty |
| ExpiringSessions.SessionExpAuth.constructor | Session_authentication/api/v1/auth/session_exp_auth.py:16-22 | the duration is the parsed `SESSION_DURATION`, and the instance uses the shared dict |
| ExpiringSessions.SessionExpAuth.CreateSession | Session_authentication/api/v1/auth/session_exp_auth.py:24-36 | the dict and the returned id are CreateStep of the dict before the call |
| ExpiringSessions.SessionExpAuth.UserIdForSessionId | Session_authentication/api/v1/auth/session_exp_auth.py:38-59 | an instance answers only for a string id present in its dict, with the stored user id, and with a positive duration only before the record's expiry |
| Pagination.IndexRange | pagination/0-simple_helper_function.py:10-16 | the range of page `page` starts `(page - 1) * page_size` rows in and spans `page_size` rows |
| Pagination.IndexRangeAdjacent | pagination/2-hypermedia_pagination.py:12-18 | page 1 starts at row 0, and each page's range ends where the next page's starts |
| Pagination.GetPage | pagination/2-hypermedia_pagination.py:42-56 | an AssertionError exactly when the page or the page size is not positive |
| Pagination.GetPageContents | pagination/2-hypermedia_pagination.py:49-56 | a page holds at most `page_size` rows; it is empty exactly when its start is past the end; otherwise it is the contiguous run of rows from its start, full unless the data ends inside the range |
| Pagination.PagesArePrefix | pagination/2-hypermedia_pagination.py:42-56 | pages 1 to k, one after the other, are the first `k * page_size` rows (or all of them): the pages neither overlap nor leave gaps |
| Pagination.CeilDiv | pagination/2-hypermedia_pagination.py:63 | the result is the least r with `len(dataset) <= r * page_size` |
| Pagination.GetHyper | pagination/2-hypermedia_pagination.py:58-72 | `get_hyper` fails exactly when `get_page` does |
| Pagination.GetHyperNavigation | pagination/2-hypermedia_pagination.py:58-72 | the data is `get_page`'s; `total_pages` is the fewest pages that hold every row; there is a next page exactly before the last page and a previous page exactly after the first; the reported size is the number of rows, the requested size on every page but the last |
| Students.Ids | ES6_data_manipulation/1-get_list_student_ids.js:9 | one id per student, in order: the i-th result is the i-th student's id |
| Students.GetListStudentIds | ES6_data_manipulation/1-get_list_student_ids.js:2-12 | a non-array gives []; an array gives its students' ids, in order |
| Students.InCity | ES6_data_manipulation/2-get_students_by_loc.js:10 | the filter keeps every student of the city as often as it occurs and no other student |
| Students.InCityAppend | ES6_data_manipulation/2-get_students_by_loc.js:10 | filtering a concatenation concatenates the filtered parts, so the kept students stay in input order |
| Students.GetStudentsByLocation | ES6_data_manipulation/2-get_students_by_loc.js:2-13 | a non-array gives []; an array gives the students of the city |
| Students.GetStudentIdsSum | ES6_data_manipulation/3-get_ids_sum.js:2-7 | the empty list sums to the initial 0 |
| Students.IdsSumAppend | ES6_data_manipulation/3-get_ids_sum.js:5 | the sum of a concatenation is the sum of the two sums |
| Students.IdsSumPermutation | ES6_data_manipulation/3-get_ids_sum.js:5 | the sum does not depend on the order of the list |
| Students.IdsSumRemoveOne | ES6_data_manipulation/3-get_ids_sum.js:5 | the sum is the sum without one student plus that student's id |
| Students.FirstEntryFor | ES6_data_manipulation/4-update_grade_by_city.js:13 | `find` stops at the first entry whose `studentId` is the id, and finds nothing exactly when no entry has it |
| Students.FindGrade | ES6_data_manipulation/4-update_grade_by_city.js:13-19 | the grade is 'N/A' exactly when no entry has the id; otherwise it is the grade of the first entry for the id |
| Students.WithGrades | ES6_data_manipulation/4-update_grade_by_city.js:11-21 | one new object per student, in order, holding the student and its found grade |
| Students.UpdateStudentGradeByCity | ES6_data_manipulation/4-update_grade_by_city.js:1-6 | a non-array gives [] |
| Students.UpdateStudentGradeByCityContents | ES6_data_manipulation/4-update_grade_by_city.js:9-21 | the result holds exactly the students of the city, in input order, each with the grade of its first matching entry, or 'N/A' |
| TypedArrays.ToInt8 | ES6_data_manipulation/5-typed_arrays.js:13 | the stored signed byte is congruent to the value modulo 256 |
| TypedArrays.ToInt8Properties | ES6_data_manipulation/5-typed_arrays.js:13 | a value in -128..127 is stored as it is, and values 256 apart store the same byte |
| TypedArrays.CreateInt8TypedArray | ES6_data_manipulation/5-typed_arrays.js:1-16 | throws 'Position outside range' exactly when the position is outside 0..length-1; otherwise a new zero-filled buffer of `length` bytes holding the converted value at the position |
| SetHelpers.HasValuesFromArray | ES6_data_manipulation/7-has_array_values.js:1-7 | true exactly when every value of the array is in the set |
| SetHelpers.HasValuesFromArrayMonotone | ES6_data_manipulation/7-has_array_values.js:3 | an empty array gives true, a value outside the set gives false, and true stays true for a larger set and for an array of values drawn from the first |
| SetHelpers.Remainders | ES6_data_manipulation/8-clean_set.js:8-10 | each remainder, put back after the prefix, is one of the set's values |
| SetHelpers.RemaindersComplete | ES6_data_manipulation/8-clean_set.js:9-10 | every value that starts with the prefix contributes its remainder |
| SetHelpers.RemaindersAppend | ES6_data_manipulation/8-clean_set.js:8-10 | remainders keep the order of the values |
| SetHelpers.CleanSet | ES6_data_manipulation/8-clean_set.js:3-5 | a missing, empty or non-string start string gives '' |
| SetHelpers.CleanSetNoMatch | ES6_data_manipulation/8-clean_set.js:8-11 | no matching value gives '', and a single match gives its remainder without a dash |
| UniqueItems.JsMap.constructor | ES6_data_manipulation/10-update_uniq_items.js:1-3 | a Map with the given keys, in order, and entries |
| UniqueItems.JsMap.Set | ES6_data_manipulation/10-update_uniq_items.js:11 | `map.set`: the entry is written, an existing key keeps its place and a new key goes last |
| UniqueItems.Promoted | ES6_data_manipulation/10-update_uniq_items.js:8-13 | the same keys; every 1 becomes 100 and every other value stays |
| UniqueItems.PromotedIdempotent | ES6_data_manipulation/10-update_uniq_items.js:8-13 | no 1 is left afterwards, so a second call changes nothing |
| UniqueItems.UpdateUniqueItems | ES6_data_manipulation/10-update_uniq_items.js:1-17 | throws 'Cannot process' exactly for a missing Map; otherwise returns the same Map, rewritten in place, with the same key order and promoted entries |
| UniqueItems.PromoteStep | ES6_data_manipulation/10-update_uniq_items.js:8-12 | one turn of the loop rewrites the next key's value exactly when it is 1 |
| UniqueItems.PromotedAll | ES6_data_manipulation/10-update_uniq_items.js:8-13 | once every key has been visited the entries are the promoted ones |
| WeakCounter.QueryStep | ES6_data_manipulation/100-weak.js:4-19 | the endpoint's count goes up by one (from 0 when unseen), every other count stays, and the call throws 'Endpoint load is high' exactly when the new count is at least 5 |
| WeakCounter.QueriesFromFresh | ES6_data_manipulation/100-weak.js:1-19 | from a fresh map, n calls leave the count at n and other endpoints at 0; calls one to four succeed and every call from the fifth on throws |
| WeakCounter.QueryCounter.constructor | ES6_data_manipulation/100-weak.js:1 | the map starts empty |
| WeakCounter.QueryCounter.QueryAPI | ES6_data_manipulation/100-weak.js:4-19 | the counts and the outcome are QueryStep of the counts before the call |
| Neighborhoods.JsArray.constructor | ES6_basic/2-arrow.js:5 | an array holding the given names |
| Neighborhoods.JsArray.Push | ES6_basic/2-arrow.js:15 | `push` appends the value at the end and keeps every earlier element |
| Neighborhoods.NeighborhoodsList.constructor | ES6_basic/2-arrow.js:2-5 | a new object owning a new array ['SOMA', 'Union Square'] |
| Neighborhoods.NeighborhoodsList.AddNeighborhood | ES6_basic/2-arrow.js:11-19 | the name is appended to the object's own array, earlier names stay, and that same array, not a copy, is returned |
| ArrayLoops.AppendToEachArrayValue | ES6_basic/10-loops.js:1-12 | a new array of the same length whose i-th value is `appendString + array[i]` |
| ReportIteration.FlattenShape | ES6_basic/100-createIteratorObject.js:10-12 | the gathered list has as many employees as the departments together, and each department's employees sit, in order, right after those of the departments before it |
| ReportIteration.FlattenLength | ES6_basic/100-createIteratorObject.js:10-12 | the gathered list is as long as the departments together |
| ReportIteration.EmployeeIterator.constructor | ES6_basic/100-createIteratorObject.js:5-12 | the loop gathers the employees of every department, department after department, and the index starts at 0 |
| ReportIteration.EmployeeIterator.Next | ES6_basic/100-createIteratorObject.js:16-24 | `next()` returns the employee at the index and moves on by one; past the end it returns done and stays put |
| ReportIteration.ReportIterable.constructor | ES6_basic/100-createIteratorObject.js:1-3 | the iterable keeps the report's `allEmployees` object |
| ReportIteration.ReportIterable.Iterator | ES6_basic/100-createIteratorObject.js:5-26 | each call starts a new traversal, at index 0, of the departments in `Object.values` order |
| ReportIteration.Drain | ES6_basic/100-createIteratorObject.js:16-24 | calling `next()` until done yields every employee in order and nothing after |
| ReportIteration.AccumulatedShape | ES6_basic/101-iterateThroughObject.js:5-8 | for at least one name the loop builds the names joined by " \| ", with one space before and " \|" after |
| ReportIteration.IterateThroughObject | ES6_basic/101-iterateThroughObject.js:1-12 | the result is the names joined by " \| " (one name alone, '' for none) |
| Guardrail.Guardrail | ES6_promise/9-try.js:1-17 | the queue has two entries: the callback's value, or 'Error: ' and its error's message, then 'Guardrail was processed' |
| Annotations.SafeFirstElement | python_variable_annotations/100-safe_first_element.py:9-15 | None for an empty sequence, the first element otherwise |
| Annotations.SafeFirstElementFirstOnly | python_variable_annotations/100-safe_first_element.py:12-15 | the result depends only on the first element, and a None result does not tell an empty sequence from one starting with None |
| Annotations.SafelyGetValue | python_variable_annotations/101-safely_get_value.py:10-17 | the stored value for a present key, the default otherwise |
| Annotations.SafelyGetValueStoredNone | python_variable_annotations/101-safely_get_value.py:14-17 | a stored None wins over the default, and an omitted default is None |
| Annotations.ZoomArray | python_variable_annotations/102-type_checking.py:8-14 | a factor of 0 or less gives [] |
| Annotations.Repeat | python_variable_annotations/102-type_checking.py:12 | n copies of the item |
| Annotations.ZoomArrayLength | python_variable_annotations/102-type_checking.py:8-14 | the result has `len(lst) * factor` items |
| Annotations.ZoomArrayIndex | python_variable_annotations/102-type_checking.py:10-13 | position i of the result holds item `i // factor`: each item is repeated `factor` times in a row, in order |
| Annotations.ZoomArrayExamples | python_variable_annotations/102-type_checking.py:17-19 | factor 1 gives the items back, and (12, 72, 91) zooms to [12, 12, 72, 72, 91, 91] |
| JsObjects.IndexKeys | Node_JS/2-read_file.js:34 | the keys `Object.entries` lists first are exactly the canonical array-index keys, in creation order |
| JsObjects.NamedKeys | Node_JS/2-read_file.js:34 | the keys `Object.entries` lists after them are exactly the other keys, in creation order |
| JsObjects.SplitKeysMultiset | Node_JS/2-read_file.js:34 | together the two kinds of key are the object's keys, each once |
| JsObjects.SortByIndexAscending | Node_JS/2-read_file.js:34 | index keys are listed in ascending numeric order |
| JsObjects.OwnKeys | Node_JS/2-read_file.js:34 | the listing of an object's own keys is a permutation of the keys in creation order |
| JsObjects.OwnKeysOrder | Node_JS/3-read_file_async.js:27 | the listing holds the index keys first, in ascending numeric order, then the other keys in creation order |
| JsObjects.OwnKeysWithoutIndexKeys | Node_JS/3-read_file_async.js:27 | an object without index keys lists its keys in creation order |
| JsObjects.Values | ES6_basic/100-createIteratorObject.js:10 | `Object.values` has one value per key, the i-th being the value of the i-th listed key |
| Strings.TrimStart | Node_JS/full_server/utils.js:7 | leading whitespace, and only whitespace, is dropped: the result is a suffix not starting with whitespace |
| Strings.TrimEnd | Node_JS/full_server/utils.js:7 | trailing whitespace, and only whitespace, is dropped: the result is a prefix not ending with whitespace |
| Strings.TrimShape | Node_JS/2-read_file.js:13 | the text is the trimmed text with whitespace-only text on either side |
| Strings.TrimEnds | Node_JS/2-read_file.js:17 | the trimmed text is empty or neither starts nor ends with whitespace |
| Strings.Join | Node_JS/2-read_file.js:35 | `join` of no parts is '' and of one part is that part |
| Strings.JoinSnoc | Node_JS/3-read_file_async.js:28 | joining one more part adds the separator and that part |
| Strings.Split | Node_JS/full_server/utils.js:11 | `split` gives at least one piece and no piece holds the separator |
| Strings.JoinSplit | Node_JS/full_server/utils.js:7 | joining the pieces of a split with the separator gives the text back |
| Strings.SplitJoin | Node_JS/full_server/utils.js:11 | splitting text joined from separator-free pieces gives the pieces back |
| Strings.Clamp | ES6_basic/101-iterateThroughObject.js:11 | `substring` positions are clamped into 0..length |
| Strings.DecimalText | Node_JS/2-read_file.js:19 | a number is written as a non-empty run of digits |
| Strings.DigitsValueOfDecimal | Node_JS/3-read_file_async.js:12 | reading the written digits back gives the number |
| StudentCsv.FieldColumn | Node_JS/2-read_file.js:25 | the field column exists exactly when the line has at least four comma-separated columns |
| StudentCsv.Lines | Node_JS/full_server/utils.js:7 | `data.trim().split('\n')` always has at least one line |
| StudentCsv.AddName | Node_JS/2-read_file.js:27-30 | adding a name to `fields` throws exactly when the field is not yet a key and names a property every object inherits |
| StudentCsv.GroupFails | Node_JS/2-read_file.js:24-31 | the grouping throws exactly when some row's field names an inherited property, and a successful grouping never uses such a name |
| StudentCsv.GroupKeys | Node_JS/3-read_file_async.js:17-24 | groups are created in the order their fields first appear, one per field |
| StudentCsv.GroupNames | Node_JS/full_server/utils.js:13-16 | each group holds the first names of its field's rows in file order, and a field without rows has no group |
| StudentCsv.GroupSize | Node_JS/2-read_file.js:24-31 | the groups hold as many names as there are rows |
| StudentCsv.SizeSumPermutation | Node_JS/2-read_file.js:34-36 | the counts add up the same whatever order the fields are listed in |
| StudentCsv.GroupStaysFailed | Node_JS/2-read_file.js:37-40 | once a `.push` has thrown, the later rows change nothing |
| StudentCsv.AddToFields | Node_JS/full_server/utils.js:13-16 | one grouping step fails or succeeds exactly as `AddName` and builds the same object |
| StudentCsv.DatabaseRow | Node_JS/full_server/utils.js:11-12 | a line contributes a row exactly when it has a non-empty field column and a non-empty first name |
| StudentCsv.ReadDatabase | Node_JS/full_server/utils.js:4-24 | `readDatabase` resolves to the grouping of the lines after the header, and an unreadable file or a throwing `.push` rejects with 'Cannot load the database' |
| StudentCsv.GroupDataLines | Node_JS/full_server/utils.js:10-18 | the loop over `lines.slice(1)` builds the grouping of the data lines' rows, or fails as it does |
| StudentCsv.ReadLine | Node_JS/full_server/utils.js:11-17 | a line without row leaves `fields` alone; otherwise its name is added as `AddName` says |
| StudentCsv.DatabaseFailsFrom | Node_JS/full_server/utils.js:21-23 | a failure on one data line makes the whole read fail |
| StudentCsv.DatabaseRowsAppend | Node_JS/full_server/utils.js:10 | the rows of concatenated lines are the concatenated rows |
| StudentCsv.DatabaseRowsCount | Node_JS/full_server/utils.js:10-18 | no more rows than lines, and no rows (so `{}`) when no line has both a field and a first name |
| StudentCsv.StudentLines | Node_JS/2-read_file.js:17 | the students are the lines after the first that hold more than whitespace, in order |
| StudentCsv.StudentRows | Node_JS/2-read_file.js:25 | one row per student line, in order |
| StudentCsv.FieldLines | Node_JS/2-read_file.js:34-36 | one printed line per listed field, 'Number of students in F: N. List: names' |
| StudentCsv.CountStudents | Node_JS/2-read_file.js:10-41 | `countStudents` prints the total, then the field lines, or throws 'Cannot load the database' after printing only the total when a `.push` throws, and prints nothing for an unreadable file |
| StudentCsv.FilterStudents | Node_JS/3-read_file_async.js:10 | the filter loop keeps exactly the lines `StudentLines` describes |
| StudentCsv.GroupStudents | Node_JS/3-read_file_async.js:17-24 | the `forEach` builds the grouping of the student rows, or fails as it does |
| StudentCsv.AddStudent | Node_JS/2-read_file.js:25-30 | a student's name goes to the group of its field, "undefined" when the line has fewer than four columns |
| StudentCsv.StudentsFailFrom | Node_JS/3-read_file_async.js:31-33 | a failure on one student makes the whole grouping fail |
| StudentCsv.PrintFields | Node_JS/3-read_file_async.js:27-29 | the `for...of` prints exactly the field lines, in entry order |
| StudentCsv.ReportLines | Node_JS/2-read_file.js:34-36 | the report described by the rows alone has one line per field |
| StudentCsv.FieldLinesReport | Node_JS/2-read_file.js:35 | printing the groups gives the report of the rows they came from |
| StudentCsv.FieldReport | Node_JS/2-read_file.js:34-36 | the fields are listed in `Object.entries` order of their first appearances, each line names its field's rows in file order, and the counts add up to the number of rows |
| StudentCsv.CountReport | Node_JS/2-read_file.js:19-36 | when grouping succeeds the output is the total of non-blank data lines followed by the report of the student rows |
| StudentCsv.CountFails | Node_JS/3-read_file_async.js:31-33 | `countStudents` throws exactly when a student's field names an inherited property, and then has printed only the total |
| StudentCsv.ReadDatabaseContents | Node_JS/full_server/utils.js:10-20 | `readDatabase` rejects exactly when a field names an inherited property; otherwise the groups come in first-appearance order, each holding its field's first names in file order |
| Seqs.RemoveAt | caching/3-lru_cache.py:37 | `list.pop(i)` leaves the elements before i in place and shifts those after it down by one |

## Left out

- The `DISCARD:` line printed on eviction is the key the put returns; `BaseCaching` itself and `print_cache` are not part of this model, and `MAX_ITEMS` is a constructor parameter of at least 1.
- Python's duck typing: the caches take keys and items of one type each, with None as `Option`; a session id or user id is a string, a missing argument or a value of some other type (`Dynamic`); unhashable keys and ids are not modelled.
- `uuid.uuid4()`, `datetime.now()` and `getenv('SESSION_DURATION')` are parameters: the fresh id, an integer count of microseconds, and the variable's text.
- ExpiringSessions.SessionExpAuth: its dict is a store of its own rather than the class attribute it shares with `SessionAuth`, so plain user-id entries written by a `SessionAuth` instance are not modelled there; `destroy_session` is modelled for `SessionAuth` only.
- Sessions.SessionAuth.DestroySession: `session_cookie(request)` and the `SESSION_NAME` variable are reduced to the request's cookie value; `current_user`, `authorization_header` and `User.get` are not part of this model.
- ExpiringSessions.ParseInt: the Unicode digits and whitespace Python's `int()` also accepts are not modelled; only ASCII ones are.
- Pagination.CeilDiv: `math.ceil` of a float division is computed exactly in integers, which agrees with the float result for every dataset of at most 2^53 rows; `isinstance(page, int)` holds by the parameter types.
- Pagination.GetPage: the dataset is passed in instead of being read from the CSV file.
- Network, database, Redis, MongoDB, Flask routes, bcrypt and `base64` decoding are outside the modelled core.
- The CSV readers take the file's text (None where reading fails) instead of a path, and return the printed lines instead of writing to the console; the asynchronous reader's promise is its outcome.
- Students, SetHelpers, UniqueItems: values are strings and integers; JavaScript's coercions between other types, and a `Map` holding non-integer values, are not modelled.
- SetHelpers.CleanSet: the Set's values are taken to be strings; a non-string value, on which `startsWith` would throw, is not modelled.
- TypedArrays.CreateInt8TypedArray: lengths and positions are integers (a fractional one is not modelled), the `DataView` is the array of bytes it views, and the `RangeError` for a length too large to allocate is not modelled.
- WeakCounter.QueryCounter.QueryAPI: keys are objects compared by identity; garbage collection of entries and the `TypeError` for a non-object key are not modelled.
- ReportIteration.ReportIterable.Iterator: the iterable captures the report's `allEmployees` object once, as a value, when it is built; the source reads `report.allEmployees` again on every `[Symbol.iterator]()` call, so a later change to the report (a department added, an employee pushed) shows in the next traversal there but not in the model.
- ExpiringSessions.UserIdFor: `created_at + timedelta(seconds=duration)` raises OverflowError when the sum passes the last `datetime` (year 9999), and `timedelta` itself raises above 86399999999999 seconds; `user_id_for_session_id` does not catch either, but the model returns the user id in both cases, since time is an unbounded integer.
- ExpiringSessions.ExpiryBoundary: the boundary is stated for every positive duration; for the durations that overflow (previous line) the source raises instead of answering.
- Guardrail.Guardrail: the callback is taken to return a value or throw an Error object; a thrown non-Error gives "Error: undefined" in the source, and `throw null` or `throw undefined` makes the catch block itself throw a TypeError, so no queue is returned; neither case is modelled.
- Students.GetStudentIdsSum: the sum is exact in unbounded integers, while `reduce` adds JavaScript Numbers (doubles); the two agree while every partial sum stays within 2^53 in absolute value, and beyond that the source rounds (`[2**53, 1, 1]` sums to 2^53).
- Aliasing between a cache's fields and outside references is not modelled: each cache owns its dict and lists.
- The floating-point and asynchronous exercises (`add`, `floor`, `to_str`, the Promise files other than `9-try.js`, the async Python files) are outside the modelled core.

## Findings

| source | as written | input that shows it | evidently intended | confidence | as-written member | corrected member |
|---|---|---|---|---|---|---|
| Basic_authentication/main_101.py:18 | `require_auth` adds a trailing slash to the path only, so an excluded entry without one never matches, and the call returns True | `require_auth("/api/v1/users", ["/api/v1/users", "/api/v1/stat*"])` | False, as the comment on that line says: the path is listed | medium, not executed | Auth.Main101Calls | Auth.Main101Line18Corrected |
