# Android-Esportes news feed: a Dafny model of its data layer

Android-Esportes is an Android app that lists sports news from a paged JSON
feed. This project models the app's data layer and the few rules around it:

- the feed decoder, which keeps the items of type `"basico"`, strips newlines from their text fields and converts the publication timestamp to epoch milliseconds;
- the timestamp parser and the "time ago" text;
- the HTTP outcome normalisation;
- the `news` table, with REPLACE-on-conflict inserts and a query ordered by publication;
- the local cache in front of the table;
- the paging controller (the boundary callback). It keeps a page cursor and a busy flag, fetches the next page when the list reaches its end, and refetches from page 1 on refresh;
- the repository that owns that controller;
- the list adapter's footer row and its change notifications;
- the connectivity receiver with its listeners;
- the news screen's refresh policy and its back-to-top button toggle.

Pure code is modelled as datatypes, functions and lemmas. Objects whose fields
change in place are classes: `NewsDao`, `LocalCache`,
`NewsBoundaryCallback`, `NewsRepository`, `NewsAdapter`,
`NetworkStateReceiver` and the scroll listener. Each class method is proved
against a pure specification function. The lemmas about those functions carry
the properties.

Files, one Dafny module each:

| file | module | models |
|---|---|---|
| options.dfy | Options | Option and Result |
| news.dfy | Model | News, NewsFetchResponse, NetworkState |
| json.dfy | Json | the parsed JSON tree and the accessors the decoder uses |
| deserializer.dfy | Deserializer | Deserializer.kt |
| date_utils.dfy | DateUtils | DateUtils.kt |
| service.dfy | Service | top-level `fetchNews` of Service.kt and the request path |
| news_dao.dfy | Dao | NewsDao.kt |
| local_cache.dfy | Cache | LocalCache.kt |
| boundary_callback.dfy | Paging | NewsBoundaryCallback.kt |
| repository.dfy | Repository | NewsRepository.kt |
| news_adapter.dfy | Adapter | NewsAdapter.kt |
| network_state_receiver.dfy | Receiver | NetworkStateReceiver.kt |
| news_activity.dfy | Activity | the refresh policy, initial load and scroll listener of NewsActivity.kt |

Asynchronous calls are split into explicit steps:

- The controller's `requestAndSaveData` is `Begin`. It returns the page handed to the gateway, or nothing when busy.
- The gateway's callback is `Finish` (the methods `OnSuccess`, `OnError` and `Deliver`). The busy flag can be observed between the two steps.
- Cache writes happen when called. The continuation runs when the method returns. The cache records completed writes in call order in `writes`.

Platform values become parameters: the clock, the zone offset, connectivity,
the download preference and the active network's state.

## Model

| member | source | states |
|---|---|---|
| Model.Error | app/src/main/java/com/upco/androidesportes/model/NetworkState.kt:38-46 | an error state is FAILED with the given message and differs from LOADED and LOADING |
| Json.Get | app/src/main/java/com/upco/androidesportes/data/network/Deserializer.kt:57 | a key is present exactly when the object has it, a JSON null included |
| Json.AsString | app/src/main/java/com/upco/androidesportes/data/network/Deserializer.kt:40-43 | a JSON string reads as itself; null and objects throw UnsupportedOperation |
| Json.StringAt | app/src/main/java/com/upco/androidesportes/data/network/Deserializer.kt:40 | a missing key dereferenced is a NullPointerException; a present one reads with asString |
| Json.ObjectAt | app/src/main/java/com/upco/androidesportes/data/network/Deserializer.kt:51 | a missing key is a NullPointerException; a present one must be an object |
| Deserializer.StripNewlines | app/src/main/java/com/upco/androidesportes/data/network/Deserializer.kt:61 | no newline remains, every other character keeps its count, and text without newlines is unchanged |
| Deserializer.StripAppend | app/src/main/java/com/upco/androidesportes/data/network/Deserializer.kt:61 | stripping a concatenation is concatenating the stripped parts, so the kept characters keep their order |
| Deserializer.StripOne | app/src/main/java/com/upco/androidesportes/data/network/Deserializer.kt:61 | a newline is dropped and any other character kept |
| Deserializer.StripIdempotent | app/src/main/java/com/upco/androidesportes/data/network/Deserializer.kt:61 | stripping twice gives the same as stripping once |
| Deserializer.NestedText | app/src/main/java/com/upco/androidesportes/data/network/Deserializer.kt:56-73 | an absent image/chapeu is null; a present one succeeds exactly when it is an object whose url/label reads as a string, and is that string with newlines removed |
| Deserializer.PlainText | app/src/main/java/com/upco/androidesportes/data/network/Deserializer.kt:78-106 | an absent title/summary/url is null; a present one succeeds exactly when it reads as a string, and is that string without newlines |
| Deserializer.CutTimestamp | app/src/main/java/com/upco/androidesportes/data/network/Deserializer.kt:124 | succeeds exactly for texts of at least 7 characters: all but the last 7, then 'Z' |
| Deserializer.Publication | app/src/main/java/com/upco/androidesportes/data/network/Deserializer.kt:112-113 | an absent publication is null |
| Deserializer.PublicationCases | app/src/main/java/com/upco/androidesportes/data/network/Deserializer.kt:112-127 | a short timestamp throws StringIndexOutOfBounds; otherwise the value is the conversion of the cut text, or a parse error |
| Deserializer.ApiTimestamp | app/src/main/java/com/upco/androidesportes/data/network/Deserializer.kt:114-127 | the API's nine fraction digits are cut to three, not rounded: 2019-06-08T01:50:26.453999999Z becomes 1559958626453 |
| Deserializer.DecodeItem | app/src/main/java/com/upco/androidesportes/data/network/Deserializer.kt:40-136 | an item yields a record only when its type is "basico"; an item with readable id and type of any other type is skipped; a "basico" item decodes exactly when its id, content object and each field decode; the id is the item's id text verbatim; image and chapeu are the content's nested url and label, title, summary and url the content's stripped strings, each null when absent, and publication the converted timestamp; no text field holds a newline; a missing id or type throws NullPointerException; any other item (not an object, or an id or type that does not read as a string) throws |
| Deserializer.Deserialize | app/src/main/java/com/upco/androidesportes/data/network/Deserializer.kt:29-141 | the loop's result equals the recursive decoding of the whole response |
| Deserializer.PrefixFailure | app/src/main/java/com/upco/androidesportes/data/network/Deserializer.kt:37 | an exception in a prefix of the items is the exception of the whole list |
| Deserializer.DecodeItemsOkIff | app/src/main/java/com/upco/androidesportes/data/network/Deserializer.kt:37-137 | the list decodes exactly when every item decodes |
| Deserializer.DecodeItemsKeepsBasico | app/src/main/java/com/upco/androidesportes/data/network/Deserializer.kt:37-135 | the output is the "basico" items in input order, each decoded, so it is never longer than the input |
| Deserializer.DecodedRecordsClean | app/src/main/java/com/upco/androidesportes/data/network/Deserializer.kt:56-106 | no decoded record holds a newline in any text field |
| DateUtils.DaysBeforeYearCounts | app/src/main/java/com/upco/androidesportes/util/DateUtils.kt:38-43 | the closed-form day count of a year's start equals adding up year lengths from 1970 |
| DateUtils.DaysBeforeMonthCounts | app/src/main/java/com/upco/androidesportes/util/DateUtils.kt:38-43 | the cumulative month table equals adding up month lengths |
| DateUtils.DaysFromCivilCounts | app/src/main/java/com/upco/androidesportes/util/DateUtils.kt:38-43 | days since the epoch are the whole years, whole months and days before the date |
| DateUtils.NextDay | app/src/main/java/com/upco/androidesportes/util/DateUtils.kt:38-43 | the next calendar day is one day later, across month and year ends |
| DateUtils.ReplaceT | app/src/main/java/com/upco/androidesportes/util/DateUtils.kt:40 | every 'T' becomes a space and nothing else changes |
| DateUtils.Parse | app/src/main/java/com/upco/androidesportes/util/DateUtils.kt:41-42 | a parse succeeds only on text of the pattern's shape with valid field ranges, and yields its fields |
| DateUtils.GetUtcFromTimestamp | app/src/main/java/com/upco/androidesportes/util/DateUtils.kt:38-43 | a converted timestamp has 'Z' at position 23 and 'T' or a space at position 10, and lies between the start of year 0 and the start of year 10000 |
| DateUtils.ParseFormat | app/src/main/java/com/upco/androidesportes/util/DateUtils.kt:38-43 | the formatted text of any valid instant, with either separator, converts back to that instant's epoch milliseconds |
| DateUtils.FormatFields | app/src/main/java/com/upco/androidesportes/util/DateUtils.kt:28 | the formatted text matches the pattern and its fields read back as the instant |
| DateUtils.TrailingTextIgnored | app/src/main/java/com/upco/androidesportes/util/DateUtils.kt:42 | text after the 24 characters the pattern reads does not change the result |
| DateUtils.EitherSeparator | app/src/main/java/com/upco/androidesportes/util/DateUtils.kt:40 | 'T' and a space between date and time give the same result |
| DateUtils.TestVector1 | app/src/test/java/com/upco/androidesportes/util/DateUtilsTest.kt:15-18 | 2019-06-08T01:50:26.453Z converts to 1559958626453 |
| DateUtils.TestVector2 | app/src/test/java/com/upco/androidesportes/util/DateUtilsTest.kt:20-23 | 2019-06-09T22:56:00.000Z converts to 1560120960000 |
| DateUtils.TestVector3 | app/src/test/java/com/upco/androidesportes/util/DateUtilsTest.kt:25-28 | 2019-06-07T14:56:26.354Z converts to 1559919386354 |
| DateUtils.TestVector4 | app/src/test/java/com/upco/androidesportes/util/DateUtilsTest.kt:30-33 | 2019-06-08T04:32:14.151Z converts to 1559968334151 |
| DateUtils.MissingZoneRejected | app/src/test/java/com/upco/androidesportes/util/DateUtilsTest.kt:43-44 | a timestamp without the trailing 'Z' is a parse error |
| DateUtils.FriendlyTime | app/src/main/java/com/upco/androidesportes/util/DateUtils.kt:93-170 | the error text exactly when elapsed seconds are not positive; otherwise the largest unit with quotient at least 1, the quotient as count, plural exactly when the count exceeds 1 |
| DateUtils.ZoneShiftsTheClock | app/src/main/java/com/upco/androidesportes/util/DateUtils.kt:180-191 | a zone offset o shows the same text as UTC would show o milliseconds earlier |
| DateUtils.TruncDiv | app/src/main/java/com/upco/androidesportes/util/DateUtils.kt:84 | division by 1000 truncates toward zero, for negative differences too |
| DateUtils.GetFriendlyTimeString | app/src/main/java/com/upco/androidesportes/util/DateUtils.kt:70-171 | with the elapsed time measured from the stored value plus the zone offset: the error text exactly when under one second has elapsed; otherwise the largest unit (year, 30-day month, day, hour, minute, second) of which a whole one has elapsed, with count whole units elapsed and fewer than count + 1, plural exactly when the count exceeds 1 |
| DateUtils.HoursAgoInUtc | app/src/main/java/com/upco/androidesportes/util/DateUtils.kt:135-140 | in UTC, an item published n whole hours ago (n < 24) reads "n hours ago", singular for 1 |
| Service.FetchNews | app/src/main/java/com/upco/androidesportes/data/network/Service.kt:50-69 | exactly one callback for every outcome: success with the body's items or the empty list; an unsuccessful response's error body or "Erro desconhecido"; a failure's message or "Erro desconhecido" |
| Service.NullBodyIsEmpty | app/src/main/java/com/upco/androidesportes/data/network/Service.kt:57 | an example: a successful response with a null body, and one with an empty item list, both deliver the empty list |
| Service.ParseIntToString | app/src/main/java/com/upco/androidesportes/data/network/Service.kt:85 | the decimal rendering of any Int reads back as that Int |
| Service.PageRoundTrip | app/src/main/java/com/upco/androidesportes/data/network/Service.kt:83-86 | the requested page can be read back unchanged from the request path |
| Dao.UpsertAll | app/src/main/java/com/upco/androidesportes/data/database/NewsDao.kt:17-22 | the ids after an insert are the old ids and the batch's; rows outside the batch are untouched; each inserted id holds its last record in the batch |
| Dao.UpsertKeyedById | app/src/main/java/com/upco/androidesportes/data/database/NewsDao.kt:21-22 | every row stays stored under its own id, so at most one row per id |
| Dao.UpsertCount | app/src/main/java/com/upco/androidesportes/data/database/NewsDao.kt:21-22 | the row count after an insert is the number of distinct old and batch ids |
| Dao.UpsertIdempotent | app/src/main/java/com/upco/androidesportes/data/database/NewsDao.kt:21-22 | inserting the same batch again changes nothing |
| Dao.InsertDesc | app/src/main/java/com/upco/androidesportes/data/database/NewsDao.kt:29 | inserting into the ordered list adds exactly the one record |
| Dao.InsertDescSorted | app/src/main/java/com/upco/androidesportes/data/database/NewsDao.kt:29 | insertion keeps the list ordered by publication, most recent first |
| Dao.SortDesc | app/src/main/java/com/upco/androidesportes/data/database/NewsDao.kt:29 | the ordering is a permutation of its input |
| Dao.SortDescSorted | app/src/main/java/com/upco/androidesportes/data/database/NewsDao.kt:29 | the ordering is by publication, most recent first |
| Dao.Query | app/src/main/java/com/upco/androidesportes/data/database/NewsDao.kt:24-30 | the query returns every row once and only rows, ordered by publication descending among rows that have one |
| Dao.NewsDao.Insert | app/src/main/java/com/upco/androidesportes/data/database/NewsDao.kt:21-22 | inserting record by record leaves the table the batch upsert describes, still keyed by id |
| Cache.ApplyAllAppend | app/src/main/java/com/upco/androidesportes/data/database/LocalCache.kt:23-29 | writes take effect in call order: a later batch applies to the table the earlier one left |
| Cache.ApplyAllKeyedById | app/src/main/java/com/upco/androidesportes/data/database/LocalCache.kt:26 | any sequence of completed writes keeps the table keyed by id |
| Cache.ClearThenInsert | app/src/main/java/com/upco/androidesportes/data/NewsBoundaryCallback.kt:103-109 | a clear followed by an insert leaves exactly the inserted batch, whatever was there |
| Cache.EmptyInsert | app/src/main/java/com/upco/androidesportes/data/database/LocalCache.kt:23-29 | inserting an empty list leaves the table unchanged |
| Cache.LocalCache.Insert | app/src/main/java/com/upco/androidesportes/data/database/LocalCache.kt:23-29 | the whole list goes to the DAO's upsert and the write is logged after the earlier ones |
| Cache.LocalCache.Clear | app/src/main/java/com/upco/androidesportes/data/NewsBoundaryCallback.kt:104 | the table is emptied and the clear is logged after the earlier writes |
| Cache.LocalCache.News | app/src/main/java/com/upco/androidesportes/data/database/LocalCache.kt:35 | the DAO's view: every row exactly once and only rows, ordered by publication |
| Paging.InitialInv | app/src/main/java/com/upco/androidesportes/data/NewsBoundaryCallback.kt:33-36 | a fresh controller is at page 1 and idle |
| Paging.Begin | app/src/main/java/com/upco/androidesportes/data/NewsBoundaryCallback.kt:83-102 | busy: nothing changes and nothing is fetched; idle: fetch page 1 on refresh or else the cursor, set the flag, record the request with its clear-cache choice for the callback, leave the errors alone |
| Paging.Finish | app/src/main/java/com/upco/androidesportes/data/NewsBoundaryCallback.kt:102-119 | the flag clears; success advances the cursor by one and writes the page, after a clear on refresh; failure keeps the cursor, appends the message and writes nothing |
| Paging.BeginInv | app/src/main/java/com/upco/androidesportes/data/NewsBoundaryCallback.kt:85-102 | a trigger keeps the cursor at least 1 and the flag set exactly while a fetch for the cursor is pending |
| Paging.FinishInv | app/src/main/java/com/upco/androidesportes/data/NewsBoundaryCallback.kt:102-119 | a callback keeps the same invariant |
| Paging.BusyTriggersAreNoOps | app/src/main/java/com/upco/androidesportes/data/NewsBoundaryCallback.kt:85-91 | while busy every trigger is a no-op; refresh does not even reset the cursor |
| Paging.RefreshReplacesCache | app/src/main/java/com/upco/androidesportes/data/NewsBoundaryCallback.kt:91-109 | an idle refresh fetches page 1, and on success the table holds exactly the fetched ids and the cursor is 2 |
| Paging.AppendKeepsOtherRows | app/src/main/java/com/upco/androidesportes/data/NewsBoundaryCallback.kt:110-115 | a normal success upserts the page and keeps every other row |
| Paging.RunKeepsOneFetchInFlight | app/src/main/java/com/upco/androidesportes/data/NewsBoundaryCallback.kt:83-120 | over any sequence of triggers and callbacks, fetches outnumber delivered callbacks by one exactly while busy, and every fetched page is at least 1 |
| Paging.RefreshThenTriggers | app/src/main/java/com/upco/androidesportes/data/NewsBoundaryCallback.kt:85-91 | after a refresh, further triggers before its callback fetch nothing and keep the cursor at 1 |
| Paging.NewsBoundaryCallback.constructor | app/src/main/java/com/upco/androidesportes/data/NewsBoundaryCallback.kt:33-36 | starts at page 1, idle, with no errors |
| Paging.NewsBoundaryCallback.RequestAndSaveData | app/src/main/java/com/upco/androidesportes/data/NewsBoundaryCallback.kt:83-102 | the new state and the fetched page are those of Begin |
| Paging.NewsBoundaryCallback.OnZeroItemsLoaded | app/src/main/java/com/upco/androidesportes/data/NewsBoundaryCallback.kt:42-48 | Begin without clearing |
| Paging.NewsBoundaryCallback.OnItemAtEndLoaded | app/src/main/java/com/upco/androidesportes/data/NewsBoundaryCallback.kt:54-60 | Begin without clearing |
| Paging.NewsBoundaryCallback.Refresh | app/src/main/java/com/upco/androidesportes/data/NewsBoundaryCallback.kt:66-72 | Begin with clearing |
| Paging.NewsBoundaryCallback.OnSuccess | app/src/main/java/com/upco/androidesportes/data/NewsBoundaryCallback.kt:102-115 | the state, the cache's write log and its table are those of Finish on success |
| Paging.NewsBoundaryCallback.OnError | app/src/main/java/com/upco/androidesportes/data/NewsBoundaryCallback.kt:116-119 | the state is that of Finish on failure |
| Paging.NewsBoundaryCallback.Deliver | app/src/main/java/com/upco/androidesportes/data/NewsBoundaryCallback.kt:102-119 | the gateway's outcome reaches exactly the continuation its normalisation selects |
| Repository.NewsRepository.constructor | app/src/main/java/com/upco/androidesportes/data/NewsRepository.kt:17-20 | builds one fresh controller over the cache, at page 1 and idle |
| Repository.NewsRepository.FetchNews | app/src/main/java/com/upco/androidesportes/data/NewsRepository.kt:28-41 | the paged view reads the cache with page size 10 and that one controller, whose error log is the error stream |
| Repository.NewsRepository.RefreshNews | app/src/main/java/com/upco/androidesportes/data/NewsRepository.kt:46-51 | exactly the controller's refresh |
| Repository.SharedController | app/src/main/java/com/upco/androidesportes/data/NewsRepository.kt:20 | two fetchNews results share one controller, which sees a refresh made between them |
| Adapter.ExtraRowCases | app/src/main/java/com/upco/androidesportes/ui/news/NewsAdapter.kt:111 | the extra row shows for LOADING and every error state, never for LOADED or no state |
| Adapter.ItemViewType | app/src/main/java/com/upco/androidesportes/ui/news/NewsAdapter.kt:72-79 | the network-state layout exactly at position itemCount-1 when the extra row shows, the news layout elsewhere |
| Adapter.StateRowTakesLastNewsPosition | app/src/main/java/com/upco/androidesportes/ui/news/NewsAdapter.kt:72-79 | since itemCount counts only news rows, the state row takes the last news row's position |
| Adapter.CreateViewHolder | app/src/main/java/com/upco/androidesportes/ui/news/NewsAdapter.kt:35-44 | the two layouts create their holders; any other view type is an IllegalArgumentException |
| Adapter.ReportedTypesAreCreatable | app/src/main/java/com/upco/androidesportes/ui/news/NewsAdapter.kt:35-79 | every view type the adapter reports can be created |
| Adapter.Notify | app/src/main/java/com/upco/androidesportes/ui/news/NewsAdapter.kt:86-102 | inserted at itemCount exactly when the extra row appears, removed exactly when it disappears, changed at itemCount-1 exactly when it stays and the state differs, nothing otherwise |
| Adapter.NotifyKeepsRowCount | app/src/main/java/com/upco/androidesportes/ui/news/NewsAdapter.kt:93-101 | the notification accounts for the change in displayed rows |
| Adapter.SameStateIsSilent | app/src/main/java/com/upco/androidesportes/ui/news/NewsAdapter.kt:99-101 | setting an equal state emits nothing |
| Adapter.ComparatorConsistent | app/src/main/java/com/upco/androidesportes/ui/news/NewsAdapter.kt:114-121 | equal contents imply the same item; and, as an example, one id with changed contents is the same item with different contents |
| Adapter.NewsAdapter.constructor | app/src/main/java/com/upco/androidesportes/ui/news/NewsAdapter.kt:24 | starts with no network state |
| Adapter.NewsAdapter.SetNetworkState | app/src/main/java/com/upco/androidesportes/ui/news/NewsAdapter.kt:86-102 | always stores the new state and emits exactly the notification Notify gives |
| Receiver.Latch | app/src/main/java/com/upco/androidesportes/ui/common/NetworkStateReceiver.kt:69-78 | a connected active network sets true, over the no-connectivity extra; else that extra sets false; else no change |
| Receiver.LatchKeepsKnown | app/src/main/java/com/upco/androidesportes/ui/common/NetworkStateReceiver.kt:69-78 | once known, the state never becomes unknown again |
| Receiver.Broadcast | app/src/main/java/com/upco/androidesportes/ui/common/NetworkStateReceiver.kt:118-144 | nobody is notified while the state is unknown; otherwise one call per listener, in registration order, available for true and unavailable for false |
| Receiver.BroadcastOnlyRegistered | app/src/main/java/com/upco/androidesportes/ui/common/NetworkStateReceiver.kt:118-125 | a broadcast reaches only registered listeners |
| Receiver.IndexOf | app/src/main/java/com/upco/androidesportes/ui/common/NetworkStateReceiver.kt:112 | the first position holding the listener, or -1 exactly when it is absent |
| Receiver.RemoveFirst | app/src/main/java/com/upco/androidesportes/ui/common/NetworkStateReceiver.kt:107-113 | nothing if absent; otherwise exactly the first occurrence is removed and the other listeners keep their order |
| Receiver.RemovedListenerNotNotified | app/src/main/java/com/upco/androidesportes/ui/common/NetworkStateReceiver.kt:107-125 | a listener registered once is not notified by broadcasts after its removal |
| Receiver.NetworkStateReceiver.constructor | app/src/main/java/com/upco/androidesportes/ui/common/NetworkStateReceiver.kt:29-32 | no listeners and unknown state |
| Receiver.NetworkStateReceiver.OnReceive | app/src/main/java/com/upco/androidesportes/ui/common/NetworkStateReceiver.kt:49-82 | a missing intent or extras changes nothing and notifies no one; otherwise the latch updates and everyone is notified |
| Receiver.NetworkStateReceiver.AddListener | app/src/main/java/com/upco/androidesportes/ui/common/NetworkStateReceiver.kt:90-99 | appends the listener and notifies just that one of the known state |
| Receiver.NetworkStateReceiver.RemoveListener | app/src/main/java/com/upco/androidesportes/ui/common/NetworkStateReceiver.kt:107-113 | removes the first occurrence and notifies no one |
| Receiver.NetworkStateReceiver.NotifyStateToAll | app/src/main/java/com/upco/androidesportes/ui/common/NetworkStateReceiver.kt:118-125 | the loop makes exactly the calls of Broadcast |
| Receiver.NetworkStateReceiver.NotifyState | app/src/main/java/com/upco/androidesportes/ui/common/NetworkStateReceiver.kt:133-144 | one call for a known state, none while unknown |
| Activity.DecideRefresh | app/src/main/java/com/upco/androidesportes/ui/news/NewsActivity.kt:282-321 | download exactly when WiFi is up or both networks are allowed and mobile is up; the WiFi-only message exactly when only mobile is up and not allowed; the no-network message exactly when neither is up |
| Activity.WifiAlwaysFetches | app/src/main/java/com/upco/androidesportes/ui/news/NewsActivity.kt:282-287 | WiFi downloads whatever the preference |
| Activity.InitialLoad | app/src/main/java/com/upco/androidesportes/ui/news/NewsActivity.kt:252-261 | the spinner, then the initial fetch, then the refresh policy; the refresh call comes after the fetch, and exactly when the policy allows |
| Activity.ScrollRunAlternates | app/src/main/java/com/upco/androidesportes/ui/news/NewsActivity.kt:169-186 | after any scrolls the flag says whether the last position is past 2, and the button is shown and hidden alternately, never twice in a row |
| Activity.FabScrollListener.constructor | app/src/main/java/com/upco/androidesportes/ui/news/NewsActivity.kt:142 | starts inactive |
| Activity.FabScrollListener.OnScrolled | app/src/main/java/com/upco/androidesportes/ui/news/NewsActivity.kt:152-187 | the flag becomes "position past 2", with a show only on activation and a hide only on deactivation |

## Left out

- I/O and threading: the single-thread executor, Retrofit's `enqueue` and the LiveData plumbing. Each callback is an explicit step, run to completion. Thread interleavings are not modelled.
- Library configuration: `Service.create` (Retrofit, OkHttp, Gson setup), Room's generated DAO code, the NewsDatabase singleton and the Injector wiring.
- Gson itself: the JSON text is not parsed. The decoder starts from a JSON tree. The model does not connect the decoder's `Err` to the gateway: in the program Retrofit hands a converter exception to `onFailure`, and here `HttpOutcome.TransportFailure` stands for that case with an arbitrary message.
- DateUtils.GetUtcFromTimestamp: reads exactly three fraction digits in a fixed 24-character layout. The source pattern's `SSSSSSSSS` field reads every digit up to 'Z' as a millisecond count, and SimpleDateFormat is lenient (out-of-range fields roll over; other widths are accepted). Only well-formed timestamps are modelled, with fields in range, read in UTC. The source parses them in the JVM's default zone, because its 'Z' is a quoted literal.
- DateUtils.GetUtcFromTimestamp: uses the proleptic Gregorian calendar for years 0 to 9999. SimpleDateFormat switches to the Julian calendar before 1582.
- DateUtils.GetFriendlyTimeString: counts elapsed time in integer seconds. The source converts to Float and floors, which loses precision for very long spans. The clock, the time zone and the string resources are parameters or tags.
- Paging.Finish: the cursor is an unbounded integer, so the increment after a successful fetch never wraps. Kotlin's Int wraps after 2^31 - 1 increments. Paging.Begin hands that cursor on unchanged.
- Paged list loading: which rows the paged list loads and when (initial load size, prefetch distance, when the boundary callback fires) is decided by the paging library. The model states only the page size handed to it.
- Dao.Query: where rows without a publication fall is SQLite's choice. The model puts them last, but its ordering claim covers only rows that have a publication.
- Paging.NewsBoundaryCallback.OnError: the error stream keeps every posted value. LiveData keeps only the latest value.
- Cache.LocalCache.Clear: LocalCache.kt does not define `clear`, but the controller calls it. The model takes it to mean "delete every row, then run the continuation".
- Not part of this model: the settings activity, and of NewsActivity everything but its refresh policy, its initial load and its scroll listener (the toolbar, the menu, the swipe layout's colours, the observers of the view model and the toasts); the view holders, the binding adapters, the FAB animations, NetworkUtils, PreferenceUtils and the view model.

## Notes

- The adapter does not override `getItemCount`, so `itemCount` is the number of news rows. The footer row therefore takes position `itemCount-1`, the last news row's slot, and the inserted and removed notifications name position `itemCount`. The model keeps this as written (Adapter.StateRowTakesLastNewsPosition).
- The decoder's `id != null` test can never fail: reading a missing id has already thrown. So the type filter is the only filter.
- `replace('T', ' ')` makes the parser accept a space separator as well as 'T'. One unit test labels a space-separated timestamp as invalid. That test still expects the exception, because the next call in it lacks the 'Z' and throws.
