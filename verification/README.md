# NewsFlow paged cache engine, in Dafny

This project models the paged cache engine of the NewsFlow Android news
reader and proves properties of it. The engine has these parts:

- **Article table and remote-key table.** These are the Room DAOs
  `ArticleDao` and `RemoteKeyDao`. Both are keyed by article url. Each is
  a class holding a `map`. `insertAll` is Room's REPLACE conflict strategy,
  specified by the left fold `Table.Upsert`. The two ordered queries are
  read-only methods that return a sorted view. They follow SQLite's
  ordering: integers compare numerically, TEXT compares character by
  character, and NULL sorts last under DESC.
- **`ArticleRemoteMediator`.** `initialize` and `load(loadType, state)` keep
  both tables in step with the page-numbered top-headlines feed. `LoadSpec`
  states what one load does to the result and to both tables. The class
  method `Load` is proved equal to it.
- **`SearchPagingSource`.** This is the network-only search pager. It
  covers page and key arithmetic, record filtering, the HTTP 426 soft end,
  and `getRefreshKey`.
- **Mappers.** `ArticleMapper` and `SourceMapper` convert and validate
  NewsAPI records (DTOs) into Room rows (entities) and into domain articles.
- **`NewsRepositoryImpl`** covers `setBookmark`, `getArticle` and the
  one-page `syncHeadlines`. **`SyncWorker.doWork`** decides the outcome of
  a sync run and whether to notify.
- **`SearchViewModel`** holds the saved query and the search trigger. Its
  result pipeline has three steps: debounce, length filter, and the
  empty-query short cut.
- **`ArticleDetailViewModel`** holds the Loading/Success/Error state
  machine and the bookmark toggle.
- **`safeApiCall`** classifies an HTTP call's outcome into a `NetworkResult`.

The news service is a function parameter. `fetch` maps a request to an
`ApiReply`: a response with a status code and an optional body, an I/O
failure, or any other exception. The clock is a parameter `now`.
Exceptions thrown by the database or by the notification helper are
boolean or `Option` parameters.

Where the code does something other than what one would expect of it, or
other than what its own comments say, the model follows the code:

- **Bookmarks are lost on re-fetch.** One would expect a bookmark to
  survive a re-insert of the same article. The code's REPLACE writes a
  fresh row with `isBookmarked = false`, so a sync or load that fetches a
  bookmarked article again clears its bookmark (`NewsRepository.SyncClearsBookmarks`,
  `Table.UpsertLastWins`).
- **PREPEND without a key row.** With no key row for the first item there
  is nothing before it to load, yet the code reports
  `Success(endOfPaginationReached = false)`
  (`ArticleRemoteMediator.PrependDecision`).
- **"Search now" does not bypass the debounce.** The comment at
  `SearchViewModel.kt:58` speaks of bypassing the debounce.
  `performSearchNow` assigns the trigger the value it already holds, so the
  trigger emits nothing new (`SearchViewModel.SearchViewModel.PerformSearchNow`).
- **Four attempts.** The "simple retry limit" at `SyncWorker.kt:52` retries
  after runs 0, 1 and 2 and fails at run 3, so a run that keeps throwing is
  attempted four times (`SyncWorker.ThrowingRunsStopAfterFourAttempts`).
  Also, `syncHeadlines` catches every failure itself. A retry therefore
  only follows a failure of the notification (`SyncWorker.RunAfterSync`).
- **The sync count is not a count of new articles.** `NewsRepository.kt:44`
  says `syncHeadlines` returns the number of *new* articles. The code
  returns the number of fetched records that carry url, title and
  publication time, new or not (`NewsRepository.SyncCount`,
  `NewsRepository.SyncRepeatReportsSameCount`).

## Model

| member | source | states |
|---|---|---|
| Table.UpsertKeys | app/src/main/java/com/compose/newsapp/data/local/db/dao/ArticleDao.kt:15-16 | after a REPLACE insert the keys are the old keys plus the batch's keys |
| Table.UpsertElsewhere | app/src/main/java/com/compose/newsapp/data/local/db/dao/ArticleDao.kt:15-16 | a key the batch does not mention keeps its row, or stays absent |
| Table.UpsertLastWins | app/src/main/java/com/compose/newsapp/data/local/db/dao/ArticleDao.kt:15-16 | a row that no later row of the batch replaces is stored whole, flag included, whatever was there before |
| Table.UpsertValueFromBatch | app/src/main/java/com/compose/newsapp/data/local/db/dao/ArticleDao.kt:15-16 | a key the batch mentions ends up holding one of the batch's rows with that key |
| Table.UpsertOverrides | app/src/main/java/com/compose/newsapp/data/local/db/dao/ArticleDao.kt:15-16 | for a key the batch mentions, the stored row does not depend on the table's previous contents |
| Table.UpsertIdempotent | app/src/main/java/com/compose/newsapp/data/local/db/dao/ArticleDao.kt:15-16 | inserting the same batch twice equals inserting it once |
| Table.UpsertContainsBatch | app/src/main/java/com/compose/newsapp/data/local/db/dao/RemoteKeyDao.kt:12-13 | every key of the batch is present afterwards |
| Table.UpsertGrows | app/src/main/java/com/compose/newsapp/data/local/db/dao/ArticleDao.kt:15-16 | no row is removed, so the row count never decreases |
| Table.UpsertKeyedBy | app/src/main/java/com/compose/newsapp/data/local/db/dao/ArticleDao.kt:15-16 | every row stays stored under its own primary key |
| ArticleOrder.LexLeTotal | app/src/main/java/com/compose/newsapp/data/local/db/dao/ArticleDao.kt:24 | TEXT comparison orders any two strings |
| ArticleOrder.LexLeTransitive | app/src/main/java/com/compose/newsapp/data/local/db/dao/ArticleDao.kt:24 | TEXT comparison is transitive |
| ArticleOrder.PrecedesTotal | app/src/main/java/com/compose/newsapp/data/local/db/dao/ArticleDao.kt:20-24 | both ORDER BY clauses compare any two rows |
| ArticleOrder.PrecedesTransitive | app/src/main/java/com/compose/newsapp/data/local/db/dao/ArticleDao.kt:20-24 | both ORDER BY clauses are transitive, NULL publishedAt last |
| ArticleOrder.InsertSorted | app/src/main/java/com/compose/newsapp/data/local/db/dao/ArticleDao.kt:20-24 | placing a row into a sorted view keeps it sorted and adds exactly that row |
| ArticleDao.SetBookmarkTouchesOnlyTheFlag | app/src/main/java/com/compose/newsapp/data/local/db/dao/ArticleDao.kt:32-33 | the update changes only row u's flag, sets it to b, and does nothing when u is absent |
| ArticleDao.SetBookmarkIdempotent | app/src/main/java/com/compose/newsapp/data/local/db/dao/ArticleDao.kt:32-33 | setting the same flag twice equals setting it once |
| ArticleDao.SetBookmarkKeyedBy | app/src/main/java/com/compose/newsapp/data/local/db/dao/ArticleDao.kt:32-33 | the update keeps rows under their own url |
| ArticleDao.ArticleDao.InsertAll | app/src/main/java/com/compose/newsapp/data/local/db/dao/ArticleDao.kt:15-16 | the table becomes the REPLACE fold of the batch over the old table |
| ArticleDao.ArticleDao.GetArticlesPagingSource | app/src/main/java/com/compose/newsapp/data/local/db/dao/ArticleDao.kt:20-21 | every row exactly once and nothing else, by insertedTimestamp descending |
| ArticleDao.ArticleDao.GetBookmarkedArticles | app/src/main/java/com/compose/newsapp/data/local/db/dao/ArticleDao.kt:24-29 | exactly the bookmarked rows, each once, by publishedAt descending with NULL last |
| ArticleDao.ArticleDao.SetBookmarkStatus | app/src/main/java/com/compose/newsapp/data/local/db/dao/ArticleDao.kt:32-33 | the table becomes the flag update of the old table |
| ArticleDao.ArticleDao.GetArticleByUrl | app/src/main/java/com/compose/newsapp/data/local/db/dao/ArticleDao.kt:36-37 | the row stored under the url, or null when there is none |
| ArticleDao.ArticleDao.ClearAllArticles | app/src/main/java/com/compose/newsapp/data/local/db/dao/ArticleDao.kt:40-41 | the table is empty afterwards |
| ArticleDao.ArticleDao.CountArticles | app/src/main/java/com/compose/newsapp/data/local/db/dao/ArticleDao.kt:44-45 | the number of rows, 0 exactly when the table is empty |
| RemoteKeyDao.InsertThenLookup | app/src/main/java/com/compose/newsapp/data/local/db/dao/RemoteKeyDao.kt:12-16 | looking up an inserted key's url gives that key back unless a later key of the batch replaced it |
| RemoteKeyDao.InsertKeepsOtherLookups | app/src/main/java/com/compose/newsapp/data/local/db/dao/RemoteKeyDao.kt:12-16 | inserting keys leaves the lookup of every other url unchanged |
| RemoteKeyDao.RemoteKeyDao.InsertAll | app/src/main/java/com/compose/newsapp/data/local/db/dao/RemoteKeyDao.kt:12-13 | the table becomes the REPLACE fold of the keys over the old table |
| RemoteKeyDao.RemoteKeyDao.GetRemoteKeyByArticleUrl | app/src/main/java/com/compose/newsapp/data/local/db/dao/RemoteKeyDao.kt:15-16 | the key stored for the url, with that url, or null when absent |
| RemoteKeyDao.RemoteKeyDao.ClearRemoteKeys | app/src/main/java/com/compose/newsapp/data/local/db/dao/RemoteKeyDao.kt:18-19 | afterwards every lookup returns null |
| SourceMapper.DtoToDomainSource | app/src/main/java/com/compose/newsapp/data/mapper/SourceMapper.kt:8-13 | keeps the id (null for a null record); the name is the record's name, or "Unknown Source" for a null record or a null name |
| SourceMapper.ToEntitySourceEmbeddable | app/src/main/java/com/compose/newsapp/data/mapper/SourceMapper.kt:16-21 | copies id and name exactly |
| SourceMapper.EmbeddableToDomainSource | app/src/main/java/com/compose/newsapp/data/mapper/SourceMapper.kt:24-27 | keeps the id and defaults a null name or a null source to "Unknown Source" |
| SourceMapper.EmbeddableRoundTrip | app/src/main/java/com/compose/newsapp/data/mapper/SourceMapper.kt:16-27 | storing a source and reading it back gives the same source |
| SourceMapper.StoredSourceAgreesWithDirect | app/src/main/java/com/compose/newsapp/data/mapper/ArticleMapper.kt:17 | a record's source read back from the row equals the source mapped directly |
| ArticleMapper.ToArticleEntity | app/src/main/java/com/compose/newsapp/data/mapper/ArticleMapper.kt:9-27 | null exactly when url, title or publishedAt is null; otherwise copies url, title, publishedAt, author, description, urlToImage and content, stores the source through the domain mapping (null for a null source), not bookmarked, stamped with the clock |
| ArticleMapper.ToDomainArticle | app/src/main/java/com/compose/newsapp/data/mapper/ArticleMapper.kt:30-43 | id and url are the row's url, title defaults to "No Title", publishedAt to "", source read back with its "Unknown Source" default, author, description, urlToImage, content and flag carried over |
| ArticleMapper.ToDomainArticleList | app/src/main/java/com/compose/newsapp/data/mapper/ArticleMapper.kt:46-48 | same length, and each position is the mapped row at that position |
| ArticleMapper.ToSimpleDomainArticle | app/src/main/java/com/compose/newsapp/data/mapper/ArticleMapper.kt:51-69 | null exactly when a mandatory field is missing; otherwise id and url are the record's url, title and publishedAt its values, source mapped with its "Unknown Source" default, author, description, urlToImage and content copied, not bookmarked |
| ArticleMapper.EntityPathAgreesWithDirectPath | app/src/main/java/com/compose/newsapp/data/mapper/ArticleMapper.kt:9-69 | record to row to article equals record to article, null included |
| ArticleMapper.ValidEntities | app/src/main/java/com/compose/newsapp/data/paging/ArticleRemoteMediator.kt:93 | the rows are exactly the mapped valid records, none bookmarked, all stamped with the clock, empty exactly when no record is valid |
| ArticleMapper.ValidDtos | app/src/main/java/com/compose/newsapp/data/paging/SearchPagingSource.kt:56-57 | exactly the records with url, title and publishedAt |
| ArticleMapper.ValidDtosAppend | app/src/main/java/com/compose/newsapp/data/paging/SearchPagingSource.kt:56-57 | the filter keeps input order: it distributes over concatenation |
| ArticleMapper.ValidDtosSingle | app/src/main/java/com/compose/newsapp/data/paging/SearchPagingSource.kt:57 | one record passes exactly when it has its mandatory fields |
| ArticleMapper.ValidEntitiesCount | app/src/main/java/com/compose/newsapp/data/repository/NewsRepositoryImpl.kt:126 | one row per record that passes the filter |
| ArticleMapper.SimpleArticlesOfValid | app/src/main/java/com/compose/newsapp/data/paging/SearchPagingSource.kt:58-64 | on valid records the null-dropping map drops nothing and keeps order |
| ArticleMapper.FilterIsRedundant | app/src/main/java/com/compose/newsapp/data/paging/SearchPagingSource.kt:56-64 | filtering before the null-dropping map changes nothing |
| ArticleMapper.CachedPageAgreesWithSearchPage | app/src/main/java/com/compose/newsapp/data/mapper/ArticleMapper.kt:9-69 | the cached path and the search path give the same article list for one page |
| ArticleRemoteMediator.FirstLoadedItemIsFirstOfWindow | app/src/main/java/com/compose/newsapp/data/paging/ArticleRemoteMediator.kt:144-150 | the item PREPEND starts from is the first item of the whole window |
| ArticleRemoteMediator.LastLoadedItemIsLastOfWindow | app/src/main/java/com/compose/newsapp/data/paging/ArticleRemoteMediator.kt:136-142 | the item APPEND starts from is the last item of the whole window |
| ArticleRemoteMediator.ClosestItemToPosition | app/src/main/java/com/compose/newsapp/data/paging/ArticleRemoteMediator.kt:152-158 | an item exists exactly when the window holds items, and it is one of them |
| ArticleRemoteMediator.KeysForIds | app/src/main/java/com/compose/newsapp/data/paging/ArticleRemoteMediator.kt:111-113 | the key rows of a batch cover exactly the urls of its entities |
| ArticleRemoteMediator.RefreshRequestsFirstPage | app/src/main/java/com/compose/newsapp/data/paging/ArticleRemoteMediator.kt:44-51 | REFRESH fetches page 1 whatever the window and anchor |
| ArticleRemoteMediator.PrependDecision | app/src/main/java/com/compose/newsapp/data/paging/ArticleRemoteMediator.kt:52-58 | no key row gives Success(false), a null prevKey gives Success(true), otherwise page prevKey |
| ArticleRemoteMediator.AppendDecision | app/src/main/java/com/compose/newsapp/data/paging/ArticleRemoteMediator.kt:60-71 | a missing key row or null nextKey gives Success(true), otherwise page nextKey |
| ArticleRemoteMediator.FinishedLoadFetchesNothing | app/src/main/java/com/compose/newsapp/data/paging/ArticleRemoteMediator.kt:52-71 | an early end is independent of the server and changes neither table |
| ArticleRemoteMediator.FailedLoadChangesNothing | app/src/main/java/com/compose/newsapp/data/paging/ArticleRemoteMediator.kt:77-132 | Error exactly when the request fails, and then both tables are unchanged |
| ArticleRemoteMediator.CommitKeysShared | app/src/main/java/com/compose/newsapp/data/paging/ArticleRemoteMediator.kt:90-117 | every entity of a load is stored with a key row carrying the batch's prevKey and nextKey |
| ArticleRemoteMediator.RefreshReplacesTables | app/src/main/java/com/compose/newsapp/data/paging/ArticleRemoteMediator.kt:98-119 | after REFRESH both tables hold exactly the fetched valid batch |
| ArticleRemoteMediator.ContinuationKeepsOtherRows | app/src/main/java/com/compose/newsapp/data/paging/ArticleRemoteMediator.kt:98-119 | PREPEND and APPEND leave rows outside the batch unchanged in both tables |
| ArticleRemoteMediator.LoadPreservesInvariant | app/src/main/java/com/compose/newsapp/data/paging/ArticleRemoteMediator.kt:98-119 | every load keeps key rows within article rows and both tables keyed |
| ArticleRemoteMediator.RefreshIdempotent | app/src/main/java/com/compose/newsapp/data/paging/ArticleRemoteMediator.kt:98-121 | two REFRESH loads against an unchanged server equal one |
| ArticleRemoteMediator.EndOfPaginationIsSticky | app/src/main/java/com/compose/newsapp/data/paging/ArticleRemoteMediator.kt:89-121 | repeating a load that reported the end reports the end again |
| ArticleRemoteMediator.InvalidOnlyPageStalls | app/src/main/java/com/compose/newsapp/data/paging/ArticleRemoteMediator.kt:90-93 | a page of only invalid records reports Success(false) and writes nothing |
| ArticleRemoteMediator.ArticleRemoteMediator.constructor | app/src/main/java/com/compose/newsapp/data/paging/ArticleRemoteMediator.kt:19-27 | holds the two DAOs, the country and the category |
| ArticleRemoteMediator.ArticleRemoteMediator.Initialize | app/src/main/java/com/compose/newsapp/data/paging/ArticleRemoteMediator.kt:29-38 | LAUNCH_INITIAL_REFRESH exactly when the article table is empty |
| ArticleRemoteMediator.ArticleRemoteMediator.GetRemoteKeyForLastItem | app/src/main/java/com/compose/newsapp/data/paging/ArticleRemoteMediator.kt:136-142 | the key row of the window's last item, if any |
| ArticleRemoteMediator.ArticleRemoteMediator.GetRemoteKeyForFirstItem | app/src/main/java/com/compose/newsapp/data/paging/ArticleRemoteMediator.kt:144-150 | the key row of the window's first item, if any |
| ArticleRemoteMediator.ArticleRemoteMediator.GetRemoteKeyClosestToCurrentPosition | app/src/main/java/com/compose/newsapp/data/paging/ArticleRemoteMediator.kt:152-159 | null without an anchor; otherwise the key row of a window item near the anchor |
| ArticleRemoteMediator.ArticleRemoteMediator.Load | app/src/main/java/com/compose/newsapp/data/paging/ArticleRemoteMediator.kt:40-133 | result and both tables equal the load specification; the tables stay keyed |
| SearchPagingSource.RequestFor | app/src/main/java/com/compose/newsapp/data/paging/SearchPagingSource.kt:34-46 | the requested page is the key, or 1 without a key, with the load size |
| SearchPagingSource.Load | app/src/main/java/com/compose/newsapp/data/paging/SearchPagingSource.kt:33-113 | 426 gives an empty page with null keys and other failures give Error; on success the data are the valid records in order, and the keys follow the prev/next rules |
| SearchPagingSource.PageKeepsValidRecordsInOrder | app/src/main/java/com/compose/newsapp/data/paging/SearchPagingSource.kt:56-64 | records before and after a record keep their order in the page |
| SearchPagingSource.SearchPageAgreesWithCachedPage | app/src/main/java/com/compose/newsapp/data/paging/SearchPagingSource.kt:56-64 | the search page equals what the cached feed shows for the same records |
| SearchPagingSource.NextThenPrevRoundTrip | app/src/main/java/com/compose/newsapp/data/paging/SearchPagingSource.kt:72-79 | following nextKey reaches a page whose prevKey leads back |
| SearchPagingSource.ClosestPageToPosition | app/src/main/java/com/compose/newsapp/data/paging/SearchPagingSource.kt:28 | null exactly when no loaded page holds an item; otherwise a loaded page: the first page for an anchor before the window, the last page (empty or not) for an anchor past it, and a non-empty page for an anchor inside it |
| SearchPagingSource.GetRefreshKey | app/src/main/java/com/compose/newsapp/data/paging/SearchPagingSource.kt:19-31 | null without an anchor; otherwise a loaded page's prevKey + 1 or nextKey - 1 |
| SearchPagingSource.RefreshKeyFromEmptyLastPage | app/src/main/java/com/compose/newsapp/data/paging/SearchPagingSource.kt:27-29 | an anchor past the window takes its key from the empty last page, not from the last non-empty one |
| SearchPagingSource.LoadServesRequestedPage | app/src/main/java/com/compose/newsapp/data/paging/SearchPagingSource.kt:72-85 | a non-empty page carries the keys of the page it was loaded for |
| SearchPagingSource.RefreshKeyReloadsAnchorPage | app/src/main/java/com/compose/newsapp/data/paging/SearchPagingSource.kt:19-31 | a refresh reloads the page number of the page under the anchor |
| NewsRepository.SyncRequest | app/src/main/java/com/compose/newsapp/data/repository/NewsRepositoryImpl.kt:117-122 | the sync asks for page 1 with page size 20 |
| NewsRepository.SyncCount | app/src/main/java/com/compose/newsapp/data/repository/NewsRepositoryImpl.kt:124-139 | the count is the number of valid records, at most the records received, positive exactly when one is valid, and 0 on failure |
| NewsRepository.SyncWithoutValidRecordsWritesNothing | app/src/main/java/com/compose/newsapp/data/repository/NewsRepositoryImpl.kt:124-157 | a failure or a reply without valid records returns 0 and writes nothing |
| NewsRepository.SyncClearsBookmarks | app/src/main/java/com/compose/newsapp/data/repository/NewsRepositoryImpl.kt:126-131 | a fetched article is stored fresh: not bookmarked, stamped with the clock |
| NewsRepository.SyncKeepsOtherRows | app/src/main/java/com/compose/newsapp/data/repository/NewsRepositoryImpl.kt:129-131 | rows the reply does not mention are unchanged |
| NewsRepository.SyncRepeatReportsSameCount | app/src/main/java/com/compose/newsapp/data/repository/NewsRepositoryImpl.kt:132-138 | a repeated sync reports the same count and leaves the same table, so the count is not a novelty count |
| NewsRepository.SyncKeepsKeysWithinArticles | app/src/main/java/com/compose/newsapp/data/repository/NewsRepositoryImpl.kt:129-131 | the sync deletes no article row, so key rows stay within article rows |
| NewsRepository.BookmarkThenRead | app/src/main/java/com/compose/newsapp/data/repository/NewsRepositoryImpl.kt:103-110 | reading back after setBookmark shows the new flag, everything else unchanged |
| NewsRepository.NewsRepositoryImpl.SetBookmark | app/src/main/java/com/compose/newsapp/data/repository/NewsRepositoryImpl.kt:103-110 | the table becomes the flag update of the old table |
| NewsRepository.NewsRepositoryImpl.SyncHeadlines | app/src/main/java/com/compose/newsapp/data/repository/NewsRepositoryImpl.kt:112-158 | count and table equal the sync specification on the reply to the page-1 request, and it never fails |
| NewsRepository.NewsRepositoryImpl.GetArticle | app/src/main/java/com/compose/newsapp/data/repository/NewsRepositoryImpl.kt:160-164 | the stored row mapped to the domain, with id and url equal to the url, or null |
| SyncWorker.NatToString | app/src/main/java/com/compose/newsapp/data/worker/SyncWorker.kt:41 | the count's decimal digits, non-empty, without leading zeros |
| SyncWorker.NatToStringRoundTrip | app/src/main/java/com/compose/newsapp/data/worker/SyncWorker.kt:41 | the digits read back as the count |
| SyncWorker.PositiveCountNotifiesOnce | app/src/main/java/com/compose/newsapp/data/worker/SyncWorker.kt:37-47 | a positive count requests one "NewsFlow Updates" notification, "Found N new headlines!", and succeeds |
| SyncWorker.NoCountNoNotification | app/src/main/java/com/compose/newsapp/data/worker/SyncWorker.kt:43-47 | a count of 0 or less succeeds without a notification |
| SyncWorker.SuccessOnlyWithoutException | app/src/main/java/com/compose/newsapp/data/worker/SyncWorker.kt:27-57 | success exactly when nothing threw; a successful run notifies exactly when the count is positive |
| SyncWorker.RetryBudget | app/src/main/java/com/compose/newsapp/data/worker/SyncWorker.kt:49-57 | a run that threw retries when runAttemptCount < 3, fails otherwise, and notifies nothing |
| SyncWorker.ThrowingRunsStopAfterFourAttempts | app/src/main/java/com/compose/newsapp/data/worker/SyncWorker.kt:52-56 | runs 0, 1 and 2 retry and run 3 fails |
| SyncWorker.RunAfterSync | app/src/main/java/com/compose/newsapp/data/worker/SyncWorker.kt:35-47 | after the repository's sync a run succeeds unless the notification throws, and notifies exactly when a valid record came back |
| SearchViewModel.DebounceKeepsQuietValues | app/src/main/java/com/compose/newsapp/presentation/search/SearchViewModel.kt:36 | exactly the values with no newer value within 500 ms, and the latest, pass the debounce |
| SearchViewModel.DebounceKeepsLatest | app/src/main/java/com/compose/newsapp/presentation/search/SearchViewModel.kt:36 | the latest value always passes, last |
| SearchViewModel.BurstCollapses | app/src/main/java/com/compose/newsapp/presentation/search/SearchViewModel.kt:36 | a burst of closely spaced values collapses into its latest value |
| SearchViewModel.FilterQueriesPass | app/src/main/java/com/compose/newsapp/presentation/search/SearchViewModel.kt:37 | a query gets through the filter exactly when it is longer than 2 UTF-16 units or empty |
| SearchViewModel.SelectAllActions | app/src/main/java/com/compose/newsapp/presentation/search/SearchViewModel.kt:38-46 | one action per query that got through, in order |
| SearchViewModel.FilterQueriesSnoc | app/src/main/java/com/compose/newsapp/presentation/search/SearchViewModel.kt:37 | the filter keeps order: a value appended after the others comes out last when it passes |
| SearchViewModel.PipelineSearchesOnlyQuietLongQueries | app/src/main/java/com/compose/newsapp/presentation/search/SearchViewModel.kt:35-46 | every action comes from a quiet trigger value that passed the filter; searches use "relevancy" and queries longer than 2 UTF-16 units |
| SearchViewModel.LatestQueryIsActedOn | app/src/main/java/com/compose/newsapp/presentation/search/SearchViewModel.kt:35-46 | the value the trigger settles on is acted on last when it passes the filter |
| SearchViewModel.TypingBurstSearchesOnce | app/src/main/java/com/compose/newsapp/presentation/search/SearchViewModel.kt:35-46 | typing "k", "ko", "kot" quickly starts exactly one search, for "kot" |
| SearchViewModel.ShortQueryIgnored | app/src/main/java/com/compose/newsapp/presentation/search/SearchViewModel.kt:37 | a two-character query starts no search |
| SearchViewModel.Utf16Length | app/src/main/java/com/compose/newsapp/presentation/search/SearchViewModel.kt:37 | Kotlin's length: between one and two units per character, one each when no character lies beyond U+FFFF |
| SearchViewModel.EmojiQuerySearched | app/src/main/java/com/compose/newsapp/presentation/search/SearchViewModel.kt:37 | a letter plus an emoji, two characters but three UTF-16 units, is searched |
| SearchViewModel.SearchViewModel.constructor | app/src/main/java/com/compose/newsapp/presentation/search/SearchViewModel.kt:30-33 | the trigger starts at the restored saved query |
| SearchViewModel.SearchViewModel.SetTrigger | app/src/main/java/com/compose/newsapp/presentation/search/SearchViewModel.kt:53 | the trigger takes the value and emits only when it changes |
| SearchViewModel.SearchViewModel.OnQueryChanged | app/src/main/java/com/compose/newsapp/presentation/search/SearchViewModel.kt:49-54 | saved query and trigger both become the query |
| SearchViewModel.SearchViewModel.PerformSearchNow | app/src/main/java/com/compose/newsapp/presentation/search/SearchViewModel.kt:57-61 | nothing changes and nothing is emitted |
| SearchViewModel.SearchViewModel.ToggleBookmark | app/src/main/java/com/compose/newsapp/presentation/search/SearchViewModel.kt:63-73 | the flag of the article's id is set to the opposite of the shown flag |
| ArticleDetailViewModel.Resolve | app/src/main/java/com/compose/newsapp/presentation/detail/ArticleDetailViewModel.kt:44-55 | never Loading; Success exactly when nothing threw and the article was found, holding that article |
| ArticleDetailViewModel.ResolveErrors | app/src/main/java/com/compose/newsapp/presentation/detail/ArticleDetailViewModel.kt:46-54 | "Article not found" for a missing row; the exception's message, or "Failed to load article" |
| ArticleDetailViewModel.ToggleFlipsShownFlag | app/src/main/java/com/compose/newsapp/presentation/detail/ArticleDetailViewModel.kt:61-66 | toggling and reloading shows the same article with the flag flipped |
| ArticleDetailViewModel.ToggleTwiceRestoresRow | app/src/main/java/com/compose/newsapp/presentation/detail/ArticleDetailViewModel.kt:58-66 | two toggles put the row back as it was |
| ArticleDetailViewModel.ArticleDetailViewModel.constructor | app/src/main/java/com/compose/newsapp/presentation/detail/ArticleDetailViewModel.kt:31-39 | starts at Loading and resolves the first load |
| ArticleDetailViewModel.ArticleDetailViewModel.SetState | app/src/main/java/com/compose/newsapp/presentation/detail/ArticleDetailViewModel.kt:34 | the state takes the value, recorded only when it changes |
| ArticleDetailViewModel.ArticleDetailViewModel.LoadArticleDetails | app/src/main/java/com/compose/newsapp/presentation/detail/ArticleDetailViewModel.kt:41-56 | Loading first, then the resolved outcome of looking up the url |
| ArticleDetailViewModel.ArticleDetailViewModel.ToggleBookmark | app/src/main/java/com/compose/newsapp/presentation/detail/ArticleDetailViewModel.kt:58-73 | nothing unless Success; then the flag is flipped for the article's id and the article reloaded |
| ArticleDetailViewModel.Create | app/src/main/java/com/compose/newsapp/presentation/detail/ArticleDetailViewModel.kt:31-32 | no view model exactly when the "articleUrl" argument is missing |
| NetworkResult.SafeApiCall | app/src/main/java/com/compose/newsapp/core/network/NetworkResult.kt:12-36 | never Loading; Success exactly for a 2xx response with a body; an Error's code is null exactly when the call threw |
| NetworkResult.ErrorMessages | app/src/main/java/com/compose/newsapp/core/network/NetworkResult.kt:22-35 | the null-body message, "message - errorBody or Unknown error", and the exception message or the default |
| NetworkResult.ClassificationIgnoresMessages | app/src/main/java/com/compose/newsapp/core/network/NetworkResult.kt:17-31 | the classification and code depend only on the status code and the body |

## Left out

- Pager wiring (`getTopHeadlines`, `searchArticles`, `getBookmarkedArticles` in `NewsRepositoryImpl.kt`) is left out. It is Paging library plumbing: the model covers the mediator, the queries and the mappers it connects.
- `getBookmarkedArticlesFlow` runs the same query as `getBookmarkedArticlesPagingSource`. `ArticleDao.ArticleDao.GetBookmarkedArticles` models both. Flow delivery is left out.
- Paging library internals are left out: `cachedIn`, `flatMapLatest` cancellation, PagingData diffing and prefetch. The model covers the values they carry, not their scheduling.
- ArticleRemoteMediator.ClosestItemToPosition: models a window without placeholders. Both pagers set `enablePlaceholders = false`.
- SearchPagingSource.ClosestPageToPosition: models a window without placeholders, for the same reason. It follows the Paging library's published `closestPageToPosition`, which is not part of this model's sources.
- Room transactions are taken as atomic. A database failure inside a transaction is not modelled: the model's commit always succeeds. In the mediator such a failure is rolled back and caught into `Error`. In `syncHeadlines` it is caught and the count is returned, 0 unless the failure came after the count was assigned.
- ArticleMapper.ToArticleEntity: takes one clock reading `now` for a whole batch. The code reads `System.currentTimeMillis()` per row, so rows of one batch may differ by a few milliseconds.
- SearchPagingSource.Load: computes `page * loadSize` and `page + 1` on unbounded integers. The code uses 32-bit `Int`. `page * params.loadSize` wraps once the page exceeds 2^31 / loadSize: about 1.07·10^8 at a load size of 20, about 3.6·10^7 at Paging's default initial load of 60. That is far beyond any page the service serves.
- The notification helper is reduced to the list of notifications the worker requests, because it is Android notification API. The helper drops a request silently when the notification permission is not granted. The worker's coroutine dispatcher and WorkManager scheduling are left out for the same reason. The worker syncs with the use case's defaults, country "us" and no category.
- `errorMessagePrefix` of `safeApiCall` is left out: only logging uses it. All `Logger` calls are left out.
- SearchViewModel.Debounce: works on a finite run of timestamped emissions. A value followed by the next one exactly 500 ms later counts as passed on.
- StateFlow conflation is left out. A collector may miss intermediate UI states. `trace` records every change of state.
- ArticleDetailViewModel.ArticleDetailViewModel.ToggleBookmark: each launched coroutine runs to completion before the next call. Interleavings of overlapping launches are not modelled.
- SearchViewModel.SearchViewModel.ToggleBookmark: assumes the update succeeds. The code does not catch a failure there.
- ArticleDao.ArticleDao.GetArticlesPagingSource: rows with equal sort keys may come in any order, as SQLite leaves their order unspecified.
- Settings, theme, dependency injection, Gson converters, fragments, adapters and `MainActivity` are left out. They are outside the paged cache engine.
