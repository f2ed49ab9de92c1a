# telegram-to-rss: the synchronisation and rendering core in Dafny

telegram-to-rss mirrors the Telegram dialogs of one account into a local database and republishes
each dialog as an RSS 2.0 feed. This project models the core of that cycle and proves properties
of it:

- **Reconciliation** (`TelegramPoller.fetch_dialogs`). The remote dialog listing is compared with
  the stored feeds and split into feeds to delete, dialogs to create and dialogs to update.
- **Ingestion** (`_process_new_dialog_messages`, `_download_media`). A batch of messages becomes
  feed entries:
  - messages sharing a grouped id merge into one entry that keeps the first longest text;
  - each photo or document appends one media slot, holding the file name, `"FAIL"` or
    `"TOO_LARGE"`;
  - an exception before a message is admitted skips that message only; one raised by reading
    its document after admission keeps the admission and the photo slot.
- **Persistence** (`bulk_delete_feeds`, `create_feed`, `update_feed`, `update_feeds_in_db`,
  `reset_feeds_in_db`). Each create or update is one `@atomic` transaction.
  - The update resumes after the message id of the newest stored entry.
  - It then deletes the entries the window query returns: positions `[limit, 2 * limit)` in date
    order.
  - The first exception ends the cycle. Transactions committed before it stay committed.
- **Rendering** (`clean_title`, `generate_feed`, `update_feeds_cache`). Each stored feed becomes a
  channel with one item per entry: a title, a description with media widgets and notices, and a
  link. Feeds are rendered in turn until one fails.
- **Scheduling** (`update_rss` in `server.py`). Each run updates the store, renders, then sleeps.
  The exception that ends a run decides the rest:
  - whether the store is reset;
  - whether a next run is created;
  - with what delay: none after success, 5 seconds after a lost connection, 2 seconds after any
    other error, and no next run after a cancellation.

The modules follow the program's layers:

| module | file | source |
|---|---|---|
| `Wrappers` | `wrappers.dfy` | `Option` and `Result` |
| `Seqs` | `seqs.dfy` | sequence facts the folds share |
| `Text` | `text.dfy` | the Python string built-ins the core uses: `str(int)`, `int(str)`, `split("--")`, `strip`, `replace`, `startswith` |
| `EntryIds` | `entry_ids.dfy` | entry ids and media file names |
| `Reconcile` | `reconcile.dfy` | `fetch_dialogs` |
| `Ingest` | `ingest.dfy` | message ingestion |
| `Store` | `store.dfy` | the per-feed transactions and the cycle, as functions on the feeds table |
| `Poller` | `poller.dfy` | class `TelegramPoller`, whose methods change the table, each proved equal to its `Store` function |
| `Render` | `render.dfy` | titles, descriptions, documents, and the rendering loops as methods |
| `Scheduler` | `scheduler.dfy` | the run, the recovery policy, and class `RssService` holding the created tasks |

The outside world enters as values:

- The Telegram listing, message fetches and download outcomes are oracles in `Store.Remote`.
- `telethon_dialog_id_to_tg_id_or_username` and `mimetypes.guess_type` are functions in
  `Render.Site`.
- Cancellation and connection loss are `Scheduler.Interruption` values.
- The clock is the `now` field of `Store.Remote`.

Some behaviours of the code are easy to misread; the model follows the code:

- **Retention.** The window query (`.limit(L).offset(L)`, poll_telegram.py:120-129) returns only
  the date-descending positions `[L, 2L)`, and only those are deleted. Entries past `2L` survive.
  `Store.RetentionBound` proves that a feed ends with at most `L` entries exactly when it had at
  most `2L`.
- **No retention on create.** `create_feed` (poll_telegram.py:62-76) runs no retention at all. A
  new feed keeps every entry its first batch yields.
- **Older messages are not dropped.** The loop at poll_telegram.py:100-110 only logs messages
  without a date or older than the newest entry. Its `continue` skips nothing but the log line,
  and the whole batch is then ingested.
- **Sequential transactions.** Creates and updates run one after another, and the first
  exception propagates out of `update_feeds_in_db` and skips the remaining dialogs
  (poll_telegram.py:266-282).
- **The name is not refreshed.** `update_feed` saves the feed without assigning its name
  (poll_telegram.py:118). An updated feed keeps the name it was created with; only `last_update`
  changes.
- **Raises after admission.** Lines 170 and 172 read the document's MIME type and size after the
  message was admitted and its photo downloaded. When either raises, the handler at lines
  178-180 keeps the admission and the photo slot.

## Model

| member | source | states |
|---|---|---|
| Text.IntToStringRoundTrip | telegram_to_rss/poll_telegram.py:233-239 | `int(str(i)) == i` for every integer, negative ones included |
| Text.IntToStringShape | telegram_to_rss/poll_telegram.py:233-234 | a formatted integer is non-empty, starts with a digit or '-', ends with a digit and holds no "--" |
| Text.SplitAtJoint | telegram_to_rss/poll_telegram.py:238 | `split("--")` of `a + "--" + b` cuts at the joint when `a` holds no "--" and does not end in '-' |
| Text.SplitWithoutSeparator | telegram_to_rss/poll_telegram.py:238 | a string without "--" splits into itself alone |
| Text.Strip | telegram_to_rss/generate_feed.py:17 | the result is a slice of the input with only whitespace outside it, and it neither starts nor ends with whitespace |
| Text.ReplaceNewlinesShape | telegram_to_rss/generate_feed.py:105 | replacing newlines by a newline-free text leaves no newline and changes the length by the newline count times the size difference |
| EntryIds.EntryIdRoundTrip | telegram_to_rss/poll_telegram.py:233-239 | `parse_feed_entry_id(to_feed_entry_id(f, m)) == (f, m)` for every feed id and message id |
| EntryIds.EntryIdInjective | telegram_to_rss/poll_telegram.py:233-234 | distinct (feed, message) pairs get distinct entry ids |
| EntryIds.ToFeedEntryId | telegram_to_rss/poll_telegram.py:233-234 | defines the entry id `"{feed}--{msg}"` (no contract; see EntryIdRoundTrip) |
| EntryIds.ParseFeedEntryId | telegram_to_rss/poll_telegram.py:237-239 | defines the split into exactly two pieces and their `int` parses (no contract; see the three lemmas below) |
| EntryIds.ParseTwoPieces | telegram_to_rss/poll_telegram.py:237-239 | an id joined from two "--"-free pieces parses exactly when both pieces parse as integers, and then yields them |
| EntryIds.ParseRejectsMissingSeparator | telegram_to_rss/poll_telegram.py:238 | an id without "--" is rejected: the unpacking into two names fails |
| EntryIds.ParseRejectsThreePieces | telegram_to_rss/poll_telegram.py:238 | an entry id with a third "--" piece is rejected |
| EntryIds.MediaNameIsNotMarker | telegram_to_rss/poll_telegram.py:199-202 | a media file name is never "FAIL" and never starts with "TOO_LARGE" |
| Reconcile.FetchDialogs | telegram_to_rss/poll_telegram.py:35-53 | defines the three lists (no contract of its own; see FetchDialogsPartition) |
| Reconcile.Select | telegram_to_rss/poll_telegram.py:46-51 | the selection holds exactly the listed dialogs whose id was asked for |
| Reconcile.SelectIds | telegram_to_rss/poll_telegram.py:46-51 | the ids of a selection are the listed ids intersected with the requested ones |
| Reconcile.FetchDialogsPartition | telegram_to_rss/poll_telegram.py:35-53 | delete = local − remote, create = remote − local, update = local ∩ remote; pairwise disjoint; together they cover both sides |
| Reconcile.SelectSplitsListing | telegram_to_rss/poll_telegram.py:46-51 | every listed dialog lands in exactly one of the create and update lists |
| Reconcile.SelectKeepsOrder | telegram_to_rss/poll_telegram.py:46-51 | selection keeps the listing order |
| Reconcile.FetchDialogsExample | telegram_to_rss/poll_telegram.py:35-53 | remote {1,2,3} against local {2,3,4}: delete {4}, create [1], update [2,3] |
| Ingest.Acquire | telegram_to_rss/poll_telegram.py:197-230 | defines the slot one download appends, as intended: the file name or "FAIL" |
| Ingest.AcquireAsWritten | telegram_to_rss/poll_telegram.py:214-215 | defines the slot as written: a photo is always "FAIL" |
| Ingest.Admit | telegram_to_rss/poll_telegram.py:153-161 | defines admission: a new head, or the head's text replaced by a strictly longer one; the result is never empty |
| Ingest.MessageMedia | telegram_to_rss/poll_telegram.py:165-176 | intended photo download; defines the slots of one message: photo, then TooLarge or the document's download, or no document slot when reading it raises |
| Ingest.Step | telegram_to_rss/poll_telegram.py:137-180 | intended photo download; defines one loop iteration: skip, or admit and attach media to the head |
| Ingest.Ingested | telegram_to_rss/poll_telegram.py:137-180 | intended photo download; defines the heads after the batch as the fold of Step |
| Ingest.GroupText | telegram_to_rss/poll_telegram.py:160-161 | defines a group's text: the first member's, replaced only by a strictly longer one |
| Ingest.GroupMedia | telegram_to_rss/poll_telegram.py:163-176 | intended photo download; defines a group's slots: MessageMedia of each member in turn |
| Ingest.GroupEntry | telegram_to_rss/poll_telegram.py:153-176 | intended photo download; defines a group's entry: first member's id, date and flag, GroupText, GroupMedia |
| Ingest.PhotoDownloadAsWrittenFails | telegram_to_rss/poll_telegram.py:214-215 | as written, a photo slot is "FAIL" even when the download would succeed |
| Ingest.AsWrittenIsPhotosRefused | telegram_to_rss/poll_telegram.py:214-230 | the as-written download equals the intended one with an oracle that refuses every photo |
| Ingest.MessageMediaAsWritten | telegram_to_rss/poll_telegram.py:165-226 | as written, a message's photo slot is "FAIL" and every other slot it appends is the intended one |
| Ingest.IngestedAsWrittenWithoutPhotos | telegram_to_rss/poll_telegram.py:137-226 | a batch without photos ingests the same as written and as intended |
| Ingest.DownloadMedia | telegram_to_rss/poll_telegram.py:197-230 | intended photo download; appends exactly one slot, the file `"{feed}--{msg}-{k}"` or "FAIL", and never raises |
| Ingest.HandleMessage | telegram_to_rss/poll_telegram.py:148-176 | intended photo download; the loop body equals one step of the ingestion fold |
| Ingest.AdmitMessage | telegram_to_rss/poll_telegram.py:153-161 | the message becomes the new head or lengthens the head's text, as the admission step of the fold |
| Ingest.AttachMedia | telegram_to_rss/poll_telegram.py:163-176 | intended photo download; the photo, then the document, each append exactly the slots the fold's media step appends to the head |
| Ingest.ProcessNewDialogMessages | telegram_to_rss/poll_telegram.py:131-195 | intended photo download; the entries are the ingestion fold over the batch, one FeedEntry per head, in order |
| Ingest.IngestedIgnoresUnhandled | telegram_to_rss/poll_telegram.py:137-180 | the batch yields what its handled messages alone yield |
| Ingest.UnhandledMessageIsSkipped | telegram_to_rss/poll_telegram.py:148-149 | a message without text, or whose handling raises before admission, leaves the rest of the batch unaffected |
| Ingest.RaiseAfterAdmissionKeepsMessage | telegram_to_rss/poll_telegram.py:168-180 | a message whose document raises at line 170 or 172 still opens an entry or lengthens the head's text and keeps its photo slot; only the document slot is missing |
| Ingest.UngroupedMessagesMapOneToOne | telegram_to_rss/poll_telegram.py:153-158 | without grouped ids each handled message opens its own entry, in input order, with its id, date, text and flag |
| Ingest.MessageMediaShape | telegram_to_rss/poll_telegram.py:165-176 | a message appends one slot per photo and per readable document after the existing slots; an oversized document appends TooLarge |
| Ingest.OversizedDocumentIsNotDownloaded | telegram_to_rss/poll_telegram.py:172-175 | a document over `max_media_size` triggers no download, whatever the download oracle says |
| Ingest.MessageMediaNamedByPosition | telegram_to_rss/poll_telegram.py:199-202 | each downloaded slot is named after its own position in the head's media |
| Ingest.IngestedNamedByPosition | telegram_to_rss/poll_telegram.py:137-202 | every entry of a batch has its downloaded slots named after their positions |
| Ingest.GroupMergesIntoOneEntry | telegram_to_rss/poll_telegram.py:153-176 | a group following entries of another group appends exactly one entry, its GroupEntry, after them, and changes none of them |
| Ingest.GroupMediaShape | telegram_to_rss/poll_telegram.py:165-176 | a group's slots number one per photo and per readable document of every member, each member's after those of the members before it |
| Ingest.GroupTextIsFirstLongest | telegram_to_rss/poll_telegram.py:160-161 | a group's text is the text of its first member holding a longest text |
| Ingest.GroupKeepsFirstLongestText | telegram_to_rss/poll_telegram.py:153-176 | after earlier entries, a group adds one entry whose text is the group's first-encountered longest text and whose slots are all members' |
| Ingest.FirstLongestExtend | telegram_to_rss/poll_telegram.py:160-161 | a new member takes over the text only when strictly longer |
| Ingest.StepOpensEntry | telegram_to_rss/poll_telegram.py:153-158 | a message opening an entry appends it after the existing entries with its own slots |
| Ingest.StepMergesIntoHead | telegram_to_rss/poll_telegram.py:159-176 | after any earlier entries, a message of the last entry's group keeps that entry's id, date and flag, lengthens its text only if longer, appends its slots after the existing ones, and leaves the earlier entries unchanged |
| Ingest.StepMergesIntoHeadExactly | telegram_to_rss/poll_telegram.py:159-176 | helper: the merged entry is the last entry with the longer text and the message's slots appended; the earlier entries are unchanged |
| Ingest.StepOpensEntryExactly | telegram_to_rss/poll_telegram.py:153-176 | helper: the opened entry is the message's id, date, text, group and flag with its own slots, appended after the existing entries |
| Ingest.GroupExample | telegram_to_rss/poll_telegram.py:153-176 | a two-message group followed by another group gives two entries; the first has "longer b" and both documents' slots in order |
| Store.AfterDelete | telegram_to_rss/poll_telegram.py:55-60 | defines `bulk_delete_feeds` on the table (see BulkDeleteCases) |
| Store.EntryIdsAreGloballyUnique | telegram_to_rss/poll_telegram.py:233-234 | in a valid store, entries of different feeds never share an id |
| Store.BulkDeleteCases | telegram_to_rss/poll_telegram.py:55-60 | None deletes everything, an empty list nothing, a list exactly the listed feeds; the rest is unchanged |
| Store.AfterDeleteValid | telegram_to_rss/poll_telegram.py:55-60 | deleting feeds keeps the store valid |
| Store.InsertByDate | telegram_to_rss/poll_telegram.py:116 | inserting an entry adds exactly that entry |
| Store.InsertByDateKeepsOrder | telegram_to_rss/poll_telegram.py:116 | inserting keeps the entries in date-descending order |
| Store.InsertByDateKeepsIdsUnique | telegram_to_rss/poll_telegram.py:116 | inserting a fresh id keeps ids distinct and adds exactly that id |
| Store.InsertAll | telegram_to_rss/poll_telegram.py:116 | `bulk_create` adds exactly the new entries |
| Store.InsertAllIsSortedMerge | telegram_to_rss/poll_telegram.py:116 | after `bulk_create` the feed holds the old and new entries, all of them and nothing else, in date order |
| Store.InsertAllKeepsIdsUnique | telegram_to_rss/poll_telegram.py:116 | without a primary-key clash the ids stay distinct |
| Store.RetentionBound | telegram_to_rss/poll_telegram.py:120-129 | at most `L` entries remain exactly when there were at most `2L`; a feed of at most `L` entries is unchanged; the newest `L` are always kept |
| Store.Retained | telegram_to_rss/poll_telegram.py:120-129 | defines retention: positions `[L, 2L)` of the date-descending entries are removed |
| Store.RetainedDropsWindow | telegram_to_rss/poll_telegram.py:120-129 | retention keeps the first `L` positions in place, drops exactly `[L, 2L)`, moves the rest up by `L`, and adds nothing |
| Store.RetainedKeepsShape | telegram_to_rss/poll_telegram.py:120-129 | retention keeps a sub-sequence, so date order and distinct ids carry over |
| Store.RemoveEntryAt | telegram_to_rss/poll_telegram.py:127-129 | deleting one entry by primary key removes exactly that entry |
| Store.NewEntriesBelong | telegram_to_rss/poll_telegram.py:184 | every new entry's id is named after its own feed |
| Store.CreatedFeed | telegram_to_rss/poll_telegram.py:62-76 | intended photo download; defines `create_feed`: IntegrityError for an existing id or a clashing entry id, else the new feed with its entries |
| Store.Cursor | telegram_to_rss/poll_telegram.py:81-98 | defines the fetch request: the latest `new_feed_limit` for an empty feed, ValueError for an unparsable newest id, else after the newest message id |
| Store.UpdatedFeed | telegram_to_rss/poll_telegram.py:78-129 | intended photo download; defines `update_feed`: DoesNotExist, the cursor's error, IntegrityError on a clash, else the merged and retained entries with a fresh `last_update` |
| Store.CursorResumesAfterNewest | telegram_to_rss/poll_telegram.py:81-91 | the update cursor is the message id of the newest entry, which no stored entry postdates |
| Store.CreatedFeedContents | telegram_to_rss/poll_telegram.py:62-76 | a created feed is new, has the dialog's name and the current time, holds exactly the ingested entries, and no other feed changes |
| Store.UpdatedFeedContents | telegram_to_rss/poll_telegram.py:78-118 | an update keeps the feed set and the name, sets `last_update` to now, and leaves other feeds unchanged |
| Store.UpdatedFeedEntries | telegram_to_rss/poll_telegram.py:112-129 | the updated entries are drawn from the stored and new ones; the merge is date-ordered and holds them all; its newest `L` survive and exactly its positions `[L, 2L)` are lost |
| Store.MergeThenRetain | telegram_to_rss/poll_telegram.py:116-129 | `bulk_create` then retention, on any stored date-ordered entries: the facts UpdatedFeedEntries states |
| Store.UpdateWithoutNewMessages | telegram_to_rss/poll_telegram.py:96-129 | an update that fetches nothing leaves a feed within the limit as it was apart from `last_update` |
| Store.CreatedFeedValid | telegram_to_rss/poll_telegram.py:62-76 | a committed create keeps the store valid |
| Store.UpdatedFeedValid | telegram_to_rss/poll_telegram.py:78-129 | a committed update keeps the store valid |
| Store.RunAll | telegram_to_rss/poll_telegram.py:266-282 | defines one loop of transactions: each committed in turn until the first that raises |
| Store.Sync | telegram_to_rss/poll_telegram.py:250-282 | intended photo download; defines `update_feeds_in_db`: reconcile, delete, the create loop, then the update loop |
| Store.RunAllStep | telegram_to_rss/poll_telegram.py:266-282 | one more dialog of a run that has not raised commits one more transaction |
| Store.FailureStopsRun | telegram_to_rss/poll_telegram.py:266-282 | once a transaction raised, the remaining dialogs change nothing |
| Store.RunAllValid | telegram_to_rss/poll_telegram.py:266-282 | a run of transactions keeps the store valid, whether or not it raised |
| Store.CreateAllKeys | telegram_to_rss/poll_telegram.py:266-273 | creation adds only listed ids, and all of them when nothing raised |
| Store.UpdateAllKeys | telegram_to_rss/poll_telegram.py:275-282 | updates never add or remove a feed |
| Store.SyncStages | telegram_to_rss/poll_telegram.py:250-282 | after the deletions the store keeps exactly the listed local ids, creation is asked for exactly the listed ids not yet stored, and the updates follow creation |
| Store.SyncDropsVanished | telegram_to_rss/poll_telegram.py:250-282 | after a cycle, whether or not it raised, no feed remains for a dialog that is no longer listed |
| Store.SyncMirrorsListing | telegram_to_rss/poll_telegram.py:250-282 | a cycle that raised nothing leaves exactly one feed per listed dialog |
| Store.SyncKeepsStoreValid | telegram_to_rss/poll_telegram.py:250-282 | a valid store stays valid through a cycle, whether or not it raised |
| Poller.TelegramPoller.constructor | telegram_to_rss/poll_telegram.py:20-32 | the poller holds its configuration and a valid table |
| Poller.TelegramPoller.BulkDeleteFeeds | telegram_to_rss/poll_telegram.py:55-60 | the new table is the deletion function of the old one, and it stays valid |
| Poller.TelegramPoller.ResetFeedsInDb | telegram_to_rss/poll_telegram.py:242-247 | every feed is deleted |
| Poller.TelegramPoller.CreateFeed | telegram_to_rss/poll_telegram.py:62-76 | the table and the raised exception are the committed outcome of the create transaction |
| Poller.TelegramPoller.UpdateFeed | telegram_to_rss/poll_telegram.py:78-129 | the table and the raised exception are the committed outcome of the update transaction |
| Poller.TelegramPoller.DeleteWindow | telegram_to_rss/poll_telegram.py:120-129 | deleting the window entries one by one leaves the retained entries |
| Poller.TelegramPoller.RunTransactions | telegram_to_rss/poll_telegram.py:266-282 | the loop leaves the table and exception of the transaction fold |
| Poller.TelegramPoller.RunOne | telegram_to_rss/poll_telegram.py:266-282 | one create or update transaction commits what the transaction function returns, or leaves the table as it was with the exception |
| Poller.TelegramPoller.UpdateFeedsInDb | telegram_to_rss/poll_telegram.py:250-282 | the table and exception after the cycle are those of the cycle function |
| Render.CleanTitle | telegram_to_rss/generate_feed.py:16-18 | defines `clean_title` (see CleanTitleShape) |
| Render.Title | telegram_to_rss/generate_feed.py:63-64 | defines the title as the clean title cut to 100 characters |
| Render.FeedUrl | telegram_to_rss/generate_feed.py:28-31 | defines the channel URL of a numeric id or a username |
| Render.EntryUrl | telegram_to_rss/generate_feed.py:53-56 | defines an item's URL |
| Render.FindClose | telegram_to_rss/generate_feed.py:13 | the lazy `.*?>` stops at the first '>' with no newline before it |
| Render.StripTags | telegram_to_rss/generate_feed.py:13-17 | tag removal never lengthens the text and adds no character |
| Render.StripTagsWithoutTags | telegram_to_rss/generate_feed.py:13-17 | text without '<' is unchanged |
| Render.StripTagsRemovesTag | telegram_to_rss/generate_feed.py:13-17 | a one-line tag met before any other '<' is removed and the scan resumes after it |
| Render.CleanTitleShape | telegram_to_rss/generate_feed.py:16-18 | a clean title has no newline, no surrounding whitespace and is no longer than the message |
| Render.CleanTitleIdentity | telegram_to_rss/generate_feed.py:16-18 | a message without tags, newlines or surrounding whitespace is its own clean title |
| Render.TitleShape | telegram_to_rss/generate_feed.py:63-64 | the title is a prefix of the clean title, at most 100 characters and never longer than the message, with no newline and no leading whitespace; it is empty only when the clean title is, and is the whole clean title when that fits |
| Render.EntryUrlExtendsFeedUrl | telegram_to_rss/generate_feed.py:29-57 | an entry URL is the channel URL + "/" + message id, so one channel's entries get distinct URLs |
| Render.UrlShapesDiffer | telegram_to_rss/generate_feed.py:29-32 | numeric and username channel URLs differ unless the username starts with "c/" |
| Render.Classify | telegram_to_rss/generate_feed.py:72-77 | the slot test with `startswith`, the corrected reading (see Findings) |
| Render.ClassifyRecoversSlot | telegram_to_rss/generate_feed.py:72-77 | reading a stored slot back recovers what ingestion recorded |
| Render.FailCountIsMultiplicity | telegram_to_rss/generate_feed.py:68-74 | the failure count is the number of slots equal to "FAIL" |
| Render.FailCountOfKinds | telegram_to_rss/generate_feed.py:72-74 | the failure count of texts that classify as given slots is the number of Failed slots |
| Render.TooLargeCountOfKinds | telegram_to_rss/generate_feed.py:75-76 | the too-large count of such texts is the number of TooLarge slots |
| Render.SlotCountsSurviveStorage | telegram_to_rss/generate_feed.py:68-76 | the shown counts are the numbers of Failed and TooLarge slots ingestion stored |
| Render.WidgetsInSlotOrder | telegram_to_rss/generate_feed.py:72-102 | the widgets of concatenated slot lists are the concatenated widgets |
| Render.NoGuessMeansLinks | telegram_to_rss/generate_feed.py:81-102 | with no MIME guess, a file becomes a plain link |
| Render.Description | telegram_to_rss/generate_feed.py:67-111 | corrected reading: defines the description as text with `<br />`, widgets, notices |
| Render.DescriptionAsWritten | telegram_to_rss/generate_feed.py:72-76 | as written: the description exists only when every slot is "FAIL", else StartsWithError |
| Render.DescriptionOfPlainText | telegram_to_rss/generate_feed.py:104-111 | an entry without media, flag or newline is described by its text alone |
| Render.StartsWithAbortsRender | telegram_to_rss/generate_feed.py:72-76 | as written, the description exists exactly when every slot is "FAIL" |
| Render.StoredMediaAbortsRender | telegram_to_rss/generate_feed.py:72-76 | as written, an ingested entry renders only if every one of its slots is a failed download |
| Render.AllFailMultiplicity | telegram_to_rss/generate_feed.py:73 | all slots are "FAIL" exactly when "FAIL" occurs once per slot |
| Render.ItemFor | telegram_to_rss/generate_feed.py:47-117 | corrected reading: defines an entry's item, EntryIdError when its id does not parse |
| Render.RenderFeed | telegram_to_rss/generate_feed.py:21-124 | corrected reading: defines `generate_feed`, the first failing entry's error or the document |
| Render.ItemAsWrittenAgrees | telegram_to_rss/generate_feed.py:47-117 | the item as written equals the corrected item when every slot is "FAIL"; otherwise it fails, with EntryIdError if the id does not parse and StartsWithError if it does |
| Render.RenderFeedAsWrittenAgrees | telegram_to_rss/generate_feed.py:21-124 | a feed whose slots are all "FAIL" renders as written exactly as in the corrected reading; any other slot makes the render as written fail |
| Render.RenderFeedFileName | telegram_to_rss/generate_feed.py:119 | helper: a rendered feed is written to `"{feed.id}.xml"` |
| Render.FileNamesDiffer | telegram_to_rss/generate_feed.py:119 | different feed ids give different file names |
| Render.CollectItemsInOrder | telegram_to_rss/generate_feed.py:47-117 | the items exist exactly when every entry renders, one per entry in order |
| Render.RenderItemsInOrder | telegram_to_rss/generate_feed.py:47-117 | a feed renders exactly when each entry does, one item per entry in order |
| Render.ItemLinks | telegram_to_rss/generate_feed.py:48-117 | guid, link href and link text are the same URL of the entry's message; title and date come from the entry |
| Render.ValidFeedsRender | telegram_to_rss/generate_feed.py:21-117 | corrected reading: every feed of a valid store renders, with the feed's name, last update and one item per entry |
| Render.ScanStep | telegram_to_rss/generate_feed.py:72-102 | one slot moves each counter and the widget text by that slot's own share |
| Render.BuildDescription | telegram_to_rss/generate_feed.py:67-111 | corrected reading: the loop and assembly produce the description function |
| Render.GenerateFeed | telegram_to_rss/generate_feed.py:21-124 | corrected reading: the method yields the render function's document or error |
| Render.BuildItem | telegram_to_rss/generate_feed.py:47-117 | corrected reading: one loop iteration yields the item the render function gives the entry, or its error |
| Render.RenderFailurePersists | telegram_to_rss/generate_feed.py:47-48 | once an entry fails, the feed fails with that error |
| Render.WriteAllStopsAtFirstFailure | telegram_to_rss/generate_feed.py:134-135 | feeds before the first failure are written in order; it and later feeds are not |
| Render.RenderAll | telegram_to_rss/generate_feed.py:129-135 | corrected reading: defines `update_feeds_cache` as WriteAll of RenderFeed |
| Render.RenderAllStopsAtFirstFailure | telegram_to_rss/generate_feed.py:129-135 | `update_feeds_cache` writes each feed's document until the first feed that fails, which is the one reported |
| Render.UpdateFeedsCache | telegram_to_rss/generate_feed.py:129-135 | corrected reading: the loop yields the documents and error of the cache function |
| Render.RenderAllFailurePersists | telegram_to_rss/generate_feed.py:134-135 | once a feed fails, later feeds change nothing |
| Scheduler.Policy | telegram_to_rss/server.py:59-85 | the next run follows at once after success, never after a cancellation, after 5 s after a lost connection, after 2 s after any other exception |
| Scheduler.AtStage | telegram_to_rss/server.py:70-75 | an interruption raises a cancellation or a connection loss exactly at its stage, never another exception |
| Scheduler.Listed | telegram_to_rss/generate_feed.py:130-132 | `Feed.all()` lists only stored feeds, and every stored feed whose id the order names |
| Scheduler.ListedFollowsOrder | telegram_to_rss/generate_feed.py:130-134 | when the order names only stored ids, the listing is the stored feeds one for one in that order |
| Scheduler.EnumerationCardinality | telegram_to_rss/generate_feed.py:130-132 | an order naming every stored id exactly once is as long as the table |
| Scheduler.RunWith | telegram_to_rss/server.py:59-80 | defines one run with a given per-feed render: interruption, store update, interruption, render, sleep, and the reset on any other exception |
| Scheduler.Run | telegram_to_rss/server.py:59-80 | corrected reading: defines a run whose render is RenderFeed |
| Scheduler.RunAsWritten | telegram_to_rss/server.py:59-80 | as written: defines a run whose render is RenderFeedAsWritten |
| Scheduler.RunAsWrittenResets | telegram_to_rss/server.py:61-80 | as written, a listed feed holding any slot other than "FAIL" makes the run raise and reset the store to empty |
| Scheduler.RunResetsOnlyOnOtherError | telegram_to_rss/server.py:61-80 | corrected reading: the store is reset exactly when the store update or the render raised; otherwise it is what the last completed stage left |
| Scheduler.RenderOnlyAfterDb | telegram_to_rss/server.py:61-66 | corrected reading: documents are written only after a store update that raised nothing, one per listed feed in order |
| Scheduler.SuccessfulRun | telegram_to_rss/server.py:61-69 | corrected reading: a run raises nothing exactly when uninterrupted and neither stage fails; then every listed feed has its document |
| Scheduler.SuccessfulRunRendersEveryFeed | telegram_to_rss/server.py:61-69 | corrected reading: when `Feed.all()` lists each stored feed once, a run that raised nothing wrote one document per stored feed, in listing order, each the feed's RenderFeed result, to pairwise different files |
| Scheduler.EnumeratedDocs | telegram_to_rss/generate_feed.py:129-135 | the documents of a listing that names each stored feed once: as many as feeds, in order, with distinct file names |
| Scheduler.RunKeepsStoreValid | telegram_to_rss/server.py:61-80 | every run leaves a valid store, however it ends |
| Scheduler.Chain | telegram_to_rss/server.py:81-90 | defines the sequence of runs: each run that is not cancelled creates the next task with the policy's delay |
| Scheduler.ChainSchedulesOneSuccessor | telegram_to_rss/server.py:81-90 | the first task has no delay; an ongoing chain has one more task than runs; delays are none, 2 or 5; the store stays valid |
| Scheduler.RssService.StartRssGeneration | telegram_to_rss/server.py:87-90 | the first run is created without a delay |
| Scheduler.RssService.UpdateRss | telegram_to_rss/server.py:54-85 | corrected reading: the new store, documents and exception are those of one run; exactly the successor the policy names is appended |

## Left out

- The Telegram client is not modelled: listing dialogs, fetching messages, downloads and
  resolving ids become oracle values. So are the Quart routes, QR login, `startup`/`cleanup`,
  logging, XML serialisation and the file writes; a document is a datatype value.
- The Tortoise ORM is modelled as a map from feed id to feed, with each feed's entries kept in
  the date-descending order every query asks for. Among entries of equal date, a new entry goes
  after the existing ones; the database's tie order is not specified.
- Dates and `last_update` are integers, and `isoformat()` is not modelled. Messages with a null
  date cannot be represented; the source only logs them (poll_telegram.py:101-105).
- `mimetypes.guess_type` is the `guess` function of `Render.Site`.
- Ingest.Step: an exception other than the document's (`Batch.raises`) is modelled as raised
  before the message is admitted. The raises after admission that the model captures are those at
  lines 170 and 172, when the document's MIME type or size is missing. Any other raise after
  admission, for example inside logging, is not modelled.
- Ingest.MessageMedia, Ingest.DownloadMedia, Ingest.AttachMedia, Ingest.Step, Ingest.Ingested,
  Ingest.GroupMedia, Ingest.GroupEntry, Ingest.HandleMessage, Ingest.ProcessNewDialogMessages,
  Store.NewEntries: these and every member labelled "intended photo download" in the table use
  Ingest.Acquire for the photo at poll_telegram.py:215 (see Findings). As written every photo slot
  is "FAIL"; that is the batch `PhotosRefused(b)` (Ingest.AsWrittenIsPhotosRefused,
  Ingest.MessageMediaAsWritten). Every Ingest, Store and Scheduler lemma holds for every download
  oracle (`Batch.downloadOk`, `Remote.downloadOk`), so each also covers the source as written.
- Render.Description, Render.ItemFor, Render.RenderFeed, Render.RenderAll, Scheduler.Run: these
  and every member labelled "corrected reading" in the table use `startswith` at
  generate_feed.py:75 (see Findings). As written, no feed holding a slot other than "FAIL"
  renders; that reading is Render.RenderFeedAsWritten and Scheduler.RunAsWritten, and
  Scheduler.RunAsWrittenResets proves such a run resets the store.
- Scheduler.Listed: the order of `Feed.all()` is the `order` field of `Scheduler.Env`, not derived
  from the table. Scheduler.SuccessfulRunRendersEveryFeed requires it to name every stored id
  exactly once, as `Feed.all()` does; the other lemmas hold for any order.
- Text.ParseInt: accepts an optional sign and ASCII digits only. Python's `int()` also accepts
  surrounding whitespace, underscores and non-ASCII digits; the ids the program builds never
  contain them.
- Text.IsSpace: covers the characters Python's `str.isspace` accepts in the ranges listed. It is
  not derived from the Unicode database.
- Scheduler.Run: a cancellation or a lost connection is modelled only as a stage begins. One that
  arrives part-way through `update_feeds_in_db` would leave some transactions committed and is
  not modelled. The reconnect call at server.py:75 is not modelled.
- Concurrency: the asyncio event loop is not modelled. Runs are sequential because each run
  creates its successor only from its `finally` block; `Scheduler.Chain` models this sequence.
- Documents written before a render failure stay on disk, and `Scheduler.Run` keeps them in its
  `docs` field. Stale documents of deleted feeds are never removed by the source, and the model
  does not track the render directory.

## Findings

| source | as written | input that shows it | evidently intended | confidence | as-written member | corrected member |
|---|---|---|---|---|---|---|
| telegram_to_rss/poll_telegram.py:215 | `dialog_message.downloaded_media(media_path, ...)` calls the list of downloaded names, which raises TypeError and is caught as a failed download | any message with a photo, with the download available | `dialog_message.download_media(...)`: the photo is saved and its file name stored | high, not executed | Ingest.AcquireAsWritten (exhibited by Ingest.PhotoDownloadAsWrittenFails and Ingest.MessageMediaAsWritten) | Ingest.Acquire |
| telegram_to_rss/generate_feed.py:75 | `media_path.starts_with("TOO_LARGE")`; Python strings have no `starts_with`, so AttributeError aborts the feed's render and reaches the generic handler, which resets the store | any stored entry with a downloaded file or a "TOO_LARGE" slot | `media_path.startswith("TOO_LARGE")`: the slot counts as too large or becomes a widget | high, not executed | Render.DescriptionAsWritten, Scheduler.RunAsWritten (exhibited by Render.StartsWithAbortsRender, Render.StoredMediaAbortsRender and Scheduler.RunAsWrittenResets) | Render.Classify and Scheduler.Run (proved by Render.ClassifyRecoversSlot and Scheduler.SuccessfulRunRendersEveryFeed) |
