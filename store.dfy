/** The feed store and the per-feed transactions on it, as values
    (telegram_to_rss/poll_telegram.py: `bulk_delete_feeds`, `create_feed`, `update_feed`,
    `update_feeds_in_db`). The methods that perform them live in the Poller module. */
module Store {
  import opened Wrappers
  import opened Seqs
  import opened EntryIds
  import opened Reconcile
  import opened Ingest

  /** A stored feed: the dialog id and name, the time of its last save and its entries, held in
      date-descending order (the order every query of the source asks for). */
  datatype Feed = Feed(id: int, name: string, lastUpdate: int, entries: seq<FeedEntry>)

  /** `message_limit`, `new_feed_limit` and `max_media_size`. */
  datatype Config = Config(messageLimit: nat, newFeedLimit: int, maxMediaSize: int)

  /** The two ways `get_dialog_messages` is called: the latest `limit` messages, or the messages
      after `min_message_id`. */
  datatype FetchRequest = Latest(limit: int) | After(minMessageId: int)

  /** What one cycle sees of the outside world: the dialog listing, the messages each request
      returns, the download and per-message exception oracles, and the clock. */
  datatype Remote = Remote(
    dialogs: seq<Dialog>,
    fetch: (int, FetchRequest) -> seq<Message>,
    downloadOk: (MediaKind, string) -> bool,
    raises: Message -> bool,
    now: int)

  /** The exceptions that abort a per-feed transaction: `Feed.get` finding nothing, a primary-key
      clash in `Feed.create` or `bulk_create`, and `parse_feed_entry_id` rejecting an id. */
  datatype Failure = DoesNotExist | IntegrityError | ValueError

  predicate SortedByDateDesc(s: seq<FeedEntry>)
  {
    forall i, j | 0 <= i < j < |s| :: s[i].date >= s[j].date
  }

  /** Entry ids are the primary key. */
  predicate UniqueIds(s: seq<FeedEntry>)
  {
    forall i, j | 0 <= i < j < |s| :: s[i].id != s[j].id
  }

  function EntryIdSet(s: seq<FeedEntry>): set<string>
  {
    set e | e in s :: e.id
  }

  /** The entry id is `"{feedId}--{msgId}"` for this feed and some message id. */
  predicate BelongsTo(e: FeedEntry, feedId: int)
  {
    var p := ParseFeedEntryId(e.id);
    p.Some? && e.id == ToFeedEntryId(feedId, p.value.1)
  }

  /** What the database guarantees and the model keeps: feeds keyed by their id, entries in date
      order with distinct ids. */
  predicate WellFormed(feeds: map<int, Feed>)
  {
    forall id | id in feeds :: feeds[id].id == id && SortedByDateDesc(feeds[id].entries) && UniqueIds(feeds[id].entries)
  }

  /** WellFormed, and every entry is named after its own feed. */
  predicate ValidStore(feeds: map<int, Feed>)
  {
    WellFormed(feeds) && forall id, e | id in feeds && e in feeds[id].entries :: BelongsTo(e, id)
  }

  /** In a valid store, entries of different feeds never share an id. */
  lemma {:induction false} EntryIdsAreGloballyUnique(feeds: map<int, Feed>, a: int, b: int, ea: FeedEntry, eb: FeedEntry)
    requires ValidStore(feeds) && a in feeds && b in feeds && a != b
    requires ea in feeds[a].entries && eb in feeds[b].entries
    ensures ea.id != eb.id
  {
    assert BelongsTo(ea, a) && BelongsTo(eb, b);
    var pa, pb := ParseFeedEntryId(ea.id).value, ParseFeedEntryId(eb.id).value;
    EntryIdRoundTrip(a, pa.1);
    EntryIdRoundTrip(b, pb.1);
  }

  // ---------------------------------------------------------------------------------------------
  // Bulk deletion

  /** `bulk_delete_feeds`: `None` deletes every feed, otherwise the feeds whose id is listed
      (deleting a feed deletes its entries with it). */
  function AfterDelete(feeds: map<int, Feed>, ids: Option<set<int>>): map<int, Feed>
  {
    match ids
    case None => map[]
    case Some(s) => map id | id in feeds && id !in s :: feeds[id]
  }

  /** None deletes everything, an empty list nothing, a list exactly the listed feeds. */
  lemma BulkDeleteCases(feeds: map<int, Feed>, ids: set<int>)
    ensures AfterDelete(feeds, None) == map[]
    ensures AfterDelete(feeds, Some({})) == feeds
    ensures AfterDelete(feeds, Some(ids)).Keys == feeds.Keys - ids
    ensures forall id | id in AfterDelete(feeds, Some(ids)) :: AfterDelete(feeds, Some(ids))[id] == feeds[id]
  {
  }

  lemma AfterDeleteValid(feeds: map<int, Feed>, ids: Option<set<int>>)
    requires ValidStore(feeds)
    ensures ValidStore(AfterDelete(feeds, ids))
  {
  }

  // ---------------------------------------------------------------------------------------------
  // Insertion in date order

  /** Places `e` before the first entry strictly older than it (after entries of the same date). */
  function InsertByDate(s: seq<FeedEntry>, e: FeedEntry): (r: seq<FeedEntry>)
    ensures |r| == |s| + 1
    ensures multiset(r) == multiset(s) + multiset{e}
  {
    if s == [] || s[0].date < e.date then [e] + s
    else
      assert s == [s[0]] + s[1..];
      [s[0]] + InsertByDate(s[1..], e)
  }

  /** An entry no younger than the rest, put in front, keeps date order. */
  lemma ConsSorted(x: FeedEntry, rest: seq<FeedEntry>)
    requires SortedByDateDesc(rest) && forall y | y in rest :: y.date <= x.date
    ensures SortedByDateDesc([x] + rest)
  {
    var r := [x] + rest;
    forall i, j | 0 <= i < j < |r| ensures r[i].date >= r[j].date {
      if i > 0 {
        assert r[i] == rest[i - 1] && r[j] == rest[j - 1];
      } else {
        assert r[j] in rest;
      }
    }
  }

  /** An entry with an id the rest lacks, put in front, keeps ids distinct. */
  lemma ConsUnique(x: FeedEntry, rest: seq<FeedEntry>)
    requires UniqueIds(rest) && x.id !in EntryIdSet(rest)
    ensures UniqueIds([x] + rest)
  {
    var r := [x] + rest;
    forall i, j | 0 <= i < j < |r| ensures r[i].id != r[j].id {
      if i > 0 {
        assert r[i] == rest[i - 1] && r[j] == rest[j - 1];
      } else {
        assert r[j] in rest;
      }
    }
  }

  /** The tail of a sequence with distinct ids has distinct ids, none of them the head's. */
  lemma TailUnique(s: seq<FeedEntry>)
    requires UniqueIds(s) && s != []
    ensures UniqueIds(s[1..]) && s[0].id !in EntryIdSet(s[1..]) && EntryIdSet(s[1..]) <= EntryIdSet(s)
  {
    assert forall i | 0 <= i < |s| - 1 :: s[1..][i] == s[i + 1];
    forall x | x in s[1..] ensures x.id != s[0].id {
      var k :| 0 <= k < |s| - 1 && s[1..][k] == x;
      assert s[k + 1] == x;
    }
  }

  lemma {:induction false} InsertByDateKeepsOrder(s: seq<FeedEntry>, e: FeedEntry)
    requires SortedByDateDesc(s)
    ensures SortedByDateDesc(InsertByDate(s, e))
    decreases |s|
  {
    if s == [] || s[0].date < e.date {
      ConsSorted(e, s);
    } else {
      var rest := InsertByDate(s[1..], e);
      InsertByDateKeepsOrder(s[1..], e);
      InsertByDateMembers(s[1..], e);
      assert forall x | x in s[1..] :: x in s;
      ConsSorted(s[0], rest);
    }
  }

  lemma InsertByDateMembers(s: seq<FeedEntry>, e: FeedEntry)
    ensures forall x :: x in InsertByDate(s, e) <==> x in s || x == e
  {
    var r := InsertByDate(s, e);
    forall x ensures x in r <==> x in s || x == e {
      assert x in r <==> x in multiset(r);
      assert x in s <==> x in multiset(s);
    }
  }

  lemma {:induction false} InsertByDateKeepsIdsUnique(s: seq<FeedEntry>, e: FeedEntry)
    requires UniqueIds(s) && e.id !in EntryIdSet(s)
    ensures UniqueIds(InsertByDate(s, e))
    ensures EntryIdSet(InsertByDate(s, e)) == EntryIdSet(s) + {e.id}
    decreases |s|
  {
    InsertByDateMembers(s, e);
    if s == [] || s[0].date < e.date {
      ConsUnique(e, s);
    } else {
      var rest := InsertByDate(s[1..], e);
      TailUnique(s);
      InsertByDateKeepsIdsUnique(s[1..], e);
      assert s[0].id != e.id by {
        assert s[0] in s;
      }
      ConsUnique(s[0], rest);
    }
  }

  /** `bulk_create` followed by the date-descending view: each new entry in turn. */
  function InsertAll(s: seq<FeedEntry>, news: seq<FeedEntry>): (r: seq<FeedEntry>)
    ensures |r| == |s| + |news|
    ensures multiset(r) == multiset(s) + multiset(news)
    decreases |news|
  {
    if news == [] then s
    else
      assert news == [news[0]] + news[1..];
      InsertAll(InsertByDate(s, news[0]), news[1..])
  }

  lemma {:induction false} InsertAllKeepsOrder(s: seq<FeedEntry>, news: seq<FeedEntry>)
    requires SortedByDateDesc(s)
    ensures SortedByDateDesc(InsertAll(s, news))
    decreases |news|
  {
    if news != [] {
      InsertByDateKeepsOrder(s, news[0]);
      InsertAllKeepsOrder(InsertByDate(s, news[0]), news[1..]);
    }
  }

  /** A new entry id clashes with a stored one or with another new one: `bulk_create` raises. */
  predicate Collides(existing: seq<FeedEntry>, news: seq<FeedEntry>)
  {
    !UniqueIds(news) || EntryIdSet(existing) * EntryIdSet(news) != {}
  }

  lemma {:induction false} InsertAllKeepsIdsUnique(s: seq<FeedEntry>, news: seq<FeedEntry>)
    requires UniqueIds(s) && !Collides(s, news)
    ensures UniqueIds(InsertAll(s, news))
    decreases |news|
  {
    if news != [] {
      assert news[0] in news;
      assert news[0].id in EntryIdSet(news);
      assert news[0].id !in EntryIdSet(s) * EntryIdSet(news);
      InsertByDateKeepsIdsUnique(s, news[0]);
      var s' := InsertByDate(s, news[0]);
      var rest := news[1..];
      assert UniqueIds(rest) by {
        forall i, j | 0 <= i < j < |rest| ensures rest[i].id != rest[j].id {
          assert rest[i] == news[i + 1] && rest[j] == news[j + 1];
        }
      }
      assert news[0].id !in EntryIdSet(rest) by {
        forall k | 0 <= k < |rest| ensures rest[k].id != news[0].id {
          assert rest[k] == news[k + 1];
        }
      }
      assert EntryIdSet(rest) <= EntryIdSet(news) by {
        forall x | x in rest ensures x in news {
        }
      }
      assert !Collides(s', rest);
      InsertAllKeepsIdsUnique(s', rest);
    }
  }

  /** The new entries and the stored ones, all of them, in date order. */
  lemma InsertAllIsSortedMerge(s: seq<FeedEntry>, news: seq<FeedEntry>)
    requires SortedByDateDesc(s)
    ensures SortedByDateDesc(InsertAll(s, news))
    ensures forall e :: e in InsertAll(s, news) <==> e in s || e in news
  {
    InsertAllKeepsOrder(s, news);
    var r := InsertAll(s, news);
    forall e ensures e in r <==> e in s || e in news {
      assert e in r <==> e in multiset(r);
    }
  }

  // ---------------------------------------------------------------------------------------------
  // Retention

  /** Lines 120-129: the entries at date-descending positions `[limit, 2 * limit)` are deleted; the
      newest `limit` entries and those past `2 * limit` stay. */
  function Retained(s: seq<FeedEntry>, limit: nat): seq<FeedEntry>
  {
    var lo := if limit < |s| then limit else |s|;
    var hi := if 2 * limit < |s| then 2 * limit else |s|;
    s[..lo] + s[hi..]
  }

  /** At most `limit` entries remain exactly when there were at most `2 * limit`; the newest
      `limit` are always kept. */
  lemma RetentionBound(s: seq<FeedEntry>, limit: nat)
    ensures |Retained(s, limit)| <= limit <==> |s| <= 2 * limit
    ensures |s| <= limit ==> Retained(s, limit) == s
    ensures limit <= |s| ==> Retained(s, limit)[..limit] == s[..limit]
  {
    if |s| <= limit {
      assert s[..|s|] + s[|s|..] == s;
    }
  }

  /** Retention drops exactly the positions `[limit, 2 * limit)`: the entries before keep their
      positions, those after move up, and no entry is added. */
  lemma RetainedDropsWindow(s: seq<FeedEntry>, limit: nat)
    ensures var r := Retained(s, limit);
      && (forall k | 0 <= k < limit && k < |s| :: r[k] == s[k])
      && (|s| <= 2 * limit ==> |r| == if |s| < limit then |s| else limit)
      && (2 * limit <= |s| ==> |r| == |s| - limit && forall k | limit <= k < |r| :: r[k] == s[k + limit])
      && multiset(r) <= multiset(s)
  {
    var lo := if limit < |s| then limit else |s|;
    var hi := if 2 * limit < |s| then 2 * limit else |s|;
    assert s == s[..lo] + s[lo..hi] + s[hi..];
    assert multiset(s) == multiset(s[..lo]) + multiset(s[lo..hi]) + multiset(s[hi..]);
  }

  /** What retention keeps is a sub-sequence: order, distinct ids and ownership carry over. */
  lemma RetainedKeepsShape(s: seq<FeedEntry>, limit: nat)
    ensures forall e | e in Retained(s, limit) :: e in s
    ensures SortedByDateDesc(s) ==> SortedByDateDesc(Retained(s, limit))
    ensures UniqueIds(s) ==> UniqueIds(Retained(s, limit))
  {
    var lo := if limit < |s| then limit else |s|;
    var hi := if 2 * limit < |s| then 2 * limit else |s|;
    var r := Retained(s, limit);
    assert forall k | 0 <= k < |r| :: r[k] == s[if k < lo then k else k - lo + hi];
  }

  /** `entry.delete()`: removes the entry with this primary key. */
  function RemoveEntry(s: seq<FeedEntry>, id: string): (r: seq<FeedEntry>)
    ensures |r| <= |s|
  {
    if s == [] then []
    else (if s[0].id == id then [] else [s[0]]) + RemoveEntry(s[1..], id)
  }

  lemma {:induction false} RemoveEntryConcat(a: seq<FeedEntry>, b: seq<FeedEntry>, id: string)
    ensures RemoveEntry(a + b, id) == RemoveEntry(a, id) + RemoveEntry(b, id)
    decreases |a|
  {
    if a != [] {
      var h := if a[0].id == id then [] else [a[0]];
      assert (a + b)[0] == a[0] && (a + b)[1..] == a[1..] + b;
      assert RemoveEntry(a + b, id) == h + RemoveEntry(a[1..] + b, id);
      RemoveEntryConcat(a[1..], b, id);
      assert h + (RemoveEntry(a[1..], id) + RemoveEntry(b, id)) == (h + RemoveEntry(a[1..], id)) + RemoveEntry(b, id);
    } else {
      assert a + b == b;
    }
  }

  lemma {:induction false} RemoveEntryAbsent(s: seq<FeedEntry>, id: string)
    requires id !in EntryIdSet(s)
    ensures RemoveEntry(s, id) == s
    decreases |s|
  {
    if s != [] {
      assert s[0] in s;
      assert EntryIdSet(s[1..]) <= EntryIdSet(s);
      RemoveEntryAbsent(s[1..], id);
      assert [s[0]] + s[1..] == s;
    }
  }

  /** Deleting the entry at position `k >= lo` of a sequence with distinct ids, from the entries
      before `lo` and from `k` on, removes exactly that one. */
  lemma RemoveEntryAt(s: seq<FeedEntry>, lo: nat, k: nat)
    requires UniqueIds(s) && lo <= k < |s|
    ensures RemoveEntry(s[..lo] + s[k..], s[k].id) == s[..lo] + s[k + 1..]
  {
    var id := s[k].id;
    var a, c := s[..lo], s[k + 1..];
    assert s[k..] == [s[k]] + c;
    assert id !in EntryIdSet(a) by {
      forall e | e in a ensures e.id != id {
        var i :| 0 <= i < |a| && a[i] == e;
        assert a[i] == s[i];
      }
    }
    assert id !in EntryIdSet(c) by {
      forall e | e in c ensures e.id != id {
        var i :| 0 <= i < |c| && c[i] == e;
        assert c[i] == s[k + 1 + i];
      }
    }
    assert RemoveEntry([s[k]] + c, id) == c by {
      RemoveEntryConcat([s[k]], c, id);
      assert RemoveEntry([s[k]], id) == [];
      RemoveEntryAbsent(c, id);
    }
    RemoveEntryConcat(a, s[k..], id);
    RemoveEntryAbsent(a, id);
  }

  // ---------------------------------------------------------------------------------------------
  // The per-feed transactions

  function BatchFor(cfg: Config, remote: Remote, feedId: int): Batch
  {
    Batch(feedId, cfg.maxMediaSize, remote.downloadOk, remote.raises)
  }

  /** `_process_new_dialog_messages` on the messages the request returns. */
  function NewEntries(cfg: Config, remote: Remote, feedId: int, req: FetchRequest): seq<FeedEntry>
  {
    ToEntries(feedId, Ingested(BatchFor(cfg, remote, feedId), remote.fetch(feedId, req)))
  }

  lemma NewEntriesBelong(cfg: Config, remote: Remote, feedId: int, req: FetchRequest)
    ensures forall e | e in NewEntries(cfg, remote, feedId, req) :: BelongsTo(e, feedId)
  {
    var news := NewEntries(cfg, remote, feedId, req);
    forall e | e in news ensures BelongsTo(e, feedId) {
      var k :| 0 <= k < |news| && news[k] == e;
      var d := Ingested(BatchFor(cfg, remote, feedId), remote.fetch(feedId, req))[k];
      EntryIdRoundTrip(feedId, d.id);
    }
  }

  /** `create_feed`: `Feed.create`, the latest `new_feed_limit` messages, `bulk_create`. No
      retention runs here. */
  function CreatedFeed(feeds: map<int, Feed>, cfg: Config, remote: Remote, d: Dialog): Result<map<int, Feed>, Failure>
  {
    if d.id in feeds then Err(IntegrityError)
    else
      var news := NewEntries(cfg, remote, d.id, Latest(cfg.newFeedLimit));
      if Collides([], news) then Err(IntegrityError)
      else Ok(feeds[d.id := Feed(d.id, d.name, remote.now, InsertAll([], news))])
  }

  /** Lines 81-98: resume after the message id of the newest entry, or fetch the latest
      `new_feed_limit` messages when the feed has none. */
  function Cursor(f: Feed, cfg: Config): Result<FetchRequest, Failure>
  {
    if f.entries == [] then Ok(Latest(cfg.newFeedLimit))
    else match ParseFeedEntryId(f.entries[0].id)
      case None => Err(ValueError)
      case Some((_, msgId)) => Ok(After(msgId))
  }

  /** `update_feed`: fetch from the cursor, ingest the whole batch, `bulk_create`, save with a
      fresh `last_update` (the name is left as it was), then retention. */
  function UpdatedFeed(feeds: map<int, Feed>, cfg: Config, remote: Remote, d: Dialog): Result<map<int, Feed>, Failure>
  {
    if d.id !in feeds then Err(DoesNotExist)
    else
      var f := feeds[d.id];
      match Cursor(f, cfg)
      case Err(e) => Err(e)
      case Ok(req) =>
        var news := NewEntries(cfg, remote, d.id, req);
        if Collides(f.entries, news) then Err(IntegrityError)
        else Ok(feeds[d.id := f.(lastUpdate := remote.now, entries := Retained(InsertAll(f.entries, news), cfg.messageLimit))])
  }

  /** In a valid store the cursor of a feed with entries is the message id its newest entry was
      built from. */
  lemma CursorResumesAfterNewest(f: Feed, cfg: Config)
    requires SortedByDateDesc(f.entries) && f.entries != []
    requires forall e | e in f.entries :: BelongsTo(e, f.id)
    ensures Cursor(f, cfg).Ok? && Cursor(f, cfg).value.After?
    ensures f.entries[0].id == ToFeedEntryId(f.id, Cursor(f, cfg).value.minMessageId)
    ensures forall e | e in f.entries :: e.date <= f.entries[0].date
  {
    assert BelongsTo(f.entries[0], f.id);
  }

  /** A created feed holds the new entries in date order and nothing else. */
  lemma CreatedFeedContents(feeds: map<int, Feed>, cfg: Config, remote: Remote, d: Dialog)
    requires CreatedFeed(feeds, cfg, remote, d).Ok?
    ensures var after := CreatedFeed(feeds, cfg, remote, d).value;
      && d.id !in feeds && after.Keys == feeds.Keys + {d.id}
      && (forall id | id in feeds :: after[id] == feeds[id])
      && after[d.id].name == d.name && after[d.id].lastUpdate == remote.now
      && multiset(after[d.id].entries) == multiset(NewEntries(cfg, remote, d.id, Latest(cfg.newFeedLimit)))
  {
  }

  /** An updated feed is saved with the current time under its old name; the other feeds do not
      change. */
  lemma UpdatedFeedContents(feeds: map<int, Feed>, cfg: Config, remote: Remote, d: Dialog)
    requires UpdatedFeed(feeds, cfg, remote, d).Ok?
    ensures var after := UpdatedFeed(feeds, cfg, remote, d).value;
      && d.id in feeds && after.Keys == feeds.Keys
      && (forall id | id in feeds && id != d.id :: after[id] == feeds[id])
      && after[d.id].name == feeds[d.id].name && after[d.id].lastUpdate == remote.now
  {
  }

  /** The updated feed's entries are the stored and the new entries merged in date order, then
      retention: the newest `message_limit` of the merge stay, the positions
      `[message_limit, 2 * message_limit)` of the merge are lost, and nothing else is added. */
  lemma UpdatedFeedEntries(feeds: map<int, Feed>, cfg: Config, remote: Remote, d: Dialog)
    requires ValidStore(feeds) && UpdatedFeed(feeds, cfg, remote, d).Ok?
    ensures var f := feeds[d.id];
      var news := NewEntries(cfg, remote, d.id, Cursor(f, cfg).value);
      var merged, after := InsertAll(f.entries, news), UpdatedFeed(feeds, cfg, remote, d).value[d.id].entries;
      var limit := cfg.messageLimit;
      && SortedByDateDesc(merged) && |merged| == |f.entries| + |news|
      && (forall e :: e in merged <==> e in f.entries || e in news)
      && multiset(after) <= multiset(f.entries) + multiset(news)
      && (forall k | 0 <= k < limit && k < |merged| :: after[k] == merged[k])
      && (|merged| <= 2 * limit ==> |after| == if |merged| < limit then |merged| else limit)
      && (2 * limit <= |merged| ==> |after| == |merged| - limit && forall k | limit <= k < |after| :: after[k] == merged[k + limit])
  {
    var f := feeds[d.id];
    var news := NewEntries(cfg, remote, d.id, Cursor(f, cfg).value);
    var after := UpdatedFeed(feeds, cfg, remote, d).value[d.id].entries;
    assert after == Retained(InsertAll(f.entries, news), cfg.messageLimit);
    MergeThenRetain(f.entries, news, cfg.messageLimit, after);
  }

  lemma MergeThenRetain(stored: seq<FeedEntry>, news: seq<FeedEntry>, limit: nat, after: seq<FeedEntry>)
    requires SortedByDateDesc(stored) && after == Retained(InsertAll(stored, news), limit)
    ensures var merged := InsertAll(stored, news);
      && SortedByDateDesc(merged) && |merged| == |stored| + |news|
      && (forall e :: e in merged <==> e in stored || e in news)
      && multiset(after) <= multiset(stored) + multiset(news)
      && (forall k | 0 <= k < limit && k < |merged| :: after[k] == merged[k])
      && (|merged| <= 2 * limit ==> |after| == if |merged| < limit then |merged| else limit)
      && (2 * limit <= |merged| ==> |after| == |merged| - limit && forall k | limit <= k < |after| :: after[k] == merged[k + limit])
  {
    InsertAllIsSortedMerge(stored, news);
    RetainedDropsWindow(InsertAll(stored, news), limit);
  }

  /** An update that brings no new message keeps a feed within the limit exactly as it was,
      apart from its `last_update`. */
  lemma UpdateWithoutNewMessages(feeds: map<int, Feed>, cfg: Config, remote: Remote, d: Dialog)
    requires ValidStore(feeds) && d.id in feeds && |feeds[d.id].entries| <= cfg.messageLimit
    requires Cursor(feeds[d.id], cfg).Ok? && remote.fetch(d.id, Cursor(feeds[d.id], cfg).value) == []
    ensures UpdatedFeed(feeds, cfg, remote, d) == Ok(feeds[d.id := feeds[d.id].(lastUpdate := remote.now)])
  {
    var f := feeds[d.id];
    var req := Cursor(f, cfg).value;
    assert Ingested(BatchFor(cfg, remote, d.id), []) == [];
    assert NewEntries(cfg, remote, d.id, req) == [];
    assert EntryIdSet([]) == {};
    RetentionBound(f.entries, cfg.messageLimit);
  }

  lemma CreatedFeedValid(feeds: map<int, Feed>, cfg: Config, remote: Remote, d: Dialog)
    requires ValidStore(feeds) && CreatedFeed(feeds, cfg, remote, d).Ok?
    ensures ValidStore(CreatedFeed(feeds, cfg, remote, d).value)
  {
    var news := NewEntries(cfg, remote, d.id, Latest(cfg.newFeedLimit));
    InsertAllIsSortedMerge([], news);
    InsertAllKeepsIdsUnique([], news);
    NewEntriesBelong(cfg, remote, d.id, Latest(cfg.newFeedLimit));
  }

  lemma UpdatedFeedValid(feeds: map<int, Feed>, cfg: Config, remote: Remote, d: Dialog)
    requires ValidStore(feeds) && UpdatedFeed(feeds, cfg, remote, d).Ok?
    ensures ValidStore(UpdatedFeed(feeds, cfg, remote, d).value)
  {
    var f := feeds[d.id];
    var req := Cursor(f, cfg).value;
    var news := NewEntries(cfg, remote, d.id, req);
    var merged := InsertAll(f.entries, news);
    InsertAllIsSortedMerge(f.entries, news);
    InsertAllKeepsIdsUnique(f.entries, news);
    NewEntriesBelong(cfg, remote, d.id, req);
    RetainedKeepsShape(merged, cfg.messageLimit);
  }

  // ---------------------------------------------------------------------------------------------
  // One cycle of `update_feeds_in_db`

  /** The store after a run of transactions, and the exception that stopped the run, if any. */
  datatype Outcome = Outcome(feeds: map<int, Feed>, failure: Option<Failure>)

  /** `@atomic`: a transaction that raises leaves the store as it was. */
  function Commit(before: map<int, Feed>, r: Result<map<int, Feed>, Failure>): Outcome
  {
    match r
    case Ok(after) => Outcome(after, None)
    case Err(e) => Outcome(before, Some(e))
  }

  datatype Op = Create | Update

  function Apply(op: Op, feeds: map<int, Feed>, cfg: Config, remote: Remote, d: Dialog): Result<map<int, Feed>, Failure>
  {
    match op
    case Create => CreatedFeed(feeds, cfg, remote, d)
    case Update => UpdatedFeed(feeds, cfg, remote, d)
  }

  /** The loops at lines 266-282: one transaction per dialog, in order; the first exception
      propagates and the feeds already handled keep their committed changes. */
  function RunAll(o: Outcome, op: Op, cfg: Config, remote: Remote, ds: seq<Dialog>): Outcome
    decreases |ds|
  {
    if ds == [] then o
    else
      var p := RunAll(o, op, cfg, remote, ds[..|ds| - 1]);
      if p.failure.Some? then p else Commit(p.feeds, Apply(op, p.feeds, cfg, remote, ds[|ds| - 1]))
  }

  /** `update_feeds_in_db`: reconcile, delete, create, update. */
  function Sync(feeds: map<int, Feed>, cfg: Config, remote: Remote): Outcome
  {
    var plan := FetchDialogs(remote.dialogs, feeds.Keys);
    var created := RunAll(Outcome(AfterDelete(feeds, Some(plan.toDelete)), None), Create, cfg, remote, plan.toCreate);
    RunAll(created, Update, cfg, remote, plan.toUpdate)
  }

  /** One more dialog of a run that has not raised is one more committed transaction. */
  lemma RunAllStep(o: Outcome, op: Op, cfg: Config, remote: Remote, ds: seq<Dialog>, i: nat, before: map<int, Feed>)
    requires i < |ds| && RunAll(o, op, cfg, remote, ds[..i]) == Outcome(before, None)
    ensures RunAll(o, op, cfg, remote, ds[..i + 1]) == Commit(before, Apply(op, before, cfg, remote, ds[i]))
  {
    assert ds[..i + 1][..i] == ds[..i];
  }

  /** Once a transaction has raised, the rest of the run changes nothing. */
  lemma {:induction false} FailureStopsRun(o: Outcome, op: Op, cfg: Config, remote: Remote, ds: seq<Dialog>, i: nat)
    requires i <= |ds| && RunAll(o, op, cfg, remote, ds[..i]).failure.Some?
    ensures RunAll(o, op, cfg, remote, ds) == RunAll(o, op, cfg, remote, ds[..i])
    decreases |ds| - i
  {
    if i < |ds| {
      assert ds[..i + 1][..i] == ds[..i];
      FailureStopsRun(o, op, cfg, remote, ds, i + 1);
    } else {
      assert ds[..i] == ds;
    }
  }

  lemma {:induction false} RunAllValid(o: Outcome, op: Op, cfg: Config, remote: Remote, ds: seq<Dialog>)
    requires ValidStore(o.feeds)
    ensures ValidStore(RunAll(o, op, cfg, remote, ds).feeds)
    decreases |ds|
  {
    if ds != [] {
      var p := RunAll(o, op, cfg, remote, ds[..|ds| - 1]);
      RunAllValid(o, op, cfg, remote, ds[..|ds| - 1]);
      var d := ds[|ds| - 1];
      if p.failure.None? && Apply(op, p.feeds, cfg, remote, d).Ok? {
        match op {
          case Create => CreatedFeedValid(p.feeds, cfg, remote, d);
          case Update => UpdatedFeedValid(p.feeds, cfg, remote, d);
        }
      }
    }
  }

  /** Creation adds only the listed ids, and all of them when nothing raised. */
  lemma {:induction false} CreateAllKeys(o: Outcome, cfg: Config, remote: Remote, ds: seq<Dialog>)
    requires o.failure.None?
    ensures RunAll(o, Create, cfg, remote, ds).feeds.Keys <= o.feeds.Keys + IdSet(ds)
    ensures RunAll(o, Create, cfg, remote, ds).failure.None? ==>
              RunAll(o, Create, cfg, remote, ds).feeds.Keys == o.feeds.Keys + IdSet(ds)
    decreases |ds|
  {
    if ds != [] {
      var init, d := ds[..|ds| - 1], ds[|ds| - 1];
      CreateAllKeys(o, cfg, remote, init);
      var p := RunAll(o, Create, cfg, remote, init);
      assert RunAll(o, Create, cfg, remote, ds) ==
        if p.failure.Some? then p else Commit(p.feeds, CreatedFeed(p.feeds, cfg, remote, d));
      CreatedFeedKeys(p.feeds, cfg, remote, d);
      assert IdSet(ds) == IdSet(init) + {d.id} by {
        SplitLast(ds);
      }
    }
  }

  /** A created feed is stored under the dialog's id and nothing else changes key. */
  lemma CreatedFeedKeys(feeds: map<int, Feed>, cfg: Config, remote: Remote, d: Dialog)
    ensures CreatedFeed(feeds, cfg, remote, d).Ok? ==> CreatedFeed(feeds, cfg, remote, d).value.Keys == feeds.Keys + {d.id}
  {
  }

  /** Updates never add or remove a feed. */
  lemma {:induction false} UpdateAllKeys(o: Outcome, cfg: Config, remote: Remote, ds: seq<Dialog>)
    ensures RunAll(o, Update, cfg, remote, ds).feeds.Keys == o.feeds.Keys
    decreases |ds|
  {
    if ds != [] {
      UpdateAllKeys(o, cfg, remote, ds[..|ds| - 1]);
    }
  }

  /** The stages of a cycle: the store after the deletions keeps the listed local ids, creation
      is asked for the listed ids not stored yet, and updates run on what creation left. */
  lemma SyncStages(feeds: map<int, Feed>, cfg: Config, remote: Remote) returns (start: Outcome, created: Outcome)
    ensures var plan := FetchDialogs(remote.dialogs, feeds.Keys);
      && start.failure.None? && start.feeds.Keys == feeds.Keys * IdSet(remote.dialogs)
      && IdSet(plan.toCreate) == IdSet(remote.dialogs) - feeds.Keys
      && created == RunAll(start, Create, cfg, remote, plan.toCreate)
      && Sync(feeds, cfg, remote) == RunAll(created, Update, cfg, remote, plan.toUpdate)
  {
    var plan := FetchDialogs(remote.dialogs, feeds.Keys);
    start := Outcome(AfterDelete(feeds, Some(plan.toDelete)), None);
    created := RunAll(start, Create, cfg, remote, plan.toCreate);
    FetchDialogsPartition(remote.dialogs, feeds.Keys);
  }

  /** A cycle never leaves a feed for a dialog that is gone. */
  lemma SyncDropsVanished(feeds: map<int, Feed>, cfg: Config, remote: Remote)
    ensures Sync(feeds, cfg, remote).feeds.Keys <= IdSet(remote.dialogs)
  {
    var plan := FetchDialogs(remote.dialogs, feeds.Keys);
    var start, created := SyncStages(feeds, cfg, remote);
    CreateAllKeys(start, cfg, remote, plan.toCreate);
    UpdateAllKeys(created, cfg, remote, plan.toUpdate);
  }

  /** A cycle that raised nothing leaves exactly one feed per listed dialog. */
  lemma SyncMirrorsListing(feeds: map<int, Feed>, cfg: Config, remote: Remote)
    ensures Sync(feeds, cfg, remote).failure.None? ==> Sync(feeds, cfg, remote).feeds.Keys == IdSet(remote.dialogs)
  {
    var plan := FetchDialogs(remote.dialogs, feeds.Keys);
    var start, created := SyncStages(feeds, cfg, remote);
    if created.failure.Some? {
      FailedRunIsIdle(created, Update, cfg, remote, plan.toUpdate);
    } else {
      CreateAllKeys(start, cfg, remote, plan.toCreate);
      UpdateAllKeys(created, cfg, remote, plan.toUpdate);
      var listed, local := IdSet(remote.dialogs), feeds.Keys;
      assert (local * listed) + (listed - local) == listed;
    }
  }

  /** A run that starts after a failure changes nothing. */
  lemma FailedRunIsIdle(o: Outcome, op: Op, cfg: Config, remote: Remote, ds: seq<Dialog>)
    requires o.failure.Some?
    ensures RunAll(o, op, cfg, remote, ds) == o
  {
    assert ds[..0] == [];
    FailureStopsRun(o, op, cfg, remote, ds, 0);
  }

  /** A valid store stays valid through a cycle, whether or not it raised. */
  lemma SyncKeepsStoreValid(feeds: map<int, Feed>, cfg: Config, remote: Remote)
    requires ValidStore(feeds)
    ensures ValidStore(Sync(feeds, cfg, remote).feeds)
  {
    var plan := FetchDialogs(remote.dialogs, feeds.Keys);
    var start := Outcome(AfterDelete(feeds, Some(plan.toDelete)), None);
    AfterDeleteValid(feeds, Some(plan.toDelete));
    RunAllValid(start, Create, cfg, remote, plan.toCreate);
    RunAllValid(RunAll(start, Create, cfg, remote, plan.toCreate), Update, cfg, remote, plan.toUpdate);
  }
}
