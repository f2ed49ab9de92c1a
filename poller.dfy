/** The poller's store-changing operations (telegram_to_rss/poll_telegram.py, `TelegramPoller`
    and the functions `reset_feeds_in_db` and `update_feeds_in_db`). Each per-feed transaction
    builds its result locally and commits it in one assignment, as `@atomic` does. */
module Poller {
  import opened Wrappers
  import opened EntryIds
  import opened Reconcile
  import opened Ingest
  import opened Store

  class TelegramPoller {
    const config: Config
    /** The feeds table, with each feed's entries. */
    var feeds: map<int, Feed>

    /** The database constraints every operation keeps, and every entry named after its feed. */
    predicate Valid()
      reads this
    {
      ValidStore(feeds)
    }

    constructor (config: Config, feeds: map<int, Feed>)
      requires ValidStore(feeds)
      ensures Valid() && this.config == config && this.feeds == feeds
    {
      this.config := config;
      this.feeds := feeds;
    }

    /** `bulk_delete_feeds`. */
    method BulkDeleteFeeds(ids: Option<set<int>>)
      requires Valid()
      modifies this
      ensures Valid()
      ensures feeds == AfterDelete(old(feeds), ids)
    {
      match ids {
        case None =>
          feeds := map[];
        case Some(s) =>
          if s != {} {
            feeds := map id | id in feeds && id !in s :: feeds[id];
          }
      }
    }

    /** `reset_feeds_in_db`: every feed and entry is deleted. */
    method ResetFeedsInDb()
      requires Valid()
      modifies this
      ensures Valid() && feeds == map[]
    {
      BulkDeleteFeeds(None);
    }

    /** `create_feed`. */
    method CreateFeed(remote: Remote, d: Dialog) returns (failure: Option<Failure>)
      requires Valid()
      modifies this
      ensures Valid()
      ensures Outcome(feeds, failure) == Commit(old(feeds), CreatedFeed(old(feeds), config, remote, d))
    {
      if d.id in feeds {
        return Some(IntegrityError);
      }
      var msgs := remote.fetch(d.id, Latest(config.newFeedLimit));
      var news := ProcessNewDialogMessages(BatchFor(config, remote, d.id), msgs);
      if Collides([], news) {
        return Some(IntegrityError);
      }
      CreatedFeedValid(feeds, config, remote, d);
      feeds := feeds[d.id := Feed(d.id, d.name, remote.now, InsertAll([], news))];
      failure := None;
    }

    /** `update_feed`, with the retention loop deleting the entries the window query returns one
        by one. */
    method UpdateFeed(remote: Remote, d: Dialog) returns (failure: Option<Failure>)
      requires Valid()
      modifies this
      ensures Valid()
      ensures Outcome(feeds, failure) == Commit(old(feeds), UpdatedFeed(old(feeds), config, remote, d))
    {
      if d.id !in feeds {
        return Some(DoesNotExist);
      }
      var feed := feeds[d.id];
      var req: FetchRequest;
      if |feed.entries| == 0 {
        req := Latest(config.newFeedLimit);
      } else {
        match ParseFeedEntryId(feed.entries[0].id) {
          case None =>
            return Some(ValueError);
          case Some((_, msgId)) =>
            req := After(msgId);
        }
      }
      var msgs := remote.fetch(d.id, req);
      var news := ProcessNewDialogMessages(BatchFor(config, remote, d.id), msgs);
      if Collides(feed.entries, news) {
        return Some(IntegrityError);
      }
      assert Cursor(feed, config) == Ok(req);
      var merged := InsertAll(feed.entries, news);
      InsertAllKeepsIdsUnique(feed.entries, news);
      UpdatedFeedValid(feeds, config, remote, d);
      var kept := DeleteWindow(merged, config.messageLimit);
      feeds := feeds[d.id := feed.(lastUpdate := remote.now, entries := kept)];
      failure := None;
    }

    /** Lines 120-129: the entries at date-descending positions `[limit, 2 * limit)` of `merged`,
        deleted one at a time by primary key. */
    static method DeleteWindow(merged: seq<FeedEntry>, limit: nat) returns (kept: seq<FeedEntry>)
      requires UniqueIds(merged)
      ensures kept == Retained(merged, limit)
    {
      var lo := if limit < |merged| then limit else |merged|;
      var hi := if 2 * limit < |merged| then 2 * limit else |merged|;
      kept := merged;
      var k := lo;
      assert merged == merged[..lo] + merged[lo..];
      while k < hi
        invariant lo <= k <= hi
        invariant kept == merged[..lo] + merged[k..]
      {
        RemoveEntryAt(merged, lo, k);
        kept := RemoveEntry(kept, merged[k].id);
        k := k + 1;
      }
    }

    /** One of the loops at lines 266-282: a transaction per dialog, in order, until one raises. */
    method RunTransactions(remote: Remote, op: Op, ds: seq<Dialog>) returns (failure: Option<Failure>)
      requires Valid()
      modifies this
      ensures Valid()
      ensures Outcome(feeds, failure) == RunAll(Outcome(old(feeds), None), op, config, remote, ds)
    {
      ghost var start := Outcome(feeds, None);
      var i := 0;
      while i < |ds|
        invariant 0 <= i <= |ds|
        invariant Valid()
        invariant RunAll(start, op, config, remote, ds[..i]) == Outcome(feeds, None)
      {
        ghost var before := feeds;
        failure := RunOne(remote, op, ds[i]);
        RunAllStep(start, op, config, remote, ds, i, before);
        if failure.Some? {
          FailureStopsRun(start, op, config, remote, ds, i + 1);
          return;
        }
        i := i + 1;
      }
      assert ds[..i] == ds;
      failure := None;
    }

    /** One transaction of those loops: `create_feed` or `update_feed` for one dialog. */
    method RunOne(remote: Remote, op: Op, d: Dialog) returns (failure: Option<Failure>)
      requires Valid()
      modifies this
      ensures Valid()
      ensures Outcome(feeds, failure) == Commit(old(feeds), Apply(op, old(feeds), config, remote, d))
    {
      match op {
        case Create => failure := CreateFeed(remote, d);
        case Update => failure := UpdateFeed(remote, d);
      }
    }

    /** `update_feeds_in_db`: reconcile the listing with the stored feeds, delete, then create and
        update one dialog at a time; the first exception ends the cycle. */
    method UpdateFeedsInDb(remote: Remote) returns (failure: Option<Failure>)
      requires Valid()
      modifies this
      ensures Valid()
      ensures Outcome(feeds, failure) == Sync(old(feeds), config, remote)
    {
      var plan := FetchDialogs(remote.dialogs, feeds.Keys);
      BulkDeleteFeeds(Some(plan.toDelete));
      failure := RunTransactions(remote, Create, plan.toCreate);
      if failure.Some? {
        ghost var created := Outcome(feeds, failure);
        assert plan.toUpdate[..0] == [];
        FailureStopsRun(created, Update, config, remote, plan.toUpdate, 0);
        return;
      }
      failure := RunTransactions(remote, Update, plan.toUpdate);
    }
  }
}
