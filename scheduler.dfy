/** The refresh cycle of the server (telegram_to_rss/server.py, `update_rss` inside
    `start_rss_generation`): one run updates the store, renders the feeds and sleeps; the
    exception that ends a run decides whether the store is reset and with what delay the next run
    is scheduled. Tasks and sleeping are modelled as the delays the runs are created with. */
module Scheduler {
  import opened Wrappers
  import opened Store
  import opened Poller
  import opened Render
  import opened Seqs

  /** The three awaited stages of a run, in order. */
  datatype Stage = DbStage | CacheStage | SleepStage

  /** What the event loop and the network do to a run besides what the store and the renderer
      compute: the task is cancelled, or the Telegram connection drops, as a stage begins. */
  datatype Interruption = Uninterrupted | Cancelled(at: Stage) | Disconnected(at: Stage)

  /** The exception that reaches the handlers at lines 70-80. */
  datatype Raised = CancelledError | ConnectionLost | OtherError

  /** What the `finally` block does: create no task, or one task with the given initial delay. */
  datatype Next = Stop | Schedule(delay: Option<nat>)

  /** Everything a run depends on besides the store: the remote side, the rendering site, the
      order in which `Feed.all()` lists the feeds, and the interruption, if any. */
  datatype Env = Env(remote: Remote, site: Site, order: seq<int>, interruption: Interruption)

  /** The store, the documents written and the exception raised by one run. */
  datatype RunResult = RunResult(feeds: map<int, Feed>, docs: seq<Document>, raised: Option<Raised>)

  /** Lines 59-60, 70-73, 76-77 and 81-85: a run that raised nothing is followed at once, a
      cancelled run by nothing, a lost connection after 5 seconds and any other exception after
      2 seconds. */
  function Policy(raised: Option<Raised>): (n: Next)
    ensures n.Stop? <==> raised == Some(CancelledError)
    ensures n == Schedule(None) <==> raised == None
    ensures n == Schedule(Some(5)) <==> raised == Some(ConnectionLost)
    ensures n == Schedule(Some(2)) <==> raised == Some(OtherError)
  {
    match raised
    case None => Schedule(None)
    case Some(CancelledError) => Stop
    case Some(ConnectionLost) => Schedule(Some(5))
    case Some(OtherError) => Schedule(Some(2))
  }

  /** The exception the interruption raises as the given stage begins. */
  function AtStage(i: Interruption, s: Stage): (r: Option<Raised>)
    ensures r.Some? <==> i == Cancelled(s) || i == Disconnected(s)
    ensures r != Some(OtherError)
  {
    match i
    case Cancelled(t) => if t == s then Some(CancelledError) else None
    case Disconnected(t) => if t == s then Some(ConnectionLost) else None
    case Uninterrupted => None
  }

  /** `Feed.all()`: the stored feeds whose ids `order` lists, in that order. */
  function Listed(feeds: map<int, Feed>, order: seq<int>): (r: seq<Feed>)
    ensures |r| <= |order|
    ensures forall f | f in r :: f in feeds.Values
    ensures forall id | id in order && id in feeds :: feeds[id] in r
    decreases |order|
  {
    if order == [] then []
    else
      var id := order[|order| - 1];
      assert forall x | x in order :: x in order[..|order| - 1] || x == id;
      Listed(feeds, order[..|order| - 1]) + (if id in feeds then [feeds[id]] else [])
  }

  /** `order` lists every id of `keys` exactly once, and nothing else. */
  predicate Enumerates(order: seq<int>, keys: set<int>)
  {
    && (forall k | 0 <= k < |order| :: order[k] in keys)
    && (forall id | id in keys :: id in order)
    && (forall i, j | 0 <= i < j < |order| :: order[i] != order[j])
  }

  /** When every id of `order` is stored, `Feed.all()` lists the stored feeds one for one in
      `order`'s order. */
  lemma {:induction false} ListedFollowsOrder(feeds: map<int, Feed>, order: seq<int>)
    requires forall k | 0 <= k < |order| :: order[k] in feeds
    ensures |Listed(feeds, order)| == |order|
    ensures forall k | 0 <= k < |order| :: Listed(feeds, order)[k] == feeds[order[k]]
    decreases |order|
  {
    if order != [] {
      var init, id := order[..|order| - 1], order[|order| - 1];
      assert forall k | 0 <= k < |init| :: init[k] == order[k];
      ListedFollowsOrder(feeds, init);
      var listed, before := Listed(feeds, order), Listed(feeds, init);
      assert listed == before + [feeds[id]];
      forall k | 0 <= k < |order| ensures listed[k] == feeds[order[k]] {
        if k < |init| {
          assert listed[k] == before[k];
        }
      }
    }
  }

  /** One run of lines 59-80 from the stored feeds, `render` producing each feed's document: the
      store update, then, only if it raised nothing, the render, then the sleep; any exception
      other than a cancellation or a lost connection resets the store. */
  function RunWith(render: Feed -> Result<Document, RenderError>, feeds: map<int, Feed>, cfg: Config, env: Env): RunResult
  {
    if AtStage(env.interruption, DbStage).Some? then RunResult(feeds, [], AtStage(env.interruption, DbStage))
    else
      var synced := Sync(feeds, cfg, env.remote);
      if synced.failure.Some? then RunResult(map[], [], Some(OtherError))
      else if AtStage(env.interruption, CacheStage).Some? then
        RunResult(synced.feeds, [], AtStage(env.interruption, CacheStage))
      else
        var cache := WriteAll(render, Listed(synced.feeds, env.order));
        if cache.failure.Some? then RunResult(map[], cache.docs, Some(OtherError))
        else RunResult(synced.feeds, cache.docs, AtStage(env.interruption, SleepStage))
  }

  /** A run with slots read as intended. */
  function Run(feeds: map<int, Feed>, cfg: Config, env: Env): RunResult
  {
    RunWith(DocumentsOf(env.site), feeds, cfg, env)
  }

  /** A run as written: `generate_feed` calls `starts_with` on the first slot that is not "FAIL". */
  function RunAsWritten(feeds: map<int, Feed>, cfg: Config, env: Env): RunResult
  {
    RunWith(DocumentsAsWrittenOf(env.site), feeds, cfg, env)
  }

  /** As written, one stored slot other than "FAIL" in a listed feed makes the run raise and reset
      the store, whatever else happens in it. */
  lemma RunAsWrittenResets(feeds: map<int, Feed>, cfg: Config, env: Env, id: int, i: int, k: int)
    requires AtStage(env.interruption, DbStage).None? && AtStage(env.interruption, CacheStage).None?
    requires var synced := Sync(feeds, cfg, env.remote).feeds;
      && id in synced && id in env.order
      && 0 <= i < |synced[id].entries| && 0 <= k < |synced[id].entries[i].media|
      && synced[id].entries[i].media[k] != "FAIL"
    ensures RunAsWritten(feeds, cfg, env).raised == Some(OtherError)
    ensures RunAsWritten(feeds, cfg, env).feeds == map[]
  {
    var synced := Sync(feeds, cfg, env.remote);
    if synced.failure.None? {
      var f := synced.feeds[id];
      var listed := Listed(synced.feeds, env.order);
      var render := DocumentsAsWrittenOf(env.site);
      RenderFeedAsWrittenAgrees(env.site, f);
      WriteAllStopsAtFirstFailure(render, listed);
      var p :| 0 <= p < |listed| && listed[p] == f;
      assert render(listed[p]).Err?;
      assert WriteAll(render, listed).failure.Some?;
    }
  }

  /** The store is reset exactly when the store update or the render raised; a cancellation or a
      lost connection leaves it as the last completed stage left it. */
  lemma RunResetsOnlyOnOtherError(feeds: map<int, Feed>, cfg: Config, env: Env)
    ensures var r := Run(feeds, cfg, env);
      var synced := Sync(feeds, cfg, env.remote);
      && (r.raised == Some(OtherError) <==>
            AtStage(env.interruption, DbStage).None?
            && (synced.failure.Some?
                || (AtStage(env.interruption, CacheStage).None?
                    && RenderAll(env.site, Listed(synced.feeds, env.order)).failure.Some?)))
      && (r.raised == Some(OtherError) ==> r.feeds == map[])
      && (r.raised != Some(OtherError) ==>
            r.feeds == if AtStage(env.interruption, DbStage).Some? then feeds else synced.feeds)
  {
  }

  /** Rendering happens only after a store update that raised nothing, and writes the documents of
      the listed feeds in order until the first that fails. */
  lemma RenderOnlyAfterDb(feeds: map<int, Feed>, cfg: Config, env: Env)
    ensures var r := Run(feeds, cfg, env);
      var synced := Sync(feeds, cfg, env.remote);
      var listed := Listed(synced.feeds, env.order);
      && (r.docs != [] ==> AtStage(env.interruption, DbStage).None? && synced.failure.None?)
      && |r.docs| <= |listed|
      && forall k | 0 <= k < |r.docs| :: RenderFeed(env.site, listed[k]) == Ok(r.docs[k])
  {
    var synced := Sync(feeds, cfg, env.remote);
    RenderAllStopsAtFirstFailure(env.site, Listed(synced.feeds, env.order));
  }

  /** A run raises nothing exactly when it is not interrupted and neither the store update nor the
      render fails; then every listed feed has its document. */
  lemma SuccessfulRun(feeds: map<int, Feed>, cfg: Config, env: Env)
    ensures var r := Run(feeds, cfg, env);
      var synced := Sync(feeds, cfg, env.remote);
      var listed := Listed(synced.feeds, env.order);
      && (r.raised.None? <==>
            env.interruption == Uninterrupted && synced.failure.None?
            && RenderAll(env.site, listed).failure.None?)
      && (r.raised.None? ==> r.feeds == synced.feeds && |r.docs| == |listed|)
  {
    var synced := Sync(feeds, cfg, env.remote);
    RenderAllStopsAtFirstFailure(env.site, Listed(synced.feeds, env.order));
  }

  /** When `Feed.all()` lists every stored feed once, a run that raised nothing has written one
      document per stored feed, in listing order, to pairwise different files. */
  lemma SuccessfulRunRendersEveryFeed(feeds: map<int, Feed>, cfg: Config, env: Env)
    requires ValidStore(feeds) && Enumerates(env.order, Sync(feeds, cfg, env.remote).feeds.Keys)
    ensures var r := Run(feeds, cfg, env);
      r.raised.None? ==>
        && |r.docs| == |env.order| == |r.feeds|
        && (forall id | id in r.feeds :: id in env.order)
        && (forall k | 0 <= k < |r.docs| :: env.order[k] in r.feeds && RenderFeed(env.site, r.feeds[env.order[k]]) == Ok(r.docs[k]))
        && (forall i, j | 0 <= i < j < |r.docs| :: r.docs[i].fileName != r.docs[j].fileName)
  {
    var r := Run(feeds, cfg, env);
    if r.raised.None? {
      var synced := Sync(feeds, cfg, env.remote);
      SuccessfulRun(feeds, cfg, env);
      RenderOnlyAfterDb(feeds, cfg, env);
      SyncKeepsStoreValid(feeds, cfg, env.remote);
      EnumeratedDocs(env.site, synced.feeds, env.order, r.docs);
    }
  }

  /** The documents of an enumerated listing: one per stored feed, in `order`, with distinct file
      names. */
  lemma EnumeratedDocs(site: Site, stored: map<int, Feed>, order: seq<int>, docs: seq<Document>)
    requires WellFormed(stored) && Enumerates(order, stored.Keys)
    requires |docs| == |Listed(stored, order)|
    requires forall k | 0 <= k < |docs| :: RenderFeed(site, Listed(stored, order)[k]) == Ok(docs[k])
    ensures |docs| == |order| == |stored|
    ensures forall k | 0 <= k < |docs| :: RenderFeed(site, stored[order[k]]) == Ok(docs[k])
    ensures forall i, j | 0 <= i < j < |docs| :: docs[i].fileName != docs[j].fileName
  {
    ListedFollowsOrder(stored, order);
    EnumerationCardinality(order, stored.Keys);
    DistinctFileNames(site, stored, order, docs);
  }

  lemma EnumerationCardinality(order: seq<int>, keys: set<int>)
    requires Enumerates(order, keys)
    ensures |order| == |keys|
  {
    DistinctCardinality(order);
    var elems := set x | x in order;
    forall x | x in elems ensures x in keys {
      var k :| 0 <= k < |order| && order[k] == x;
    }
    forall x | x in keys ensures x in elems {
      assert x in order;
    }
    assert elems == keys;
  }

  /** Distinct stored ids render to distinct file names. */
  lemma DistinctFileNames(site: Site, stored: map<int, Feed>, order: seq<int>, docs: seq<Document>)
    requires WellFormed(stored) && |docs| == |order|
    requires forall i, j | 0 <= i < j < |order| :: order[i] != order[j]
    requires forall k | 0 <= k < |docs| :: order[k] in stored && RenderFeed(site, stored[order[k]]) == Ok(docs[k])
    ensures forall i, j | 0 <= i < j < |docs| :: docs[i].fileName != docs[j].fileName
  {
    forall i, j | 0 <= i < j < |docs| ensures docs[i].fileName != docs[j].fileName {
      RenderFeedFileName(site, stored[order[i]]);
      RenderFeedFileName(site, stored[order[j]]);
      FileNamesDiffer(order[i], order[j]);
    }
  }

  /** Every run leaves a consistent store, whichever way it ends. */
  lemma RunKeepsStoreValid(feeds: map<int, Feed>, cfg: Config, env: Env)
    requires ValidStore(feeds)
    ensures ValidStore(Run(feeds, cfg, env).feeds)
  {
    SyncKeepsStoreValid(feeds, cfg, env.remote);
    AfterDeleteValid(feeds, None);
  }

  /** The stores and task delays of successive runs, and whether a run has ended the chain. */
  datatype History = History(feeds: map<int, Feed>, tasks: seq<Option<nat>>, stopped: bool)

  /** Lines 81-90: the first task has no delay, and each run that is not cancelled creates the
      next task from its `finally` block; the runs are the environments in order. */
  function Chain(feeds: map<int, Feed>, cfg: Config, envs: seq<Env>): History
    decreases |envs|
  {
    if envs == [] then History(feeds, [None], false)
    else
      var h := Chain(feeds, cfg, envs[..|envs| - 1]);
      if h.stopped then h
      else
        var r := Run(h.feeds, cfg, envs[|envs| - 1]);
        match Policy(r.raised)
        case Stop => History(r.feeds, h.tasks, true)
        case Schedule(d) => History(r.feeds, h.tasks + [d], false)
  }

  /** Runs never overlap: a chain that is still going has created exactly one task more than it
      has run, the first without a delay and every other with no delay, 2 or 5 seconds; a stopped
      chain has created no more tasks than runs. The store stays consistent throughout. */
  lemma {:induction false} ChainSchedulesOneSuccessor(feeds: map<int, Feed>, cfg: Config, envs: seq<Env>)
    requires ValidStore(feeds)
    ensures var h := Chain(feeds, cfg, envs);
      && 1 <= |h.tasks| && h.tasks[0] == None
      && (!h.stopped ==> |h.tasks| == |envs| + 1)
      && (h.stopped ==> |h.tasks| <= |envs|)
      && (forall k | 0 <= k < |h.tasks| :: h.tasks[k] == None || h.tasks[k] == Some(2) || h.tasks[k] == Some(5))
      && ValidStore(h.feeds)
    decreases |envs|
  {
    if envs != [] {
      var h := Chain(feeds, cfg, envs[..|envs| - 1]);
      ChainSchedulesOneSuccessor(feeds, cfg, envs[..|envs| - 1]);
      if !h.stopped {
        RunKeepsStoreValid(h.feeds, cfg, envs[|envs| - 1]);
      }
    }
  }

  /** The server's refresh loop: the poller it drives and the tasks created so far. */
  class RssService {
    const poller: TelegramPoller
    /** The initial delay of every `update_rss` task created so far, in creation order; the last
        one is `rss_task`. */
    var tasks: seq<Option<nat>>

    constructor (poller: TelegramPoller)
      ensures this.poller == poller && tasks == []
    {
      this.poller := poller;
      tasks := [];
    }

    /** Lines 89-90: the first run is created without a delay. */
    method StartRssGeneration()
      modifies this
      ensures tasks == old(tasks) + [None]
    {
      tasks := tasks + [None];
    }

    /** `update_rss`: one run, then the `finally` block. */
    method UpdateRss(env: Env) returns (docs: seq<Document>, raised: Option<Raised>)
      requires poller.Valid()
      modifies this, poller
      ensures poller.Valid()
      ensures RunResult(poller.feeds, docs, raised) == Run(old(poller.feeds), poller.config, env)
      ensures tasks == old(tasks) + match Policy(raised) case Stop => [] case Schedule(d) => [d]
    {
      var shouldReschedule := true;
      var rescheduleDelay: Option<nat> := None;
      docs := [];
      raised := AtStage(env.interruption, DbStage);
      if raised.None? {
        var failure := poller.UpdateFeedsInDb(env.remote);
        if failure.Some? {
          raised := Some(OtherError);
        } else {
          raised := AtStage(env.interruption, CacheStage);
          if raised.None? {
            var renderFailure;
            docs, renderFailure := UpdateFeedsCache(env.site, Listed(poller.feeds, env.order));
            raised := if renderFailure.Some? then Some(OtherError) else AtStage(env.interruption, SleepStage);
          }
        }
      }
      match raised {
        case None =>
        case Some(CancelledError) =>
          shouldReschedule := false;
        case Some(ConnectionLost) =>
          rescheduleDelay := Some(5);
        case Some(OtherError) =>
          rescheduleDelay := Some(2);
          poller.ResetFeedsInDb();
      }
      if shouldReschedule {
        tasks := tasks + [rescheduleDelay];
      }
    }
  }
}
