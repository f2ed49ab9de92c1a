/** Reconciling the remote dialog listing with the stored feeds
    (telegram_to_rss/poll_telegram.py, `TelegramPoller.fetch_dialogs`). */
module Reconcile {

  /** A remote dialog as listed by the client: its id and display name. */
  datatype Dialog = Dialog(id: int, name: string)

  /** The triple `fetch_dialogs` returns: ids to delete, dialogs to create, dialogs to update. */
  datatype Plan = Plan(toDelete: set<int>, toCreate: seq<Dialog>, toUpdate: seq<Dialog>)

  /** `set([dialog.id for dialog in ...])`. */
  function IdSet(ds: seq<Dialog>): set<int>
  {
    set d | d in ds :: d.id
  }

  /** The ids of a selection are the listed ids that were asked for. */
  lemma SelectIds(ds: seq<Dialog>, ids: set<int>)
    ensures IdSet(Select(ds, ids)) == IdSet(ds) * ids
  {
    var r := Select(ds, ids);
    forall i | i in IdSet(ds) * ids ensures i in IdSet(r) {
      var d :| d in ds && d.id == i;
      assert d in r;
    }
  }

  /** The dialogs of `ds` whose id is in `ids`, in listing order
      (`[dialog for dialog in tg_dialogs if dialog.id in ...]`). */
  function Select(ds: seq<Dialog>, ids: set<int>): (r: seq<Dialog>)
    ensures |r| <= |ds|
    ensures forall d | d in r :: d in ds && d.id in ids
    ensures forall d | d in ds && d.id in ids :: d in r
  {
    if ds == [] then []
    else (if ds[0].id in ids then [ds[0]] else []) + Select(ds[1..], ids)
  }

  /** `fetch_dialogs` given the remote listing and the ids of the stored feeds. */
  function FetchDialogs(remote: seq<Dialog>, local: set<int>): (p: Plan)
  {
    var remoteIds := IdSet(remote);
    Plan(local - remoteIds, Select(remote, remoteIds - local), Select(remote, local * remoteIds))
  }

  /** Delete, create and update are local - remote, remote - local and local * remote; they are
      pairwise disjoint and together cover every id seen on either side. */
  lemma FetchDialogsPartition(remote: seq<Dialog>, local: set<int>)
    ensures var p := FetchDialogs(remote, local);
      && p.toDelete == local - IdSet(remote)
      && IdSet(p.toCreate) == IdSet(remote) - local
      && IdSet(p.toUpdate) == local * IdSet(remote)
      && p.toDelete !! IdSet(p.toCreate) && p.toDelete !! IdSet(p.toUpdate)
      && IdSet(p.toCreate) !! IdSet(p.toUpdate)
      && p.toDelete + IdSet(p.toCreate) + IdSet(p.toUpdate) == local + IdSet(remote)
  {
    var rs := IdSet(remote);
    SelectIds(remote, rs - local);
    SelectIds(remote, local * rs);
  }

  /** Each listed dialog lands in exactly one of the create and update lists. */
  lemma {:induction false} SelectSplitsListing(ds: seq<Dialog>, local: set<int>)
    ensures |Select(ds, IdSet(ds) - local)| + |Select(ds, local * IdSet(ds))| == |ds|
  {
    SelectComplement(ds, IdSet(ds), local);
  }

  lemma {:induction false} SelectComplement(ds: seq<Dialog>, all: set<int>, local: set<int>)
    requires IdSet(ds) <= all
    ensures |Select(ds, all - local)| + |Select(ds, local * all)| == |ds|
  {
    if ds != [] {
      assert forall d | d in ds[1..] :: d in ds;
      assert IdSet(ds[1..]) <= IdSet(ds);
      SelectComplement(ds[1..], all, local);
    }
  }

  /** Selection keeps the listing order: a dialog listed before another is selected before it. */
  lemma {:induction false} SelectKeepsOrder(a: seq<Dialog>, b: seq<Dialog>, ids: set<int>)
    ensures Select(a + b, ids) == Select(a, ids) + Select(b, ids)
  {
    if a == [] {
      assert a + b == b;
    } else {
      assert (a + b)[1..] == a[1..] + b;
      SelectKeepsOrder(a[1..], b, ids);
    }
  }

  /** Remote {1, 2, 3} against local {2, 3, 4}: delete {4}, create [1], update [2, 3]. */
  lemma FetchDialogsExample()
    ensures var p := FetchDialogs([Dialog(1, "a"), Dialog(2, "b"), Dialog(3, "c")], {2, 3, 4});
      p == Plan({4}, [Dialog(1, "a")], [Dialog(2, "b"), Dialog(3, "c")])
  {
    var remote := [Dialog(1, "a"), Dialog(2, "b"), Dialog(3, "c")];
    var rest := [Dialog(2, "b"), Dialog(3, "c")];
    var last := [Dialog(3, "c")];
    assert remote[1..] == rest && rest[1..] == last && last[1..] == [];
    assert IdSet(remote) == {1, 2, 3} by {
      assert forall d | d in remote :: d.id in {1, 2, 3};
      assert remote[0].id == 1 && remote[1].id == 2 && remote[2].id == 3;
    }
    var local: set<int> := {2, 3, 4};
    assert local - {1, 2, 3} == {4};
    assert {1, 2, 3} - local == {1};
    assert local * {1, 2, 3} == {2, 3};
    assert Select(last, {1}) == [];
    assert Select(rest, {1}) == [];
    assert Select(remote, {1}) == [Dialog(1, "a")];
    assert Select(last, {2, 3}) == last;
    assert Select(rest, {2, 3}) == rest;
    assert Select(remote, {2, 3}) == rest;
  }
}
