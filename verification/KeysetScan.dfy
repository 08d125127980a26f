/** The keyset-paged scan over the enabled channels: pages of 100 in ascending id order, each page
    starting after the last id seen. */
module KeysetScan {
  import opened Sequences

  const BATCH_SIZE := 100
  const ENABLED := 1

  datatype Channel = Channel(id: int, status: int)

  /** The channel table in primary-key order. */
  ghost predicate Keyed(table: seq<Channel>) {
    && (forall i :: 0 <= i < |table| ==> 0 < table[i].id)
    && (forall i, j :: 0 <= i < j < |table| ==> table[i].id < table[j].id)
  }

  /** The query: enabled, after `lastID` once there is one, at most `limit`. */
  function FindEnabledAfter(table: seq<Channel>, lastID: int, limit: nat): seq<Channel> {
    var found := Filter(table, (c: Channel) => c.status == ENABLED && (lastID > 0 ==> c.id > lastID));
    if |found| <= limit then found else found[..limit]
  }

  function Enabled(table: seq<Channel>): seq<Channel> {
    Filter(table, (c: Channel) => c.status == ENABLED)
  }

  lemma {:induction false} FilterKeyed(table: seq<Channel>, keep: Channel -> bool)
    requires Keyed(table)
    ensures Keyed(Filter(table, keep)) && forall c :: c in Filter(table, keep) ==> c in table
  {
    FilterMembers(table, keep);
    if table != [] {
      var front, last := table[..|table| - 1], table[|table| - 1];
      FilterKeyed(front, keep);
      forall i | 0 <= i < |Filter(front, keep)|
        ensures 0 < Filter(front, keep)[i].id < last.id
      {
        assert Filter(front, keep)[i] in front;
      }
    }
  }

  lemma AfterKth(all: seq<Channel>, k: nat, after: Channel -> bool)
    requires Keyed(all) && 0 < k <= |all|
    requires forall c: Channel :: after(c) <==> c.id > all[k - 1].id
    ensures Filter(all, after) == all[k..]
  {
    FilterConcat(all[..k], all[k..], after);
    assert all[..k] + all[k..] == all;
    FilterNone(all[..k], after);
    FilterAll(all[k..], after);
  }

  /** After a page that ended with the k-th enabled channel, the next query starts at the k-th. */
  lemma NextPage(table: seq<Channel>, k: nat, lastID: int)
    requires Keyed(table)
    requires k <= |Enabled(table)| && lastID == if k == 0 then 0 else Enabled(table)[k - 1].id
    ensures var rest := Enabled(table)[k..];
            FindEnabledAfter(table, lastID, BATCH_SIZE) == if |rest| <= 100 then rest else rest[..100]
  {
    var enabled := (c: Channel) => c.status == ENABLED;
    var both := (c: Channel) => c.status == ENABLED && (lastID > 0 ==> c.id > lastID);
    FilterKeyed(table, enabled);
    if k == 0 {
      FilterSame(table, both, enabled);
    } else {
      var after := (c: Channel) => c.id > lastID;
      FilterTwice(table, enabled, after, both);
      AfterKth(Enabled(table), k, after);
    }
  }

  /** Ids of a list of channels. */
  function Ids(channels: seq<Channel>): seq<int> {
    seq(|channels|, i requires 0 <= i < |channels| => channels[i].id)
  }

  datatype Outcome = Complete | Cancelled | QueryFailed

  /** The scan loop, on a table that does not change meanwhile. `cancelled(n)` is what the n-th look at the context
      finds, before every page and before every row; `failed(n)` says whether the n-th query fails. The scan ends,
      visits enabled channels in ascending id order without gap or repetition, and stops early only when it finds
      the context cancelled or a query fails. It looks once per page and row, and a page holds 100. */
  method Scan(table: seq<Channel>, cancelled: nat -> bool, failed: nat -> bool)
    returns (visited: seq<int>, outcome: Outcome, looks: nat, queries: nat)
    requires Keyed(table)
    ensures visited <= Ids(Enabled(table))
    ensures outcome == Complete ==> visited == Ids(Enabled(table))
    ensures outcome == Cancelled ==> cancelled(looks)
    ensures outcome == QueryFailed ==> failed(queries)
    ensures (forall n: nat :: n < looks ==> !cancelled(n)) && (forall n: nat :: n < queries ==> !failed(n))
    ensures outcome == QueryFailed ==> looks == |visited| + queries + 1
    ensures outcome != QueryFailed ==> looks == |visited| + queries
    ensures 100 * queries - 100 <= |visited| <= 100 * queries && (outcome == Complete ==> |visited| < 100 * queries)
  {
    hide Enabled, FindEnabledAfter, Keyed;
    visited, looks, queries := [], 0, 0;
    var lastID := 0;
    ghost var all := Enabled(table);
    while true
      invariant |visited| <= |all| && visited == Ids(all[..|visited|])
      invariant lastID == if |visited| == 0 then 0 else all[|visited| - 1].id
      invariant (forall n: nat :: n < looks ==> !cancelled(n)) && (forall n: nat :: n < queries ==> !failed(n))
      invariant looks == |visited| + queries && |visited| == 100 * queries
      decreases |all| - |visited|
    {
      if cancelled(looks) {
        return visited, Cancelled, looks, queries;
      }
      looks := looks + 1;
      NextPage(table, |visited|, lastID);
      if failed(queries) {
        return visited, QueryFailed, looks, queries;
      }
      queries := queries + 1;
      var page := FindEnabledAfter(table, lastID, BATCH_SIZE);
      if |page| == 0 {
        return visited, Complete, looks, queries;
      }
      lastID := page[|page| - 1].id;
      ghost var start := |visited|;
      for i := 0 to |page|
        invariant |visited| == start + i && visited == Ids(all[..|visited|])
        invariant (forall n: nat :: n < looks ==> !cancelled(n)) && looks == |visited| + queries
      {
        if cancelled(looks) {
          return visited, Cancelled, looks, queries;
        }
        looks := looks + 1;
        assert page[i] == all[start + i];
        visited := visited + [page[i].id];
      }
      if |page| < BATCH_SIZE {
        return visited, Complete, looks, queries;
      }
    }
  }

  lemma {:induction false} EnabledIds(table: seq<Channel>)
    requires Keyed(table)
    ensures var ids := Ids(Enabled(table));
            && (forall i, j :: 0 <= i < j < |ids| ==> ids[i] < ids[j])
            && (forall i :: 0 <= i < |table| ==> (table[i].status == 1 <==> table[i].id in ids))
  {
    var enabled := (c: Channel) => c.status == ENABLED;
    FilterKeyed(table, enabled);
    FilterMembers(table, enabled);
    var all, ids := Enabled(table), Ids(Enabled(table));
    forall i | 0 <= i < |table|
      ensures table[i].status == ENABLED <==> table[i].id in ids
    {
      assert table[i] in table;
      if table[i].status == ENABLED {
        var k :| 0 <= k < |all| && all[k] == table[i];
        assert ids[k] == table[i].id;
      }
      if table[i].id in ids {
        var k :| 0 <= k < |ids| && ids[k] == table[i].id;
        assert all[k] in table;
        var j :| 0 <= j < |table| && table[j] == all[k];
      }
    }
  }
}
