/** `RetryStore`: the three tables that survive a crash. */
module RetryTables {
  import opened Forwarding
  import opened Wrappers
  import opened Backoff
  import P = Protocol

  // ---- The height row ----

  /** `height as i64`, as stored. */
  function StoredHeight(height: nat): I64
    requires height < TWO_64
  {
    AsI64(height)
  }

  /** `h.max(0) as u64`, as loaded. */
  function LoadedHeight(row: I64): nat {
    if row < 0 then 0 else row
  }

  /** A stored cursor loads back unchanged exactly in the range of a block height; beyond it, as 0. */
  lemma HeightRoundTrip(height: nat)
    requires height < TWO_64
    ensures LoadedHeight(StoredHeight(height)) == height <==> height < TWO_63
    ensures LoadedHeight(StoredHeight(height)) == if height < TWO_63 then height else 0
  {
  }

  // ---- The tables ----

  /** Each operation is told whether its statement succeeds; a failed one changes nothing. */
  class RetryStore {
    var retry: map<Addr, Retry>
    var activity: map<Addr, nat>
    var heightRow: Option<I64>

    constructor ()
      ensures retry == map[] && activity == map[] && heightRow == None
    {
      retry, activity, heightRow := map[], map[], None;
    }

    function Tables(): P.Tables
      reads this
    {
      P.Tables(retry, activity)
    }

    method LoadHeight() returns (height: Option<nat>)
      ensures height == if heightRow.None? then None else Some(LoadedHeight(heightRow.value))
    {
      height := if heightRow.None? then None else Some(LoadedHeight(heightRow.value));
    }

    method StoreHeight(height: nat, ok: bool)
      requires height < TWO_64
      modifies this`heightRow
      ensures heightRow == if ok then Some(StoredHeight(height)) else old(heightRow)
    {
      if ok {
        heightRow := Some(StoredHeight(height));
      }
    }

    method Upsert(a: Addr, entry: Retry, ok: bool)
      modifies this`retry
      ensures retry == if ok then old(retry)[a := entry] else old(retry)
    {
      if ok {
        retry := retry[a := entry];
      }
    }

    method Remove(a: Addr, ok: bool)
      modifies this`retry
      ensures retry == if ok then old(retry) - {a} else old(retry)
    {
      if ok {
        retry := retry - {a};
      }
    }

    method UpsertActivity(a: Addr, at: nat, ok: bool)
      modifies this`activity
      ensures activity == if ok then old(activity)[a := at] else old(activity)
    {
      if ok {
        activity := activity[a := at];
      }
    }

    method RemoveActivity(a: Addr, ok: bool)
      modifies this`activity
      ensures activity == if ok then old(activity) - {a} else old(activity)
    {
      if ok {
        activity := activity - {a};
      }
    }

    /** Row by row over both tables; the statement after `budget` deletions fails and ends it.
        Rows of `active` stay in any case, and on success they are all that stays. */
    method Retain(active: set<Addr>, budget: nat) returns (ok: bool)
      modifies this`retry, this`activity
      ensures ok <==> |old(retry).Keys - active| + |old(activity).Keys - active| <= budget
      ensures ok ==> Tables() == P.Tables(P.Restrict(old(retry), active), P.Restrict(old(activity), active))
      ensures !ok ==> exists left, leftActivity ::
                Tables() == P.Tables(P.Restrict(old(retry), active + left),
                                     P.Restrict(old(activity), active + leftActivity))
    {
      var left;
      ghost var spared, sparedActivity;
      ok, retry, left, spared := Prune(retry, active, budget);
      if !ok {
        assert activity == P.Restrict(activity, active + activity.Keys);
        return;
      }
      ok, activity, left, sparedActivity := Prune(activity, active, left);
      assert active + {} == active;
      assert ok ==> P.Restrict(old(activity), active + {}) == activity;
    }
  }

  /** Deletes the rows of addresses that are not active, at most `budget` of them. */
  method Prune<V>(entries: map<Addr, V>, active: set<Addr>, budget: nat)
    returns (ok: bool, rest: map<Addr, V>, left: nat, ghost spared: set<Addr>)
    ensures ok <==> |entries.Keys - active| <= budget
    ensures rest == P.Restrict(entries, active + spared)
    ensures ok ==> spared == {} && left == budget - |entries.Keys - active|
  {
    var rows := entries.Keys;
    rest, left := entries, budget;
    while rows != {}
      invariant rows <= entries.Keys
      invariant rest == P.Restrict(entries, active + rows)
      invariant left + |entries.Keys - active| == budget + |rows - active|
      decreases rows
    {
      var a :| a in rows;
      OneRowLess(entries, active, rows, a);
      if a !in active {
        if left == 0 {
          return false, rest, 0, rows;
        }
        left := left - 1;
        rest := rest - {a};
      }
      rows := rows - {a};
    }
    ok, spared := true, {};
  }

  lemma OneRowLess<V>(entries: map<Addr, V>, active: set<Addr>, rows: set<Addr>, a: Addr)
    requires a in rows
    ensures |rows - active| == |(rows - {a}) - active| + if a in active then 0 else 1
    ensures P.Restrict(entries, active + (rows - {a}))
            == if a in active then P.Restrict(entries, active + rows) else P.Restrict(entries, active + rows) - {a}
  {
    var less := (rows - {a}) - active;
    if a in active {
      assert rows - active == less;
    } else {
      assert rows - active == less + {a};
    }
  }
}
