/** The backend's keyed table of forwarding requests, its handlers, and the message the relayer
    builds from a row. */
module Registry {
  import opened Wrappers
  import D = Derivation

  /** A registered address with everything it was derived from. */
  datatype Request = Request(forwardAddr: string, params: D.Params, createdAt: nat)

  datatype Response =
    | Created(request: Request)
    | Existing(request: Request)
    | Mismatch(expected: string)
    | Invalid(error: D.Error)
    | Removed(request: Request)
    | NotFound

  datatype Op =
    | Post(forwardAddr: string, params: D.Params, now: nat)
    | Delete(forwardAddr: string)

  type Table = map<string, Request>

  /** How an address follows from a request's fields. */
  type Deriver = D.Params -> Result<string, D.Error>

  function DeriveWith(h: D.Hashes): Deriver {
    p => D.Derive(h, p)
  }

  // ---- What the handlers do to the table ----

  function After(table: Table, op: Op, derive: Deriver): Table {
    match op
    case Post(a, params, now) =>
      if derive(params) == Ok(a) && a !in table then table[a := Request(a, params, now)] else table
    case Delete(a) => table - {a}
  }

  function Answer(table: Table, op: Op, derive: Deriver): Response {
    match op
    case Post(a, params, now) => (
      match derive(params)
      case Err(e) => Invalid(e)
      case Ok(derived) =>
        if derived != a then Mismatch(derived)
        else if a in table then Existing(table[a]) else Created(Request(a, params, now)))
    case Delete(a) => if a in table then Removed(table[a]) else NotFound
  }

  /** The table after the first `n` calls. */
  function Replay(table: Table, ops: seq<Op>, n: nat, derive: Deriver): Table
    requires n <= |ops|
  {
    if n == 0 then table else After(Replay(table, ops, n - 1, derive), ops[n - 1], derive)
  }

  class BackendStorage {
    var table: Table

    constructor ()
      ensures table == map[]
    {
      table := map[];
    }

    /** First writer wins. */
    method CreateRequest(a: string, params: D.Params, now: nat) returns (request: Request, created: bool)
      modifies this
      ensures created == (a !in old(table))
      ensures table == if created then old(table)[a := Request(a, params, now)] else old(table)
      ensures a in table && request == table[a]
    {
      created := a !in table;
      if created {
        table := table[a := Request(a, params, now)];
      }
      request := table[a];
    }

    method RemoveByAddr(a: string) returns (request: Option<Request>)
      modifies this
      ensures table == old(table) - {a}
      ensures request == if a in old(table) then Some(old(table)[a]) else None
    {
      request := None;
      if a in table {
        request := Some(table[a]);
        table := table - {a};
      }
    }

    /** Every row once, by creation time. */
    method ListRequests() returns (rows: seq<Request>)
      ensures |rows| == |table|
      ensures forall a :: a in table ==> table[a] in rows
      ensures forall r :: r in rows ==> exists a :: a in table && table[a] == r
      ensures forall i, j :: 0 <= i < j < |rows| ==> rows[i].createdAt <= rows[j].createdAt
    {
      rows := [];
      var rest := table.Keys;
      while rest != {}
        invariant rest <= table.Keys && |rows| + |rest| == |table|
        invariant forall a :: a in table && a !in rest ==> table[a] in rows
        invariant forall r :: r in rows ==> exists a :: a in table && table[a] == r
        invariant forall i, j :: 0 <= i < j < |rows| ==> rows[i].createdAt <= rows[j].createdAt
        invariant forall i, a :: 0 <= i < |rows| && a in rest ==> rows[i].createdAt <= table[a].createdAt
        decreases rest
      {
        ghost var oldest := OldestExists(table, rest);
        var a :| a in rest && Oldest(table, rest, a);
        assert Oldest(table, rest, a);
        assert forall b :: b in rest ==> table[a].createdAt <= table[b].createdAt;
        var before := rows;
        rows := rows + [table[a]];
        assert forall r :: r in before ==> r in rows;
        rest := rest - {a};
      }
      assert |table| == |table.Keys|;
    }

    /** POST: the address must be the derivation of the request's own fields. */
    method Handle(op: Op, derive: Deriver) returns (response: Response)
      modifies this
      ensures table == After(old(table), op, derive)
      ensures response == Answer(old(table), op, derive)
    {
      match op {
        case Post(a, params, now) =>
          match derive(params) {
            case Err(e) => response := Invalid(e);
            case Ok(derived) =>
              if derived != a {
                response := Mismatch(derived);
              } else {
                var request, created := CreateRequest(a, params, now);
                response := if created then Created(request) else Existing(request);
              }
          }
        case Delete(a) =>
          var request := RemoveByAddr(a);
          response := if request.Some? then Removed(request.value) else NotFound;
      }
    }

    /** Any sequence of handler calls. */
    method Serve(ops: seq<Op>, derive: Deriver) returns (responses: seq<Response>)
      modifies this
      ensures table == Replay(old(table), ops, |ops|, derive)
      ensures |responses| == |ops|
      ensures forall i :: 0 <= i < |ops| ==> responses[i] == Answer(Replay(old(table), ops, i, derive), ops[i], derive)
    {
      responses := [];
      for i := 0 to |ops|
        invariant table == Replay(old(table), ops, i, derive)
        invariant |responses| == i
        invariant forall j :: 0 <= j < i ==> responses[j] == Answer(Replay(old(table), ops, j, derive), ops[j], derive)
      {
        var response := Handle(ops[i], derive);
        responses := responses + [response];
      }
    }
  }

  predicate Oldest(table: Table, keys: set<string>, a: string) {
    keys <= table.Keys && a in keys && forall b :: b in keys ==> table[a].createdAt <= table[b].createdAt
  }

  lemma {:induction false} OldestExists(table: Table, keys: set<string>) returns (a: string)
    requires keys <= table.Keys && keys != {}
    ensures Oldest(table, keys, a)
    decreases keys
  {
    var x :| x in keys;
    var rest := keys - {x};
    a := x;
    if rest != {} {
      var y := OldestExists(table, rest);
      a := if table[x].createdAt <= table[y].createdAt then x else y;
    }
    forall b | b in keys
      ensures table[a].createdAt <= table[b].createdAt
    {
      assert b == x || b in rest;
    }
  }

  // ---- What holds after any sequence of calls ----

  /** Each row sits under its own address, which is the derivation of its fields. */
  ghost predicate Sound(table: Table, derive: Deriver) {
    forall a :: a in table ==> table[a].forwardAddr == a && derive(table[a].params) == Ok(a)
  }

  lemma {:induction false} RowsAreDerivations(ops: seq<Op>, n: nat, derive: Deriver)
    requires n <= |ops|
    ensures Sound(Replay(map[], ops, n, derive), derive)
  {
    if n > 0 {
      RowsAreDerivations(ops, n - 1, derive);
    }
  }

  predicate Deletes(op: Op, a: string) {
    op == Delete(a)
  }

  /** The POST names the address that its own fields derive to. */
  predicate Accepts(op: Op, derive: Deriver, a: string) {
    op.Post? && op.forwardAddr == a && derive(op.params) == Ok(a)
  }

  /** What each response says about the call and the table. */
  lemma AnswerExactly(table: Table, op: Op, derive: Deriver)
    ensures
      var after, a := After(table, op, derive), op.forwardAddr;
      match Answer(table, op, derive)
      case Created(r) => Accepts(op, derive, a) && a !in table && after == table[a := r] && r == Request(a, op.params, op.now)
      case Existing(r) => Accepts(op, derive, a) && a in table && r == table[a] && after == table
      case Mismatch(expected) => op.Post? && derive(op.params) == Ok(expected) && expected != a && after == table
      case Invalid(e) => op.Post? && derive(op.params) == Err(e) && after == table
      case Removed(r) => Deletes(op, a) && a in table && r == table[a] && after == table - {a}
      case NotFound => Deletes(op, a) && a !in table && after == table
  {
    assert op.Delete? && op.forwardAddr !in table ==> table - {op.forwardAddr} == table;
  }

  /** First writer wins: once there, a row changes only by being deleted. */
  lemma {:induction false} RowStaysUntilDeleted(table: Table, ops: seq<Op>, n: nat, derive: Deriver, a: string)
    requires n <= |ops| && a in table && forall i :: 0 <= i < n ==> !Deletes(ops[i], a)
    ensures a in Replay(table, ops, n, derive) && Replay(table, ops, n, derive)[a] == table[a]
  {
    if n > 0 {
      RowStaysUntilDeleted(table, ops, n - 1, derive, a);
    }
  }

  /** A row that is there after any calls was put there by the latest accepted POST that found the
      address free: nothing deleted it since, and no earlier POST since the last deletion. */
  lemma {:induction false} RowHasFirstWriter(ops: seq<Op>, n: nat, derive: Deriver, a: string) returns (k: nat)
    requires n <= |ops| && a in Replay(map[], ops, n, derive)
    ensures k < n && Accepts(ops[k], derive, a)
    ensures Replay(map[], ops, n, derive)[a] == Request(a, ops[k].params, ops[k].now)
    ensures a !in Replay(map[], ops, k, derive)
    ensures forall i :: k < i < n ==> !Deletes(ops[i], a)
  {
    if a in Replay(map[], ops, n - 1, derive) {
      k := RowHasFirstWriter(ops, n - 1, derive, a);
    } else {
      k := n - 1;
    }
  }

  lemma {:induction false} AcceptedStays(ops: seq<Op>, n: nat, derive: Deriver, a: string, k: nat)
    requires k < n <= |ops| && Accepts(ops[k], derive, a) && forall i :: k < i < n ==> !Deletes(ops[i], a)
    ensures a in Replay(map[], ops, n, derive)
  {
    if k < n - 1 {
      AcceptedStays(ops, n - 1, derive, a, k);
    }
  }

  /** An address is registered exactly when an accepted POST for it has not been followed by its
      deletion. */
  lemma {:induction false} RegisteredExactly(ops: seq<Op>, n: nat, derive: Deriver, a: string)
    requires n <= |ops|
    ensures
      a in Replay(map[], ops, n, derive)
      <==> exists k :: 0 <= k < n && Accepts(ops[k], derive, a) && forall i :: k < i < n ==> !Deletes(ops[i], a)
  {
    if a in Replay(map[], ops, n, derive) {
      var k := RowHasFirstWriter(ops, n, derive, a);
    } else if k :| 0 <= k < n && Accepts(ops[k], derive, a) && forall i :: k < i < n ==> !Deletes(ops[i], a) {
      AcceptedStays(ops, n, derive, a, k);
    }
  }

  // ---- The message built from a row ----

  /** Absent hooks and metadata travel as empty strings; the configured fallback hook replaces an
      absent one. */
  function MessageParams(row: Request, fallback: Option<string>): D.Params {
    var hook := if row.params.hook.Some? then row.params.hook else fallback;
    D.Params(row.params.domain, row.params.recipient, row.params.token,
             Some(if hook.Some? then hook.value else ""),
             Some(if row.params.metadata.Some? then row.params.metadata.value else ""))
  }

  /** The row names its own hook, or the fallback is the default hook. */
  predicate FallbackHarmless(row: Request, fallback: Option<string>) {
    row.params.hook.Some? || D.NormalHook(fallback) == Ok(None)
  }

  /** The message commits to the same tuple as the row exactly when the fallback hook does not
      interfere; then it derives to the row's forwarding address. */
  lemma {:induction false} MessageRederives(row: Request, fallback: Option<string>, h: D.Hashes)
    requires D.Derive(h, row.params) == Ok(row.forwardAddr)
    ensures
      D.Normalise(MessageParams(row, fallback)) == D.Normalise(row.params) <==> FallbackHarmless(row, fallback)
    ensures
      FallbackHarmless(row, fallback) ==> D.Derive(h, MessageParams(row, fallback)) == Ok(row.forwardAddr)
    ensures
      D.Normalise(MessageParams(row, fallback))
      == match D.NormalHook(if row.params.hook.Some? then row.params.hook else fallback)
         case Err(e) => Err(e)
         case Ok(hook) => Ok(D.Normalise(row.params).value.(hook := hook))
  {
    var m := MessageParams(row, fallback);
    assert D.Strip("") == "";
    assert D.NormalMetadata(m.metadata) == D.NormalMetadata(row.params.metadata);
    if row.params.hook.Some? {
      assert m.hook == row.params.hook;
    } else {
      assert D.NormalHook(m.hook) == D.NormalHook(fallback);
    }
  }

  /** End to end: after any handler calls, with no fallback hook configured, the message built from
      any row derives to the address the row is registered under. */
  lemma {:induction false} RegisteredAddressForwards(ops: seq<Op>, n: nat, h: D.Hashes, a: string)
    requires n <= |ops| && a in Replay(map[], ops, n, DeriveWith(h))
    ensures D.Derive(h, MessageParams(Replay(map[], ops, n, DeriveWith(h))[a], None)) == Ok(a)
  {
    RowsAreDerivations(ops, n, DeriveWith(h));
    MessageRederives(Replay(map[], ops, n, DeriveWith(h))[a], None, h);
  }

  /** A fallback hook breaks every row without a hook: the message then commits to another tuple,
      hence to another preimage. */
  lemma {:induction false} FallbackChangesPreimage(row: Request, fallback: string, h: D.Hashes)
    requires D.Derive(h, row.params) == Ok(row.forwardAddr) && row.params.hook.None?
    requires D.NormalHook(Some(fallback)).Ok? && D.NormalHook(Some(fallback)).value.Some?
    ensures D.Normalise(MessageParams(row, Some(fallback))).Ok?
    ensures D.Preimage(D.Normalise(MessageParams(row, Some(fallback))).value)
            != D.Preimage(D.Normalise(row.params).value)
  {
    var m := MessageParams(row, Some(fallback));
    MessageRederives(row, Some(fallback), h);
    assert D.Strip("") == "";
    assert D.NormalMetadata(m.metadata) == D.NormalMetadata(row.params.metadata);
    D.NormaliseCanonical(m);
    D.NormaliseCanonical(row.params);
    if D.Preimage(D.Normalise(m).value) == D.Preimage(D.Normalise(row.params).value) {
      D.PreimageDetermines(D.Normalise(m).value, D.Normalise(row.params).value);
    }
  }
}
