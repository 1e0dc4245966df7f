/** The shared chat-state tables: their rows, the SQL statements as functions on them,
    and each adapter operation as the statements it issues. */
module StateTables {
  import opened Text

  datatype KvRow = KvRow(value: string, expires: Option<int>)
  datatype LockRow = LockRow(token: string, expires: int)
  datatype ListRow = ListRow(idx: int, value: string, expires: Option<int>)

  /** The four tables. `lists` groups the rows of the list table by key. */
  datatype Tables = Tables(
    kv: map<string, KvRow>,
    subs: map<string, string>,
    locks: map<string, LockRow>,
    lists: map<string, seq<ListRow>>)

  /** The one place a key meets its namespace; an empty namespace counts as none. */
  function K(namespace: Option<string>, key: string): string {
    if namespace.Some? && namespace.value != "" then namespace.value + ":" + key else key
  }

  /** `ttlMs ? now + ttlMs : null` */
  function Expiry(now: int, ttl: int): Option<int> {
    if ttl == 0 then None else Some(now + ttl)
  }

  // ----- statements -----------------------------------------------------------

  /** `expires_at IS NOT NULL AND expires_at < now` */
  predicate Past(expires: Option<int>, now: int) {
    expires.Some? && expires.value < now
  }

  /** The same test as the adapter makes it in JavaScript, where 0 is falsy. */
  predicate TestedPast(expires: Option<int>, now: int) {
    expires.Some? && expires.value != 0 && expires.value < now
  }

  function SweepKv(kv: map<string, KvRow>, now: int): map<string, KvRow> {
    map k | k in kv && !Past(kv[k].expires, now) :: kv[k]
  }

  function SweepLocks(locks: map<string, LockRow>, now: int): map<string, LockRow> {
    map k | k in locks && !(locks[k].expires < now) :: locks[k]
  }

  function SweepRows(rows: seq<ListRow>, now: int): seq<ListRow> {
    if rows == [] then []
    else (if Past(rows[0].expires, now) then [] else [rows[0]]) + SweepRows(rows[1..], now)
  }

  function SweepLists(lists: map<string, seq<ListRow>>, now: int): map<string, seq<ListRow>> {
    map k | k in lists :: SweepRows(lists[k], now)
  }

  function Rows(t: Tables, key: string): seq<ListRow> {
    if key in t.lists then t.lists[key] else []
  }

  /** `COALESCE(MAX(idx), -1)` */
  function MaxIdx(rows: seq<ListRow>): int {
    if rows == [] then -1
    else if |rows| == 1 then rows[0].idx
    else
      var m := MaxIdx(rows[1..]);
      if rows[0].idx > m then rows[0].idx else m
  }

  function MinIdx(rows: seq<ListRow>): int
    requires rows != []
  {
    if |rows| == 1 then rows[0].idx
    else
      var m := MinIdx(rows[1..]);
      if rows[0].idx < m then rows[0].idx else m
  }

  /** `DELETE ... WHERE idx <= cutoff` */
  function RowsAbove(rows: seq<ListRow>, cutoff: int): seq<ListRow> {
    if rows == [] then []
    else (if rows[0].idx <= cutoff then [] else [rows[0]]) + RowsAbove(rows[1..], cutoff)
  }

  /** The rows that statement removes. */
  function RowsUpTo(rows: seq<ListRow>, cutoff: int): seq<ListRow> {
    if rows == [] then []
    else (if rows[0].idx <= cutoff then [rows[0]] else []) + RowsUpTo(rows[1..], cutoff)
  }

  function WithoutIdx(rows: seq<ListRow>, idx: int): seq<ListRow> {
    if rows == [] then []
    else (if rows[0].idx == idx then [] else [rows[0]]) + WithoutIdx(rows[1..], idx)
  }

  function ValueAt(rows: seq<ListRow>, idx: int): Option<string> {
    if rows == [] then None
    else if rows[0].idx == idx then Some(rows[0].value)
    else ValueAt(rows[1..], idx)
  }

  /** The cutoff of an append's trim, if it trims: `maxLength` 0 is no limit. */
  function Cutoff(idx: int, maxLength: int): Option<int> {
    if maxLength != 0 && idx - maxLength >= 0 then Some(idx - maxLength) else None
  }

  function Inserted(rows: seq<ListRow>, value: string, expires: Option<int>): seq<ListRow> {
    rows + [ListRow(MaxIdx(rows) + 1, value, expires)]
  }

  /** The append transaction: insert after the largest index, then trim. */
  function Append(rows: seq<ListRow>, value: string, maxLength: int, expires: Option<int>): seq<ListRow> {
    var inserted := Inserted(rows, value, expires);
    match Cutoff(MaxIdx(rows) + 1, maxLength)
    case None => inserted
    case Some(cutoff) => RowsAbove(inserted, cutoff)
  }

  /** `DELETE ... WHERE idx = (SELECT MIN(idx) ...) RETURNING value` */
  function DeleteMin(rows: seq<ListRow>): (seq<ListRow>, Option<string>) {
    if rows == [] then ([], None)
    else (WithoutIdx(rows, MinIdx(rows)), ValueAt(rows, MinIdx(rows)))
  }

  function Unexpired(rows: seq<ListRow>, now: int): seq<ListRow> {
    if rows == [] then []
    else (if rows[0].expires.Some? && rows[0].expires.value <= now then [] else [rows[0]]) + Unexpired(rows[1..], now)
  }

  predicate Ascending(rows: seq<ListRow>) {
    forall i, j | 0 <= i < j < |rows| :: rows[i].idx <= rows[j].idx
  }

  /** What `ORDER BY idx ASC` gives. */
  ghost predicate SortedFrom(sorted: seq<ListRow>, rows: seq<ListRow>) {
    Ascending(sorted) && multiset(sorted) == multiset(rows)
  }

  /** Rows in the order of their indices, insertion by insertion. */
  function InsertByIdx(r: ListRow, sorted: seq<ListRow>): seq<ListRow> {
    if sorted == [] || r.idx <= sorted[0].idx then [r] + sorted
    else [sorted[0]] + InsertByIdx(r, sorted[1..])
  }

  function ByIdx(rows: seq<ListRow>): seq<ListRow> {
    if rows == [] then [] else InsertByIdx(rows[0], ByIdx(rows[1..]))
  }

  lemma {:induction false} InsertKeepsRows(r: ListRow, sorted: seq<ListRow>)
    ensures multiset(InsertByIdx(r, sorted)) == multiset([r] + sorted)
  {
    if sorted != [] && r.idx > sorted[0].idx {
      InsertKeepsRows(r, sorted[1..]);
      assert sorted == [sorted[0]] + sorted[1..];
    }
  }

  lemma {:induction false} InsertStaysAbove(r: ListRow, sorted: seq<ListRow>, low: int)
    requires low <= r.idx && forall i | 0 <= i < |sorted| :: low <= sorted[i].idx
    ensures forall i | 0 <= i < |InsertByIdx(r, sorted)| :: low <= InsertByIdx(r, sorted)[i].idx
  {
    if sorted != [] && r.idx > sorted[0].idx { InsertStaysAbove(r, sorted[1..], low); }
  }

  lemma {:induction false} InsertAscends(r: ListRow, sorted: seq<ListRow>)
    requires Ascending(sorted)
    ensures Ascending(InsertByIdx(r, sorted))
  {
    if sorted != [] && r.idx > sorted[0].idx {
      InsertAscends(r, sorted[1..]);
      InsertStaysAbove(r, sorted[1..], sorted[0].idx);
    }
  }

  /** However the rows of a key lie in the table, reading them in index order permutes
      them into ascending order. */
  lemma {:induction false} SortsByIdx(rows: seq<ListRow>)
    ensures SortedFrom(ByIdx(rows), rows)
  {
    if rows != [] {
      SortsByIdx(rows[1..]);
      InsertKeepsRows(rows[0], ByIdx(rows[1..]));
      InsertAscends(rows[0], ByIdx(rows[1..]));
      hide InsertByIdx, Ascending;
      assert rows == [rows[0]] + rows[1..];
    }
  }

  /** A read drops the rows that have expired and no others. */
  lemma {:induction false} UnexpiredMeans(rows: seq<ListRow>, now: int, r: ListRow)
    ensures multiset(Unexpired(rows, now))[r]
         == if r.expires.Some? && r.expires.value <= now then 0 else multiset(rows)[r]
  {
    if rows != [] {
      UnexpiredMeans(rows[1..], now, r);
      assert rows == [rows[0]] + rows[1..];
    }
  }

  /** A sweep removes the list rows that have expired and no others. */
  lemma {:induction false} SweptMeans(rows: seq<ListRow>, now: int, r: ListRow)
    ensures multiset(SweepRows(rows, now))[r]
         == if r.expires.Some? && r.expires.value < now then 0 else multiset(rows)[r]
  {
    if rows != [] {
      SweptMeans(rows[1..], now, r);
      assert rows == [rows[0]] + rows[1..];
    }
  }

  function ValuesOf(rows: seq<ListRow>): seq<string> {
    seq(|rows|, i requires 0 <= i < |rows| => rows[i].value)
  }

  // ----- operations -----------------------------------------------------------

  datatype Grant = Grant(token: string, expires: int)

  function Cleanup(t: Tables, now: int): Tables {
    t.(kv := SweepKv(t.kv, now), locks := SweepLocks(t.locks, now), lists := SweepLists(t.lists, now))
  }

  /** The sweep of all tables: a row goes if and only if its expiry has passed, and what
      stays is unchanged; subscriptions have no expiry. */
  lemma SweepRemovesTheExpired(t: Tables, now: int)
    ensures var t' := Cleanup(t, now);
      && (forall k :: k in t'.kv <==> k in t.kv && (t.kv[k].expires.None? || t.kv[k].expires.value >= now))
      && (forall k | k in t'.kv :: t'.kv[k] == t.kv[k])
      && (forall k :: k in t'.locks <==> k in t.locks && t.locks[k].expires >= now)
      && (forall k | k in t'.locks :: t'.locks[k] == t.locks[k])
      && t'.subs == t.subs
      && (forall k, r: ListRow :: multiset(Rows(t', k))[r] ==
            if r.expires.Some? && r.expires.value < now then 0 else multiset(Rows(t, k))[r])
  {
    hide SweepRows;
    forall k, r: ListRow
      ensures multiset(Rows(Cleanup(t, now), k))[r] ==
              if r.expires.Some? && r.expires.value < now then 0 else multiset(Rows(t, k))[r]
    {
      if k in t.lists { SweptMeans(t.lists[k], now, r); }
    }
  }

  /** The clock is read twice: for the sweep, and again when the row is back. */
  function Get(t: Tables, k: string, sweptAt: int, now: int): (Tables, Option<string>) {
    var t1 := Cleanup(t, sweptAt);
    if k !in t1.kv then (t1, None)
    else if TestedPast(t1.kv[k].expires, now) then (t1.(kv := t1.kv - {k}), None)
    else (t1, Some(t1.kv[k].value))
  }

  function Set(t: Tables, k: string, value: string, ttl: int, now: int): Tables {
    t.(kv := t.kv[k := KvRow(value, Expiry(now, ttl))])
  }

  function SetIfNotExists(t: Tables, k: string, value: string, ttl: int, now: int): (Tables, bool) {
    var kv := if k in t.kv && TestedPast(t.kv[k].expires, now) then t.kv - {k} else t.kv;
    if k in kv then (t.(kv := kv), false)
    else (t.(kv := kv[k := KvRow(value, Expiry(now, ttl))]), true)
  }

  function AcquireLock(t: Tables, k: string, token: string, ttl: int, now: int): (Tables, Option<Grant>) {
    var locks := if k in t.locks && t.locks[k].expires < now then t.locks - {k} else t.locks;
    if k in locks then (t.(locks := locks), None)
    else (t.(locks := locks[k := LockRow(token, now + ttl)]), Some(Grant(token, now + ttl)))
  }

  predicate Holds(locks: map<string, LockRow>, k: string, token: string) {
    k in locks && locks[k].token == token
  }

  function ReleaseLock(t: Tables, k: string, token: string): Tables {
    if Holds(t.locks, k, token) then t.(locks := t.locks - {k}) else t
  }

  function ExtendLock(t: Tables, k: string, token: string, ttl: int, now: int): (Tables, bool) {
    if Holds(t.locks, k, token) then (t.(locks := t.locks[k := LockRow(token, now + ttl)]), true) else (t, false)
  }

  function AppendToList(t: Tables, k: string, value: string, maxLength: int, ttl: int, now: int): Tables {
    t.(lists := t.lists[k := Append(Rows(t, k), value, maxLength, Expiry(now, ttl))])
  }

  function GetList(t: Tables, k: string, now: int): seq<string> {
    ValuesOf(ByIdx(Unexpired(Rows(t, k), now)))
  }

  function Dequeue(t: Tables, k: string): (Tables, Option<string>) {
    var (rows, value) := DeleteMin(Rows(t, k));
    (if k in t.lists then t.(lists := t.lists[k := rows]) else t, value)
  }

  // ----- other callers in between ---------------------------------------------

  /** What another caller may commit to the lists between two statements of this one. */
  datatype ListStep =
    | ListAppend(key: string, value: string, maxLength: int, expires: Option<int>)
    | ListDelete(key: string)
    | ListSweep(now: int)

  function ListStepped(t: Tables, s: ListStep): (r: Tables)
    ensures r == t.(lists := r.lists)
  {
    match s
    case ListAppend(k, value, maxLength, expires) =>
      t.(lists := t.lists[k := Append(Rows(t, k), value, maxLength, expires)])
    case ListDelete(k) => Dequeue(t, k).0
    case ListSweep(now) => t.(lists := SweepLists(t.lists, now))
  }

  function ListSteps(t: Tables, steps: seq<ListStep>): (r: Tables)
    ensures r == t.(lists := r.lists)
    decreases |steps|
  {
    if steps == [] then t else ListSteps(ListStepped(t, steps[0]), steps[1..])
  }

  function Flat(others: seq<seq<ListStep>>): seq<ListStep> {
    if others == [] then [] else others[0] + Flat(others[1..])
  }

  /** A dequeue whose attempts come back empty-handed as often as `others` is long,
      other callers committing those steps before the look that follows each: it gives
      up at the first look that finds nothing and tries again otherwise. */
  function DequeueAmid(t: Tables, k: string, others: seq<seq<ListStep>>): (Tables, Option<string>)
    decreases |others|
  {
    if others == [] then Dequeue(t, k)
    else
      var t1 := ListSteps(t, others[0]);
      if Rows(t1, k) == [] then (t1, None) else DequeueAmid(t1, k, others[1..])
  }

  lemma {:induction false} StepsCompose(t: Tables, a: seq<ListStep>, b: seq<ListStep>)
    ensures ListSteps(t, a + b) == ListSteps(ListSteps(t, a), b)
    decreases |a|
  {
    hide ListStepped;
    if a == [] {
      assert [] + b == b;
    } else {
      assert (a + b)[1..] == a[1..] + b;
      StepsCompose(ListStepped(t, a[0]), a[1..], b);
    }
  }

  lemma {:induction false} FlatOfOneMore(others: seq<seq<ListStep>>, n: nat)
    requires n < |others|
    ensures Flat(others[..n + 1]) == Flat(others[..n]) + others[n]
  {
    if n == 0 {
      assert others[..1] == [others[0]] && others[..0] == [];
    } else {
      FlatOfOneMore(others[1..], n - 1);
      assert others[..n + 1][1..] == others[1..][..n] && others[..n][1..] == others[1..][..n - 1];
    }
  }
}
