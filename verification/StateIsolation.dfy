/** Adapters with different namespaces share the tables, and every cleanup sweeps all of
    them; still no adapter can tell that another one exists. */
module StateIsolation {
  import opened Text
  import opened StateTables

  datatype Op =
    | Get(key: string, later: nat)  // the second clock reading comes `later` than the first
    | Set(key: string, value: string, ttl: int)
    | SetIfNotExists(key: string, value: string, ttl: int)
    | Delete(key: string)
    | Subscribe(thread: string, stamp: string)
    | Unsubscribe(thread: string)
    | IsSubscribed(thread: string)
    | Acquire(thread: string, token: string, ttl: int)
    | Release(thread: string, token: string)
    | Extend(thread: string, token: string, ttl: int)
    | ForceRelease(thread: string)
    | AppendTo(key: string, value: string, maxLength: int, ttl: int)
    | ListOf(key: string)
    | Dequeue(thread: string)
    | Depth(thread: string)
    // the three statements of a cleanup, one at a time
    | SweepKvRows
    | SweepLockRows
    | SweepListRows

  datatype Answer =
    | Done
    | Value(value: Option<string>)
    | Flag(flag: bool)
    | Granted(grant: Option<Grant>)
    | Values(values: seq<string>)
    | Count(count: nat)

  /** One operation of the adapter with this namespace, at a moment. */
  function Do(ns: Option<string>, t: Tables, op: Op, at: int): (Tables, Answer) {
    match op
    case Get(key, later) =>
      var (t', v) := StateTables.Get(t, K(ns, key), at, at + later);
      (t', Value(v))
    case Set(key, value, ttl) => (StateTables.Set(t, K(ns, key), value, ttl, at), Done)
    case SetIfNotExists(key, value, ttl) =>
      var (t', stored) := StateTables.SetIfNotExists(t, K(ns, key), value, ttl, at);
      (t', Flag(stored))
    case Delete(key) => (t.(kv := t.kv - {K(ns, key)}), Done)
    case Subscribe(thread, stamp) => (t.(subs := t.subs[K(ns, thread) := stamp]), Done)
    case Unsubscribe(thread) => (t.(subs := t.subs - {K(ns, thread)}), Done)
    case IsSubscribed(thread) => (t, Flag(K(ns, thread) in t.subs))
    case Acquire(thread, token, ttl) =>
      var (t', grant) := AcquireLock(t, K(ns, thread), token, ttl, at);
      (t', Granted(grant))
    case Release(thread, token) => (ReleaseLock(t, K(ns, thread), token), Done)
    case Extend(thread, token, ttl) =>
      var (t', extended) := ExtendLock(t, K(ns, thread), token, ttl, at);
      (t', Flag(extended))
    case ForceRelease(thread) => (t.(locks := t.locks - {K(ns, thread)}), Done)
    case AppendTo(key, value, maxLength, ttl) => (AppendToList(t, K(ns, key), value, maxLength, ttl, at), Done)
    case ListOf(key) => (t, Values(GetList(t, K(ns, key), at)))
    case Dequeue(thread) =>
      var (t', v) := StateTables.Dequeue(t, K(ns, "queue:" + thread));
      (t', Value(v))
    case Depth(thread) => (t, Count(|Rows(t, K(ns, "queue:" + thread))|))
    case SweepKvRows => (t.(kv := SweepKv(t.kv, at)), Done)
    case SweepLockRows => (t.(locks := SweepLocks(t.locks, at)), Done)
    case SweepListRows => (t.(lists := SweepLists(t.lists, at)), Done)
  }

  /** An operation of the adapter under observation, or of the other one. */
  datatype Item = Item(mine: bool, op: Op, at: int)

  function End(item: Item): int {
    item.at + if item.op.Get? then item.op.later else 0
  }

  /** What the adapter with namespace `b` is answered while `a` works beside it. */
  function Answers(a: Option<string>, b: Option<string>, t: Tables, items: seq<Item>): seq<Answer>
    decreases |items|
  {
    if items == [] then []
    else
      var (t', answer) := Do(if items[0].mine then b else a, t, items[0].op, items[0].at);
      (if items[0].mine then [answer] else []) + Answers(a, b, t', items[1..])
  }

  function Mine(items: seq<Item>): seq<Item> {
    if items == [] then []
    else (if items[0].mine then [items[0]] else []) + Mine(items[1..])
  }

  // ----- namespaces -----------------------------------------------------------

  /** What the adapter puts before every key; the default one puts nothing there. */
  function Prefix(ns: Option<string>): string {
    if ns.Some? && ns.value != "" then ns.value + ":" else ""
  }

  /** Neither prefix starts with the other. */
  predicate Apart(a: Option<string>, b: Option<string>) {
    !(Prefix(a) <= Prefix(b)) && !(Prefix(b) <= Prefix(a))
  }

  lemma KeyIs(ns: Option<string>, key: string)
    ensures K(ns, key) == Prefix(ns) + key
  {
  }

  /** Keys of two adapters can meet exactly when they are not apart; so the default
      adapter can meet every other one. */
  lemma KeysMeetIff(a: Option<string>, b: Option<string>)
    ensures (exists x: string, y: string :: K(a, x) == K(b, y)) <==> !Apart(a, b)
    ensures Prefix(a) == "" ==> !Apart(a, b)
  {
    hide K;
    KeyIs(a, "");
    KeyIs(b, "");
    if Prefix(a) <= Prefix(b) {
      var x := Prefix(b)[|Prefix(a)|..];
      KeyIs(a, x);
      assert K(a, x) == K(b, "");
    } else if Prefix(b) <= Prefix(a) {
      var y := Prefix(a)[|Prefix(b)|..];
      KeyIs(b, y);
      assert K(a, "") == K(b, y);
    } else {
      forall x: string, y: string ensures K(a, x) != K(b, y) {
        KeyIs(a, x);
        KeyIs(b, y);
        if K(a, x) == K(b, y) { BothPrefixes(Prefix(a), Prefix(b), K(a, x)); }
      }
    }
  }

  lemma BothPrefixes(p: string, q: string, k: string)
    requires p <= k && q <= k
    ensures p <= q || q <= p
  {
    if |p| <= |q| { assert q[..|p|] == k[..|p|] == p; } else { assert p[..|q|] == k[..|q|] == q; }
  }

  /** Distinct names without a colon are apart. */
  lemma PlainNamesAreApart(a: string, b: string)
    requires a != b && a != "" && b != "" && ':' !in a && ':' !in b
    ensures Apart(Some(a), Some(b))
  {
    if a + ":" <= b + ":" { PlainPrefixIsWhole(a, b); }
    if b + ":" <= a + ":" { PlainPrefixIsWhole(b, a); }
  }

  lemma PlainPrefixIsWhole(a: string, b: string)
    requires ':' !in b && a + ":" <= b + ":"
    ensures a == b
  {
    assert (b + ":")[|a|] == (a + ":")[|a|] == ':';
    assert |a| == |b|;
    assert a == (b + ":")[..|a|] == b;
  }

  /** The key an operation is about, before its namespace; a sweep is about none. */
  function About(op: Op): Option<string> {
    match op
    case Get(key, _) => Some(key)
    case Set(key, _, _) => Some(key)
    case SetIfNotExists(key, _, _) => Some(key)
    case Delete(key) => Some(key)
    case Subscribe(thread, _) => Some(thread)
    case Unsubscribe(thread) => Some(thread)
    case IsSubscribed(thread) => Some(thread)
    case Acquire(thread, _, _) => Some(thread)
    case Release(thread, _) => Some(thread)
    case Extend(thread, _, _) => Some(thread)
    case ForceRelease(thread) => Some(thread)
    case AppendTo(key, _, _, _) => Some(key)
    case ListOf(key) => Some(key)
    case Dequeue(thread) => Some("queue:" + thread)
    case Depth(thread) => Some("queue:" + thread)
    case _ => None
  }

  /** The rows the observed adapter asks about, by their stored key. */
  function MyKeys(b: Option<string>, items: seq<Item>): set<string> {
    set item | item in items && item.mine && About(item.op).Some? :: K(b, About(item.op).value)
  }

  /** Nothing the other adapter does is about one of those rows. */
  predicate KeysApart(a: Option<string>, b: Option<string>, items: seq<Item>) {
    forall item | item in items && !item.mine && About(item.op).Some? ::
      K(a, About(item.op).value) !in MyKeys(b, items)
  }

  // ----- the two worlds -------------------------------------------------------

  predicate Plain(rows: seq<ListRow>) {
    forall r | r in rows :: r.expires.None?
  }

  /** Where the world with the other adapter may differ: an expired row may be gone. */
  predicate KvAgree(full: Tables, solo: Tables, k: string, clock: int) {
    && (k in full.kv ==> k in solo.kv && full.kv[k] == solo.kv[k])
    && (k in solo.kv ==> solo.kv[k].expires != Some(0) && (k in full.kv || Past(solo.kv[k].expires, clock)))
  }

  predicate LocksAgree(full: Tables, solo: Tables, k: string, clock: int) {
    && (k in full.locks ==> k in solo.locks && full.locks[k] == solo.locks[k])
    && (k in solo.locks ==> k in full.locks || solo.locks[k].expires < clock)
  }

  predicate SubsAgree(full: Tables, solo: Tables, k: string) {
    (k in full.subs <==> k in solo.subs) && (k in full.subs ==> full.subs[k] == solo.subs[k])
  }

  predicate ListsAgree(full: Tables, solo: Tables, k: string) {
    && (k in full.lists <==> k in solo.lists)
    && (k in full.lists ==> full.lists[k] == solo.lists[k] && Plain(full.lists[k]))
  }

  predicate Agree(full: Tables, solo: Tables, k: string, clock: int) {
    KvAgree(full, solo, k, clock) && LocksAgree(full, solo, k, clock) && SubsAgree(full, solo, k) &&
        ListsAgree(full, solo, k)
  }

  predicate Sim(keys: set<string>, full: Tables, solo: Tables, clock: int) {
    forall k | k in keys :: Agree(full, solo, k, clock)
  }

  /** What the adapter keeps to: lists without a time to live, and no expiry at time 0. */
  predicate Keeps(item: Item) {
    match item.op
    case Set(_, _, ttl) => ttl == 0 || item.at + ttl != 0
    case SetIfNotExists(_, _, ttl) => ttl == 0 || item.at + ttl != 0
    case AppendTo(_, _, _, ttl) => ttl == 0
    case _ => true
  }

  /** It extends no lock whose expiry has passed. */
  predicate Fresh(b: Option<string>, t: Tables, item: Item) {
    item.op.Extend? ==>
      var k := K(b, item.op.thread);
      Holds(t.locks, k, item.op.token) ==> item.at <= t.locks[k].expires
  }

  predicate AllFresh(b: Option<string>, t: Tables, mine: seq<Item>)
    decreases |mine|
  {
    mine != [] ==> Fresh(b, t, mine[0]) && AllFresh(b, Do(b, t, mine[0].op, mine[0].at).0, mine[1..])
  }

  predicate InTime(items: seq<Item>, clock: int) {
    items != [] ==> clock <= items[0].at && InTime(items[1..], End(items[0]))
  }

  // ----- lists ----------------------------------------------------------------

  lemma {:induction false} SweepKeepsPlain(rows: seq<ListRow>, now: int)
    requires Plain(rows)
    ensures SweepRows(rows, now) == rows
  {
    if rows != [] {
      assert rows[0] in rows;
      SweepKeepsPlain(rows[1..], now);
      assert [rows[0]] + rows[1..] == rows;
    }
  }

  lemma {:induction false} RowsAboveArePlain(rows: seq<ListRow>, cutoff: int)
    requires Plain(rows)
    ensures Plain(RowsAbove(rows, cutoff))
  {
    if rows != [] { RowsAboveArePlain(rows[1..], cutoff); }
  }

  lemma {:induction false} WithoutIsPlain(rows: seq<ListRow>, idx: int)
    requires Plain(rows)
    ensures Plain(WithoutIdx(rows, idx))
  {
    if rows != [] { WithoutIsPlain(rows[1..], idx); }
  }

  lemma AppendIsPlain(rows: seq<ListRow>, value: string, maxLength: int)
    requires Plain(rows)
    ensures Plain(Append(rows, value, maxLength, None))
  {
    hide MaxIdx;
    match Cutoff(MaxIdx(rows) + 1, maxLength)
    case None =>
    case Some(cutoff) => RowsAboveArePlain(Inserted(rows, value, None), cutoff);
  }

  // ----- one step -------------------------------------------------------------

  /** Sweeping expired key-value rows, at whatever moment up to now, changes no later
      `get` and no later `setIfNotExists`. */
  lemma SweepIsInvisible(t: Tables, k: string, sweep: int, value: string, ttl: int, at: int, now: int)
    requires sweep <= at <= now
    requires k in t.kv ==> t.kv[k].expires != Some(0)
    ensures var swept := t.(kv := SweepKv(t.kv, sweep));
      && StateTables.Get(swept, k, at, now).1 == StateTables.Get(t, k, at, now).1
      && StateTables.SetIfNotExists(swept, k, value, ttl, at).1 == StateTables.SetIfNotExists(t, k, value, ttl, at).1
  {
    hide SweepLists, SweepLocks;
  }

  lemma SweepKeepsAgree(full: Tables, solo: Tables, k: string, clock: int, at: int)
    requires Agree(full, solo, k, clock) && clock <= at
    ensures Agree(full.(kv := SweepKv(full.kv, at)), solo, k, at)
    ensures Agree(full.(locks := SweepLocks(full.locks, at)), solo, k, at)
    ensures Agree(full.(lists := SweepLists(full.lists, at)), solo, k, at)
    ensures Agree(Cleanup(full, at), solo, k, at)
  {
    hide SweepRows, Plain;
    if k in full.lists { SweepKeepsPlain(full.lists[k], at); }
  }

  lemma BothSweepAgree(full: Tables, solo: Tables, k: string, clock: int, at: int)
    requires Agree(full, solo, k, clock) && clock <= at
    ensures Agree(Cleanup(full, at), Cleanup(solo, at), k, at)
    ensures Agree(full.(kv := SweepKv(full.kv, at)), solo.(kv := SweepKv(solo.kv, at)), k, at)
    ensures Agree(full.(locks := SweepLocks(full.locks, at)), solo.(locks := SweepLocks(solo.locks, at)), k, at)
    ensures Agree(full.(lists := SweepLists(full.lists, at)), solo.(lists := SweepLists(solo.lists, at)), k, at)
  {
    hide SweepRows, Plain;
    if k in full.lists { SweepKeepsPlain(full.lists[k], at); }
  }

  predicate OnKv(op: Op) { op.Set? || op.SetIfNotExists? || op.Delete? }

  predicate OnLocks(op: Op) { op.Acquire? || op.Release? || op.Extend? || op.ForceRelease? }

  predicate OnLists(op: Op) { op.AppendTo? || op.Dequeue? }

  predicate Elsewhere(ns: Option<string>, op: Op, k: string) {
    About(op).Some? ==> K(ns, About(op).value) != k
  }

  /** An operation of the other adapter leaves this one's rows, or sweeps an expired one. */
  lemma TheirsOnOtherKeys(a: Option<string>, full: Tables, solo: Tables, op: Op, at: int, k: string, clock: int)
    requires Elsewhere(a, op, k) && Agree(full, solo, k, clock) && clock <= at
    ensures Agree(Do(a, full, op, at).0, solo, k, at)
  {
    hide K, Append, DeleteMin, Agree, Cleanup, SweepKv, SweepLocks, SweepLists;
    LaterStillAgrees(full, solo, k, clock, at);
    if op.SweepKvRows? || op.SweepLockRows? || op.SweepListRows? {
      SweepKeepsAgree(full, solo, k, clock, at);
    } else if op.Get? {
      SweepKeepsAgree(full, solo, k, clock, at);
      DeleteElsewhere(Cleanup(full, at), solo, K(a, op.key), k, at);
    } else if OnKv(op) {
      TheirsOnKv(a, full, solo, op, at, k);
    } else if OnLocks(op) {
      TheirsOnLocks(a, full, solo, op, at, k);
    } else if OnLists(op) {
      TheirsOnLists(a, full, solo, op, at, k);
    } else {
      TheirsOnSubs(a, full, solo, op, at, k);
    }
  }

  lemma DeleteElsewhere(full: Tables, solo: Tables, key: string, k: string, at: int)
    requires key != k && Agree(full, solo, k, at)
    ensures Agree(full.(kv := full.kv - {key}), solo, k, at)
  {
    hide Plain;
  }

  lemma TheirsOnKv(a: Option<string>, full: Tables, solo: Tables, op: Op, at: int, k: string)
    requires Elsewhere(a, op, k) && Agree(full, solo, k, at) && OnKv(op)
    ensures Agree(Do(a, full, op, at).0, solo, k, at)
  {
    hide K, Plain;
    assert K(a, op.key) != k;
  }

  lemma TheirsOnLocks(a: Option<string>, full: Tables, solo: Tables, op: Op, at: int, k: string)
    requires Elsewhere(a, op, k) && Agree(full, solo, k, at) && OnLocks(op)
    ensures Agree(Do(a, full, op, at).0, solo, k, at)
  {
    hide K, Plain;
    assert K(a, op.thread) != k;
  }

  lemma TheirsOnLists(a: Option<string>, full: Tables, solo: Tables, op: Op, at: int, k: string)
    requires Elsewhere(a, op, k) && Agree(full, solo, k, at) && OnLists(op)
    ensures Agree(Do(a, full, op, at).0, solo, k, at)
  {
    hide K, Plain, Append, DeleteMin;
    if op.Dequeue? { assert K(a, "queue:" + op.thread) != k; }
  }

  lemma TheirsOnSubs(a: Option<string>, full: Tables, solo: Tables, op: Op, at: int, k: string)
    requires Elsewhere(a, op, k) && Agree(full, solo, k, at)
    requires op.Subscribe? || op.Unsubscribe? || op.IsSubscribed? || op.ListOf? || op.Depth?
    ensures Agree(Do(a, full, op, at).0, solo, k, at)
  {
    hide K, Plain, GetList;
  }

  /** The same operation in both worlds leaves them agreeing. */
  lemma MineAgree(b: Option<string>, full: Tables, solo: Tables, item: Item, k: string, clock: int)
    requires Keeps(item) && Fresh(b, solo, item) && clock <= item.at
    requires Agree(full, solo, k, clock)
    requires About(item.op).Some? ==> Agree(full, solo, K(b, About(item.op).value), clock)
    ensures Agree(Do(b, full, item.op, item.at).0, Do(b, solo, item.op, item.at).0, k, End(item))
  {
    hide K, Append, DeleteMin, Agree, Cleanup, SweepKv, SweepLocks, SweepLists, Keeps, Fresh;
    var op := item.op;
    LaterStillAgrees(full, solo, k, clock, item.at);
    if op.SweepKvRows? || op.SweepLockRows? || op.SweepListRows? {
      BothSweepAgree(full, solo, k, clock, item.at);
    } else if op.Get? {
      var kk := K(b, op.key);
      BothSweepAgree(full, solo, k, clock, item.at);
      BothSweepAgree(full, solo, kk, clock, item.at);
      MyGet(Cleanup(full, item.at), Cleanup(solo, item.at), kk, item.at, End(item), k);
    } else if OnKv(op) {
      LaterStillAgrees(full, solo, K(b, op.key), clock, item.at);
      MineOnKv(b, full, solo, item, k);
    } else if OnLocks(op) {
      LaterStillAgrees(full, solo, K(b, op.thread), clock, item.at);
      MineOnLocks(b, full, solo, item, k);
    } else if OnLists(op) {
      LaterStillAgrees(full, solo, K(b, About(op).value), clock, item.at);
      MineOnLists(b, full, solo, item, k);
    } else {
      MineOnSubs(b, full, solo, item, k);
    }
  }

  function AfterSelect(t: Tables, k: string, now: int): Tables {
    if k in t.kv && TestedPast(t.kv[k].expires, now) then t.(kv := t.kv - {k}) else t
  }

  lemma MyGet(full: Tables, solo: Tables, key: string, at: int, now: int, k: string)
    requires Agree(full, solo, k, at) && Agree(full, solo, key, at) && at <= now
    ensures Agree(AfterSelect(full, key, now), AfterSelect(solo, key, now), k, now)
  {
    hide Plain;
  }

  lemma MineOnKv(b: Option<string>, full: Tables, solo: Tables, item: Item, k: string)
    requires OnKv(item.op) && Keeps(item) && Agree(full, solo, k, item.at) &&
            Agree(full, solo, K(b, item.op.key), item.at)
    ensures Agree(Do(b, full, item.op, item.at).0, Do(b, solo, item.op, item.at).0, k, item.at)
  {
    hide K, Agree;
    var kk := K(b, item.op.key);
    match item.op
    case Set(_, value, ttl) => PutAgrees(full, solo, kk, KvRow(value, Expiry(item.at, ttl)), k, item.at);
    case SetIfNotExists(_, value, ttl) =>
      MyGet(full, solo, kk, item.at, item.at, k);
      MyGet(full, solo, kk, item.at, item.at, kk);
      var full', solo' := AfterSelect(full, kk, item.at), AfterSelect(solo, kk, item.at);
      assert kk in full'.kv <==> kk in solo'.kv by { GoneInBoth(full, solo, kk, item.at); }
      if kk !in full'.kv { PutAgrees(full', solo', kk, KvRow(value, Expiry(item.at, ttl)), k, item.at); }
    case Delete(_) => DropAgrees(full, solo, kk, k, item.at);
  }

  lemma GoneInBoth(full: Tables, solo: Tables, key: string, at: int)
    requires Agree(full, solo, key, at)
    ensures key in AfterSelect(full, key, at).kv <==> key in AfterSelect(solo, key, at).kv
  {
    hide Plain;
  }

  lemma PutAgrees(full: Tables, solo: Tables, key: string, row: KvRow, k: string, at: int)
    requires Agree(full, solo, k, at) && row.expires != Some(0)
    ensures Agree(full.(kv := full.kv[key := row]), solo.(kv := solo.kv[key := row]), k, at)
  {
    hide Plain;
  }

  lemma DropAgrees(full: Tables, solo: Tables, key: string, k: string, at: int)
    requires Agree(full, solo, k, at)
    ensures Agree(full.(kv := full.kv - {key}), solo.(kv := solo.kv - {key}), k, at)
  {
    hide Plain;
  }

  lemma MineOnLocks(b: Option<string>, full: Tables, solo: Tables, item: Item, k: string)
    requires OnLocks(item.op) && Fresh(b, solo, item) && Agree(full, solo, k, item.at) &&
            Agree(full, solo, K(b, item.op.thread), item.at)
    ensures Agree(Do(b, full, item.op, item.at).0, Do(b, solo, item.op, item.at).0, k, item.at)
  {
    hide K, Agree;
    var kk, at := K(b, item.op.thread), item.at;
    match item.op
    case Acquire(_, token, ttl) =>
      AcquireAgrees(full, solo, kk, token, ttl, k, at);
    case Release(_, token) => DropLockAgrees(full, solo, kk, token, k, at);
    case ForceRelease(_) => ForceAgrees(full, solo, kk, k, at);
    case Extend(_, token, ttl) => ExtendAgrees(full, solo, kk, token, ttl, k, at);
  }

  lemma AcquireAgrees(full: Tables, solo: Tables, key: string, token: string, ttl: int, k: string, at: int)
    requires Agree(full, solo, k, at) && Agree(full, solo, key, at)
    ensures Agree(AcquireLock(full, key, token, ttl, at).0, AcquireLock(solo, key, token, ttl, at).0, k, at)
  {
    hide Plain;
  }

  lemma DropLockAgrees(full: Tables, solo: Tables, key: string, token: string, k: string, at: int)
    requires Agree(full, solo, k, at) && Agree(full, solo, key, at)
    ensures Agree(ReleaseLock(full, key, token), ReleaseLock(solo, key, token), k, at)
  {
    hide Plain;
  }

  lemma ForceAgrees(full: Tables, solo: Tables, key: string, k: string, at: int)
    requires Agree(full, solo, k, at)
    ensures Agree(full.(locks := full.locks - {key}), solo.(locks := solo.locks - {key}), k, at)
  {
    hide Plain;
  }

  lemma ExtendAgrees(full: Tables, solo: Tables, key: string, token: string, ttl: int, k: string, at: int)
    requires Agree(full, solo, k, at) && Agree(full, solo, key, at)
    requires Holds(solo.locks, key, token) ==> at <= solo.locks[key].expires
    ensures Agree(ExtendLock(full, key, token, ttl, at).0, ExtendLock(solo, key, token, ttl, at).0, k, at)
  {
    hide Plain;
  }

  lemma MineOnLists(b: Option<string>, full: Tables, solo: Tables, item: Item, k: string)
    requires OnLists(item.op) && Keeps(item)
    requires Agree(full, solo, k, item.at) && Agree(full, solo, K(b, About(item.op).value), item.at)
    ensures Agree(Do(b, full, item.op, item.at).0, Do(b, solo, item.op, item.at).0, k, item.at)
  {
    hide K, Agree, Append, DeleteMin;
    var key := K(b, About(item.op).value);
    match item.op
    case AppendTo(_, value, maxLength, _) => AppendAgrees(full, solo, key, value, maxLength, k, item.at);
    case Dequeue(_) => DequeueAgrees(full, solo, key, k, item.at);
  }

  lemma AppendAgrees(full: Tables, solo: Tables, key: string, value: string, maxLength: int, k: string, at: int)
    requires Agree(full, solo, k, at) && Agree(full, solo, key, at)
    ensures Agree(AppendToList(full, key, value, maxLength, 0, at),
                  AppendToList(solo, key, value, maxLength, 0, at), k, at)
  {
    hide Append, Plain;
    assert Plain(Rows(full, key)) by { PlainEmpty(); }
    AppendIsPlain(Rows(full, key), value, maxLength);
  }

  lemma DequeueAgrees(full: Tables, solo: Tables, key: string, k: string, at: int)
    requires Agree(full, solo, k, at) && Agree(full, solo, key, at)
    ensures Agree(StateTables.Dequeue(full, key).0, StateTables.Dequeue(solo, key).0, k, at)
  {
    hide DeleteMin, Plain;
    assert Plain(Rows(full, key)) by { PlainEmpty(); }
    DeleteMinIsPlain(Rows(full, key));
  }

  lemma DeleteMinIsPlain(rows: seq<ListRow>)
    requires Plain(rows)
    ensures Plain(DeleteMin(rows).0)
  {
    if rows != [] { WithoutIsPlain(rows, MinIdx(rows)); }
  }

  lemma MineOnSubs(b: Option<string>, full: Tables, solo: Tables, item: Item, k: string)
    requires item.op.Subscribe? || item.op.Unsubscribe? || item.op.IsSubscribed? || item.op.ListOf? || item.op.Depth?
    requires Agree(full, solo, k, item.at)
    ensures Agree(Do(b, full, item.op, item.at).0, Do(b, solo, item.op, item.at).0, k, item.at)
  {
    hide K, Plain, GetList;
  }

  lemma PlainEmpty()
    ensures Plain([])
  {
  }

  lemma SameAnswer(b: Option<string>, full: Tables, solo: Tables, item: Item, clock: int)
    requires Fresh(b, solo, item) && clock <= item.at
    requires About(item.op).Some? ==> Agree(full, solo, K(b, About(item.op).value), clock)
    ensures Do(b, full, item.op, item.at).1 == Do(b, solo, item.op, item.at).1
  {
    hide Append, SweepRows, SweepKv, SweepLocks, SweepLists, K, Plain, GetList, DeleteMin, Agree;
    if item.op.Get? {
      SameGet(full, solo, K(b, item.op.key), clock, item.at, End(item));
    } else if OnKv(item.op) {
      SameStored(full, solo, K(b, item.op.key), clock, item.at);
    } else if OnLocks(item.op) {
      SameLock(full, solo, K(b, item.op.thread), clock, item.at);
    } else if About(item.op).Some? {
      SameRows(full, solo, K(b, About(item.op).value), clock, item.at);
    }
  }

  lemma SameGet(full: Tables, solo: Tables, k: string, clock: int, at: int, now: int)
    requires Agree(full, solo, k, clock) && clock <= at <= now
    ensures StateTables.Get(full, k, at, now).1 == StateTables.Get(solo, k, at, now).1
  {
    hide SweepLocks, SweepLists, Plain;
  }

  lemma SameStored(full: Tables, solo: Tables, k: string, clock: int, at: int)
    requires Agree(full, solo, k, clock) && clock <= at
    ensures k in full.kv && !TestedPast(full.kv[k].expires, at) <==> k in solo.kv && !TestedPast(solo.kv[k].expires, at)
  {
    hide Plain;
  }

  lemma SameLock(full: Tables, solo: Tables, k: string, clock: int, at: int)
    requires Agree(full, solo, k, clock) && clock <= at
    ensures k in full.locks && !(full.locks[k].expires < at) <==> k in solo.locks && !(solo.locks[k].expires < at)
    ensures k in full.locks ==> k in solo.locks && full.locks[k] == solo.locks[k]
    ensures k in solo.locks && at <= solo.locks[k].expires ==> k in full.locks
  {
    hide Plain;
  }

  lemma SameRows(full: Tables, solo: Tables, k: string, clock: int, now: int)
    requires Agree(full, solo, k, clock)
    ensures Rows(full, k) == Rows(solo, k) && GetList(full, k, now) == GetList(solo, k, now)
    ensures k in full.subs <==> k in solo.subs
  {
    hide Plain;
    SameList(full, solo, k, now);
  }

  lemma SameList(full: Tables, solo: Tables, k: string, now: int)
    requires ListsAgree(full, solo, k)
    ensures GetList(full, k, now) == GetList(solo, k, now)
  {
  }

  // ----- the theorem ----------------------------------------------------------

  lemma {:induction false} WorldsAgree(keys: set<string>, a: Option<string>, b: Option<string>, full: Tables,
      solo: Tables, items: seq<Item>, clock: int)
    requires Sim(keys, full, solo, clock) && InTime(items, clock)
    requires forall item | item in items && About(item.op).Some? ::
               K(if item.mine then b else a, About(item.op).value) in keys <==> item.mine
    requires forall item | item in items && item.mine :: Keeps(item)
    requires AllFresh(b, solo, Mine(items))
    ensures Answers(a, b, full, items) == Answers(a, b, solo, Mine(items))
    decreases |items|
  {
    hide Do, Agree, Keeps, Fresh, K, About;
    if items != [] {
      var item := items[0];
      assert item in items;
      if item.mine {
        assert Mine(items)[0] == item && Mine(items)[1..] == Mine(items[1..]);
        SameAnswer(b, full, solo, item, clock);
        var full', solo' := Do(b, full, item.op, item.at).0, Do(b, solo, item.op, item.at).0;
        forall k | k in keys ensures Agree(full', solo', k, End(item)) {
          MineAgree(b, full, solo, item, k, clock);
        }
        WorldsAgree(keys, a, b, full', solo', items[1..], End(item));
      } else {
        var full' := Do(a, full, item.op, item.at).0;
        forall k | k in keys ensures Agree(full', solo, k, End(item)) {
          TheirsOnOtherKeys(a, full, solo, item.op, item.at, k, clock);
          LaterStillAgrees(full', solo, k, item.at, End(item));
        }
        assert Mine(items) == Mine(items[1..]);
        WorldsAgree(keys, a, b, full', solo, items[1..], End(item));
      }
    }
  }

  lemma LaterStillAgrees(full: Tables, solo: Tables, k: string, clock: int, later: int)
    requires Agree(full, solo, k, clock) && clock <= later
    ensures Agree(full, solo, k, later)
  {
  }

  /** These rows at the start: no list row expires, no expiry at time 0. */
  predicate Orderly(keys: set<string>, t: Tables) {
    forall k | k in keys ::
      (k in t.kv ==> t.kv[k].expires != Some(0)) && (k in t.lists ==> Plain(t.lists[k]))
  }

  /** The adapter cannot tell that another one works on the same tables: as long as they
      ask about different rows, dropping all of the other's operations and sweeps changes
      none of its answers, whatever their namespaces. */
  lemma OthersAreInvisible(a: Option<string>, b: Option<string>, t: Tables, items: seq<Item>, clock: int)
    requires KeysApart(a, b, items) && Orderly(MyKeys(b, items), t) && InTime(items, clock)
    requires forall item | item in items && item.mine :: Keeps(item)
    requires AllFresh(b, t, Mine(items))
    ensures Answers(a, b, t, items) == Answers(a, b, t, Mine(items))
  {
    hide Do, Keeps, AllFresh, InTime, K, About;
    WorldsAgree(MyKeys(b, items), a, b, t, t, items, clock);
  }

  /** Namespaces that are apart ask about different rows, whatever is done. */
  lemma ApartAsksElsewhere(a: Option<string>, b: Option<string>, items: seq<Item>)
    requires Apart(a, b)
    ensures KeysApart(a, b, items)
  {
    hide K, About, Apart;
    KeysMeetIff(a, b);
  }

  /** So do the default adapter and a named one, in either role, as long as the default
      one uses no key that starts with the other's prefix. */
  lemma DefaultAsksElsewhere(a: Option<string>, b: Option<string>, items: seq<Item>)
    requires Prefix(a) == "" || Prefix(b) == ""
    requires forall item | item in items && About(item.op).Some? && Prefix(if item.mine then b else a) == "" ::
               !(Prefix(if item.mine then a else b) <= About(item.op).value)
    ensures KeysApart(a, b, items)
  {
    hide K, About;
    forall item | item in items && !item.mine && About(item.op).Some?
      ensures K(a, About(item.op).value) !in MyKeys(b, items)
    {
      KeyIs(a, About(item.op).value);
      forall mine | mine in items && mine.mine && About(mine.op).Some?
        ensures K(b, About(mine.op).value) != K(a, About(item.op).value)
      {
        KeyIs(b, About(mine.op).value);
        var x, y := About(mine.op).value, About(item.op).value;
        assert Prefix(a) <= Prefix(a) + y && Prefix(b) <= Prefix(b) + x;
        assert "" + x == x && "" + y == y;
      }
    }
  }

  lemma OneAnswer(b: Option<string>, t: Tables, mine: Item)
    requires mine.mine
    ensures forall a: Option<string> :: Answers(a, b, t, [mine]) == [Do(b, t, mine.op, mine.at).1]
  {
    hide Do;
    assert [mine][1..] == [];
  }

  lemma SecondAnswer(a: Option<string>, b: Option<string>, t: Tables, theirs: Item, mine: Item)
    requires mine.mine && !theirs.mine
    ensures Mine([theirs, mine]) == [mine]
    ensures Answers(a, b, t, [theirs, mine]) == [Do(b, Do(a, t, theirs.op, theirs.at).0, mine.op, mine.at).1]
  {
    hide Do;
    assert [theirs, mine][1..] == [mine] && [mine][1..] == [];
    assert Mine([mine]) == [mine];
    OneAnswer(b, Do(a, t, theirs.op, theirs.at).0, mine);
  }

  /** Being apart is needed: otherwise one adapter reads what the other wrote. */
  lemma MeetingNamespacesLeak(a: Option<string>, b: Option<string>)
    requires !Apart(a, b)
    ensures exists t: Tables, items: seq<Item> ::
      && Orderly(MyKeys(b, items), t) && InTime(items, 1) && AllFresh(b, t, Mine(items))
      && (forall item | item in items && item.mine :: Keeps(item))
      && Answers(a, b, t, items) != Answers(a, b, t, Mine(items))
  {
    hide K, Apart;
    KeysMeetIff(a, b);
    var x: string, y: string :| K(a, x) == K(b, y);
    LeakAt(a, b, x, y);
  }

  lemma LeakAt(a: Option<string>, b: Option<string>, x: string, y: string)
    requires K(a, x) == K(b, y)
    ensures var t := Tables(map[], map[], map[], map[]);
      var items := [Item(false, Set(x, "v", 0), 1), Item(true, Get(y, 0), 1)];
      && Orderly(MyKeys(b, items), t)
      && InTime(items, 1) && AllFresh(b, t, Mine(items)) && (forall item | item in items && item.mine :: Keeps(item))
      && Answers(a, b, t, items) != Answers(a, b, t, Mine(items))
  {
    var t := Tables(map[], map[], map[], map[]);
    var theirs, mine := Item(false, Set(x, "v", 0), 1), Item(true, Get(y, 0), 1);
    OneAnswer(b, t, mine);
    SecondAnswer(a, b, t, theirs, mine);
    assert [theirs, mine][1..] == [mine] && [mine][1..] == [];
    assert AllFresh(b, Do(b, t, mine.op, 1).0, []);
    assert Do(b, Do(a, t, theirs.op, 1).0, mine.op, 1).1 == Value(Some("v"));
    assert Do(b, t, mine.op, 1).1 == Value(None);
  }

  /** How a foreign cleanup shows in the answers about a key. */
  ghost predicate SweepShows(a: Option<string>, b: Option<string>, t: Tables, key: string) {
    exists op: Op, sweep: int, at: int ::
      && (op.SetIfNotExists? || op.Get?) && op.key == key && sweep <= at
      && Answers(a, b, t, [Item(false, SweepKvRows, sweep), Item(true, op, at)]) !=
         Answers(a, b, t, [Item(true, op, at)])
  }

  /** A sweep of the key-value rows can be seen through a row exactly when the row expires
      at time 0: the tests made in JavaScript take that for no expiry, the sweep does not,
      so a refused `setIfNotExists` succeeds after another adapter's cleanup. */
  lemma ExpiryZeroLeaks(a: Option<string>, b: Option<string>, t: Tables, key: string)
    ensures SweepShows(a, b, t, key) <==> K(b, key) in t.kv && t.kv[K(b, key)].expires == Some(0)
  {
    hide Do, SweepShows, Answers, K;
    var k := K(b, key);
    if k in t.kv && t.kv[k].expires == Some(0) {
      ZeroIsSeen(a, b, t, key);
    } else {
      ShownOnlyByZero(a, b, t, key);
    }
  }

  lemma ZeroIsSeen(a: Option<string>, b: Option<string>, t: Tables, key: string)
    requires K(b, key) in t.kv && t.kv[K(b, key)].expires == Some(0)
    ensures SweepShows(a, b, t, key)
  {
    hide K, Answers;
    var mine, theirs := Item(true, SetIfNotExists(key, "w", 0), 1), Item(false, SweepKvRows, 1);
    OneAnswer(b, t, mine);
    SecondAnswer(a, b, t, theirs, mine);
    assert Do(b, t, mine.op, 1).1 == Flag(false);
    assert Do(b, Do(a, t, theirs.op, 1).0, mine.op, 1).1 == Flag(true);
    assert Answers(a, b, t, [theirs, mine]) != Answers(a, b, t, [mine]);
  }

  lemma ShownOnlyByZero(a: Option<string>, b: Option<string>, t: Tables, key: string)
    requires !(K(b, key) in t.kv && t.kv[K(b, key)].expires == Some(0))
    ensures !SweepShows(a, b, t, key)
  {
    hide K, Answers;
    forall op: Op, sweep: int, at: int | (op.SetIfNotExists? || op.Get?) && op.key == key && sweep <= at
      ensures Answers(a, b, t, [Item(false, SweepKvRows, sweep), Item(true, op, at)]) ==
              Answers(a, b, t, [Item(true, op, at)])
    {
      var mine, theirs := Item(true, op, at), Item(false, SweepKvRows, sweep);
      OneAnswer(b, t, mine);
      SecondAnswer(a, b, t, theirs, mine);
      if op.Get? {
        SweepIsInvisible(t, K(b, key), sweep, "", 0, at, at + op.later);
      } else {
        SweepIsInvisible(t, K(b, key), sweep, op.value, op.ttl, at, at);
      }
    }
  }

  // ----- between two statements of one operation ------------------------------

  /** The insert of `setIfNotExists`, after `AfterSelect`. */
  function InsertIfAbsent(t: Tables, k: string, row: KvRow): (Tables, bool) {
    if k in t.kv then (t, false) else (t.(kv := t.kv[k := row]), true)
  }

  /** Why an operation has to be one step: when another adapter sweeps between the two
      statements of one `setIfNotExists`, its answer changes exactly if the row had not
      expired at the first, by the test made in JavaScript, and has by the time of the
      sweep. */
  lemma SweepBetweenShowsIff(t: Tables, k: string, value: string, ttl: int, at: int, sweep: int)
    ensures var row := KvRow(value, Expiry(at, ttl));
      var between := AfterSelect(t, k, at);
      && StateTables.SetIfNotExists(t, k, value, ttl, at) == InsertIfAbsent(between, k, row)
      && (InsertIfAbsent(between.(kv := SweepKv(between.kv, sweep)), k, row).1 != InsertIfAbsent(between, k, row).1
          <==> k in t.kv && t.kv[k].expires.Some? &&
               var e := t.kv[k].expires.value; e < sweep && (at <= e || e == 0))
  {
  }
}
