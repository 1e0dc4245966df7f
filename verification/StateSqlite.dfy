/** The state adapter over the shared tables, statement by statement. */
module StateSqlite {
  import opened Text
  import opened StateTables

  /** The database all adapters share. */
  class Database {
    var kv: map<string, KvRow>
    var subs: map<string, string>
    var locks: map<string, LockRow>
    var lists: map<string, seq<ListRow>>

    ghost function Now(): Tables
      reads this
    {
      Tables(kv, subs, locks, lists)
    }

    constructor ()
      ensures Now() == Tables(map[], map[], map[], map[])
    {
      kv, subs, locks, lists := map[], map[], map[], map[];
    }

    /** Other callers commit. */
    method Commit(steps: seq<ListStep>)
      modifies this
      ensures Now() == ListSteps(old(Now()), steps)
    {
      lists := ListSteps(Tables(kv, subs, locks, lists), steps).lists;
    }
  }

  /** What a caller holds; it carries the thread id without the namespace. */
  class Lock {
    const threadId: string
    const token: string
    var expiresAt: int

    constructor (threadId: string, token: string, expiresAt: int)
      ensures this.threadId == threadId && this.token == token && this.expiresAt == expiresAt
    {
      this.threadId, this.token, this.expiresAt := threadId, token, expiresAt;
    }
  }

  class SqliteStateAdapter {
    const db: Database
    const namespace: Option<string>

    constructor (db: Database, namespace: Option<string>)
      ensures this.db == db && this.namespace == namespace
    {
      this.db, this.namespace := db, namespace;
    }

    function Key(key: string): string {
      K(namespace, key)
    }

    method Sweep(now: int)
      modifies db
      ensures db.Now() == Cleanup(old(db.Now()), now)
    {
      db.kv := SweepKv(db.kv, now);
      db.locks := SweepLocks(db.locks, now);
      db.lists := SweepLists(db.lists, now);
    }

    method Get(key: string, sweptAt: int, now: int) returns (value: Option<string>)
      modifies db
      ensures (db.Now(), value) == StateTables.Get(old(db.Now()), Key(key), sweptAt, now)
    {
      Sweep(sweptAt);
      var k := Key(key);
      if k !in db.kv { return None; }
      var row := db.kv[k];
      if TestedPast(row.expires, now) {
        db.kv := db.kv - {k};
        return None;
      }
      return Some(row.value);
    }

    method Set(key: string, value: string, ttl: int, now: int)
      modifies db
      ensures db.Now() == StateTables.Set(old(db.Now()), Key(key), value, ttl, now)
    {
      db.kv := db.kv[Key(key) := KvRow(value, Expiry(now, ttl))];
    }

    method SetIfNotExists(key: string, value: string, ttl: int, now: int) returns (stored: bool)
      modifies db
      ensures (db.Now(), stored) == StateTables.SetIfNotExists(old(db.Now()), Key(key), value, ttl, now)
    {
      var k := Key(key);
      if k in db.kv && TestedPast(db.kv[k].expires, now) {
        db.kv := db.kv - {k};
      }
      stored := k !in db.kv;
      if stored { db.kv := db.kv[k := KvRow(value, Expiry(now, ttl))]; }
    }

    method Delete(key: string)
      modifies db
      ensures db.Now() == old(db.Now()).(kv := old(db.kv) - {Key(key)})
    {
      db.kv := db.kv - {Key(key)};
    }

    method Subscribe(threadId: string, at: string)
      modifies db
      ensures db.Now() == old(db.Now()).(subs := old(db.subs)[Key(threadId) := at])
    {
      db.subs := db.subs[Key(threadId) := at];
    }

    method Unsubscribe(threadId: string)
      modifies db
      ensures db.Now() == old(db.Now()).(subs := old(db.subs) - {Key(threadId)})
    {
      db.subs := db.subs - {Key(threadId)};
    }

    method IsSubscribed(threadId: string) returns (subscribed: bool)
      ensures subscribed == (Key(threadId) in db.subs)
    {
      return Key(threadId) in db.subs;
    }

    method AcquireLock(threadId: string, ttl: int, now: int, token: string) returns (lock: Lock?)
      modifies db
      ensures var (t, grant) := StateTables.AcquireLock(old(db.Now()), Key(threadId), token, ttl, now);
        && db.Now() == t
        && (grant.None? <==> lock == null)
        && (grant.Some? ==> fresh(lock) && lock.threadId == threadId && lock.token == grant.value.token
                            && lock.expiresAt == grant.value.expires)
    {
      var expiresAt := now + ttl;
      var k := Key(threadId);
      if k in db.locks && db.locks[k].expires < now {
        db.locks := db.locks - {k};
      }
      if k in db.locks { return null; }
      db.locks := db.locks[k := LockRow(token, expiresAt)];
      lock := new Lock(threadId, token, expiresAt);
    }

    method ReleaseLock(lock: Lock)
      modifies db
      ensures db.Now() == StateTables.ReleaseLock(old(db.Now()), Key(lock.threadId), lock.token)
    {
      var k := Key(lock.threadId);
      if Holds(db.locks, k, lock.token) { db.locks := db.locks - {k}; }
    }

    method ExtendLock(lock: Lock, ttl: int, now: int) returns (extended: bool)
      modifies db, lock`expiresAt
      ensures (db.Now(), extended) == StateTables.ExtendLock(old(db.Now()), Key(lock.threadId), lock.token, ttl, now)
      ensures lock.expiresAt == if extended then now + ttl else old(lock.expiresAt)
    {
      var newExpiry := now + ttl;
      var k := Key(lock.threadId);
      extended := Holds(db.locks, k, lock.token);
      if extended {
        db.locks := db.locks[k := LockRow(lock.token, newExpiry)];
        lock.expiresAt := newExpiry;
      }
    }

    method ForceReleaseLock(threadId: string)
      modifies db
      ensures db.Now() == old(db.Now()).(locks := old(db.locks) - {Key(threadId)})
    {
      db.locks := db.locks - {Key(threadId)};
    }

    /** One attempt for each member of `others` collides with a concurrent writer and is
        rolled back, and the others' steps commit before the next; the last attempt
        commits over the table as they left it. */
    method AppendToList(key: string, value: string, maxLength: int, ttl: int, now: int, others: seq<seq<ListStep>>)
      modifies db
      ensures db.Now() ==
              StateTables.AppendToList(ListSteps(old(db.Now()), Flat(others)), Key(key), value, maxLength, ttl, now)
    {
      hide Append, Expiry, ListStepped;
      var expires := Expiry(now, ttl);
      var k := Key(key);
      var attempt := 0;
      while attempt < |others|
        invariant 0 <= attempt <= |others|
        invariant db.Now() == ListSteps(old(db.Now()), Flat(others[..attempt]))
      {
        FlatOfOneMore(others, attempt);
        StepsCompose(old(db.Now()), Flat(others[..attempt]), others[attempt]);
        db.Commit(others[attempt]);
        attempt := attempt + 1;
      }
      assert others[..attempt] == others;
      var rows := Rows(Tables(db.kv, db.subs, db.locks, db.lists), k);
      db.lists := db.lists[k := Append(rows, value, maxLength, expires)];
    }

    /** The unexpired rows in the order of their indices, whatever order they lie in. */
    method GetList(key: string, now: int) returns (values: seq<string>)
      ensures values == StateTables.GetList(db.Now(), Key(key), now)
      ensures exists sorted ::
                SortedFrom(sorted, Unexpired(Rows(db.Now(), Key(key)), now)) && values == ValuesOf(sorted)
    {
      hide Unexpired, ByIdx, SortedFrom;
      var rows := Unexpired(Rows(Tables(db.kv, db.subs, db.locks, db.lists), Key(key)), now);
      SortsByIdx(rows);
      return ValuesOf(ByIdx(rows));
    }

    /** No namespace here: the append adds it, and adding it twice would hide the queue.
        `meanwhile` commits between the append and the count. */
    method Enqueue(threadId: string, entry: string, maxSize: int, now: int, others: seq<seq<ListStep>>,
                   meanwhile: seq<ListStep>)
      returns (depth: nat)
      modifies db
      ensures var k := Key("queue:" + threadId);
        && db.Now() == ListSteps(
             StateTables.AppendToList(ListSteps(old(db.Now()), Flat(others)), k, entry, maxSize, 0, now), meanwhile)
        && depth == |Rows(db.Now(), k)|
    {
      hide Append, ListStepped, ListSteps;
      AppendToList("queue:" + threadId, entry, maxSize, 0, now, others);
      db.Commit(meanwhile);
      depth := QueueDepth(threadId);
    }

    /** One attempt for each member of `others` brings no row back. */
    method Dequeue(threadId: string, others: seq<seq<ListStep>>) returns (entry: Option<string>)
      modifies db
      ensures (db.Now(), entry) == DequeueAmid(old(db.Now()), Key("queue:" + threadId), others)
    {
      hide DeleteMin, ListSteps;
      var key := Key("queue:" + threadId);
      var attempt := 0;
      while attempt < |others|
        invariant 0 <= attempt <= |others|
        invariant DequeueAmid(db.Now(), key, others[attempt..]) == DequeueAmid(old(db.Now()), key, others)
      {
        assert others[attempt..][0] == others[attempt] && others[attempt..][1..] == others[attempt + 1..];
        db.Commit(others[attempt]);
        if Rows(Tables(db.kv, db.subs, db.locks, db.lists), key) == [] { return None; }
        attempt := attempt + 1;
      }
      var (left, value) := DeleteMin(if key in db.lists then db.lists[key] else []);
      if key in db.lists { db.lists := db.lists[key := left]; }
      return value;
    }

    method QueueDepth(threadId: string) returns (depth: nat)
      ensures depth == |Rows(db.Now(), Key("queue:" + threadId))|
    {
      return |Rows(Tables(db.kv, db.subs, db.locks, db.lists), Key("queue:" + threadId))|;
    }
  }
}
