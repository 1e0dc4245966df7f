/** The key-value store over time: a value written is the value read until it expires,
    and of several `setIfNotExists` on one key exactly one wins. */
module StateKv {
  import opened Text
  import opened StateTables
  import opened StateIsolation

  /** An operation of whichever adapter, at a moment. */
  datatype Call = Call(ns: Option<string>, op: Op, at: int)

  function Over(c: Call): int {
    c.at + if c.op.Get? then c.op.later else 0
  }

  predicate Ordered(calls: seq<Call>, clock: int) {
    calls != [] ==> clock <= calls[0].at && Ordered(calls[1..], Over(calls[0]))
  }

  function LastMoment(calls: seq<Call>, clock: int): int {
    if calls == [] then clock else LastMoment(calls[1..], Over(calls[0]))
  }

  function After(t: Tables, calls: seq<Call>): Tables
    decreases |calls|
  {
    if calls == [] then t else After(Do(calls[0].ns, t, calls[0].op, calls[0].at).0, calls[1..])
  }

  predicate Writes(c: Call, k: string) {
    (c.op.Set? || c.op.SetIfNotExists? || c.op.Delete?) && K(c.ns, c.op.key) == k
  }

  /** The row is in the table, or it has expired and may be gone. */
  predicate Stored(t: Tables, k: string, row: KvRow, clock: int) {
    if k in t.kv then t.kv[k] == row else Past(row.expires, clock)
  }

  lemma CallKeepsRow(t: Tables, c: Call, k: string, row: KvRow, clock: int)
    requires Stored(t, k, row, clock) && clock <= c.at && !Writes(c, k)
    ensures Stored(Do(c.ns, t, c.op, c.at).0, k, row, Over(c))
  {
    hide K, SweepLists, SweepLocks, Append, DeleteMin, GetList;
    match c.op
    case Get(_, _) =>
    case Set(_, _, _) =>
    case SetIfNotExists(_, _, _) =>
    case _ =>
  }

  lemma {:induction false} CallsKeepRow(t: Tables, calls: seq<Call>, k: string, row: KvRow, clock: int)
    requires Stored(t, k, row, clock) && Ordered(calls, clock)
    requires forall i | 0 <= i < |calls| :: !Writes(calls[i], k)
    ensures Stored(After(t, calls), k, row, LastMoment(calls, clock))
    decreases |calls|
  {
    hide Do, Stored, Writes;
    if calls != [] {
      CallKeepsRow(t, calls[0], k, row, clock);
      assert forall i | 0 <= i < |calls[1..]| :: calls[1..][i] == calls[i + 1];
      CallsKeepRow(Do(calls[0].ns, t, calls[0].op, calls[0].at).0, calls[1..], k, row, Over(calls[0]));
    }
  }

  /** A written value is read back until it expires and never after, whatever is done to
      other keys and whoever sweeps in between. */
  lemma ValueUntilExpiry(t: Tables, ns: Option<string>, key: string, value: string, ttl: int, at: int, calls: seq<Call>,
      readAt: int, later: nat)
    requires Expiry(at, ttl) != Some(0) && Ordered(calls, at) && LastMoment(calls, at) <= readAt
    requires forall i | 0 <= i < |calls| :: !Writes(calls[i], K(ns, key))
    ensures var t' := After(Do(ns, t, StateIsolation.Set(key, value, ttl), at).0, calls);
      Do(ns, t', StateIsolation.Get(key, later), readAt).1 ==
        Value(if ttl != 0 && at + ttl < readAt + later then None else Some(value))
  {
    hide K, SweepLists, SweepLocks, After, Ordered;
    var k := K(ns, key);
    var row := KvRow(value, Expiry(at, ttl));
    var t1 := Do(ns, t, StateIsolation.Set(key, value, ttl), at).0;
    CallsKeepRow(t1, calls, k, row, at);
  }

  // ----- one winner -----------------------------------------------------------

  /** How many `setIfNotExists` on the key were told they stored their value. */
  function Winners(t: Tables, calls: seq<Call>, k: string): nat
    decreases |calls|
  {
    if calls == [] then 0
    else
      var (t', answer) := Do(calls[0].ns, t, calls[0].op, calls[0].at);
      (if calls[0].op.SetIfNotExists? && Writes(calls[0], k) && answer == Flag(true) then 1 else 0) +
          Winners(t', calls[1..], k)
  }

  /** Only `setIfNotExists` writes the key, with values that outlive the calls. */
  predicate Contest(calls: seq<Call>, k: string, end: int) {
    forall i | 0 <= i < |calls| ::
      Over(calls[i]) <= end &&
      (Writes(calls[i], k) ==>
          calls[i].op.SetIfNotExists? &&
          (calls[i].op.ttl == 0 || (calls[i].at + calls[i].op.ttl >= end && calls[i].at + calls[i].op.ttl != 0)))
  }

  predicate Lasting(t: Tables, k: string, end: int) {
    k in t.kv && (t.kv[k].expires.None? || (t.kv[k].expires.value >= end && t.kv[k].expires.value != 0))
  }

  lemma LastingStays(t: Tables, c: Call, k: string, end: int)
    requires Lasting(t, k, end) && Over(c) <= end && (Writes(c, k) ==> c.op.SetIfNotExists?)
    ensures Lasting(Do(c.ns, t, c.op, c.at).0, k, end)
    ensures Writes(c, k) ==> Do(c.ns, t, c.op, c.at).1 == Flag(false)
  {
    hide K, SweepLists, SweepLocks, Append, DeleteMin, GetList;
    match c.op
    case Get(_, _) =>
    case SetIfNotExists(_, _, _) =>
    case _ =>
  }

  lemma {:induction false} NoMoreWinners(t: Tables, calls: seq<Call>, k: string, end: int)
    requires Lasting(t, k, end) && Contest(calls, k, end)
    ensures Winners(t, calls, k) == 0
    decreases |calls|
  {
    hide Do, Lasting, Writes;
    if calls != [] {
      LastingStays(t, calls[0], k, end);
      assert forall i | 0 <= i < |calls[1..]| :: calls[1..][i] == calls[i + 1];
      NoMoreWinners(Do(calls[0].ns, t, calls[0].op, calls[0].at).0, calls[1..], k, end);
    }
  }

  /** With no row to begin with, exactly one of any number of contenders wins: the first. */
  lemma {:induction false} OneWinner(t: Tables, calls: seq<Call>, k: string, end: int)
    requires k !in t.kv && Contest(calls, k, end)
    ensures Winners(t, calls, k) == if exists i :: 0 <= i < |calls| && Writes(calls[i], k) then 1 else 0
    decreases |calls|
  {
    hide Do, Lasting, Writes;
    if calls != [] {
      assert forall i | 0 <= i < |calls[1..]| :: calls[1..][i] == calls[i + 1];
      var t' := Do(calls[0].ns, t, calls[0].op, calls[0].at).0;
      if Writes(calls[0], k) {
        FirstWins(t, calls[0], k, end);
        NoMoreWinners(t', calls[1..], k, end);
      } else {
        StillFree(t, calls[0], k);
        OneWinner(t', calls[1..], k, end);
        if exists i :: 0 <= i < |calls| && Writes(calls[i], k) {
          var i :| 0 <= i < |calls| && Writes(calls[i], k);
          assert Writes(calls[1..][i - 1], k);
        }
      }
    }
  }

  lemma FirstWins(t: Tables, c: Call, k: string, end: int)
    requires k !in t.kv && Writes(c, k) && c.op.SetIfNotExists?
    requires c.op.ttl == 0 || (c.at + c.op.ttl >= end && c.at + c.op.ttl != 0)
    ensures Lasting(Do(c.ns, t, c.op, c.at).0, k, end) && Do(c.ns, t, c.op, c.at).1 == Flag(true)
  {
    hide K;
  }

  lemma StillFree(t: Tables, c: Call, k: string)
    requires k !in t.kv && !Writes(c, k)
    ensures k !in Do(c.ns, t, c.op, c.at).0.kv
  {
    hide K, SweepLists, SweepLocks, Append, DeleteMin, GetList;
  }
}
