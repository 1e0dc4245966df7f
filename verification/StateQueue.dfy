/** The list table refines a bounded first-in first-out queue, and no entry is lost or
    served twice under any interleaving of callers. */
module StateQueue {
  import opened Text
  import opened StateTables

  /** The rows of one key, in order, with consecutive indices and no expiry. */
  predicate Contiguous(rows: seq<ListRow>) {
    forall i | 0 <= i < |rows| ::
      rows[i].idx == rows[0].idx + i && rows[i].idx >= 0 && rows[i].expires.None?
  }

  /** The last `n` entries; 0 is no limit, and nothing survives a negative one. */
  function KeepLast(s: seq<string>, n: int): seq<string> {
    if n == 0 then s
    else if n < 0 then []
    else if n >= |s| then s
    else s[|s| - n..]
  }

  lemma {:induction false} MaxOfContiguous(rows: seq<ListRow>)
    requires Contiguous(rows) && rows != []
    ensures MaxIdx(rows) == rows[|rows| - 1].idx
  {
    if |rows| > 1 { TailContiguous(rows); MaxOfContiguous(rows[1..]); }
  }

  lemma TailContiguous(rows: seq<ListRow>)
    requires Contiguous(rows) && |rows| > 1
    ensures Contiguous(rows[1..])
  {
    assert forall i | 0 <= i < |rows[1..]| :: rows[1..][i] == rows[i + 1];
  }

  lemma {:induction false} MinOfContiguous(rows: seq<ListRow>)
    requires Contiguous(rows) && rows != []
    ensures MinIdx(rows) == rows[0].idx
  {
    if |rows| > 1 { TailContiguous(rows); MinOfContiguous(rows[1..]); assert rows[1..][0] == rows[1]; }
  }

  /** How many rows a trim at `cutoff` removes from the front. */
  function Trimmed(rows: seq<ListRow>, cutoff: int): (n: nat)
    ensures n <= |rows|
  {
    if rows == [] || cutoff < rows[0].idx then 0
    else if cutoff - rows[0].idx + 1 >= |rows| then |rows|
    else cutoff - rows[0].idx + 1
  }

  lemma {:induction false} TrimIsASplit(rows: seq<ListRow>, cutoff: int)
    requires Contiguous(rows)
    ensures var n := Trimmed(rows, cutoff);
      RowsUpTo(rows, cutoff) == rows[..n] && RowsAbove(rows, cutoff) == rows[n..]
  {
    if rows != [] {
      var tail := rows[1..];
      if |rows| > 1 { TailContiguous(rows); assert tail[0] == rows[1]; }
      TrimIsASplit(tail, cutoff);
      var n, m := Trimmed(rows, cutoff), Trimmed(tail, cutoff);
      assert n == if rows[0].idx <= cutoff then m + 1 else 0;
      if rows[0].idx <= cutoff {
        assert rows[..n] == [rows[0]] + tail[..m] && rows[n..] == tail[m..];
      } else {
        assert m == 0 && [rows[0]] + tail == rows;
      }
    }
  }

  lemma InsertedContiguous(rows: seq<ListRow>, value: string)
    requires Contiguous(rows)
    ensures Contiguous(Inserted(rows, value, None))
    ensures ValuesOf(Inserted(rows, value, None)) == ValuesOf(rows) + [value]
  {
    if rows != [] { MaxOfContiguous(rows); }
  }

  /** An append is: add at the end, keep the last `maxLength`; indices stay contiguous. */
  lemma AppendRefines(rows: seq<ListRow>, value: string, maxLength: int)
    requires Contiguous(rows)
    ensures var after := Append(rows, value, maxLength, None);
      Contiguous(after) && ValuesOf(after) == KeepLast(ValuesOf(rows) + [value], maxLength)
  {
    hide MaxIdx;
    var inserted := Inserted(rows, value, None);
    InsertedContiguous(rows, value);
    if rows != [] { MaxOfContiguous(rows); } else { assert MaxIdx([]) == -1 by { EmptyMax(); } }
    var idx := MaxIdx(rows) + 1;
    match Cutoff(idx, maxLength)
    case None =>
    case Some(cutoff) =>
      TrimKeepsLast(inserted, idx, maxLength);
  }

  /** Trimming at the last index less `maxLength` keeps the last `maxLength` entries. */
  lemma TrimKeepsLast(inserted: seq<ListRow>, idx: int, maxLength: int)
    requires Contiguous(inserted) && inserted != [] && inserted[|inserted| - 1].idx == idx
    requires maxLength != 0 && idx - maxLength >= 0
    ensures var after := RowsAbove(inserted, idx - maxLength);
      Contiguous(after) && ValuesOf(after) == KeepLast(ValuesOf(inserted), maxLength)
  {
    hide Contiguous, RowsAbove, RowsUpTo, ValuesOf, Trimmed, KeepLast;
    var n := TrimCount(inserted, idx, maxLength);
    TrimIsASplit(inserted, idx - maxLength);
    DropContiguous(inserted, n);
    ValuesOfTail(inserted, n);
    KeepLastDrops(ValuesOf(inserted), maxLength, n);
  }

  lemma KeepLastDrops(s: seq<string>, n: int, dropped: nat)
    requires n != 0 && dropped == if n < 0 then |s| else if n >= |s| then 0 else |s| - n
    ensures KeepLast(s, n) == s[dropped..]
  {
  }

  lemma TrimCount(inserted: seq<ListRow>, idx: int, maxLength: int) returns (n: nat)
    requires Contiguous(inserted) && inserted != [] && inserted[|inserted| - 1].idx == idx
    ensures n == Trimmed(inserted, idx - maxLength)
    ensures n == if maxLength <= 0 then |inserted| else if maxLength >= |inserted| then 0 else |inserted| - maxLength
  {
    n := Trimmed(inserted, idx - maxLength);
    assert inserted[|inserted| - 1].idx == inserted[0].idx + (|inserted| - 1);
    hide Contiguous;
  }

  lemma ValuesOfTail(rows: seq<ListRow>, n: nat)
    requires n <= |rows|
    ensures |ValuesOf(rows)| == |rows| && ValuesOf(rows[n..]) == ValuesOf(rows)[n..]
  {
  }

  lemma EmptyMax()
    ensures MaxIdx([]) == -1
  {
  }

  lemma DropContiguous(rows: seq<ListRow>, n: nat)
    requires Contiguous(rows) && n <= |rows|
    ensures Contiguous(rows[n..])
  {
    assert forall i | 0 <= i < |rows[n..]| :: rows[n..][i] == rows[n + i];
  }

  lemma {:induction false} WithoutFirst(rows: seq<ListRow>, idx: int)
    requires Contiguous(rows) && (rows != [] ==> idx < rows[0].idx)
    ensures WithoutIdx(rows, idx) == rows
  {
    if rows != [] {
      if |rows| > 1 { TailContiguous(rows); assert rows[1..][0] == rows[1]; }
      WithoutFirst(rows[1..], idx);
      assert [rows[0]] + rows[1..] == rows;
    }
  }

  /** A dequeue takes the oldest entry and nothing else. */
  lemma DequeueRefines(rows: seq<ListRow>)
    requires Contiguous(rows)
    ensures var (left, value) := DeleteMin(rows);
      if rows == [] then left == [] && value.None?
      else (Contiguous(left) && left == rows[1..] && value == Some(rows[0].value) &&
            ValuesOf(left) == ValuesOf(rows)[1..])
  {
    if rows == [] {
      EmptyDelete();
    } else {
      hide Contiguous, DeleteMin, ValuesOf;
      DeleteTakesFirst(rows);
      DropContiguous(rows, 1);
      ValuesOfTail(rows, 1);
    }
  }

  lemma DeleteTakesFirst(rows: seq<ListRow>)
    requires Contiguous(rows) && rows != []
    ensures DeleteMin(rows) == (rows[1..], Some(rows[0].value))
  {
    MinOfContiguous(rows);
    DropContiguous(rows, 1);
    if |rows| > 1 { assert rows[1..][0] == rows[1] && rows[1].idx == rows[0].idx + 1; }
    WithoutFirst(rows[1..], rows[0].idx);
    hide Contiguous;
    assert [] + rows[1..] == rows[1..];
  }

  /** Sweeping expired rows does not touch a queue. */
  lemma {:induction false} SweepLeavesQueue(rows: seq<ListRow>, now: int)
    requires Contiguous(rows)
    ensures SweepRows(rows, now) == rows
  {
    if rows != [] {
      if |rows| > 1 { TailContiguous(rows); }
      SweepLeavesQueue(rows[1..], now);
      assert [rows[0]] + rows[1..] == rows;
    }
  }

  /** Reading the list gives the entries oldest first. */
  lemma {:induction false} ListIsInOrder(rows: seq<ListRow>, now: int)
    requires Contiguous(rows)
    ensures ByIdx(Unexpired(rows, now)) == rows
  {
    if rows != [] {
      if |rows| > 1 { TailContiguous(rows); assert rows[1..][0] == rows[1]; }
      ListIsInOrder(rows[1..], now);
      assert Unexpired(rows, now) == [rows[0]] + Unexpired(rows[1..], now);
      assert Unexpired(rows, now)[1..] == Unexpired(rows[1..], now);
      assert [rows[0]] + rows[1..] == rows;
    }
  }

  // ----- interleavings --------------------------------------------------------

  datatype Fate = Dequeued | Dropped

  /** One queue and everything that ever happened to it: the entries enqueued, in
      order; what became of those no longer stored; the answers of dequeues. */
  datatype Queue = Queue(rows: seq<ListRow>, log: seq<string>, gone: seq<(string, Fate)>, served: seq<string>)

  /** The atomic steps callers interleave: an append transaction (or one that lost and
      was rolled back), a delete (or one that lost), the reads, and anyone's sweep. */
  datatype Step =
    | AppendTx(value: string, maxSize: int)
    | AppendLost
    | DeleteOldest
    | DeleteLost
    | Look
    | SweepAt(now: int)

  function Fates(rows: seq<ListRow>, fate: Fate): seq<(string, Fate)> {
    seq(|rows|, i requires 0 <= i < |rows| => (rows[i].value, fate))
  }

  function Take(q: Queue, s: Step): Queue {
    match s
    case AppendTx(value, maxSize) =>
      var inserted := Inserted(q.rows, value, None);
      var dropped := match Cutoff(MaxIdx(q.rows) + 1, maxSize)
        case None => []
        case Some(cutoff) => RowsUpTo(inserted, cutoff);
      q.(rows := Append(q.rows, value, maxSize, None), log := q.log + [value], gone := q.gone + Fates(dropped, Dropped))
    case DeleteOldest =>
      var (left, value) := DeleteMin(q.rows);
      (match value
       case None => q
       case Some(v) => q.(rows := left, gone := q.gone + [(v, Dequeued)], served := q.served + [v]))
    case SweepAt(now) => q.(rows := SweepRows(q.rows, now))
    case _ => q
  }

  function RunSteps(q: Queue, steps: seq<Step>): Queue
    decreases |steps|
  {
    if steps == [] then q else RunSteps(Take(q, steps[0]), steps[1..])
  }

  function Names(gone: seq<(string, Fate)>): seq<string> {
    seq(|gone|, i requires 0 <= i < |gone| => gone[i].0)
  }

  function ServedOf(gone: seq<(string, Fate)>): seq<string> {
    if gone == [] then []
    else ServedOf(gone[..|gone| - 1]) + (if gone[|gone| - 1].1.Dequeued? then [gone[|gone| - 1].0] else [])
  }

  /** Every entry ever enqueued is, in order, either gone with exactly one fate or still
      stored, and the dequeue answers are exactly the entries whose fate was that. */
  predicate Conserved(q: Queue) {
    && Contiguous(q.rows)
    && q.log == Names(q.gone) + ValuesOf(q.rows)
    && q.served == ServedOf(q.gone)
  }

  lemma {:induction false} DroppedAreNotServed(gone: seq<(string, Fate)>, rows: seq<ListRow>)
    ensures ServedOf(gone + Fates(rows, Dropped)) == ServedOf(gone)
    decreases |rows|
  {
    var all := gone + Fates(rows, Dropped);
    if rows == [] {
      assert all == gone;
    } else {
      var n := |rows| - 1;
      assert all[..|all| - 1] == gone + Fates(rows[..n], Dropped);
      DroppedAreNotServed(gone, rows[..n]);
      assert all[|all| - 1] == (rows[n].value, Dropped);
    }
  }

  lemma AppendConserves(q: Queue, value: string, maxSize: int)
    requires Conserved(q)
    ensures Conserved(Take(q, AppendTx(value, maxSize)))
  {
    hide MaxIdx, ServedOf, Append;
    AppendRefines(q.rows, value, maxSize);
    InsertedContiguous(q.rows, value);
    var q' := Take(q, AppendTx(value, maxSize));
    match Cutoff(MaxIdx(q.rows) + 1, maxSize)
    case None =>
      DroppedAreNotServed(q.gone, []);
      assert q'.rows == Inserted(q.rows, value, None) by { AppendIs(q.rows, value, maxSize); }
      assert q'.log == Names(q'.gone) + ValuesOf(q'.rows);
    case Some(cutoff) =>
      AppendIs(q.rows, value, maxSize);
      TrimConserves(q, value, cutoff);
  }

  lemma AppendIs(rows: seq<ListRow>, value: string, maxLength: int)
    ensures Append(rows, value, maxLength, None) ==
      match Cutoff(MaxIdx(rows) + 1, maxLength)
      case None => Inserted(rows, value, None)
      case Some(cutoff) => RowsAbove(Inserted(rows, value, None), cutoff)
  {
    hide MaxIdx;
  }

  /** The rows a trim drops and the rows it leaves are what was there, in order. */
  lemma TrimConserves(q: Queue, value: string, cutoff: int)
    requires Conserved(q)
    ensures var inserted := Inserted(q.rows, value, None);
      var gone := q.gone + Fates(RowsUpTo(inserted, cutoff), Dropped);
      q.log + [value] == Names(gone) + ValuesOf(RowsAbove(inserted, cutoff)) && q.served == ServedOf(gone)
  {
    hide MaxIdx, ServedOf, RowsUpTo, RowsAbove;
    var inserted := Inserted(q.rows, value, None);
    InsertedContiguous(q.rows, value);
    TrimIsASplit(inserted, cutoff);
    hide Contiguous, Inserted;
    var n := Trimmed(inserted, cutoff);
    DroppedAreNotServed(q.gone, inserted[..n]);
    SplitIsConserved(q.gone, inserted, n);
  }

  lemma SplitIsConserved(gone: seq<(string, Fate)>, rows: seq<ListRow>, n: nat)
    requires n <= |rows|
    ensures Names(gone) + ValuesOf(rows) == Names(gone + Fates(rows[..n], Dropped)) + ValuesOf(rows[n..])
  {
    assert Names(gone + Fates(rows[..n], Dropped)) == Names(gone) + ValuesOf(rows)[..n];
    assert ValuesOf(rows[n..]) == ValuesOf(rows)[n..];
    assert ValuesOf(rows) == ValuesOf(rows)[..n] + ValuesOf(rows)[n..];
  }

  lemma DeleteConserves(q: Queue)
    requires Conserved(q)
    ensures Conserved(Take(q, DeleteOldest))
  {
    hide DeleteMin, Contiguous, Names, ValuesOf, ServedOf;
    DequeueRefines(q.rows);
    if q.rows != [] {
      var value := q.rows[0].value;
      var q' := Take(q, DeleteOldest);
      assert q'.rows == q.rows[1..] && q'.gone == q.gone + [(value, Dequeued)] && q'.served == q.served + [value];
      NamesOfOneMore(q.gone, value);
      ServedOfOneMore(q.gone, value);
      FirstValue(q.rows);
    } else {
      EmptyDelete();
    }
  }

  lemma NamesOfOneMore(gone: seq<(string, Fate)>, value: string)
    ensures Names(gone + [(value, Dequeued)]) == Names(gone) + [value]
  {
  }

  lemma ServedOfOneMore(gone: seq<(string, Fate)>, value: string)
    ensures ServedOf(gone + [(value, Dequeued)]) == ServedOf(gone) + [value]
  {
    var all := gone + [(value, Dequeued)];
    assert all[..|all| - 1] == gone;
  }

  lemma FirstValue(rows: seq<ListRow>)
    requires rows != []
    ensures ValuesOf(rows) == [rows[0].value] + ValuesOf(rows[1..])
  {
  }

  lemma EmptyDelete()
    ensures DeleteMin([]) == ([], None)
  {
  }

  /** Over any interleaving: exactly one of dequeued once, trimmed, or still stored. */
  lemma {:induction false} QueueConserves(q: Queue, steps: seq<Step>)
    requires Conserved(q)
    ensures Conserved(RunSteps(q, steps))
    decreases |steps|
  {
    hide Conserved, Append, DeleteMin;
    if steps != [] {
      match steps[0] {
        case AppendTx(value, maxSize) => AppendConserves(q, value, maxSize);
        case DeleteOldest => DeleteConserves(q);
        case SweepAt(now) => assert Conserved(Take(q, steps[0])) by { SweepConserves(q, now); }
        case _ =>
      }
      QueueConserves(Take(q, steps[0]), steps[1..]);
    }
  }

  lemma SweepConserves(q: Queue, now: int)
    requires Conserved(q)
    ensures Take(q, SweepAt(now)) == q
  {
    SweepLeavesQueue(q.rows, now);
  }

  lemma FreshQueueConserves(steps: seq<Step>)
    ensures Conserved(RunSteps(Queue([], [], [], []), steps))
  {
    QueueConserves(Queue([], [], [], []), steps);
  }

  // ----- the tables' queue ----------------------------------------------------

  /** What a step on the tables is for the queue under key `k`. */
  function SeenBy(k: string, s: ListStep): Step {
    match s
    case ListAppend(key, value, maxLength, _) => if key == k then AppendTx(value, maxLength) else Look
    case ListDelete(key) => if key == k then DeleteOldest else Look
    case ListSweep(now) => SweepAt(now)
  }

  function AllSeenBy(k: string, steps: seq<ListStep>): seq<Step> {
    seq(|steps|, i requires 0 <= i < |steps| => SeenBy(k, steps[i]))
  }

  /** Entries of the queue under `k` are appended without an expiry. */
  predicate QueueOnly(k: string, steps: seq<ListStep>) {
    forall i | 0 <= i < |steps| :: steps[i].ListAppend? && steps[i].key == k ==> steps[i].expires.None?
  }

  lemma {:induction false} MinIsThere(rows: seq<ListRow>)
    requires rows != []
    ensures ValueAt(rows, MinIdx(rows)).Some?
  {
    if |rows| > 1 { MinIsThere(rows[1..]); }
  }

  lemma DeleteFinds(rows: seq<ListRow>)
    ensures DeleteMin(rows).1.None? <==> rows == []
    ensures rows == [] ==> DeleteMin(rows).0 == []
  {
    if rows != [] { MinIsThere(rows); }
  }

  lemma EmptySweep(t: Tables, k: string)
    ensures forall now :: Rows(t, k) == [] ==> SweepRows(Rows(t, k), now) == []
  {
  }

  lemma StepIsSeen(t: Tables, q: Queue, k: string, s: ListStep)
    requires Rows(t, k) == q.rows && QueueOnly(k, [s])
    ensures Rows(ListStepped(t, s), k) == Take(q, SeenBy(k, s)).rows
  {
    hide Append, RowsUpTo, Fates, SweepRows, DeleteMin;
    assert [s][0] == s;
    DeleteFinds(Rows(t, k));
    EmptySweep(t, k);
  }

  /** Whatever callers do to the tables, the rows of one queue's key go through the
      steps of that queue. */
  lemma {:induction false} TablesRunTheQueue(t: Tables, q: Queue, k: string, steps: seq<ListStep>)
    requires Rows(t, k) == q.rows && QueueOnly(k, steps)
    ensures Rows(ListSteps(t, steps), k) == RunSteps(q, AllSeenBy(k, steps)).rows
    decreases |steps|
  {
    hide ListStepped, Take;
    if steps != [] {
      var s, rest := steps[0], steps[1..];
      assert [s][0] == s;
      StepIsSeen(t, q, k, s);
      assert AllSeenBy(k, steps)[0] == SeenBy(k, s) && AllSeenBy(k, steps)[1..] == AllSeenBy(k, rest);
      TablesRunTheQueue(ListStepped(t, s), Take(q, SeenBy(k, s)), k, rest);
    }
  }

  /** However many attempts came back empty-handed, a dequeue is one delete at one point
      among the other callers' steps; it ends before the last of them only by finding
      nothing there. */
  lemma {:induction false} DequeueHappensOnce(t: Tables, k: string, others: seq<seq<ListStep>>)
    returns (n: nat)
    ensures n <= |others|
    ensures var seen := ListSteps(t, Flat(others[..n]));
      && DequeueAmid(t, k, others) == Dequeue(seen, k)
      && (n < |others| ==> Rows(seen, k) == [])
    decreases |others|
  {
    hide ListSteps;
    if others == [] {
      n := 0;
      assert ListSteps(t, []) == t by { NoSteps(t); }
    } else {
      var t1 := ListSteps(t, others[0]);
      assert Flat(others[..1]) == others[0] by { assert others[..1] == [others[0]] && others[..1][1..] == []; }
      if Rows(t1, k) == [] {
        n := 1;
        assert Dequeue(t1, k) == (t1, None) by { NothingToDequeue(t1, k); }
      } else {
        var m := DequeueHappensOnce(t1, k, others[1..]);
        n := m + 1;
        assert others[..n][0] == others[0] && others[..n][1..] == others[1..][..m];
        StepsCompose(t, others[0], Flat(others[1..][..m]));
      }
    }
  }

  lemma NothingToDequeue(t: Tables, k: string)
    requires Rows(t, k) == []
    ensures Dequeue(t, k) == (t, None)
  {
    if k in t.lists { assert t.lists[k := []] == t.lists; }
  }

  lemma NoSteps(t: Tables)
    ensures ListSteps(t, []) == t
  {
  }

  lemma {:induction false} FlatIsQueueOnly(k: string, others: seq<seq<ListStep>>, n: nat)
    requires n <= |others| && QueueOnly(k, Flat(others))
    ensures QueueOnly(k, Flat(others[..n]))
  {
    if n > 0 {
      var rest := Flat(others[1..]);
      forall i | 0 <= i < |rest|
        ensures rest[i].ListAppend? && rest[i].key == k ==> rest[i].expires.None?
      {
        assert Flat(others)[|others[0]| + i] == rest[i];
      }
      FlatIsQueueOnly(k, others[1..], n - 1);
      assert others[..n][0] == others[0] && others[..n][1..] == others[1..][..n - 1];
      forall i | 0 <= i < |others[0]|
        ensures others[0][i].ListAppend? && others[0][i].key == k ==> others[0][i].expires.None?
      {
        assert Flat(others)[i] == others[0][i];
      }
    }
  }

  /** A dequeue racing any number of other callers serves exactly the oldest entry at the
      point it takes effect, or nothing if there is none then; and every entry is still
      accounted for. */
  lemma DequeueConserves(t: Tables, q: Queue, k: string, others: seq<seq<ListStep>>) returns (n: nat)
    requires Conserved(q) && Rows(t, k) == q.rows && QueueOnly(k, Flat(others))
    ensures n <= |others|
    ensures var before := RunSteps(q, AllSeenBy(k, Flat(others[..n])));
      var after := Take(before, DeleteOldest);
      var (t', entry) := DequeueAmid(t, k, others);
      && Conserved(before) && Conserved(after)
      && Rows(t', k) == after.rows
      && (entry.None? <==> before.rows == [])
      && (n < |others| ==> entry.None?)
      && after.served == before.served + (if entry.Some? then [entry.value] else [])
  {
    hide Conserved, DeleteMin, ListSteps, RunSteps;
    n := DequeueHappensOnce(t, k, others);
    var steps := Flat(others[..n]);
    FlatIsQueueOnly(k, others, n);
    TablesRunTheQueue(t, q, k, steps);
    QueueConserves(q, AllSeenBy(k, steps));
    var before := RunSteps(q, AllSeenBy(k, steps));
    DeleteConserves(before);
    assert Contiguous(before.rows) by { ConservedIsContiguous(before); }
    DequeueRefines(before.rows);
  }

  lemma ConservedIsContiguous(q: Queue)
    requires Conserved(q)
    ensures Contiguous(q.rows)
  {
  }

  /** An append that lost any number of races is one append transaction after the steps
      that won them. */
  lemma AppendHappensOnce(t: Tables, q: Queue, k: string, others: seq<seq<ListStep>>, value: string, maxSize: int,
      now: int)
    requires Conserved(q) && Rows(t, k) == q.rows && QueueOnly(k, Flat(others))
    ensures var after := Take(RunSteps(q, AllSeenBy(k, Flat(others))), AppendTx(value, maxSize));
      && Conserved(after)
      && Rows(AppendToList(ListSteps(t, Flat(others)), k, value, maxSize, 0, now), k) == after.rows
  {
    hide Conserved, Append, ListSteps, RunSteps;
    TablesRunTheQueue(t, q, k, Flat(others));
    QueueConserves(q, AllSeenBy(k, Flat(others)));
    AppendConserves(RunSteps(q, AllSeenBy(k, Flat(others))), value, maxSize);
  }
}
