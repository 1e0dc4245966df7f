/** The lock protocol over all interleavings: callers read the clock, then issue their
    statements later, while others' statements fall in between. */
module StateLocks {
  import opened Text
  import opened StateTables

  /** An operation between reading the clock and its last statement. */
  datatype Pending =
    | ToDelete(key: string, token: string, now: int, expires: int)  // acquire: delete the expired row
    | ToInsert(key: string, token: string, expires: int)            // acquire: insert if absent
    | ToRelease(key: string, token: string)
    | ToExtend(key: string, token: string, expires: int)
    | ToSweep(now: int)

  /** A lock handed out, with the expiry its last statement gave it. */
  datatype Issued = Issued(key: string, expires: int, released: bool)

  datatype Protocol = Protocol(
    clock: int,
    table: map<string, LockRow>,
    pending: map<nat, Pending>,
    issued: map<string, Issued>)  // by token

  datatype Step =
    | Tick(ms: nat)
    | BeginAcquire(id: nat, key: string, token: string, ttl: int)
    | BeginRelease(id: nat, token: string)
    | BeginExtend(id: nat, token: string, ttl: int)
    | BeginSweep(id: nat)
    | Continue(id: nat)

  /** The token a pending acquire will hand out, if it is one. */
  function Acquiring(p: Pending): Option<string> {
    match p
    case ToDelete(_, token, _, _) => Some(token)
    case ToInsert(_, token, _) => Some(token)
    case _ => None
  }

  /** Random tokens do not repeat. */
  predicate NewToken(s: Protocol, token: string) {
    token !in s.issued && forall id | id in s.pending :: Acquiring(s.pending[id]) != Some(token)
  }

  function Statement(s: Protocol, id: nat): Protocol
    requires id in s.pending
  {
    var rest := s.pending - {id};
    match s.pending[id]
    case ToDelete(key, token, now, expires) =>
      s.(table := if key in s.table && s.table[key].expires < now then s.table - {key} else s.table,
         pending := s.pending[id := ToInsert(key, token, expires)])
    case ToInsert(key, token, expires) =>
      if key in s.table then s.(pending := rest)
      else s.(table := s.table[key := LockRow(token, expires)], pending := rest,
              issued := s.issued[token := Issued(key, expires, false)])
    case ToRelease(key, token) =>
      s.(table := if Holds(s.table, key, token) then s.table - {key} else s.table, pending := rest,
         issued := if token in s.issued then s.issued[token := s.issued[token].(released := true)] else s.issued)
    case ToExtend(key, token, expires) =>
      if Holds(s.table, key, token) && token in s.issued
      then s.(table := s.table[key := LockRow(token, expires)], pending := rest,
              issued := s.issued[token := s.issued[token].(expires := expires)])
      else s.(pending := rest)
    case ToSweep(now) => s.(table := SweepLocks(s.table, now), pending := rest)
  }

  /** One step of some caller; a step that is not possible changes nothing. Only who
      holds a lock releases or extends it. */
  function Take(s: Protocol, step: Step): Protocol {
    match step
    case Tick(ms) => s.(clock := s.clock + ms)
    case BeginAcquire(id, key, token, ttl) =>
      if id in s.pending || !NewToken(s, token) then s
      else s.(pending := s.pending[id := ToDelete(key, token, s.clock, s.clock + ttl)])
    case BeginRelease(id, token) =>
      if id in s.pending || token !in s.issued then s
      else s.(pending := s.pending[id := ToRelease(s.issued[token].key, token)])
    case BeginExtend(id, token, ttl) =>
      if id in s.pending || token !in s.issued then s
      else s.(pending := s.pending[id := ToExtend(s.issued[token].key, token, s.clock + ttl)])
    case BeginSweep(id) =>
      if id in s.pending then s else s.(pending := s.pending[id := ToSweep(s.clock)])
    case Continue(id) =>
      if id in s.pending then Statement(s, id) else s
  }

  function RunSteps(s: Protocol, steps: seq<Step>): Protocol
    decreases |steps|
  {
    if steps == [] then s else RunSteps(Take(s, steps[0]), steps[1..])
  }

  // ----- the invariant --------------------------------------------------------

  /** Issued, not released, and its current expiry has not passed. */
  predicate Live(s: Protocol, token: string) {
    token in s.issued && !s.issued[token].released && s.clock <= s.issued[token].expires
  }

  /** A pending operation is about an issued lock or a token of its own, and its clock
      reading is not in the future. */
  predicate Sound(s: Protocol, p: Pending) {
    match p
    case ToDelete(_, token, now, _) => now <= s.clock && token !in s.issued
    case ToInsert(_, token, _) => token !in s.issued
    case ToRelease(key, token) => token in s.issued && s.issued[token].key == key
    case ToExtend(key, token, _) => token in s.issued && s.issued[token].key == key
    case ToSweep(now) => now <= s.clock
  }

  /** A table row is that of the lock it names. */
  predicate RowIsIssued(s: Protocol, key: string)
    requires key in s.table
  {
    var row := s.table[key];
    row.token in s.issued && s.issued[row.token] == Issued(key, row.expires, false)
  }

  ghost predicate Inv(s: Protocol) {
    && (forall id | id in s.pending :: Sound(s, s.pending[id]))
    && (forall a, b | a in s.pending && b in s.pending && a != b ::
          Acquiring(s.pending[a]).Some? ==> Acquiring(s.pending[a]) != Acquiring(s.pending[b]))
    && (forall key | key in s.table :: RowIsIssued(s, key))
    && (forall token | Live(s, token) :: Holds(s.table, s.issued[token].key, token))
  }

  lemma InsertKeepsInv(s: Protocol, id: nat)
    requires Inv(s) && id in s.pending && s.pending[id].ToInsert?
    ensures Inv(Statement(s, id))
  {
    var p := s.pending[id];
    var s' := Statement(s, id);
    if p.key !in s.table {
      forall i | i in s'.pending ensures Sound(s', s'.pending[i]) {
        assert Sound(s, s.pending[i]);
        assert Acquiring(s.pending[i]) != Acquiring(p);
      }
      forall key | key in s'.table ensures RowIsIssued(s', key) {
        if key != p.key { assert RowIsIssued(s, key); }
      }
      forall token | Live(s', token) ensures Holds(s'.table, s'.issued[token].key, token) {
        if token != p.token { assert Live(s, token) && s.issued[token].key != p.key; }
      }
    } else {
      forall i | i in s'.pending ensures Sound(s', s'.pending[i]) { assert Sound(s, s.pending[i]); }
      forall key | key in s'.table ensures RowIsIssued(s', key) { assert RowIsIssued(s, key); }
      forall token | Live(s', token) ensures Holds(s'.table, s'.issued[token].key, token) { assert Live(s, token); }
    }
  }

  lemma DeleteKeepsInv(s: Protocol, id: nat)
    requires Inv(s) && id in s.pending && (s.pending[id].ToDelete? || s.pending[id].ToSweep?)
    ensures Inv(Statement(s, id))
  {
    var p := s.pending[id];
    var s' := Statement(s, id);
    assert Sound(s, p);
    forall i | i in s'.pending ensures Sound(s', s'.pending[i]) { assert Sound(s, s.pending[i]); }
    forall key | key in s'.table ensures RowIsIssued(s', key) { assert RowIsIssued(s, key); }
    forall token | Live(s', token) ensures Holds(s'.table, s'.issued[token].key, token) {
      assert Live(s, token);
      assert RowIsIssued(s, s.issued[token].key);
    }
  }

  lemma ReleaseKeepsInv(s: Protocol, id: nat)
    requires Inv(s) && id in s.pending && s.pending[id].ToRelease?
    ensures Inv(Statement(s, id))
  {
    var p := s.pending[id];
    var s' := Statement(s, id);
    assert Sound(s, p);
    forall i | i in s'.pending ensures Sound(s', s'.pending[i]) { assert Sound(s, s.pending[i]); }
    forall key | key in s'.table ensures RowIsIssued(s', key) { assert RowIsIssued(s, key); }
    forall token | Live(s', token) ensures Holds(s'.table, s'.issued[token].key, token) { assert Live(s, token); }
  }

  lemma ExtendKeepsInv(s: Protocol, id: nat)
    requires Inv(s) && id in s.pending && s.pending[id].ToExtend?
    ensures Inv(Statement(s, id))
  {
    var p := s.pending[id];
    var s' := Statement(s, id);
    assert Sound(s, p);
    forall i | i in s'.pending ensures Sound(s', s'.pending[i]) { assert Sound(s, s.pending[i]); }
    forall key | key in s'.table ensures RowIsIssued(s', key) { assert RowIsIssued(s, key); }
    forall token | Live(s', token) ensures Holds(s'.table, s'.issued[token].key, token) {
      if token != p.token { assert Live(s, token); }
    }
  }

  lemma BeginKeepsInv(s: Protocol, step: Step)
    requires Inv(s) && !step.Continue?
    ensures Inv(Take(s, step))
  {
    var s' := Take(s, step);
    forall i | i in s'.pending ensures Sound(s', s'.pending[i]) {
      if i in s.pending { assert Sound(s, s.pending[i]); }
    }
    forall key | key in s'.table ensures RowIsIssued(s', key) { assert RowIsIssued(s, key); }
    forall token | Live(s', token) ensures Holds(s'.table, s'.issued[token].key, token) { assert Live(s, token); }
  }

  lemma StepKeepsInv(s: Protocol, step: Step)
    requires Inv(s)
    ensures Inv(Take(s, step))
  {
    hide Inv, Statement, NewToken;
    if !step.Continue? {
      BeginKeepsInv(s, step);
    } else if step.id in s.pending {
      match s.pending[step.id]
      case ToDelete(_, _, _, _) => DeleteKeepsInv(s, step.id);
      case ToSweep(_) => DeleteKeepsInv(s, step.id);
      case ToInsert(_, _, _) => InsertKeepsInv(s, step.id);
      case ToRelease(_, _) => ReleaseKeepsInv(s, step.id);
      case ToExtend(_, _, _) => ExtendKeepsInv(s, step.id);
    }
  }

  lemma {:induction false} RunKeepsInv(s: Protocol, steps: seq<Step>)
    requires Inv(s)
    ensures Inv(RunSteps(s, steps))
    decreases |steps|
  {
    hide Inv, Take;
    if steps != [] {
      StepKeepsInv(s, steps[0]);
      RunKeepsInv(Take(s, steps[0]), steps[1..]);
    }
  }

  /** No two rows share a token. */
  predicate TokensDiffer(table: map<string, LockRow>) {
    forall a, b | a in table && b in table && a != b :: table[a].token != table[b].token
  }

  function Tokens(table: map<string, LockRow>): set<string> {
    set key | key in table :: table[key].token
  }

  ghost function HeldBy(table: map<string, LockRow>, token: string): (key: string)
    requires token in Tokens(table)
    ensures Holds(table, key, token)
  {
    var key :| key in table && table[key].token == token;
    key
  }

  /** The locks an earlier process's rows stand for, by token. */
  ghost function IssuedIn(table: map<string, LockRow>): map<string, Issued> {
    map token | token in Tokens(table) ::
      Issued(HeldBy(table, token), table[HeldBy(table, token)].expires, false)
  }

  /** A process starts on whatever table an earlier one left; the locks in it count as
      issued, so they keep others out until they expire or are given back. */
  ghost function Start(clock: int, table: map<string, LockRow>): Protocol {
    Protocol(clock, table, map[], IssuedIn(table))
  }

  lemma IssuedInMeans(table: map<string, LockRow>)
    requires TokensDiffer(table)
    ensures forall key | key in table ::
              table[key].token in IssuedIn(table) &&
              IssuedIn(table)[table[key].token] == Issued(key, table[key].expires, false)
    ensures forall token | token in IssuedIn(table) :: Holds(table, IssuedIn(table)[token].key, token)
  {
    forall key | key in table
      ensures table[key].token in Tokens(table) && HeldBy(table, table[key].token) == key
    {
    }
  }

  lemma StartIsInv(clock: int, table: map<string, LockRow>)
    requires TokensDiffer(table)
    ensures Inv(Start(clock, table))
  {
    hide IssuedIn;
    IssuedInMeans(table);
  }

  /** Lock safety: whatever table it starts from and however callers interleave, the row of
      a live lock is in the table, so the insert of anyone else acquiring that thread fails
      and hands out nothing; in particular no two live locks are on one thread. */
  lemma LiveLockKeepsOthersOut(clock: int, table: map<string, LockRow>, steps: seq<Step>, holder: string)
    requires TokensDiffer(table) && Live(RunSteps(Start(clock, table), steps), holder)
    ensures var s := RunSteps(Start(clock, table), steps); var key := s.issued[holder].key;
      && key in s.table && s.table[key] == LockRow(holder, s.issued[holder].expires)
      && (forall id | id in s.pending && s.pending[id].ToInsert? && s.pending[id].key == key ::
            Take(s, Continue(id)).issued == s.issued && Take(s, Continue(id)).table == s.table)
      && (forall other | Live(s, other) && s.issued[other].key == key :: other == holder)
  {
    hide Start;
    StartIsInv(clock, table);
    RunKeepsInv(Start(clock, table), steps);
    var s := RunSteps(Start(clock, table), steps);
    assert RowIsIssued(s, s.issued[holder].key);
  }

  /** A former holder's release or extend never changes a successor's row. */
  lemma FormerHolderIsHarmless(clock: int, table: map<string, LockRow>, steps: seq<Step>, id: nat)
    requires var s := RunSteps(Start(clock, table), steps);
      id in s.pending && (s.pending[id].ToRelease? || s.pending[id].ToExtend?)
    ensures var s := RunSteps(Start(clock, table), steps); var s' := Take(s, Continue(id));
      forall key | key in s.table && s.table[key].token != s.pending[id].token ::
        key in s'.table && s'.table[key] == s.table[key]
  {
    hide RunSteps, Start;
  }

  /** Acquiring works: with no row on the thread the insert hands out a live lock, as
      long as the time to live has not run out in between. */
  lemma FreeThreadIsGranted(s: Protocol, id: nat)
    requires id in s.pending && s.pending[id].ToInsert? && s.pending[id].key !in s.table
    ensures var p := s.pending[id]; var s' := Take(s, Continue(id));
      Live(s', p.token) <==> s.clock <= p.expires
  {
  }

  /** A row left behind does not block for ever: once it has expired, an acquire takes its
      place. */
  lemma ExpiredRowGivesWay(s: Protocol, id: nat, key: string, token: string, ttl: nat)
    requires id !in s.pending && NewToken(s, token) && (key in s.table ==> s.table[key].expires < s.clock)
    ensures Live(RunSteps(s, [BeginAcquire(id, key, token, ttl), Continue(id), Continue(id)]), token)
  {
    hide NewToken, RunSteps;
    WholeAcquire(s, Tables(map[], map[], s.table, map[]), id, key, token, ttl);
  }

  // ----- uninterrupted operations ---------------------------------------------

  lemma TwoSteps(s: Protocol, a: Step, b: Step)
    ensures RunSteps(s, [a, b]) == Take(Take(s, a), b)
  {
    hide Take;
    var s1 := Take(s, a);
    assert [a, b][1..] == [b] && [b][1..] == [];
    assert RunSteps(s1, [b]) == RunSteps(Take(s1, b), []);
  }

  lemma ThreeSteps(s: Protocol, a: Step, b: Step, c: Step)
    ensures RunSteps(s, [a, b, c]) == Take(Take(Take(s, a), b), c)
  {
    hide Take;
    assert [a, b, c][1..] == [b, c];
    TwoSteps(Take(s, a), b, c);
  }

  /** An acquire nobody interrupts is the adapter's operation: the same row, the same
      grant, and nothing else on record. */
  lemma WholeAcquire(s: Protocol, t: Tables, id: nat, key: string, token: string, ttl: int)
    requires t.locks == s.table && id !in s.pending && NewToken(s, token)
    ensures var s' := RunSteps(s, [BeginAcquire(id, key, token, ttl), Continue(id), Continue(id)]);
      var (t', grant) := AcquireLock(t, key, token, ttl, s.clock);
      && s'.table == t'.locks && s'.pending == s.pending && s'.clock == s.clock
      && (grant.Some? ==> grant.value.token == token)
      && s'.issued == if grant.Some? then s.issued[token := Issued(key, grant.value.expires, false)] else s.issued
  {
    hide RunSteps;
    ThreeSteps(s, BeginAcquire(id, key, token, ttl), Continue(id), Continue(id));
    hide NewToken;
    var s2 := Take(Take(s, BeginAcquire(id, key, token, ttl)), Continue(id));
    assert s2.pending == s.pending[id := ToInsert(key, token, s.clock + ttl)];
    assert s2.pending - {id} == s.pending;
  }

  /** So are a release, an extension by who holds the lock, and a sweep. */
  lemma WholeRelease(s: Protocol, t: Tables, id: nat, token: string)
    requires t.locks == s.table && id !in s.pending && token in s.issued
    ensures var s' := RunSteps(s, [BeginRelease(id, token), Continue(id)]);
      && s'.table == ReleaseLock(t, s.issued[token].key, token).locks && s'.pending == s.pending
      && s'.issued == s.issued[token := s.issued[token].(released := true)]
  {
    TwoSteps(s, BeginRelease(id, token), Continue(id));
    assert Take(s, BeginRelease(id, token)).pending - {id} == s.pending;
  }

  lemma WholeExtend(s: Protocol, t: Tables, id: nat, token: string, ttl: int)
    requires t.locks == s.table && id !in s.pending && token in s.issued
    ensures var s' := RunSteps(s, [BeginExtend(id, token, ttl), Continue(id)]);
      var (t', extended) := ExtendLock(t, s.issued[token].key, token, ttl, s.clock);
      && s'.table == t'.locks && s'.pending == s.pending
      && token in s'.issued
      && s'.issued[token].expires == if extended then s.clock + ttl else s.issued[token].expires
  {
    TwoSteps(s, BeginExtend(id, token, ttl), Continue(id));
    assert Take(s, BeginExtend(id, token, ttl)).pending - {id} == s.pending;
  }

  lemma WholeSweep(s: Protocol, t: Tables, id: nat)
    requires t.locks == s.table && id !in s.pending
    ensures var s' := RunSteps(s, [BeginSweep(id), Continue(id)]);
      s'.table == Cleanup(t, s.clock).locks && s'.pending == s.pending && s'.issued == s.issued
  {
    TwoSteps(s, BeginSweep(id), Continue(id));
    assert Take(s, BeginSweep(id)).pending - {id} == s.pending;
  }
}
