/**
 The per-digest locks of file_service.py: a table of reference-counted entries, made when the first task
 asks for a digest and dropped when the last one leaves.  Entering and leaving are atomic (a guard protects
 the table); tasks wait for, take and give up the lock of their entry in any order in between.
 */
module DigestLocks {
  import opened Options

  type Digest = string
  type TaskId = nat
  type EntryId = nat

  /** DigestLockEntry: the lock, with the task that holds it, and the number of tasks using the entry. */
  datatype Entry = Entry(holder: Option<TaskId>, users: nat)

  datatype Phase = Waiting | Inside | Leaving

  /** A task between entry and exit, with the entry it was given. */
  datatype Session = Session(digest: Digest, entry: EntryId, phase: Phase)

  datatype System = System(
    table: map<Digest, EntryId>,
    entries: map<EntryId, Entry>,
    sessions: map<TaskId, Session>)

  datatype Step =
    | Enter(task: TaskId, digest: Digest, newEntry: EntryId)
    | Acquire(task: TaskId)
    | Release(task: TaskId)
    | Cancel(task: TaskId)
    | Leave(task: TaskId)

  predicate InPhase(s: System, task: TaskId, phase: Phase) {
    task in s.sessions && s.sessions[task].phase == phase && s.sessions[task].entry in s.entries
  }

  /** A new entry is an object of its own: newEntry is an id no entry has had. */
  predicate Enabled(s: System, step: Step) {
    match step
    case Enter(task, digest, newEntry) =>
      task !in s.sessions && newEntry !in s.entries && (digest in s.table ==> s.table[digest] in s.entries)
    case Acquire(task) => InPhase(s, task, Waiting) && s.entries[s.sessions[task].entry].holder.None?
    case Release(task) => InPhase(s, task, Inside)
    case Cancel(task) => InPhase(s, task, Waiting)
    case Leave(task) => InPhase(s, task, Leaving) && s.entries[s.sessions[task].entry].users >= 1
  }

  function WithPhase(s: System, task: TaskId, phase: Phase): map<TaskId, Session>
    requires task in s.sessions
  {
    s.sessions[task := s.sessions[task].(phase := phase)]
  }

  function Entered(s: System, task: TaskId, digest: Digest, e: EntryId, entry: Entry): System {
    System(s.table[digest := e], s.entries[e := entry.(users := entry.users + 1)],
           s.sessions[task := Session(digest, e, Waiting)])
  }

  function Apply(s: System, step: Step): System
    requires Enabled(s, step)
  {
    match step
    case Enter(task, digest, newEntry) =>
      if digest in s.table then Entered(s, task, digest, s.table[digest], s.entries[s.table[digest]])
      else Entered(s, task, digest, newEntry, Entry(None, 0))
    case Acquire(task) =>
      var e := s.sessions[task].entry;
      s.(entries := s.entries[e := s.entries[e].(holder := Some(task))], sessions := WithPhase(s, task, Inside))
    case Release(task) =>
      var e := s.sessions[task].entry;
      s.(entries := s.entries[e := s.entries[e].(holder := None)], sessions := WithPhase(s, task, Leaving))
    case Cancel(task) => s.(sessions := WithPhase(s, task, Leaving))
    case Leave(task) =>
      var session := s.sessions[task];
      var users := s.entries[session.entry].users - 1;
      System(if users == 0 then s.table - {session.digest} else s.table,
             s.entries[session.entry := s.entries[session.entry].(users := users)],
             s.sessions - {task})
  }

  // ---------------------------------------------------------------- the invariant

  function Users(s: System, digest: Digest): set<TaskId> {
    set t | t in s.sessions && s.sessions[t].digest == digest
  }

  /** The table knows the entry of every task, and no entry serves two digests. */
  ghost predicate EntriesShared(s: System) {
    && (forall d :: d in s.table ==> s.table[d] in s.entries)
    && (forall t :: t in s.sessions ==>
          s.sessions[t].digest in s.table && s.table[s.sessions[t].digest] == s.sessions[t].entry)
    && (forall c, d :: c in s.table && d in s.table && c != d ==> s.table[c] != s.table[d])
  }

  ghost predicate Counted(s: System, digest: Digest) {
    digest in s.table && s.table[digest] in s.entries ==>
      && s.entries[s.table[digest]].users == |Users(s, digest)|
      && 1 <= s.entries[s.table[digest]].users
  }

  ghost predicate UsersCounted(s: System) {
    forall d :: d in s.table ==> Counted(s, d)
  }

  /** A task is in the guarded section exactly if it holds the lock of its entry. */
  ghost predicate HoldersInside(s: System) {
    forall t :: t in s.sessions && s.sessions[t].entry in s.entries ==>
      (s.sessions[t].phase == Inside <==> s.entries[s.sessions[t].entry].holder == Some(t))
  }

  ghost predicate HoldersKnown(s: System) {
    forall e :: e in s.entries && s.entries[e].holder.Some? ==>
      s.entries[e].holder.value in s.sessions && s.sessions[s.entries[e].holder.value].entry == e
  }

  ghost predicate Inv(s: System) {
    EntriesShared(s) && UsersCounted(s) && HoldersInside(s) && HoldersKnown(s)
  }

  lemma CountAdd(a: set<TaskId>, b: set<TaskId>, t: TaskId)
    requires b == a + {t} && t !in a
    ensures |b| == |a| + 1
  {
  }

  lemma EnteredCounts(s: System, u: System, task: TaskId, d: Digest)
    requires task !in s.sessions && task in u.sessions && u.sessions == s.sessions[task := u.sessions[task]]
    ensures |Users(u, d)| == |Users(s, d)| + if u.sessions[task].digest == d then 1 else 0
  {
    if u.sessions[task].digest == d {
      CountAdd(Users(s, d), Users(u, d), task);
    } else {
      assert Users(u, d) == Users(s, d);
    }
  }

  lemma LeftCounts(s: System, u: System, task: TaskId, d: Digest)
    requires task in s.sessions && u.sessions == s.sessions - {task}
    ensures |Users(s, d)| == |Users(u, d)| + if s.sessions[task].digest == d then 1 else 0
  {
    if s.sessions[task].digest == d {
      CountAdd(Users(u, d), Users(s, d), task);
    } else {
      assert Users(u, d) == Users(s, d);
    }
  }

  lemma SameUsers(s: System, u: System, task: TaskId, phase: Phase, d: Digest)
    requires task in s.sessions && u.sessions == WithPhase(s, task, phase)
    ensures Users(u, d) == Users(s, d)
  {
  }

  lemma NoUsersUnlessThere(s: System, d: Digest)
    requires EntriesShared(s) && d !in s.table
    ensures Users(s, d) == {}
  {
  }

  lemma EnterKeepsCounts(s: System, task: TaskId, digest: Digest, newEntry: EntryId)
    requires EntriesShared(s) && UsersCounted(s) && Enabled(s, Enter(task, digest, newEntry))
    ensures UsersCounted(Apply(s, Enter(task, digest, newEntry)))
  {
    var u := Apply(s, Enter(task, digest, newEntry));
    forall d | d in u.table ensures Counted(u, d) {
      EnteredCounts(s, u, task, d);
      if d !in s.table {
        NoUsersUnlessThere(s, d);
      } else {
        assert Counted(s, d);
      }
    }
  }

  lemma LeaveKeepsCounts(s: System, task: TaskId)
    requires EntriesShared(s) && UsersCounted(s) && Enabled(s, Leave(task))
    ensures UsersCounted(Apply(s, Leave(task)))
  {
    var u := Apply(s, Leave(task));
    forall d | d in u.table ensures Counted(u, d) {
      LeftCounts(s, u, task, d);
      assert Counted(s, d);
    }
  }

  lemma PhaseKeepsCounts(s: System, u: System, task: TaskId, phase: Phase)
    requires UsersCounted(s) && task in s.sessions && u.sessions == WithPhase(s, task, phase) && u.table == s.table
    requires u.entries.Keys == s.entries.Keys && forall e :: e in s.entries ==> u.entries[e].users == s.entries[e].users
    ensures UsersCounted(u)
  {
    forall d | d in u.table ensures Counted(u, d) {
      SameUsers(s, u, task, phase, d);
      assert Counted(s, d);
    }
  }

  /** When the last user leaves, no other task has the digest. */
  lemma LastOneOut(s: System, task: TaskId)
    requires EntriesShared(s) && UsersCounted(s) && task in s.sessions
    requires s.sessions[task].entry in s.entries && s.entries[s.sessions[task].entry].users == 1
    ensures forall t :: t in s.sessions && t != task ==> s.sessions[t].digest != s.sessions[task].digest
  {
    var d := s.sessions[task].digest;
    assert Counted(s, d) && task in Users(s, d);
    forall t | t in s.sessions && t != task ensures s.sessions[t].digest != d {
      if s.sessions[t].digest == d {
        OnlyOne(Users(s, d), task, t);
      }
    }
  }

  lemma OnlyOne(a: set<TaskId>, t: TaskId, u: TaskId)
    requires |a| == 1 && t in a && u in a
    ensures t == u
  {
    CountAdd(a - {t}, a, t);
    assert a - {t} == {};
  }

  lemma LeaveKeepsEntries(s: System, task: TaskId)
    requires EntriesShared(s) && UsersCounted(s) && Enabled(s, Leave(task))
    ensures EntriesShared(Apply(s, Leave(task)))
  {
    if s.entries[s.sessions[task].entry].users == 1 {
      LastOneOut(s, task);
    }
  }

  lemma EnterKeepsEntries(s: System, task: TaskId, digest: Digest, newEntry: EntryId)
    requires EntriesShared(s) && Enabled(s, Enter(task, digest, newEntry))
    ensures EntriesShared(Apply(s, Enter(task, digest, newEntry)))
  {
  }

  lemma StepKeepsHolders(s: System, step: Step)
    requires EntriesShared(s) && HoldersInside(s) && HoldersKnown(s) && Enabled(s, step)
    ensures HoldersInside(Apply(s, step)) && HoldersKnown(Apply(s, step))
  {
  }

  lemma StepKeeps(s: System, step: Step)
    requires Inv(s) && Enabled(s, step)
    ensures Inv(Apply(s, step))
  {
    StepKeepsHolders(s, step);
    match step
    case Enter(task, digest, newEntry) =>
      EnterKeepsEntries(s, task, digest, newEntry);
      EnterKeepsCounts(s, task, digest, newEntry);
    case Acquire(task) => PhaseKeepsCounts(s, Apply(s, step), task, Inside);
    case Release(task) => PhaseKeepsCounts(s, Apply(s, step), task, Leaving);
    case Cancel(task) => PhaseKeepsCounts(s, Apply(s, step), task, Leaving);
    case Leave(task) =>
      LeaveKeepsEntries(s, task);
      LeaveKeepsCounts(s, task);
  }

  // ---------------------------------------------------------------- every interleaving

  const EMPTY: System := System(map[], map[], map[])

  ghost predicate IsRun(s: System, steps: seq<Step>)
    decreases |steps|
  {
    steps == [] || (Enabled(s, steps[0]) && IsRun(Apply(s, steps[0]), steps[1..]))
  }

  ghost function Run(s: System, steps: seq<Step>): System
    requires IsRun(s, steps)
    decreases |steps|
  {
    if steps == [] then s else Run(Apply(s, steps[0]), steps[1..])
  }

  lemma {:induction false} RunKeeps(s: System, steps: seq<Step>)
    requires Inv(s) && IsRun(s, steps)
    ensures Inv(Run(s, steps))
    decreases |steps|
  {
    hide Inv, Enabled, Apply;
    if steps != [] {
      StepKeeps(s, steps[0]);
      RunKeeps(Apply(s, steps[0]), steps[1..]);
    }
  }

  ghost predicate SameDigest(s: System, t: TaskId, u: TaskId) {
    t in s.sessions && u in s.sessions && s.sessions[t].digest == s.sessions[u].digest
  }

  ghost predicate BothInside(s: System, t: TaskId, u: TaskId)
    requires SameDigest(s, t, u)
  {
    s.sessions[t].phase == Inside && s.sessions[u].phase == Inside
  }

  /**
   Under every interleaving: the table has an entry for a digest exactly while some task is between entry
   and exit with it, the entry counts those tasks, they all share its lock, and no two of them are in the
   guarded section together.
   */
  lemma EveryInterleaving(steps: seq<Step>)
    requires IsRun(EMPTY, steps)
    ensures var s := Run(EMPTY, steps);
            && (forall d :: d in s.table <==> Users(s, d) != {})
            && (forall d :: d in s.table ==> s.table[d] in s.entries && s.entries[s.table[d]].users == |Users(s, d)|)
            && (forall t, u :: SameDigest(s, t, u) ==> s.sessions[t].entry == s.sessions[u].entry)
            && (forall t, u :: SameDigest(s, t, u) && BothInside(s, t, u) ==> t == u)
  {
    RunKeeps(EMPTY, steps);
    Meaning(Run(EMPTY, steps));
  }

  lemma Meaning(s: System)
    requires Inv(s)
    ensures forall d :: d in s.table <==> Users(s, d) != {}
    ensures forall d :: d in s.table ==> s.table[d] in s.entries && s.entries[s.table[d]].users == |Users(s, d)|
    ensures forall t, u :: SameDigest(s, t, u) ==> s.sessions[t].entry == s.sessions[u].entry
    ensures forall t, u :: SameDigest(s, t, u) && BothInside(s, t, u) ==> t == u
  {
    forall d ensures d in s.table <==> Users(s, d) != {} {
      if d in s.table {
        assert Counted(s, d);
      } else {
        NoUsersUnlessThere(s, d);
      }
    }
    forall d | d in s.table ensures s.table[d] in s.entries && s.entries[s.table[d]].users == |Users(s, d)| {
      assert Counted(s, d);
    }
  }

  /** No task waits for nothing: while one waits, some task with its digest can go on. */
  lemma SomeoneCanGoOn(s: System, t: TaskId)
    requires Inv(s) && InPhase(s, t, Waiting)
    ensures exists u :: u in Users(s, s.sessions[t].digest) && (Enabled(s, Acquire(u)) || Enabled(s, Release(u)))
  {
    var e := s.sessions[t].entry;
    var next := if s.entries[e].holder.None? then t else s.entries[e].holder.value;
    assert s.sessions[next].digest == s.sessions[t].digest;
    assert Enabled(s, Acquire(next)) || Enabled(s, Release(next));
  }

  lemma CanEnter(s: System, task: TaskId, digest: Digest, newEntry: EntryId)
    requires Inv(s) && task !in s.sessions && newEntry !in s.entries
    ensures Enabled(s, Enter(task, digest, newEntry))
  {
  }

  lemma CanLeave(s: System, task: TaskId)
    requires Inv(s) && InPhase(s, task, Leaving)
    ensures Enabled(s, Leave(task))
  {
    assert Counted(s, s.sessions[task].digest);
  }

  // ---------------------------------------------------------------- the table itself

  /** The module's state, updated in place; entries stands for the entry objects that tasks refer to. */
  class Locks {
    var table: map<Digest, EntryId>
    var entries: map<EntryId, Entry>
    var sessions: map<TaskId, Session>
    var nextEntry: EntryId

    function Contents(): System
      reads this
    {
      System(table, entries, sessions)
    }

    ghost predicate Valid()
      reads this
    {
      Inv(Contents()) && forall e :: e in entries ==> e < nextEntry
    }

    constructor ()
      ensures Valid() && Contents() == EMPTY
    {
      table, entries, sessions := map[], map[], map[];
      nextEntry := 0;
    }

    method EnterFor(task: TaskId, digest: Digest)
      requires Valid() && task !in sessions
      modifies this
      ensures Valid() && old(Enabled(Contents(), Enter(task, digest, nextEntry)))
      ensures Contents() == Apply(old(Contents()), Enter(task, digest, old(nextEntry)))
    {
      hide Inv, Users;
      CanEnter(Contents(), task, digest, nextEntry);
      StepKeeps(Contents(), Enter(task, digest, nextEntry));
      var entry: EntryId;
      if digest in table {
        entry := table[digest];
      } else {
        entry := nextEntry;
        nextEntry := nextEntry + 1;
        entries := entries[entry := Entry(None, 0)];
        table := table[digest := entry];
      }
      entries := entries[entry := entries[entry].(users := entries[entry].users + 1)];
      sessions := sessions[task := Session(digest, entry, Waiting)];
      assert table == old(table)[digest := entry];
      assert Contents() == Apply(old(Contents()), Enter(task, digest, old(nextEntry)));
    }

    method AcquireFor(task: TaskId) returns (taken: bool)
      requires Valid() && InPhase(Contents(), task, Waiting)
      modifies this
      ensures Valid() && taken == old(Enabled(Contents(), Acquire(task)))
      ensures Contents() == if taken then Apply(old(Contents()), Acquire(task)) else old(Contents())
    {
      hide Inv, Users;
      var e := sessions[task].entry;
      if entries[e].holder.Some? {
        return false;
      }
      StepKeeps(Contents(), Acquire(task));
      entries := entries[e := entries[e].(holder := Some(task))];
      sessions := sessions[task := sessions[task].(phase := Inside)];
      taken := true;
      assert Contents() == Apply(old(Contents()), Acquire(task));
    }

    /** Leaving the guarded section, or giving up waiting for it. */
    method StopUsing(task: TaskId)
      requires Valid() && (InPhase(Contents(), task, Inside) || InPhase(Contents(), task, Waiting))
      modifies this
      ensures Valid()
      ensures Contents()
              == Apply(old(Contents()), if old(InPhase(Contents(), task, Inside)) then Release(task) else Cancel(task))
    {
      hide Inv, Users;
      var e := sessions[task].entry;
      if sessions[task].phase == Inside {
        StepKeeps(Contents(), Release(task));
        entries := entries[e := entries[e].(holder := None)];
      } else {
        StepKeeps(Contents(), Cancel(task));
      }
      sessions := sessions[task := sessions[task].(phase := Leaving)];
      assert Contents()
             == Apply(old(Contents()), if old(InPhase(Contents(), task, Inside)) then Release(task) else Cancel(task));
    }

    /** The finally block: the count is lowered on the task's own entry, the key is dropped from the table. */
    method LeaveFor(task: TaskId)
      requires Valid() && InPhase(Contents(), task, Leaving)
      modifies this
      ensures Valid() && old(Enabled(Contents(), Leave(task)))
      ensures Contents() == Apply(old(Contents()), Leave(task))
    {
      hide Inv;
      CanLeave(Contents(), task);
      StepKeeps(Contents(), Leave(task));
      var session := sessions[task];
      entries := entries[session.entry := entries[session.entry].(users := entries[session.entry].users - 1)];
      if entries[session.entry].users == 0 {
        table := table - {session.digest};
      }
      sessions := sessions - {task};
    }
  }
}
