/** Every interleaving of waiters, probes and announcers over one ledger, while deliveries
    arrive and are acknowledged.

    The ledger lock makes a pass one read-modify-write, but arrivals, acknowledgements, waiter
    starts and deaths fall between the mailbox read and the write of a pass, so a pass is two
    actions: `WaiterLock` (lock, mailbox read) and `WaiterCommit` (the rest). The same holds for
    the probe. What a reading says about the mailbox, the follower, the until-event task and the
    deadline is left open. A waiter does not see quiet deliveries, and nothing at all when its read
    is refused; a pass that writes then loses what it did not see (`LosesOpen`). */
module WakeProtocol {
  import opened WakeLedger

  datatype Holder = Free | WaiterHolds(snapshot: seq<nat>) | ProbeHolds(snapshot: seq<nat>)

  datatype WaiterState = Down | Up(memory: Memory)

  datatype System = System(
    clock: int,
    arrived: set<nat>,
    quiet: set<nat>,    // deliveries that only the probe reads
    acked: set<nat>,
    file: Record,
    waiter: WaiterState,
    holder: Holder,
    // History: ids put into new_delivery_ids, ids reminded with the clock of the pass, and
    // for each delivery the first stamp it was recorded with.
    surfaced: seq<nat>,
    reminders: seq<(nat, int)>,
    first: map<nat, int>,
    // Deliveries announced by until-event tasks, or before the run.
    told: set<nat>)
  {
    function Pending(): set<nat> {
      arrived - acked
    }
  }

  datatype Action =
    | Tick(to: int)
    | Arrive(id: nat, quiet: bool)
    | Ack(id: nat)
    | WaiterStart
    | WaiterDie
    | WaiterLock(unread: seq<nat>)
    | WaiterCommit(reading: Reading)
    | ProbeLock(unread: seq<nat>)
    | ProbeCommit(readAt: int, now: int)
    | ProbeDie
    | Announcement(ids: seq<nat>, readAt: int, now: int)

  /** A mailbox read returns every pending id, once each. */
  ghost predicate IsMailboxRead(s: System, unread: seq<nat>) {
    Distinct(unread) && forall id :: id in unread <==> id in s.Pending()
  }

  /** What a waiter gets of the mailbox as it was when the pass took the lock. */
  ghost predicate WaiterReads(s: System, r: Reading)
    requires !s.holder.Free?
  {
    && Distinct(r.unread)
    && if r.listener.Refused? then r.unread == []
       else forall id :: id in r.unread <==> id in s.holder.snapshot && id !in s.quiet
  }

  ghost predicate Enabled(s: System, a: Action) {
    match a
    case Tick(to) => s.clock <= to
    case Arrive(id, _) => id !in s.arrived
    case Ack(id) => id in s.Pending()
    case WaiterStart => s.waiter.Down?
    case WaiterDie => s.waiter.Up?
    case WaiterLock(unread) => s.waiter.Up? && s.holder.Free? && IsMailboxRead(s, unread)
    case WaiterCommit(r) =>
      && s.waiter.Up? && s.holder.WaiterHolds? && WaiterReads(s, r)
      && s.clock <= r.readAt <= r.now
    case ProbeLock(unread) => s.holder.Free? && IsMailboxRead(s, unread)
    case ProbeCommit(readAt, now) => s.holder.ProbeHolds? && s.clock <= readAt <= now
    case ProbeDie => s.holder.ProbeHolds?
    case Announcement(ids, readAt, now) =>
      s.holder.Free? && s.clock <= readAt <= now && forall id :: id in ids ==> id in s.arrived
  }

  /** Remember the first stamp of every delivery the new record is the first to hold. */
  function Recorded(first: map<nat, int>, file: Record, arrived: set<nat>): map<nat, int> {
    (map id | id in arrived && Delivery(id) in file.announced && Delivery(id) in file.stamps
            :: file.stamps[Delivery(id)])
    + first
  }

  function Dated(ids: seq<nat>, at: int): seq<(nat, int)> {
    seq(|ids|, i requires 0 <= i < |ids| => (ids[i], at))
  }

  function Commit(s: System, file: Record, now: int): System {
    s.(clock := now, file := file, holder := Free, first := Recorded(s.first, file, s.arrived))
  }

  function Next(s: System, a: Action): System
    requires Enabled(s, a)
  {
    match a
    case Tick(to) => s.(clock := to)
    case Arrive(id, quiet) =>
      s.(arrived := s.arrived + {id}, quiet := if quiet then s.quiet + {id} else s.quiet)
    case Ack(id) => s.(acked := s.acked + {id})
    case WaiterStart => s.(waiter := Up(ReadLedger(s.file, s.clock)))
    case WaiterDie => s.(waiter := Down, holder := if s.holder.WaiterHolds? then Free else s.holder)
    case WaiterLock(unread) => s.(holder := WaiterHolds(unread))
    case WaiterCommit(r) =>
      var pass := WaiterPass(s.waiter.memory, s.file, r);
      Commit(s, pass.file, r.now).(
        // Every notice, and a watched deadline, ends the waiter process.
        waiter := if pass.notice.Wait? then Up(pass.memory) else Down,
        surfaced := s.surfaced + if pass.notice.Ready? then pass.notice.news else [],
        reminders := s.reminders + if pass.notice.Reminder? then Dated(pass.notice.due, r.now) else [])
    case ProbeLock(unread) => s.(holder := ProbeHolds(unread))
    case ProbeCommit(readAt, now) =>
      Commit(s, ProbeFile(s.file, s.holder.snapshot, readAt, now), now).(
        surfaced := s.surfaced + ProbeFresh(s.file, s.holder.snapshot, readAt))
    case ProbeDie => s.(holder := Free)
    case Announcement(ids, readAt, now) =>
      Commit(s, AnnouncedFile(s.file, ids, readAt, now), now).(told := s.told + (set id | id in ids))
  }

  /** Any ledger a past run may have left, also one from before stamps were recorded. */
  ghost predicate Init(s: System) {
    && s.acked <= s.arrived && s.quiet <= s.arrived
    && (forall id :: Delivery(id) in s.file.announced ==> id in s.arrived)
    && s.waiter.Down? && s.holder.Free?
    && s.surfaced == [] && s.reminders == []
    && (forall id :: Delivery(id) in s.file.announced ==> id in s.told)
    // A delivery without a stamp counts from the start of the run.
    && (forall id :: id in s.first <==> Delivery(id) in s.file.announced)
    && (forall id :: id in s.first ==>
          s.first[id] == if Delivery(id) in s.file.stamps then s.file.stamps[Delivery(id)] else s.clock)
  }

  ghost predicate Legal(s: System, run: seq<Action>)
    decreases |run|
  {
    run == [] || (Enabled(s, run[0]) && Legal(Next(s, run[0]), run[1..]))
  }

  ghost function Run(s: System, run: seq<Action>): System
    requires Legal(s, run)
    decreases |run|
  {
    if run == [] then s else Run(Next(s, run[0]), run[1..])
  }

  // ---- the invariant -------------------------------------------------------------------

  /** Ids still owed to the reader: pending now, or in the snapshot of the pass under way. */
  ghost predicate Open(s: System, id: nat) {
    (id in s.arrived && id !in s.acked) || (!s.holder.Free? && id in s.holder.snapshot)
  }

  /** What holds in every run, whatever the waiter got to read. */
  ghost predicate Sane(s: System) {
    && s.acked <= s.arrived && s.quiet <= s.arrived
    && (forall id :: Delivery(id) in s.file.announced ==> id in s.arrived)
    && (s.waiter.Up? ==> s.waiter.memory.announcedAt.Keys <= s.file.announced)
    && (!s.holder.Free? ==> Distinct(s.holder.snapshot) && forall id :: id in s.holder.snapshot ==> id in s.arrived)
  }

  ghost predicate LedgerInv(s: System) {
    && (forall id :: Delivery(id) in s.file.announced ==> id in s.first)
    && (forall id :: id in s.first ==> id in s.arrived)
    && (forall id :: id in s.first && Open(s, id) ==> Delivery(id) in s.file.announced)
  }

  /** A ledger entry that is not in the snapshot was acknowledged before it was taken. */
  ghost predicate SnapshotInv(s: System) {
    !s.holder.Free? ==>
      forall id :: Delivery(id) in s.file.announced && id !in s.holder.snapshot ==> id in s.acked
  }

  ghost predicate OnceInv(s: System) {
    && Distinct(s.surfaced)
    && (forall id :: id in s.surfaced ==> id in s.arrived)
    && (forall id :: id in s.surfaced && Open(s, id) ==> Delivery(id) in s.file.announced)
  }

  ghost predicate RemindedOnce(reminders: seq<(nat, int)>) {
    forall i, j :: 0 <= i < j < |reminders| ==> reminders[i].0 != reminders[j].0
  }

  ghost predicate ReminderInv(s: System) {
    && RemindedOnce(s.reminders)
    && (forall k :: 0 <= k < |s.reminders| ==> s.reminders[k].0 in s.arrived && s.reminders[k].0 in s.first)
    && (forall k :: 0 <= k < |s.reminders| && Open(s, s.reminders[k].0) ==>
          Delivery(s.reminders[k].0) in s.file.reminded * s.file.announced)
    && (forall k :: 0 <= k < |s.reminders| ==> s.reminders[k].1 >= s.first[s.reminders[k].0] + REMIND_SECONDS)
  }

  ghost predicate StampInv(s: System) {
    && (forall id :: id in s.first && Open(s, id) ==>
          s.first[id] <= if Delivery(id) in s.file.stamps then s.file.stamps[Delivery(id)] else s.clock)
    && (s.waiter.Up? ==> forall id :: id in s.first && Open(s, id) && Delivery(id) in s.waiter.memory.announcedAt ==>
          s.first[id] <= s.waiter.memory.announcedAt[Delivery(id)])
  }

  ghost predicate Inv(s: System) {
    Sane(s) && LedgerInv(s) && SnapshotInv(s) && OnceInv(s) && ReminderInv(s) && StampInv(s)
  }

  lemma InitKeepsInv(s: System)
    requires Init(s)
    ensures Inv(s)
  {
  }

  predicate RewritesLedger(a: Action) {
    a.WaiterCommit? || a.ProbeCommit? || a.Announcement?
  }

  lemma QuietStepKeepsInv(s: System, a: Action)
    requires Inv(s) && Enabled(s, a) && !RewritesLedger(a)
    ensures Inv(Next(s, a))
  {
  }

  /** What a rewrite of the record must do to keep the books: every pending entry stays, with
      its stamp no later and its reminder mark, and nothing unknown appears. */
  ghost predicate KeepsBooks(s: System, file: Record, now: int) {
    && (forall id :: Delivery(id) in file.announced ==>
          id in s.arrived && (id in s.first || Delivery(id) in file.stamps))
    && (forall id :: Delivery(id) in s.file.announced && id in s.Pending() ==> Delivery(id) in file.announced)
    && (forall id :: Delivery(id) in s.file.announced * s.file.reminded && id in s.Pending() ==>
          Delivery(id) in file.reminded)
    && (forall id :: id in s.Pending() && id in s.first ==>
          s.first[id] <= if Delivery(id) in file.stamps then file.stamps[Delivery(id)] else now)
    && s.clock <= now
  }

  lemma RecordedKeepsFirst(s: System, file: Record, now: int)
    requires Inv(s) && KeepsBooks(s, file, now)
    ensures var first := Recorded(s.first, file, s.arrived);
      && (forall id :: id in s.first ==> id in first && first[id] == s.first[id])
      && (forall id :: id in first ==> id in s.arrived)
      && (forall id :: Delivery(id) in file.announced ==> id in first)
      && (forall id :: id in s.Pending() && id in first ==>
            && Delivery(id) in file.announced
            && first[id] <= if Delivery(id) in file.stamps then file.stamps[Delivery(id)] else now)
  {
  }

  /** What a waiter may hold beside a record: no entry of its own, no stamp earlier than the first. */
  ghost predicate HoldsBooks(s: System, w: WaiterState, file: Record, first: map<nat, int>) {
    w.Up? ==>
      && w.memory.announcedAt.Keys <= file.announced
      && forall id :: id in first && id in s.Pending() && Delivery(id) in w.memory.announcedAt ==>
           first[id] <= w.memory.announcedAt[Delivery(id)]
  }

  /** A rewrite that keeps the books keeps the invariant, before anything is reported. */
  lemma CommitKeepsInv(s: System, file: Record, now: int, waiter: WaiterState)
    requires Inv(s) && KeepsBooks(s, file, now)
    requires HoldsBooks(s, waiter, file, Recorded(s.first, file, s.arrived))
    ensures Inv(Commit(s, file, now).(waiter := waiter))
  {
    hide Recorded;
    RecordedKeepsFirst(s, file, now);
    var s' := Commit(s, file, now).(waiter := waiter);
    assert forall id :: Open(s', id) <==> id in s.Pending();
    assert Sane(s');
    assert LedgerInv(s') && StampInv(s');
    assert OnceInv(s');
    assert ReminderInv(s');
  }

  lemma AnnouncementKeepsBooks(s: System, ids: seq<nat>, readAt: int, now: int)
    requires Inv(s) && s.clock <= readAt <= now
    requires forall id :: id in ids ==> id in s.arrived
    ensures KeepsBooks(s, AnnouncedFile(s.file, ids, readAt, now), now)
    ensures HoldsBooks(s, s.waiter, AnnouncedFile(s.file, ids, readAt, now),
                       Recorded(s.first, AnnouncedFile(s.file, ids, readAt, now), s.arrived))
  {
  }

  lemma ProbeKeepsBooks(s: System, readAt: int, now: int)
    requires Inv(s) && Enabled(s, ProbeCommit(readAt, now))
    ensures KeepsBooks(s, ProbeFile(s.file, s.holder.snapshot, readAt, now), now)
    ensures HoldsBooks(s, s.waiter, ProbeFile(s.file, s.holder.snapshot, readAt, now),
                       Recorded(s.first, ProbeFile(s.file, s.holder.snapshot, readAt, now), s.arrived))
  {
    if ProbeFresh(s.file, s.holder.snapshot, readAt) != [] {
      AnnouncementKeepsBooks(s, s.holder.snapshot, readAt, now);
    }
  }

  lemma DistinctAppend(a: seq<nat>, b: seq<nat>)
    requires Distinct(a) && Distinct(b) && forall id :: id in a ==> id !in b
    ensures Distinct(a + b)
  {
    forall i, j | 0 <= i < j < |a + b| ensures (a + b)[i] != (a + b)[j] {
      if i < |a| <= j {
        assert a[i] in a && b[j - |a|] in b;
      }
    }
  }

  /** Reporting ids that were open and missing from the old record, and are in the new one. */
  lemma SurfacingKeepsInv(s: System, s': System, news: seq<nat>)
    requires Inv(s) && Inv(s') && s'.surfaced == s.surfaced && s'.arrived == s.arrived
    requires Distinct(news)
    requires forall id :: id in news ==> id in s.arrived && Open(s, id) && Delivery(id) !in s.file.announced
    requires forall id :: id in news ==> Delivery(id) in s'.file.announced
    ensures Inv(s'.(surfaced := s'.surfaced + news))
  {
    var s'' := s'.(surfaced := s'.surfaced + news);
    DistinctAppend(s'.surfaced, news);
    forall id | id in s''.surfaced && Open(s'', id) ensures Delivery(id) in s''.file.announced {
      assert Open(s', id);
    }
    assert Sane(s'') && LedgerInv(s'') && SnapshotInv(s'') && ReminderInv(s'') && StampInv(s'');
  }

  lemma ProbeNewsWasUnannounced(s: System, readAt: int, now: int)
    requires Inv(s) && Enabled(s, ProbeCommit(readAt, now))
    ensures var news := ProbeFresh(s.file, s.holder.snapshot, readAt);
      && Distinct(news)
      && (forall id :: id in news ==> id in s.arrived && Open(s, id) && Delivery(id) !in s.file.announced)
      && (forall id :: id in news ==> Delivery(id) in ProbeFile(s.file, s.holder.snapshot, readAt, now).announced)
  {
    FreshSelects(ReadLedger(s.file, readAt), s.holder.snapshot);
  }

  lemma ProbeCommitKeepsInv(s: System, readAt: int, now: int)
    requires Inv(s) && Enabled(s, ProbeCommit(readAt, now))
    ensures Inv(Next(s, ProbeCommit(readAt, now)))
  {
    hide Inv, KeepsBooks, HoldsBooks, Recorded, Open, Distinct, ProbeFile, ProbeFresh;
    var unread := s.holder.snapshot;
    var file, news := ProbeFile(s.file, unread, readAt, now), ProbeFresh(s.file, unread, readAt);
    ProbeKeepsBooks(s, readAt, now);
    CommitKeepsInv(s, file, now, s.waiter);
    ProbeNewsWasUnannounced(s, readAt, now);
    SurfacingKeepsInv(s, Commit(s, file, now).(waiter := s.waiter), news);
  }

  // ---- the waiter's commit ---------------------------------------------------------------

  lemma MergedKeys(s: System, r: Reading)
    requires Sane(s) && Enabled(s, WaiterCommit(r))
    ensures Merged(s.waiter.memory, ReadLedger(s.file, r.readAt)).announcedAt.Keys == s.file.announced
  {
  }

  lemma MergedMemory(s: System, r: Reading)
    requires Inv(s) && Enabled(s, WaiterCommit(r))
    ensures HoldsMerged(s, Merged(s.waiter.memory, ReadLedger(s.file, r.readAt)))
  {
  }

  /** A pending delivery of the record that this pass did not get to read. */
  ghost predicate Overlooked(s: System, r: Reading, id: nat) {
    id in s.Pending() && Delivery(id) in s.file.announced && id !in r.unread
  }

  /** The pass writes the record without a delivery that is still pending. */
  ghost predicate LosesOpen(s: System, r: Reading)
    requires s.waiter.Up?
  {
    Writes(WaiterPass(s.waiter.memory, s.file, r).notice) && exists id :: Overlooked(s, r, id)
  }

  /** A pass that read its mailbox overlooks only quiet deliveries. */
  lemma OnlyQuietAreOverlooked(s: System, r: Reading, id: nat)
    requires Inv(s) && Enabled(s, WaiterCommit(r)) && !r.listener.Refused? && Overlooked(s, r, id)
    ensures id in s.quiet
  {
  }

  /** The record and the memory of a waiter, read together. */
  ghost predicate HoldsMerged(s: System, m: Memory) {
    && m.announcedAt.Keys == s.file.announced
    && s.file.reminded * s.file.announced <= m.reminded
    && (forall id :: id in s.first && Open(s, id) ==>
          Delivery(id) in m.announcedAt && s.first[id] <= m.announcedAt[Delivery(id)])
    && (forall e :: e in s.file.announced && e in s.file.stamps ==> m.announcedAt[e] <= s.file.stamps[e])
  }

  lemma WritingKeepsBooks(s: System, m: Memory, r: Reading)
    requires Sane(s) && LedgerInv(s) && HoldsMerged(s, m) && Enabled(s, WaiterCommit(r))
    requires forall id :: id in s.Pending() && Delivery(id) in s.file.announced ==> id in r.unread
    ensures KeepsBooks(s, WriteLedger(Settled(m, r).announcedAt, Settled(m, r).reminded), r.now)
  {
    hide Decide;
  }

  lemma WaitingKeepsBooks(s: System, m: Memory, r: Reading)
    requires Inv(s) && HoldsMerged(s, m) && Enabled(s, WaiterCommit(r)) && !Writes(Decide(m, r))
    ensures KeepsBooks(s, s.file, r.now)
    ensures Decide(m, r).Wait? ==> HoldsBooks(s, Up(Settled(m, r)), s.file, Recorded(s.first, s.file, s.arrived))
  {
    if Decide(m, r).Wait? { WaitingAddsNothing(s, m, r); }
    hide Decide, OnceInv, ReminderInv;
  }

  lemma WaiterKeepsBooks(s: System, r: Reading)
    requires Inv(s) && Enabled(s, WaiterCommit(r)) && !LosesOpen(s, r)
    ensures var pass := WaiterPass(s.waiter.memory, s.file, r);
      && KeepsBooks(s, pass.file, r.now)
      && HoldsBooks(s, if pass.notice.Wait? then Up(pass.memory) else Down, pass.file,
                    Recorded(s.first, pass.file, s.arrived))
  {
    var m := Merged(s.waiter.memory, ReadLedger(s.file, r.readAt));
    MergedMemory(s, r);
    hide Merged, ReadLedger, Decide, Settled, KeepsBooks, HoldsMerged, Recorded;
    if Writes(Decide(m, r)) {
      forall id | id in s.Pending() && Delivery(id) in s.file.announced ensures id in r.unread {
        assert !Overlooked(s, r, id);
      }
      WritingKeepsBooks(s, m, r);
    } else {
      WaitingKeepsBooks(s, m, r);
    }
  }

  lemma WaitingAddsNothing(s: System, m: Memory, r: Reading)
    requires m.announcedAt.Keys == s.file.announced
    requires Distinct(r.unread) && Decide(m, r).Wait?
    ensures Kept(m, r) <= s.file.announced
  {
    FreshSelects(m, r.unread);
  }

  lemma WaiterNewsWasUnannounced(s: System, r: Reading)
    requires Inv(s) && Enabled(s, WaiterCommit(r))
    requires WaiterPass(s.waiter.memory, s.file, r).notice.Ready?
    ensures var pass := WaiterPass(s.waiter.memory, s.file, r);
      && Distinct(pass.notice.news)
      && (forall id :: id in pass.notice.news ==>
            id in s.arrived && Open(s, id) && Delivery(id) !in s.file.announced && Delivery(id) in pass.file.announced)
  {
    var m := Merged(s.waiter.memory, ReadLedger(s.file, r.readAt));
    MergedMemory(s, r);
    FreshSelects(m, r.unread);
  }

  lemma WaiterRemindsTheUnreminded(s: System, r: Reading)
    requires Inv(s) && Enabled(s, WaiterCommit(r))
    requires WaiterPass(s.waiter.memory, s.file, r).notice.Reminder?
    ensures var pass := WaiterPass(s.waiter.memory, s.file, r);
      && Distinct(pass.notice.due)
      && (forall id :: id in pass.notice.due ==>
            && id in s.first && Open(s, id)
            && Delivery(id) in s.file.announced && Delivery(id) !in s.file.reminded
            && Delivery(id) in pass.file.announced * pass.file.reminded
            && r.now >= s.first[id] + REMIND_SECONDS)
  {
    var m := Merged(s.waiter.memory, ReadLedger(s.file, r.readAt));
    MergedMemory(s, r);
    DueSelects(m, r.unread, r.now);
  }

  lemma RemindingKeepsInv(s: System, s': System, due: seq<nat>, now: int)
    requires Inv(s) && Inv(s') && s'.reminders == s.reminders && s'.arrived == s.arrived
    requires forall id :: id in s.first ==> id in s'.first && s'.first[id] == s.first[id]
    requires Distinct(due)
    requires forall id :: id in due ==>
      && id in s.first && Open(s, id)
      && Delivery(id) in s.file.announced && Delivery(id) !in s.file.reminded
      && Delivery(id) in s'.file.announced * s'.file.reminded
      && now >= s.first[id] + REMIND_SECONDS
    ensures Inv(s'.(reminders := s'.reminders + Dated(due, now)))
  {
    var s'' := s'.(reminders := s'.reminders + Dated(due, now));
    forall k | 0 <= k < |s''.reminders|
      ensures s''.reminders[k].0 in s''.arrived && s''.reminders[k].0 in s''.first
      ensures Open(s'', s''.reminders[k].0) ==> Delivery(s''.reminders[k].0) in s''.file.reminded * s''.file.announced
      ensures s''.reminders[k].1 >= s''.first[s''.reminders[k].0] + REMIND_SECONDS
    {
      if k >= |s.reminders| {
        assert due[k - |s.reminders|] in due;
      } else {
        assert s''.reminders[k] == s'.reminders[k];
        assert Open(s'', s''.reminders[k].0) == Open(s', s''.reminders[k].0);
      }
    }
    forall i, j | 0 <= i < j < |s''.reminders| ensures s''.reminders[i].0 != s''.reminders[j].0 {
      if i < |s.reminders| <= j {
        assert due[j - |s.reminders|] in due;
      }
    }
    assert Sane(s'') && LedgerInv(s'') && SnapshotInv(s'') && OnceInv(s'') && StampInv(s'');
  }

  lemma WaiterCommitKeepsInv(s: System, r: Reading)
    requires Inv(s) && Enabled(s, WaiterCommit(r)) && !LosesOpen(s, r)
    ensures Inv(Next(s, WaiterCommit(r)))
  {
    hide Inv, KeepsBooks, HoldsBooks, Recorded, Open, Distinct, WaiterPass, Dated, LosesOpen;
    var pass := WaiterPass(s.waiter.memory, s.file, r);
    var waiter := if pass.notice.Wait? then Up(pass.memory) else Down;
    WaiterKeepsBooks(s, r);
    CommitKeepsInv(s, pass.file, r.now, waiter);
    RecordedKeepsFirst(s, pass.file, r.now);
    var s' := Commit(s, pass.file, r.now).(waiter := waiter);
    if pass.notice.Ready? {
      WaiterNewsWasUnannounced(s, r);
      SurfacingKeepsInv(s, s', pass.notice.news);
    } else if pass.notice.Reminder? {
      WaiterRemindsTheUnreminded(s, r);
      RemindingKeepsInv(s, s', pass.notice.due, r.now);
    }
    assert s'.surfaced + [] == s'.surfaced && s'.reminders + [] == s'.reminders;
  }

  /** The books survive a pass of the waiter exactly when it does not write while it overlooks a
      pending delivery. */
  lemma WaiterCommitKeepsInvExactly(s: System, r: Reading)
    requires Inv(s) && Enabled(s, WaiterCommit(r))
    ensures Inv(Next(s, WaiterCommit(r))) <==> !LosesOpen(s, r)
  {
    if LosesOpen(s, r) {
      var id :| Overlooked(s, r, id);
      OverlookedIsLost(s, r, id);
      assert id in s.first && Open(Next(s, WaiterCommit(r)), id);
      FirstIsKept(s, r, id);
    } else {
      WaiterCommitKeepsInv(s, r);
    }
  }

  lemma FirstIsKept(s: System, r: Reading, id: nat)
    requires Enabled(s, WaiterCommit(r)) && id in s.first
    ensures id in Next(s, WaiterCommit(r)).first
  {
  }

  lemma OverlookedIsLost(s: System, r: Reading, id: nat)
    requires Enabled(s, WaiterCommit(r)) && Overlooked(s, r, id)
    requires Writes(WaiterPass(s.waiter.memory, s.file, r).notice)
    ensures Delivery(id) !in Next(s, WaiterCommit(r)).file.announced
    ensures id in Next(s, WaiterCommit(r)).Pending()
  {
  }

  lemma TellingKeepsInv(s: System, told: set<nat>)
    requires Inv(s)
    ensures Inv(s.(told := told))
  {
    assert forall id :: Open(s.(told := told), id) == Open(s, id);
  }

  // ---- every run ---------------------------------------------------------------------------

  lemma StepKeepsInv(s: System, a: Action)
    requires Inv(s) && Enabled(s, a) && (a.WaiterCommit? ==> !LosesOpen(s, a.reading))
    ensures Inv(Next(s, a))
  {
    hide Inv, Recorded, KeepsBooks, HoldsBooks, WaiterPass, AnnouncedFile, LosesOpen;
    match a
    case WaiterCommit(r) => WaiterCommitKeepsInv(s, r);
    case ProbeCommit(readAt, now) => ProbeCommitKeepsInv(s, readAt, now);
    case Announcement(ids, readAt, now) =>
      AnnouncementKeepsBooks(s, ids, readAt, now);
      CommitKeepsInv(s, AnnouncedFile(s.file, ids, readAt, now), now, s.waiter);
      TellingKeepsInv(Commit(s, AnnouncedFile(s.file, ids, readAt, now), now), s.told + (set id | id in ids));
    case _ => QuietStepKeepsInv(s, a);
  }

  lemma StepKeepsSane(s: System, a: Action)
    requires Sane(s) && Enabled(s, a)
    ensures Sane(Next(s, a))
  {
    hide Recorded;
    match a
    case WaiterCommit(r) =>
      var m := Merged(s.waiter.memory, ReadLedger(s.file, r.readAt));
      MergedKeys(s, r);
      hide Merged, ReadLedger, Due;
      if Decide(m, r).Wait? { WaitingAddsNothing(s, m, r); }
    case ProbeCommit(readAt, now) =>
      hide ProbeFresh;
      AnnouncedFileKeys(s.file, s.holder.snapshot, readAt, now);
      hide AnnouncedFile;
    case Announcement(ids, readAt, now) =>
      AnnouncedFileKeys(s.file, ids, readAt, now);
      hide AnnouncedFile;
    case _ =>
  }

  /** No pass of the run writes while it overlooks a pending delivery of the record. */
  ghost predicate Careful(s: System, run: seq<Action>)
    requires Legal(s, run)
    decreases |run|
  {
    run == [] ||
      ((run[0].WaiterCommit? ==> !LosesOpen(s, run[0].reading)) && Careful(Next(s, run[0]), run[1..]))
  }

  lemma {:induction false} RunKeepsInv(s: System, run: seq<Action>)
    requires Inv(s) && Legal(s, run) && Careful(s, run)
    ensures Inv(Run(s, run))
    decreases |run|
  {
    hide Inv, Next, LosesOpen;
    if run != [] {
      StepKeepsInv(s, run[0]);
      RunKeepsInv(Next(s, run[0]), run[1..]);
    }
  }

  lemma {:induction false} RunKeepsSane(s: System, run: seq<Action>)
    requires Sane(s) && Legal(s, run)
    ensures Sane(Run(s, run))
    decreases |run|
  {
    hide Sane, Next;
    if run != [] {
      StepKeepsSane(s, run[0]);
      RunKeepsSane(Next(s, run[0]), run[1..]);
    }
  }

  /** Where no read is refused and no delivery is quiet, every run is careful. */
  lemma {:induction false} PlainRunsAreCareful(s: System, run: seq<Action>)
    requires Inv(s) && Legal(s, run) && s.quiet == {}
    requires forall a :: a in run ==> (a.Arrive? ==> !a.quiet) && (a.WaiterCommit? ==> !a.reading.listener.Refused?)
    ensures Careful(s, run)
    decreases |run|
  {
    hide Inv, WaiterPass, WaiterReads, IsMailboxRead;
    if run != [] {
      assert run[0] in run && forall a :: a in run[1..] ==> a in run;
      if run[0].WaiterCommit? && LosesOpen(s, run[0].reading) {
        var id :| Overlooked(s, run[0].reading, id);
        OnlyQuietAreOverlooked(s, run[0].reading, id);
      }
      StepKeepsInv(s, run[0]);
      PlainRunsAreCareful(Next(s, run[0]), run[1..]);
    }
  }

  /** Over any careful run, waiter and probe together surface each delivery at most once, and every
      delivery is reminded at most once, at least REMIND_SECONDS after its first stamp. */
  lemma EachDeliveryIsNoticedOnce(s: System, run: seq<Action>)
    requires Init(s) && Legal(s, run) && Careful(s, run)
    ensures var end := Run(s, run);
      && Distinct(end.surfaced)
      && RemindedOnce(end.reminders)
      && (forall k :: 0 <= k < |end.reminders| ==>
            && end.reminders[k].0 in end.first
            && end.reminders[k].1 >= end.first[end.reminders[k].0] + REMIND_SECONDS)
  {
    InitKeepsInv(s);
    RunKeepsInv(s, run);
  }

  // ---- and what becomes of the others ---------------------------------------------------------

  ghost predicate Leads(s: System, run: seq<Action>, end: System) {
    Legal(s, run) && Run(s, run) == end
  }

  lemma OneStep(s: System, a: Action)
    requires Enabled(s, a)
    ensures Leads(s, [a], Next(s, a))
  {
    assert [a][1..] == [];
  }

  lemma {:induction false} LeadsOn(s: System, run: seq<Action>, mid: System, more: seq<Action>, end: System)
    requires Leads(s, run, mid) && Leads(mid, more, end)
    ensures Leads(s, run + more, end)
    decreases |run|
  {
    hide Next, Enabled;
    if run == [] {
      assert run + more == more;
    } else {
      LeadsOn(Next(s, run[0]), run[1..], mid, more, end);
      assert (run + more)[1..] == run[1..] + more;
    }
  }

  lemma LeadsOneMore(s: System, run: seq<Action>, mid: System, a: Action)
    requires Leads(s, run, mid) && Enabled(mid, a)
    ensures Leads(s, run + [a], Next(mid, a))
  {
    hide Next, Leads, Enabled;
    OneStep(mid, a);
    LeadsOn(s, run, mid, [a], Next(mid, a));
  }

  /** A careless pass is one probe away from surfacing a delivery twice. */
  lemma LossMeansTwice(s: System, r: Reading, unread: seq<nat>, id: nat) returns (run: seq<Action>)
    requires Enabled(s, WaiterCommit(r)) && IsMailboxRead(s, unread)
    requires Writes(WaiterPass(s.waiter.memory, s.file, r).notice) && Overlooked(s, r, id) && id in s.surfaced
    ensures run == [WaiterCommit(r)] + [ProbeLock(unread)] + [ProbeCommit(r.now, r.now)]
    ensures Legal(s, run) && !Distinct(Run(s, run).surfaced)
  {
    var t := Next(s, WaiterCommit(r));
    OverlookedIsLost(s, r, id);
    CommitFreesTheLock(s, r);
    OneStep(s, WaiterCommit(r));
    var end := ProbeSurfaces(t, unread, id);
    run := [WaiterCommit(r)] + [ProbeLock(unread)];
    hide Legal, Run, Overlooked, Distinct, Recorded, WaiterPass, IsMailboxRead;
    LeadsOneMore(s, [WaiterCommit(r)], t, ProbeLock(unread));
    LeadsOneMore(s, run, Next(t, ProbeLock(unread)), ProbeCommit(r.now, r.now));
    run := run + [ProbeCommit(r.now, r.now)];
  }

  /** A probe surfaces every pending delivery that the record lacks, whatever was said of it before. */
  lemma ProbeSurfaces(t: System, unread: seq<nat>, id: nat) returns (end: System)
    requires t.holder.Free? && IsMailboxRead(t, unread)
    requires id in t.Pending() && Delivery(id) !in t.file.announced && id in t.surfaced
    ensures Enabled(t, ProbeLock(unread)) && Enabled(Next(t, ProbeLock(unread)), ProbeCommit(t.clock, t.clock))
    ensures end == Next(Next(t, ProbeLock(unread)), ProbeCommit(t.clock, t.clock)) && !Distinct(end.surfaced)
  {
    var v := Next(t, ProbeLock(unread));
    end := Next(v, ProbeCommit(t.clock, t.clock));
    var news := ProbeFresh(t.file, unread, t.clock);
    FreshSelects(ReadLedger(t.file, t.clock), unread);
    assert id in news && end.surfaced == t.surfaced + news;
    hide Next, ProbeFresh;
    var i :| 0 <= i < |t.surfaced| && t.surfaced[i] == id;
    var j :| 0 <= j < |news| && news[j] == id;
    assert end.surfaced[i] == end.surfaced[|t.surfaced| + j];
  }

  lemma CommitFreesTheLock(s: System, r: Reading)
    requires Enabled(s, WaiterCommit(r))
    ensures var t := Next(s, WaiterCommit(r));
      && t.holder.Free? && t.arrived == s.arrived && t.acked == s.acked && t.clock == r.now
      && forall id :: id in s.surfaced ==> id in t.surfaced
  {
    hide WaiterPass, Recorded;
  }

  const EMPTY := Record({}, map[], {})
  const START := System(0, {}, {}, {}, EMPTY, Down, Free, [], [], map[], {})

  /** Delivery 1 is surfaced by a probe. */
  function Surfaced(quiet: bool): System {
    START.(arrived := {1}, quiet := if quiet then {1} else {},
           file := Record({Delivery(1)}, map[Delivery(1) := 0], {}), surfaced := [1], first := map[1 := 0])
  }

  /** And a waiter has taken the lock after that. */
  function Waiting(quiet: bool): System {
    Surfaced(quiet).(waiter := Up(Memory(map[Delivery(1) := 0], {})), holder := WaiterHolds([1]))
  }

  lemma ReachesSurfaced(quiet: bool)
    ensures Leads(START, [Arrive(1, quiet)] + [ProbeLock([1])] + [ProbeCommit(0, 0)], Surfaced(quiet))
  {
    var a := START.(arrived := {1}, quiet := if quiet then {1} else {});
    var b := a.(holder := ProbeHolds([1]));
    assert Enabled(START, Arrive(1, quiet)) && Next(START, Arrive(1, quiet)) == a;
    assert Enabled(a, ProbeLock([1])) && Next(a, ProbeLock([1])) == b;
    ProbeOfOne(b);
    hide Next, Enabled, Leads, Legal, Run;
    OneStep(START, Arrive(1, quiet));
    LeadsOneMore(START, [Arrive(1, quiet)], a, ProbeLock([1]));
    LeadsOneMore(START, [Arrive(1, quiet)] + [ProbeLock([1])], b, ProbeCommit(0, 0));
  }

  lemma ProbeOfOne(b: System)
    requires b.holder == ProbeHolds([1]) && b.file == EMPTY && b.clock == 0 && b.arrived == {1}
    requires b.surfaced == [] && b.first == map[]
    ensures Enabled(b, ProbeCommit(0, 0))
    ensures Next(b, ProbeCommit(0, 0)) == b.(holder := Free, surfaced := [1], first := map[1 := 0],
      file := Record({Delivery(1)}, map[Delivery(1) := 0], {}))
  {
    assert ProbeFresh(EMPTY, [1], 0) == [1];
    assert Deliveries([1]) == {Delivery(1)};
    assert ProbeFile(EMPTY, [1], 0, 0) == Record({Delivery(1)}, map[Delivery(1) := 0], {});
  }

  lemma ReachesWaiting(quiet: bool)
    ensures Leads(Surfaced(quiet), [WaiterStart] + [WaiterLock([1])], Waiting(quiet))
  {
    var c := Surfaced(quiet);
    assert ReadLedger(c.file, 0) == Memory(map[Delivery(1) := 0], {});
    var d := c.(waiter := Up(Memory(map[Delivery(1) := 0], {})));
    assert Enabled(c, WaiterStart) && Next(c, WaiterStart) == d;
    assert Enabled(d, WaiterLock([1])) && Next(d, WaiterLock([1])) == Waiting(quiet);
    hide Next, Enabled, Leads, Legal, Run;
    OneStep(c, WaiterStart);
    LeadsOneMore(c, [WaiterStart], d, WaiterLock([1]));
  }

  /** Nothing was read, because the read was refused or because the one delivery is quiet. */
  function NothingRead(refused: bool): Reading {
    Reading([], if refused then Refused("unreadable") else Follows, false, true, 0, 0)
  }

  lemma WaitingLosesOne(refused: bool)
    ensures var s, r := Waiting(!refused), NothingRead(refused);
      && Enabled(s, WaiterCommit(r)) && IsMailboxRead(s, [1]) && Overlooked(s, r, 1) && 1 in s.surfaced
      && Writes(WaiterPass(s.waiter.memory, s.file, r).notice)
  {
    var s := Waiting(!refused);
    assert s.surfaced[0] == 1;
  }

  function TwiceRun(refused: bool): seq<Action> {
    [Arrive(1, !refused)] + [ProbeLock([1])] + [ProbeCommit(0, 0)]
    + ([WaiterStart] + [WaiterLock([1])])
    + ([WaiterCommit(NothingRead(refused))] + [ProbeLock([1])] + [ProbeCommit(0, 0)])
  }

  lemma TwiceRunLeads(refused: bool) returns (end: System)
    ensures Leads(START, TwiceRun(refused), end) && !Distinct(end.surfaced)
  {
    var s, r := Waiting(!refused), NothingRead(refused);
    var first := [Arrive(1, !refused)] + [ProbeLock([1])] + [ProbeCommit(0, 0)];
    var second := [WaiterStart] + [WaiterLock([1])];
    ReachesSurfaced(!refused);
    ReachesWaiting(!refused);
    WaitingLosesOne(refused);
    hide Enabled, Next, WaiterPass, Overlooked, IsMailboxRead, Surfaced, Waiting, Distinct, Legal, Run;
    var third := LossMeansTwice(s, r, [1], 1);
    end := Run(s, third);
    LeadsOn(START, first, Surfaced(!refused), second, s);
    LeadsOn(START, first + second, s, third, end);
  }

  /** Such runs exist, from an empty record: a probe surfaces a delivery, a waiter writes without it,
      because its read is refused or because the delivery is quiet, and the next probe surfaces it
      again. */
  lemma NoticedTwice(refused: bool)
    ensures Init(START) && Legal(START, TwiceRun(refused)) && !Distinct(Run(START, TwiceRun(refused)).surfaced)
  {
    hide Legal, Run, TwiceRun, Distinct;
    var end := TwiceRunLeads(refused);
  }

  // ---- what holds in every run ---------------------------------------------------------------------

  /** What a pass leaves in the ledger, said of deliveries. */
  lemma PassFile(memory: Memory, file: Record, r: Reading)
    requires Distinct(r.unread) && Merged(memory, ReadLedger(file, r.readAt)).announcedAt.Keys == file.announced
    ensures var pass := WaiterPass(memory, file, r);
      && (!r.watched ==> forall id :: id in r.unread ==> Delivery(id) in pass.file.announced)
      && (forall id :: Delivery(id) in pass.file.announced ==>
            Delivery(id) in file.announced || (pass.notice.Ready? && id in pass.notice.news))
  {
    hide Merged, ReadLedger, Distinct;
    FreshSelects(Merged(memory, ReadLedger(file, r.readAt)), r.unread);
  }

  /** After an unwatched pass, whether or not it gave notice, the ledger holds every delivery it got
      to read: all that were pending when it took the lock and are not quiet, unless the read was
      refused. A watched pass may leave some out. */
  lemma UnwatchedPassLeavesNothingUnannounced(s: System, run: seq<Action>, r: Reading)
    requires Init(s) && Legal(s, run)
    requires Enabled(Run(s, run), WaiterCommit(r)) && !r.watched
    ensures var end := Run(s, run);
      && (forall id :: id in r.unread ==> Delivery(id) in Next(end, WaiterCommit(r)).file.announced)
      && (!r.listener.Refused? ==> forall id :: id in end.holder.snapshot && id !in end.quiet ==>
            Delivery(id) in Next(end, WaiterCommit(r)).file.announced)
  {
    InitIsSane(s);
    RunKeepsSane(s, run);
    var end := Run(s, run);
    MergedKeys(end, r);
    PassFile(end.waiter.memory, end.file, r);
    hide WaiterPass, Sane, Legal, Run, Merged, ReadLedger;
  }

  lemma InitIsSane(s: System)
    requires Init(s)
    ensures Sane(s) && Truthful(s)
  {
  }

  /** The ledger claims no announcement that nobody made. */
  ghost predicate Truthful(s: System) {
    forall id :: Delivery(id) in s.file.announced ==> id in s.surfaced || id in s.told
  }

  lemma StepKeepsTruth(s: System, a: Action)
    requires Sane(s) && Truthful(s) && Enabled(s, a)
    ensures Truthful(Next(s, a))
  {
    hide WaiterPass, Merged, ReadLedger, Recorded;
    match a
    case WaiterCommit(r) =>
      MergedKeys(s, r);
      PassFile(s.waiter.memory, s.file, r);
    case ProbeCommit(readAt, now) =>
      ProbeFileIsTold(s.file, s.holder.snapshot, readAt, now);
    case Announcement(ids, readAt, now) =>
      AnnouncedFileKeys(s.file, ids, readAt, now);
    case _ =>
  }

  lemma AnnouncedFileKeys(file: Record, ids: seq<nat>, readAt: int, now: int)
    ensures AnnouncedFile(file, ids, readAt, now).announced == file.announced + Deliveries(ids)
  {
  }

  lemma ProbeFileIsTold(file: Record, unread: seq<nat>, readAt: int, now: int)
    requires Distinct(unread)
    ensures forall id :: Delivery(id) in ProbeFile(file, unread, readAt, now).announced ==>
      Delivery(id) in file.announced || id in ProbeFresh(file, unread, readAt)
  {
    FreshSelects(ReadLedger(file, readAt), unread);
  }

  lemma {:induction false} RunKeepsTruth(s: System, run: seq<Action>)
    requires Sane(s) && Truthful(s) && Legal(s, run)
    ensures Truthful(Run(s, run))
    decreases |run|
  {
    hide Sane, Next, Truthful;
    if run != [] {
      StepKeepsSane(s, run[0]);
      StepKeepsTruth(s, run[0]);
      RunKeepsTruth(Next(s, run[0]), run[1..]);
    }
  }

  /** Over any run, every delivery in the ledger was surfaced to the conversation, or announced
      by a task, or already there: nothing is silenced without a notice. */
  lemma NoDeliveryIsSilenced(s: System, run: seq<Action>, id: nat)
    requires Init(s) && Legal(s, run) && Delivery(id) in Run(s, run).file.announced
    ensures id in Run(s, run).surfaced || id in Run(s, run).told
  {
    InitIsSane(s);
    RunKeepsTruth(s, run);
  }

  // ---- what every run gives notice of ------------------------------------------------------------------

  ghost predicate Reminded(s: System, id: nat) {
    exists k :: 0 <= k < |s.reminders| && s.reminders[k].0 == id
  }

  /** Only a delivery that was reminded is marked so, but for the marks `marked` of earlier runs. */
  ghost predicate MarksAreTrue(s: System, marked: set<Entry>) {
    forall id :: (Delivery(id) in s.file.reminded || (s.waiter.Up? && Delivery(id) in s.waiter.memory.reminded)) ==>
      Delivery(id) in marked || Reminded(s, id)
  }

  /** A pass marks nothing but what it reminds of. */
  lemma MarksAfterPass(memory: Memory, file: Record, r: Reading, e: Entry)
    ensures var pass := WaiterPass(memory, file, r);
      e in pass.memory.reminded || e in pass.file.reminded ==>
        e in memory.reminded || e in file.reminded
        || (pass.notice.Reminder? && e.Delivery? && e.id in pass.notice.due)
  {
    PassKeepsItsPromises(memory, file, r);
    hide WaiterPass, Merged, ReadLedger, GivesNotice;
  }

  lemma RemindedLater(s: System, t: System, id: nat)
    requires s.reminders <= t.reminders && Reminded(s, id)
    ensures Reminded(t, id)
  {
    var k :| 0 <= k < |s.reminders| && s.reminders[k].0 == id;
    assert t.reminders[k].0 == id;
  }

  lemma DueIsReminded(s: System, r: Reading, id: nat)
    requires Enabled(s, WaiterCommit(r))
    requires var notice := WaiterPass(s.waiter.memory, s.file, r).notice; notice.Reminder? && id in notice.due
    ensures var t := Next(s, WaiterCommit(r)); Reminded(t, id) && (id, r.now) in t.reminders
  {
    var pass, t := WaiterPass(s.waiter.memory, s.file, r), Next(s, WaiterCommit(r));
    hide WaiterPass, Recorded;
    var k :| 0 <= k < |pass.notice.due| && pass.notice.due[k] == id;
    assert t.reminders[|s.reminders| + k] == (id, r.now);
  }

  lemma CommitKeepsMarks(s: System, r: Reading, marked: set<Entry>)
    requires MarksAreTrue(s, marked) && Enabled(s, WaiterCommit(r))
    ensures MarksAreTrue(Next(s, WaiterCommit(r)), marked)
  {
    var pass, t := WaiterPass(s.waiter.memory, s.file, r), Next(s, WaiterCommit(r));
    hide WaiterPass, Recorded, Reminded;
    forall id | Delivery(id) in pass.memory.reminded || Delivery(id) in pass.file.reminded
      ensures Delivery(id) in marked || Reminded(t, id)
    {
      MarksAfterPass(s.waiter.memory, s.file, r, Delivery(id));
      if Reminded(s, id) {
        RemindedLater(s, t, id);
      } else if Delivery(id) !in marked {
        DueIsReminded(s, r, id);
      }
    }
  }

  lemma StepKeepsMarks(s: System, a: Action, marked: set<Entry>)
    requires MarksAreTrue(s, marked) && Enabled(s, a)
    ensures MarksAreTrue(Next(s, a), marked)
  {
    hide Recorded;
    if a.WaiterCommit? {
      CommitKeepsMarks(s, a.reading, marked);
    } else {
      forall id | Reminded(s, id) ensures Reminded(Next(s, a), id) {
        RemindedLater(s, Next(s, a), id);
      }
      hide Reminded, ProbeFresh, Deliveries, Defaulted;
    }
  }

  lemma {:induction false} RunKeepsMarks(s: System, run: seq<Action>, marked: set<Entry>)
    requires MarksAreTrue(s, marked) && Legal(s, run)
    ensures MarksAreTrue(Run(s, run), marked)
    decreases |run|
  {
    hide MarksAreTrue, Next;
    if run != [] {
      StepKeepsMarks(s, run[0], marked);
      RunKeepsMarks(Next(s, run[0]), run[1..], marked);
    }
  }

  /** In every run an unwatched pass surfaces each delivery it reads that is not in the record. */
  lemma NewsIsSurfaced(s: System, run: seq<Action>, r: Reading, id: nat)
    requires Init(s) && Legal(s, run)
    requires Enabled(Run(s, run), WaiterCommit(r)) && !r.watched
    requires id in r.unread && Delivery(id) !in Run(s, run).file.announced
    ensures id in Next(Run(s, run), WaiterCommit(r)).surfaced
  {
    InitIsSane(s);
    RunKeepsSane(s, run);
    var end := Run(s, run);
    MergedKeys(end, r);
    PassKeepsItsPromises(end.waiter.memory, end.file, r);
    hide WaiterPass, Merged, ReadLedger, Remembers, Leaves, MergedFrom, Sane, Legal, Run, Init;
    assert IsNews(Merged(end.waiter.memory, ReadLedger(end.file, r.readAt)), r, id);
  }

  /** And in every run an unwatched pass that has no news and no new trouble reminds of each delivery
      it reads that was recorded ten minutes ago or longer and was never reminded. */
  lemma OverdueIsReminded(s: System, run: seq<Action>, r: Reading, id: nat)
    requires Init(s) && Legal(s, run)
    requires Enabled(Run(s, run), WaiterCommit(r)) && !r.watched
    requires forall other :: other in r.unread ==> Delivery(other) in Run(s, run).file.announced
    requires r.listener == Follows || (r.listener == Lost && FollowerLost in Run(s, run).file.announced)
    requires id in r.unread && Delivery(id) in Run(s, run).file.stamps
    requires Run(s, run).file.stamps[Delivery(id)] + 600 <= r.now
    requires Delivery(id) !in s.file.reminded && !Reminded(Run(s, run), id)
    ensures (id, r.now) in Next(Run(s, run), WaiterCommit(r)).reminders
  {
    InitIsSane(s);
    RunKeepsSane(s, run);
    assert MarksAreTrue(s, s.file.reminded);
    RunKeepsMarks(s, run, s.file.reminded);
    var end := Run(s, run);
    hide Sane, Legal, Run, Init, Reminded, WaiterPass;
    OverdueIsDue(end, r, id);
    DueIsReminded(end, r, id);
  }

  lemma OverdueIsDue(s: System, r: Reading, id: nat)
    requires Sane(s) && Enabled(s, WaiterCommit(r)) && !r.watched
    requires forall other :: other in r.unread ==> Delivery(other) in s.file.announced
    requires r.listener == Follows || (r.listener == Lost && FollowerLost in s.file.announced)
    requires id in r.unread && Delivery(id) in s.file.stamps && s.file.stamps[Delivery(id)] + 600 <= r.now
    requires Delivery(id) !in s.file.reminded && Delivery(id) !in s.waiter.memory.reminded
    ensures var notice := WaiterPass(s.waiter.memory, s.file, r).notice; notice.Reminder? && id in notice.due
  {
    MergedKeys(s, r);
    PassKeepsItsPromises(s.waiter.memory, s.file, r);
    var m := Merged(s.waiter.memory, ReadLedger(s.file, r.readAt));
    hide WaiterPass, Merged, ReadLedger, Remembers, Leaves, Sane;
    assert IsOverdue(m, r, id);
  }

  /** The one step that drops an open delivery from the ledger is a write of a waiter that did not get
      to read it. No step forgets that an entry was reminded, or moves its stamp later. */
  lemma OpenEntriesOnlyGetOlder(s: System, a: Action, id: nat)
    requires Inv(s) && Enabled(s, a) && Open(s, id) && Delivery(id) in s.file.announced
    ensures var e, file := Delivery(id), Next(s, a).file;
      && (e in file.announced <==>
            !(a.WaiterCommit? && id !in a.reading.unread
              && Writes(WaiterPass(s.waiter.memory, s.file, a.reading).notice)))
      && EntryStays(s.file, file, e)
  {
    match a
    case WaiterCommit(r) =>
      var m := Merged(s.waiter.memory, ReadLedger(s.file, r.readAt));
      MergedMemory(s, r);
      WrittenEntry(s, m, r, id);
      hide Merged, ReadLedger, Settled, Decide, Recorded, HoldsMerged, Sane, LedgerInv, SnapshotInv, OnceInv;
    case _ => hide Sane, SnapshotInv, OnceInv, Open;
  }

  /** If the entry is there at all, its mark is there and its stamp no later. */
  predicate EntryStays(before: Record, after: Record, e: Entry) {
    && (e in after.announced && e in before.reminded ==> e in after.reminded)
    && (e in after.announced && e in before.stamps ==> e in after.stamps && after.stamps[e] <= before.stamps[e])
  }

  lemma WrittenEntry(s: System, m: Memory, r: Reading, id: nat)
    requires HoldsMerged(s, m) && Delivery(id) in s.file.announced
    ensures var file := WriteLedger(Settled(m, r).announcedAt, Settled(m, r).reminded);
      && (Delivery(id) in file.announced <==> id in r.unread)
      && EntryStays(s.file, file, Delivery(id))
  {
    hide Decide, Open;
  }
}
