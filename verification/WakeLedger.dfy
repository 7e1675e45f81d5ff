/** One lease's announced ledger: the record file, and the three programs that rewrite it.

    The functions here say what one read-modify-write does to the record; the methods of
    `Waiter` and the methods `ProbePass` and `Announce` do it the way the program does, with
    loops over the unread list and over the entries read back. WakeProtocol runs them against
    each other. */
module WakeLedger {

  /** A ledger line: a delivery, or a mailbox problem that the waiter announced. */
  datatype Entry = Delivery(id: nat) | FollowerLost | MailboxRefused(error: string)

  /** The record file. `stamps` may lack entries of `announced`: older files have none. */
  datatype Record = Record(announced: set<Entry>, stamps: map<Entry, int>, reminded: set<Entry>)

  /** What `read_ledger` hands back, and what the waiter keeps between passes. */
  datatype Memory = Memory(announcedAt: map<Entry, int>, reminded: set<Entry>)

  const REMIND_SECONDS := 600

  function ReadLedger(file: Record, now: int): Memory {
    Memory(map e | e in file.announced :: if e in file.stamps then file.stamps[e] else now,
           file.reminded * file.announced)
  }

  function WriteLedger(announcedAt: map<Entry, int>, reminded: set<Entry>): Record {
    Record(announcedAt.Keys, announcedAt, reminded * announcedAt.Keys)
  }

  function Deliveries(ids: seq<nat>): set<Entry> {
    set i | i in ids :: Delivery(i)
  }

  predicate Distinct(ids: seq<nat>) {
    forall i, j :: 0 <= i < j < |ids| ==> ids[i] != ids[j]
  }

  // ---- one pass of the waiter ---------------------------------------------------------

  /** How the mailbox read went: a follower runs, none does, or there was no read at all. */
  datatype Listener = Follows | Lost | Refused(error: string)

  function Problem(listener: Listener): set<Entry> {
    match listener
    case Follows => {}
    case Lost => {FollowerLost}
    case Refused(error) => {MailboxRefused(error)}
  }

  /** Everything a pass learns from outside: the mailbox read, then the other checks. */
  datatype Reading = Reading(
    unread: seq<nat>,
    listener: Listener,
    watched: bool,     // a live until-event task reports its own deliveries
    expired: bool,     // the wait window is over
    readAt: int,       // clock inside read_ledger
    now: int)          // clock of the pass

  datatype Notice =
    | Ready(news: seq<nat>)
    | ListenerProblem
    | Reminder(due: seq<nat>)
    | Idle
    | Rearm            // leave without a notice
    | Wait             // nothing yet; another pass follows

  predicate Writes(n: Notice) {
    !n.Rearm? && !n.Wait?
  }

  function Merged(m: Memory, probed: Memory): Memory {
    Memory(m.announcedAt + (map e | e in probed.announcedAt ::
             if e in m.announcedAt && m.announcedAt[e] < probed.announcedAt[e]
             then m.announcedAt[e] else probed.announcedAt[e]),
           m.reminded + probed.reminded)
  }

  function Fresh(m: Memory, unread: seq<nat>): seq<nat> {
    if unread == [] then []
    else
      var rest, id := Fresh(m, unread[..|unread| - 1]), unread[|unread| - 1];
      if Delivery(id) in m.announcedAt then rest else rest + [id]
  }

  predicate IsDue(m: Memory, now: int, id: nat) {
    && Delivery(id) in m.announcedAt
    && Delivery(id) !in m.reminded
    && now - m.announcedAt[Delivery(id)] >= REMIND_SECONDS
  }

  function Due(m: Memory, unread: seq<nat>, now: int): seq<nat> {
    if unread == [] then []
    else
      var rest, id := Due(m, unread[..|unread| - 1], now), unread[|unread| - 1];
      if IsDue(m, now, id) then rest + [id] else rest
  }

  function Decide(m: Memory, r: Reading): Notice {
    var news := if r.watched then [] else Fresh(m, r.unread);
    var due := if r.watched || news != [] then [] else Due(m, r.unread, r.now);
    if news != [] then Ready(news)
    else if !(Problem(r.listener) <= m.announcedAt.Keys) then ListenerProblem
    else if due != [] then Reminder(due)
    else if r.expired then (if r.watched then Rearm else Idle)
    else Wait
  }

  /** The entries that are announced once the pass is over. */
  function Kept(m: Memory, r: Reading): set<Entry> {
    (if r.watched then m.announcedAt.Keys * Deliveries(r.unread) else Deliveries(r.unread))
    + Problem(r.listener)
  }

  function Settled(m: Memory, r: Reading): Memory {
    var notice := Decide(m, r);
    Memory(map e | e in Kept(m, r) :: if e in m.announcedAt then m.announcedAt[e] else r.now,
           m.reminded + if notice.Reminder? then Deliveries(notice.due) else {})
  }

  datatype Pass = Pass(memory: Memory, notice: Notice, file: Record)

  function WaiterPass(m: Memory, file: Record, r: Reading): Pass {
    var merged := Merged(m, ReadLedger(file, r.readAt));
    var memory, notice := Settled(merged, r), Decide(merged, r);
    Pass(memory, notice, if Writes(notice) then WriteLedger(memory.announcedAt, memory.reminded) else file)
  }

  // ---- what a pass promises --------------------------------------------------------------

  /** The record and the memory taken together: of two stamps the earlier, of the marks all that are
      still in force. */
  ghost predicate MergedFrom(memory: Memory, file: Record, readAt: int, m: Memory) {
    && m.announcedAt.Keys == memory.announcedAt.Keys + file.announced
    && (forall e :: e in file.announced ==>
          var stamp := if e in file.stamps then file.stamps[e] else readAt;
          && m.announcedAt[e] <= stamp && (e in memory.announcedAt ==> m.announcedAt[e] <= memory.announcedAt[e])
          && (m.announcedAt[e] == stamp || (e in memory.announcedAt && m.announcedAt[e] == memory.announcedAt[e])))
    && (forall e :: e in memory.announcedAt && e !in file.announced ==> m.announcedAt[e] == memory.announcedAt[e])
    && (forall e :: e in m.reminded <==> e in memory.reminded || (e in file.reminded && e in file.announced))
  }

  ghost predicate IsNews(m: Memory, r: Reading, id: nat) {
    !r.watched && id in r.unread && Delivery(id) !in m.announcedAt
  }

  /** Announced ten minutes ago or longer, still unread, and not reminded yet. */
  ghost predicate IsOverdue(m: Memory, r: Reading, id: nat) {
    && !r.watched && id in r.unread && Delivery(id) in m.announcedAt && Delivery(id) !in m.reminded
    && m.announcedAt[Delivery(id)] + 600 <= r.now
  }

  ghost predicate NewTrouble(m: Memory, r: Reading) {
    || (r.listener == Lost && FollowerLost !in m.announcedAt)
    || (r.listener.Refused? && MailboxRefused(r.listener.error) !in m.announcedAt)
  }

  /** The ids of `part` come in the order of `whole`, none oftener than there. */
  ghost predicate InOrder(part: seq<nat>, whole: seq<nat>) {
    || part == []
    || (whole != [] && part[|part| - 1] == whole[|whole| - 1] && InOrder(part[..|part| - 1], whole[..|whole| - 1]))
    || (whole != [] && InOrder(part, whole[..|whole| - 1]))
  }

  /** News come first and name all of them, then a new trouble, then a reminder of all that is overdue,
      then the end of the wait, which a watched waiter leaves without a word. */
  ghost predicate GivesNotice(m: Memory, r: Reading, notice: Notice) {
    && (notice.Ready? <==> exists id :: IsNews(m, r, id))
    && (notice.Ready? ==> InOrder(notice.news, r.unread) && forall id :: id in notice.news <==> IsNews(m, r, id))
    && (notice.ListenerProblem? <==> !notice.Ready? && NewTrouble(m, r))
    && (notice.Reminder? <==> !notice.Ready? && !NewTrouble(m, r) && exists id :: IsOverdue(m, r, id))
    && (notice.Reminder? ==> InOrder(notice.due, r.unread) && forall id :: id in notice.due <==> IsOverdue(m, r, id))
    && (notice.Ready? || notice.ListenerProblem? || notice.Reminder? ||
          notice == if r.expired then (if r.watched then Rearm else Idle) else Wait)
  }

  /** What is announced afterwards: all that was read, or, where a task watches, what was announced
      before; and the trouble there is. Stamps stay, and a reminder marks what it names. */
  ghost predicate Remembers(m: Memory, r: Reading, notice: Notice, after: Memory) {
    && (forall id :: Delivery(id) in after.announcedAt <==>
          id in r.unread && (r.watched ==> Delivery(id) in m.announcedAt))
    && (FollowerLost in after.announcedAt <==> r.listener == Lost)
    && (forall error :: MailboxRefused(error) in after.announcedAt <==> r.listener == Refused(error))
    && (forall e :: e in after.announcedAt ==>
          after.announcedAt[e] == if e in m.announcedAt then m.announcedAt[e] else r.now)
    && (forall e :: e in after.reminded <==>
          e in m.reminded || (notice.Reminder? && e.Delivery? && e.id in notice.due))
  }

  /** A notice goes with a write of all that is announced; silence leaves the record alone. */
  ghost predicate Leaves(after: Memory, notice: Notice, file: Record, written: Record) {
    if notice == Wait || notice == Rearm then written == file
    else
      && written.announced == after.announcedAt.Keys && written.stamps == after.announcedAt
      && forall e :: e in written.reminded <==> e in after.reminded && e in after.announcedAt
  }

  lemma MergedIsFrom(memory: Memory, file: Record, readAt: int)
    ensures MergedFrom(memory, file, readAt, Merged(memory, ReadLedger(file, readAt)))
  {
  }

  lemma TroubleIsNew(m: Memory, r: Reading)
    ensures NewTrouble(m, r) <==> !(Problem(r.listener) <= m.announcedAt.Keys)
  {
  }

  lemma DecideGivesNotice(m: Memory, r: Reading)
    ensures GivesNotice(m, r, Decide(m, r))
  {
    FreshSelects(m, r.unread);
    DueSelects(m, r.unread, r.now);
    var news, due := Fresh(m, r.unread), Due(m, r.unread, r.now);
    if !r.watched && news != [] { assert news[0] in news && IsNews(m, r, news[0]); }
    if !r.watched && due != [] { assert due[0] in due && IsOverdue(m, r, due[0]); }
    assert forall id :: IsNews(m, r, id) ==> id in news;
    assert forall id :: IsOverdue(m, r, id) ==> id in due;
    TroubleIsNew(m, r);
    hide Fresh, Due, Problem, NewTrouble;
  }

  lemma SettledRemembers(m: Memory, r: Reading)
    ensures Remembers(m, r, Decide(m, r), Settled(m, r))
  {
    hide Decide;
  }

  /** A pass keeps all of these. */
  lemma PassKeepsItsPromises(memory: Memory, file: Record, r: Reading)
    ensures var pass, m := WaiterPass(memory, file, r), Merged(memory, ReadLedger(file, r.readAt));
      && MergedFrom(memory, file, r.readAt, m)
      && GivesNotice(m, r, pass.notice) && Remembers(m, r, pass.notice, pass.memory)
      && Leaves(pass.memory, pass.notice, file, pass.file)
  {
    var m := Merged(memory, ReadLedger(file, r.readAt));
    MergedIsFrom(memory, file, r.readAt);
    DecideGivesNotice(m, r);
    SettledRemembers(m, r);
    hide Merged, ReadLedger, MergedFrom, Decide, Settled, GivesNotice, Remembers;
  }

  lemma {:induction false} FreshSelects(m: Memory, unread: seq<nat>)
    ensures Distinct(unread) ==> Distinct(Fresh(m, unread))
    ensures InOrder(Fresh(m, unread), unread)
    ensures forall id :: id in Fresh(m, unread) <==> id in unread && Delivery(id) !in m.announcedAt
  {
    if unread != [] {
      var front, last := unread[..|unread| - 1], unread[|unread| - 1];
      FreshSelects(m, front);
      assert unread == front + [last];
    }
  }

  lemma {:induction false} DueSelects(m: Memory, unread: seq<nat>, now: int)
    ensures Distinct(unread) ==> Distinct(Due(m, unread, now))
    ensures InOrder(Due(m, unread, now), unread)
    ensures forall id :: id in Due(m, unread, now) <==>
      && id in unread && Delivery(id) in m.announcedAt && Delivery(id) !in m.reminded
      && m.announcedAt[Delivery(id)] + 600 <= now
  {
    if unread != [] {
      var front, last := unread[..|unread| - 1], unread[|unread| - 1];
      DueSelects(m, front, now);
      assert unread == front + [last];
    }
  }

  /** The long-lived waiter. The program also keeps `seen`, the set of announced entries; it
      is always the key set of `announcedAt` between passes. */
  class Waiter {
    var seen: set<Entry>
    var announcedAt: map<Entry, int>
    var reminded: set<Entry>

    ghost predicate Valid()
      reads this
    {
      seen == announcedAt.Keys
    }

    ghost function State(): Memory
      reads this
    {
      Memory(announcedAt, reminded)
    }

    constructor (file: Record, now: int)
      ensures Valid() && State() == ReadLedger(file, now)
      ensures MergedFrom(Memory(map[], {}), file, now, State())
    {
      var read := ReadLedger(file, now);
      announcedAt, reminded, seen := read.announcedAt, read.reminded, read.announcedAt.Keys;
    }

    /** One locked pass over the record `file`; `written` is the record it leaves behind. */
    method RunPass(file: Record, r: Reading) returns (notice: Notice, written: Record)
      requires Valid()
      modifies this
      ensures Valid()
      ensures Pass(State(), notice, written) == WaiterPass(old(State()), file, r)
      ensures var m := Merged(old(State()), ReadLedger(file, r.readAt));
        && MergedFrom(old(State()), file, r.readAt, m)
        && GivesNotice(m, r, notice) && Remembers(m, r, notice, State())
        && Leaves(State(), notice, file, written)
    {
      hide ReadLedger, Merged, Fresh, Due, Deliveries, WriteLedger;
      ghost var before := State();
      PassKeepsItsPromises(before, file, r);
      hide MergedFrom, GivesNotice, Remembers, Leaves;
      var probed := ReadLedger(file, r.readAt);
      MergeProbed(probed);
      ghost var m := State();
      var news: seq<nat> := [];
      if !r.watched {
        news := FindFresh(r.unread);
      }
      var due: seq<nat> := [];
      if !r.watched && news == [] {
        due := FindDue(r.unread, r.now);
      }
      var prior := seen;
      seen := (if r.watched then seen * Deliveries(r.unread) else Deliveries(r.unread))
              + Problem(r.listener);
      announcedAt := map e | e in seen :: if e in announcedAt then announcedAt[e] else r.now;
      if news != [] {
        notice := Ready(news);
      } else if !(Problem(r.listener) <= prior) {
        notice := ListenerProblem;
      } else if due != [] {
        reminded := reminded + Deliveries(due);
        notice := Reminder(due);
      } else if r.expired {
        notice := if r.watched then Rearm else Idle;
      } else {
        notice := Wait;
      }
      written := file;
      if Writes(notice) {
        written := WriteLedger(announcedAt, reminded);
      }
      assert m == Merged(before, probed);
      assert notice == Decide(m, r);
      assert seen == Kept(m, r);
      assert announcedAt == Settled(m, r).announcedAt;
      assert reminded == Settled(m, r).reminded;
    }

    method MergeProbed(probed: Memory)
      requires Valid()
      modifies this
      ensures Valid() && State() == Merged(old(State()), probed)
    {
      ghost var before := State();
      ghost var all := Merged(before, probed).announcedAt;
      seen := seen + probed.announcedAt.Keys;
      var todo := probed.announcedAt.Keys;
      while todo != {}
        invariant todo <= probed.announcedAt.Keys
        invariant announcedAt.Keys == before.announcedAt.Keys + (probed.announcedAt.Keys - todo)
        invariant forall e :: e in announcedAt ==>
          announcedAt[e] == if e in todo then before.announcedAt[e] else all[e]
        decreases todo
        modifies this`announcedAt
      {
        var e :| e in todo;
        var stamp := probed.announcedAt[e];
        announcedAt := announcedAt[e := if e in announcedAt && announcedAt[e] < stamp then announcedAt[e] else stamp];
        todo := todo - {e};
      }
      reminded := reminded + probed.reminded;
      assert announcedAt == all;
    }

    method FindFresh(unread: seq<nat>) returns (news: seq<nat>)
      requires Valid()
      ensures news == Fresh(State(), unread)
    {
      news := [];
      for i := 0 to |unread|
        invariant news == Fresh(State(), unread[..i])
      {
        assert unread[..i + 1][..i] == unread[..i];
        if Delivery(unread[i]) !in seen {
          news := news + [unread[i]];
        }
      }
      assert unread[..|unread|] == unread;
    }

    method FindDue(unread: seq<nat>, now: int) returns (due: seq<nat>)
      requires Valid()
      ensures due == Due(State(), unread, now)
    {
      due := [];
      for i := 0 to |unread|
        invariant due == Due(State(), unread[..i], now)
      {
        assert unread[..i + 1][..i] == unread[..i];
        var e := Delivery(unread[i]);
        if e in seen && e !in reminded && now - announcedAt[e] >= REMIND_SECONDS {
          due := due + [unread[i]];
        }
      }
      assert unread[..|unread|] == unread;
    }
  }

  // ---- the probe and the announcer -----------------------------------------------------

  /** `setdefault` over a list of ids. */
  function Defaulted(announcedAt: map<Entry, int>, ids: seq<nat>, now: int): map<Entry, int> {
    (map e | e in Deliveries(ids) :: now) + announcedAt
  }

  function ProbeFresh(file: Record, unread: seq<nat>, readAt: int): seq<nat> {
    Fresh(ReadLedger(file, readAt), unread)
  }

  function ProbeFile(file: Record, unread: seq<nat>, readAt: int, now: int): Record {
    if ProbeFresh(file, unread, readAt) == [] then file else AnnouncedFile(file, unread, readAt, now)
  }

  function AnnouncedFile(file: Record, ids: seq<nat>, readAt: int, now: int): Record {
    var m := ReadLedger(file, readAt);
    WriteLedger(Defaulted(m.announcedAt, ids, now), m.reminded)
  }

  method SetDefaults(announcedAt: map<Entry, int>, ids: seq<nat>, now: int) returns (r: map<Entry, int>)
    ensures r == Defaulted(announcedAt, ids, now)
  {
    r := announcedAt;
    for i := 0 to |ids|
      invariant r.Keys == announcedAt.Keys + Deliveries(ids[..i])
      invariant forall e :: e in r ==> r[e] == if e in announcedAt then announcedAt[e] else now
    {
      assert Deliveries(ids[..i + 1]) == Deliveries(ids[..i]) + {Delivery(ids[i])};
      if Delivery(ids[i]) !in r {
        r := r[Delivery(ids[i]) := now];
      }
    }
    assert ids[..|ids|] == ids;
  }

  /** What a locked addition to the record leaves: the ids added, every entry kept with its stamp (or
      the reading's own time where the file has none) and its mark, and new entries stamped `now`. */
  ghost predicate Added(file: Record, ids: seq<nat>, readAt: int, now: int, written: Record) {
    && written.announced == file.announced + Deliveries(ids)
    && written.reminded == file.reminded * file.announced
    && written.stamps.Keys == written.announced
    && (forall e :: e in written.announced && e !in file.announced ==> written.stamps[e] == now)
    && (forall e :: e in file.announced && e in file.stamps ==> written.stamps[e] == file.stamps[e])
    && (forall e :: e in file.announced && e !in file.stamps ==> written.stamps[e] == readAt)
  }

  method ProbePass(file: Record, unread: seq<nat>, readAt: int, now: int) returns (news: seq<nat>, written: Record)
    ensures news == ProbeFresh(file, unread, readAt)
    ensures written == ProbeFile(file, unread, readAt, now)
    ensures InOrder(news, unread) && forall id :: id in news <==> id in unread && Delivery(id) !in file.announced
    ensures if news == [] then written == file else Added(file, unread, readAt, now, written)
  {
    var m := ReadLedger(file, readAt);
    news := [];
    for i := 0 to |unread|
      invariant news == Fresh(m, unread[..i])
    {
      assert unread[..i + 1][..i] == unread[..i];
      if Delivery(unread[i]) !in m.announcedAt {
        news := news + [unread[i]];
      }
    }
    assert unread[..|unread|] == unread;
    FreshSelects(m, unread);
    hide InOrder, Fresh;
    if news == [] {
      return news, file;
    }
    var announcedAt := SetDefaults(m.announcedAt, unread, now);
    written := WriteLedger(announcedAt, m.reminded);
  }

  method Announce(file: Record, ids: seq<nat>, readAt: int, now: int) returns (written: Record)
    ensures written == AnnouncedFile(file, ids, readAt, now)
    ensures Added(file, ids, readAt, now, written)
  {
    var m := ReadLedger(file, readAt);
    var announcedAt := SetDefaults(m.announcedAt, ids, now);
    written := WriteLedger(announcedAt, m.reminded);
  }
}
