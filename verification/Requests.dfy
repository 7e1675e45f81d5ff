/** Effects behind a request id: the receipt is written as uncertain before the effect is launched,
    under a lock of its own, so that a crash leaves a mark and never a second launch. */
module Requests {

  import opened Wrappers

  type Content = string
  type Outcome = string

  /** Where receipts are kept: spoken calls in their own directory, the others by operation. */
  datatype Operation = Spoken | Named(name: string)
  datatype Key = Key(operation: Operation, id: string)

  /** `outcome` is absent while the receipt says uncertain. */
  datatype Receipt = Receipt(content: Content, outcome: Option<Outcome>)

  datatype Answer = Returned(receipt: Receipt) | Refused

  /** What a stored receipt answers to a repeat: a spoken call takes no content. */
  function Repeat(key: Key, content: Content, stored: Receipt): Answer {
    if key.operation.Named? && stored.content != content then Refused else Returned(stored)
  }

  datatype Launch = Launch(key: Key, content: Content)

  // ---- callers, step by step ------------------------------------------------------------------

  /** Wants: before the lock. Holds: has it, receipt not looked at. Marked: the uncertain receipt
      is written. Launched: the effect is running. Ran: it answered, or failed without an answer. */
  datatype Phase = Wants | Holds | Marked | Launched | Ran(outcome: Option<Outcome>)

  datatype Caller = Caller(phase: Phase, key: Key, content: Content)

  datatype Reply = Reply(key: Key, content: Content, answer: Answer)

  datatype System = System(
    disk: map<Key, Receipt>,
    locks: map<Key, nat>,
    callers: map<nat, Caller>,
    launches: seq<Launch>,
    replies: seq<Reply>)

  datatype Action =
    | Ask(c: nat, key: Key, content: Content)
    | Acquire(c: nat)
    | Look(c: nat)
    | Start(c: nat)
    | Finish(c: nat, outcome: Option<Outcome>)
    | Store(c: nat)
    | Crash(c: nat)

  const START := System(map[], map[], map[], [], [])

  predicate At(s: System, c: nat, phase: Phase) {
    c in s.callers && s.callers[c].phase == phase
  }

  predicate Enabled(s: System, a: Action) {
    match a
    case Ask(c, _, _) => c !in s.callers
    case Acquire(c) => At(s, c, Wants) && s.callers[c].key !in s.locks
    case Look(c) => At(s, c, Holds)
    case Start(c) => At(s, c, Marked)
    case Finish(c, _) => At(s, c, Launched)
    case Store(c) => c in s.callers && s.callers[c].phase.Ran?
    case Crash(c) => c in s.callers
  }

  /** A caller in the middle of its work holds the lock of its key. */
  predicate Locked(phase: Phase) {
    !phase.Wants?
  }

  function Moved(s: System, c: nat, phase: Phase): System
    requires c in s.callers
  {
    s.(callers := s.callers[c := s.callers[c].(phase := phase)])
  }

  /** The caller is gone; the system frees its lock, whichever way it went. */
  function Gone(s: System, c: nat): System
    requires c in s.callers
  {
    var caller := s.callers[c];
    s.(callers := s.callers - {c}, locks := if Locked(caller.phase) then s.locks - {caller.key} else s.locks)
  }

  function Answered(s: System, c: nat, answer: Answer): System
    requires c in s.callers
  {
    var caller := s.callers[c];
    Gone(s, c).(replies := s.replies + [Reply(caller.key, caller.content, answer)])
  }

  function Next(s: System, a: Action): System
    requires Enabled(s, a)
  {
    match a
    case Ask(c, key, content) => s.(callers := s.callers[c := Caller(Wants, key, content)])
    case Acquire(c) => Moved(s, c, Holds).(locks := s.locks[s.callers[c].key := c])
    case Look(c) =>
      var Caller(_, key, content) := s.callers[c];
      if key in s.disk then Answered(s, c, Repeat(key, content, s.disk[key]))
      else Moved(s, c, Marked).(disk := s.disk[key := Receipt(content, None)])
    case Start(c) =>
      Moved(s, c, Launched).(launches := s.launches + [Launch(s.callers[c].key, s.callers[c].content)])
    case Finish(c, outcome) => Moved(s, c, Ran(outcome))
    case Store(c) =>
      var Caller(phase, key, content) := s.callers[c];
      var receipt := Receipt(content, phase.outcome);
      Answered(s, c, Returned(receipt)).(disk := s.disk[key := receipt])
    case Crash(c) => Gone(s, c)
  }

  predicate Legal(s: System, run: seq<Action>)
    decreases |run|
  {
    run == [] || (Enabled(s, run[0]) && Legal(Next(s, run[0]), run[1..]))
  }

  function Run(s: System, run: seq<Action>): System
    requires Legal(s, run)
    decreases |run|
  {
    if run == [] then s else Run(Next(s, run[0]), run[1..])
  }

  // ---- what every step keeps ------------------------------------------------------------------

  ghost predicate LocksMatch(s: System) {
    && (forall c :: c in s.callers && Locked(s.callers[c].phase) ==>
          s.callers[c].key in s.locks && s.locks[s.callers[c].key] == c)
    && (forall key :: key in s.locks ==>
          s.locks[key] in s.callers && s.callers[s.locks[key]].key == key && Locked(s.callers[s.locks[key]].phase))
  }

  /** A caller past its look is the author of the receipt, which still says uncertain. */
  ghost predicate Authors(s: System) {
    forall c :: c in s.callers && Locked(s.callers[c].phase) && !s.callers[c].phase.Holds? ==>
      s.callers[c].key in s.disk && s.disk[s.callers[c].key] == Receipt(s.callers[c].content, None)
  }

  ghost predicate Launches(s: System) {
    && (forall i, j :: 0 <= i < j < |s.launches| ==> s.launches[i].key != s.launches[j].key)
    && (forall i :: 0 <= i < |s.launches| ==>
          s.launches[i].key in s.disk && s.disk[s.launches[i].key].content == s.launches[i].content)
    && (forall i, c :: 0 <= i < |s.launches| && At(s, c, Marked) ==> s.callers[c].key != s.launches[i].key)
  }

  /** A receipt handed out is the stored one, or an uncertain one that has since been settled. */
  ghost predicate Consistent(s: System, r: Reply) {
    && r.key in s.disk
    && match r.answer
       case Refused => r.key.operation.Named? && s.disk[r.key].content != r.content
       case Returned(receipt) =>
         && receipt.content == s.disk[r.key].content
         && (r.key.operation.Named? ==> receipt.content == r.content)
         && (receipt.outcome.Some? ==> receipt == s.disk[r.key])
  }

  ghost predicate Replies(s: System) {
    forall i :: 0 <= i < |s.replies| ==> Consistent(s, s.replies[i])
  }

  ghost predicate Inv(s: System) {
    LocksMatch(s) && Authors(s) && Launches(s) && Replies(s)
  }

  lemma MovedKeepsLocks(s: System, c: nat, phase: Phase)
    requires LocksMatch(s) && c in s.callers && Locked(s.callers[c].phase) && Locked(phase)
    ensures LocksMatch(Moved(s, c, phase))
  {
  }

  lemma GoneKeepsLocks(s: System, c: nat)
    requires LocksMatch(s) && c in s.callers
    ensures LocksMatch(Gone(s, c))
  {
  }

  lemma AcquiredKeepsLocks(s: System, c: nat)
    requires LocksMatch(s) && Enabled(s, Acquire(c))
    ensures LocksMatch(Next(s, Acquire(c)))
  {
  }

  lemma StepKeepsLocks(s: System, a: Action)
    requires LocksMatch(s) && Enabled(s, a)
    ensures LocksMatch(Next(s, a))
  {
    match a
    case Ask(_, _, _) =>
    case Acquire(c) => AcquiredKeepsLocks(s, c);
    case Look(c) =>
      GoneKeepsLocks(s, c);
      MovedKeepsLocks(s, c, Marked);
      hide Moved, Gone;
    case Start(c) =>
      MovedKeepsLocks(s, c, Launched);
      hide Moved;
    case Finish(c, outcome) => MovedKeepsLocks(s, c, Ran(outcome));
    case Store(c) =>
      GoneKeepsLocks(s, c);
      hide Gone;
    case Crash(c) => GoneKeepsLocks(s, c);
  }

  lemma StepKeepsAuthors(s: System, a: Action)
    requires LocksMatch(s) && Authors(s) && Enabled(s, a)
    ensures Authors(Next(s, a))
  {
  }

  lemma StepKeepsLaunches(s: System, a: Action)
    requires Inv(s) && Enabled(s, a)
    ensures Launches(Next(s, a))
  {
    hide Replies;
    match a
    case Start(c) => StartKeepsLaunches(s, c);
    case Look(c) => LookKeepsLaunches(s, c);
    case Store(c) => hide Repeat;
    case _ => hide LocksMatch, Authors;
  }

  lemma StartKeepsLaunches(s: System, c: nat)
    requires LocksMatch(s) && Authors(s) && Launches(s) && Enabled(s, Start(c))
    ensures Launches(Next(s, Start(c)))
  {
  }

  lemma LookKeepsLaunches(s: System, c: nat)
    requires LocksMatch(s) && Launches(s) && Enabled(s, Look(c))
    ensures Launches(Next(s, Look(c)))
  {
    hide Repeat;
  }

  /** Receipts are only added, and only an uncertain one changes, keeping its content. */
  lemma StepKeepsReceipts(s: System, a: Action, key: Key)
    requires Authors(s) && Enabled(s, a) && key in s.disk
    ensures var t := Next(s, a);
      && key in t.disk && t.disk[key].content == s.disk[key].content
      && (s.disk[key].outcome.Some? ==> t.disk[key] == s.disk[key])
  {
  }

  lemma StepKeepsReplies(s: System, a: Action)
    requires Inv(s) && Enabled(s, a)
    ensures Replies(Next(s, a))
  {
    var t := Next(s, a);
    forall i | 0 <= i < |t.replies| ensures Consistent(t, t.replies[i]) {
      if i < |s.replies| {
        assert Consistent(s, s.replies[i]);
        StepKeepsReceipts(s, a, s.replies[i].key);
      }
    }
  }

  lemma {:induction false} RunKeepsInv(s: System, run: seq<Action>)
    requires Inv(s) && Legal(s, run)
    ensures Inv(Run(s, run))
    decreases |run|
  {
    if run != [] {
      StepKeepsLocks(s, run[0]);
      StepKeepsAuthors(s, run[0]);
      StepKeepsLaunches(s, run[0]);
      StepKeepsReplies(s, run[0]);
      hide LocksMatch, Authors, Launches, Replies, Next;
      RunKeepsInv(Next(s, run[0]), run[1..]);
    }
  }

  // ---- what holds of every run ------------------------------------------------------------------

  /** Over all callers, repeats and crashes, an operation's effect is launched at most once for a
      request id, and only with the content its receipt records. */
  lemma EffectsAreLaunchedAtMostOnce(run: seq<Action>)
    requires Legal(START, run)
    ensures var s := Run(START, run);
      && (forall i, j :: 0 <= i < j < |s.launches| ==> s.launches[i].key != s.launches[j].key)
      && (forall i :: 0 <= i < |s.launches| ==>
            s.launches[i].key in s.disk && s.disk[s.launches[i].key].content == s.launches[i].content)
  {
    RunKeepsInv(START, run);
  }

  /** Two answers for one request id name the same receipt: the same content, and the same outcome
      once both are settled; whoever sent other content was refused. */
  lemma AnswersAgree(run: seq<Action>, i: nat, j: nat)
    requires Legal(START, run)
    requires i < |Run(START, run).replies| && j < |Run(START, run).replies|
    requires Run(START, run).replies[i].key == Run(START, run).replies[j].key
    ensures var p, q := Run(START, run).replies[i], Run(START, run).replies[j];
      && (p.answer.Returned? && q.answer.Returned? ==>
            && p.answer.receipt.content == q.answer.receipt.content
            && (p.answer.receipt.outcome.Some? && q.answer.receipt.outcome.Some? ==> p.answer == q.answer))
      && (p.key.operation.Named? && p.answer.Returned? ==> (q.answer.Refused? <==> p.content != q.content))
  {
    RunKeepsInv(START, run);
    var s := Run(START, run);
    assert Consistent(s, s.replies[i]) && Consistent(s, s.replies[j]);
  }

  ghost predicate BeingWorkedOn(s: System, key: Key) {
    exists c :: c in s.callers && s.callers[c].key == key && Locked(s.callers[c].phase) && !s.callers[c].phase.Holds?
  }

  function LaunchesOf(launches: seq<Launch>, key: Key): seq<Launch> {
    if launches == [] then [] else
      var rest := LaunchesOf(launches[..|launches| - 1], key);
      if launches[|launches| - 1].key == key then rest + [launches[|launches| - 1]] else rest
  }

  lemma AbandonedStep(s: System, a: Action, key: Key)
    requires Inv(s) && Enabled(s, a) && key in s.disk && !BeingWorkedOn(s, key)
    ensures var t := Next(s, a);
      && key in t.disk && t.disk[key] == s.disk[key] && !BeingWorkedOn(t, key)
      && LaunchesOf(t.launches, key) == LaunchesOf(s.launches, key)
  {
    var t := Next(s, a);
    assert !BeingWorkedOn(t, key);
    if a.Start? {
      assert t.launches[..|t.launches| - 1] == s.launches;
      assert s.callers[a.c].key != key;
    }
  }

  /** A receipt whose author is gone stays as it is for ever and its effect is never launched again:
      uncertain is never replayed. */
  lemma {:induction false} AbandonedIsNeverReplayed(s: System, run: seq<Action>, key: Key)
    requires Inv(s) && Legal(s, run) && key in s.disk && !BeingWorkedOn(s, key)
    ensures var t := Run(s, run);
      && key in t.disk && t.disk[key] == s.disk[key] && !BeingWorkedOn(t, key)
      && LaunchesOf(t.launches, key) == LaunchesOf(s.launches, key)
    decreases |run|
  {
    if run != [] {
      AbandonedStep(s, run[0], key);
      StepKeepsLocks(s, run[0]);
      StepKeepsAuthors(s, run[0]);
      StepKeepsLaunches(s, run[0]);
      StepKeepsReplies(s, run[0]);
      hide LocksMatch, Authors, Launches, Replies, Next, BeingWorkedOn, LaunchesOf;
      AbandonedIsNeverReplayed(Next(s, run[0]), run[1..], key);
    }
  }

  /** The crash of the author, at any moment, is what abandons a receipt. */
  lemma CrashAbandons(s: System, c: nat)
    requires Inv(s) && c in s.callers && s.callers[c].key in s.disk && Locked(s.callers[c].phase)
    ensures var t := Next(s, Crash(c)); !BeingWorkedOn(t, s.callers[c].key) && t.disk == s.disk
  {
  }

  // ---- one call under its lock ------------------------------------------------------------------

  /** How far the process gets: it may die with the receipt marked, with the effect launched, or
      with the effect done but not stored. */
  datatype Lifetime = UntilMarked | UntilLaunched | UntilRan | Whole

  class ReceiptStore {
    var disk: map<Key, Receipt>
    ghost var launches: seq<Launch>

    constructor ()
      ensures disk == map[] && launches == []
    {
      disk, launches := map[], [];
    }

    /** Serve one request; there is no answer when the process died. A new id is launched once and
        keeps what came of it; a known id launches nothing, changes nothing, and is told the stored
        receipt, or is refused when it comes with other content. */
    method RequestOnce(key: Key, content: Content, outcome: Option<Outcome>, lifetime: Lifetime)
      returns (answer: Option<Answer>)
      modifies this
      ensures disk == DiskAfter(old(disk), key, content, outcome, lifetime)
      ensures launches == old(launches) + LaunchesBy(old(disk), key, content, lifetime)
      ensures answer == ToldTo(old(disk), key, content, outcome, lifetime)
      ensures key in old(disk) ==> disk == old(disk) && launches == old(launches)
      ensures key in old(disk) ==>
        if key.operation.Spoken? || old(disk)[key].content == content then answer == Some(Returned(old(disk)[key]))
        else answer == Some(Refused)
      ensures key !in old(disk) && lifetime.Whole? ==>
        && disk == old(disk)[key := Receipt(content, outcome)] && launches == old(launches) + [Launch(key, content)]
        && answer == Some(Returned(Receipt(content, outcome)))
      ensures key !in old(disk) && !lifetime.Whole? ==>
        && disk == old(disk)[key := Receipt(content, None)] && answer == None
        && launches == old(launches) + if lifetime.UntilMarked? then [] else [Launch(key, content)]
    {
      if key in disk {
        return Some(Repeat(key, content, disk[key]));
      }
      var receipt := Receipt(content, None);
      disk := disk[key := receipt];
      if lifetime.UntilMarked? { return None; }
      launches := launches + [Launch(key, content)];
      if !lifetime.Whole? { return None; }
      receipt := receipt.(outcome := outcome);
      disk := disk[key := receipt];
      return Some(Returned(receipt));
    }
  }

  function DiskAfter(disk: map<Key, Receipt>, key: Key, content: Content, outcome: Option<Outcome>, lifetime: Lifetime)
    : map<Key, Receipt>
  {
    if key in disk then disk
    else disk[key := Receipt(content, if lifetime.Whole? then outcome else None)]
  }

  function LaunchesBy(disk: map<Key, Receipt>, key: Key, content: Content, lifetime: Lifetime): seq<Launch> {
    if key in disk || lifetime.UntilMarked? then [] else [Launch(key, content)]
  }

  /** What the caller is told, if it lives to be told. */
  function ToldTo(disk: map<Key, Receipt>, key: Key, content: Content, outcome: Option<Outcome>, lifetime: Lifetime)
    : Option<Answer>
  {
    if key in disk then Some(Repeat(key, content, disk[key]))
    else if lifetime.Whole? then Some(Returned(Receipt(content, outcome)))
    else None
  }

  function RepliesTo(disk: map<Key, Receipt>, key: Key, content: Content, outcome: Option<Outcome>, lifetime: Lifetime)
    : seq<Reply>
  {
    match ToldTo(disk, key, content, outcome, lifetime)
    case Some(answer) => [Reply(key, content, answer)]
    case None => []
  }

  /** The steps of a caller that nobody disturbs. */
  function Solo(c: nat, key: Key, content: Content, outcome: Option<Outcome>, lifetime: Lifetime, known: bool)
    : seq<Action>
  {
    [Ask(c, key, content), Acquire(c), Look(c)] +
    if known then [] else
      match lifetime
      case UntilMarked => [Crash(c)]
      case UntilLaunched => [Start(c), Crash(c)]
      case UntilRan => [Start(c), Finish(c, outcome), Crash(c)]
      case Whole => [Start(c), Finish(c, outcome), Store(c)]
  }

  lemma RunFirst(s: System, a: Action, rest: seq<Action>)
    requires Enabled(s, a) && Legal(Next(s, a), rest)
    ensures Legal(s, [a] + rest) && Run(s, [a] + rest) == Run(Next(s, a), rest)
  {
    assert ([a] + rest)[1..] == rest;
  }

  lemma RunThree(s: System, a: Action, b: Action, d: Action, rest: seq<Action>)
    requires Enabled(s, a) && Enabled(Next(s, a), b) && Enabled(Next(Next(s, a), b), d)
    requires Legal(Next(Next(Next(s, a), b), d), rest)
    ensures Legal(s, [a] + ([b] + ([d] + rest)))
    ensures Run(s, [a] + ([b] + ([d] + rest))) == Run(Next(Next(Next(s, a), b), d), rest)
  {
    hide Next, Enabled;
    RunFirst(Next(Next(s, a), b), d, rest);
    RunFirst(Next(s, a), b, [d] + rest);
    RunFirst(s, a, [b] + ([d] + rest));
  }

  lemma RunLast(s: System, a: Action)
    requires Enabled(s, a)
    ensures Legal(s, [a]) && Run(s, [a]) == Next(s, a)
  {
  }

  ghost predicate Reaches(s: System, run: seq<Action>, t: System) {
    Legal(s, run) && Run(s, run) == t
  }

  lemma ReachesBefore(s: System, a: Action, rest: seq<Action>, t: System)
    requires Enabled(s, a) && Reaches(Next(s, a), rest, t)
    ensures Reaches(s, [a] + rest, t)
  {
    RunFirst(s, a, rest);
  }

  /** The system with a caller of its own added, holding the lock, at the given phase. */
  function With(s: System, c: nat, key: Key, content: Content, phase: Phase): System {
    s.(callers := s.callers[c := Caller(phase, key, content)], locks := s.locks[key := c])
  }

  lemma GoneLeavesNothing(s: System, c: nat, key: Key, content: Content, phase: Phase)
    requires c !in s.callers && key !in s.locks && Locked(phase)
    ensures Gone(With(s, c, key, content, phase), c) == s
  {
    assert s.callers[c := Caller(phase, key, content)] - {c} == s.callers;
    assert s.locks[key := c] - {key} == s.locks;
  }

  /** The rest of the call, from the mark on. */
  lemma TailIsARun(s: System, c: nat, key: Key, content: Content, outcome: Option<Outcome>, lifetime: Lifetime)
    requires c !in s.callers && key !in s.locks && key in s.disk
    ensures var rest := Solo(c, key, content, outcome, lifetime, false)[3..];
      Reaches(With(s, c, key, content, Marked), rest,
        s.(disk := if lifetime.Whole? then s.disk[key := Receipt(content, outcome)] else s.disk,
           launches := s.launches + (if lifetime.UntilMarked? then [] else [Launch(key, content)]),
           replies := s.replies
             + if lifetime.Whole? then [Reply(key, content, Returned(Receipt(content, outcome)))] else []))
  {
    var rest := Solo(c, key, content, outcome, lifetime, false)[3..];
    var launched := s.(launches := s.launches + [Launch(key, content)]);
    var s3 := With(s, c, key, content, Marked);
    var s4 := With(launched, c, key, content, Phase.Launched);
    var s5 := With(launched, c, key, content, Ran(outcome));
    GoneLeavesNothing(s, c, key, content, Marked);
    GoneLeavesNothing(launched, c, key, content, Phase.Launched);
    GoneLeavesNothing(launched, c, key, content, Ran(outcome));
    assert Next(s3, Start(c)) == s4 && Next(s4, Finish(c, outcome)) == s5;
    hide With, Legal, Run;
    match lifetime
    case UntilMarked =>
      assert rest == [Crash(c)];
      RunLast(s3, Crash(c));
    case UntilLaunched =>
      assert rest == [Start(c)] + [Crash(c)];
      RunLast(s4, Crash(c));
      ReachesBefore(s3, Start(c), [Crash(c)], launched);
    case _ =>
      RanIsARun(launched, c, key, content, outcome, lifetime);
      var last := if lifetime.UntilRan? then Crash(c) else Store(c);
      assert rest == [Start(c)] + ([Finish(c, outcome)] + [last]);
      ReachesBefore(s4, Finish(c, outcome), [last], Next(s5, last));
      ReachesBefore(s3, Start(c), [Finish(c, outcome)] + [last], Next(s5, last));
  }

  lemma RanIsARun(s: System, c: nat, key: Key, content: Content, outcome: Option<Outcome>, lifetime: Lifetime)
    requires c !in s.callers && key !in s.locks && key in s.disk && (lifetime.UntilRan? || lifetime.Whole?)
    ensures var last := if lifetime.UntilRan? then Crash(c) else Store(c);
      var s5 := With(s, c, key, content, Ran(outcome));
      && Enabled(s5, last) && Reaches(s5, [last], Next(s5, last))
      && Next(s5, last) == s.(
           disk := if lifetime.Whole? then s.disk[key := Receipt(content, outcome)] else s.disk,
           replies := s.replies
             + if lifetime.Whole? then [Reply(key, content, Returned(Receipt(content, outcome)))] else [])
  {
    var last := if lifetime.UntilRan? then Crash(c) else Store(c);
    GoneLeavesNothing(s, c, key, content, Ran(outcome));
    RunLast(With(s, c, key, content, Ran(outcome)), last);
  }

  /** The rest of the call once the receipt is looked up. */
  lemma RestIsARun(s: System, c: nat, key: Key, content: Content, outcome: Option<Outcome>, lifetime: Lifetime,
          seen: System)
    requires c !in s.callers && key !in s.locks
    requires seen ==
      if key in s.disk then s.(replies := s.replies + [Reply(key, content, Repeat(key, content, s.disk[key]))])
      else With(s.(disk := s.disk[key := Receipt(content, None)]), c, key, content, Marked)
    ensures var rest := Solo(c, key, content, outcome, lifetime, key in s.disk)[3..];
      && Legal(seen, rest)
      && Run(seen, rest).disk == DiskAfter(s.disk, key, content, outcome, lifetime)
      && Run(seen, rest).launches == s.launches + LaunchesBy(s.disk, key, content, lifetime)
      && Run(seen, rest).replies == s.replies + RepliesTo(s.disk, key, content, outcome, lifetime)
      && Run(seen, rest).callers == s.callers && Run(seen, rest).locks == s.locks
  {
    if key in s.disk {
      assert Solo(c, key, content, outcome, lifetime, true)[3..] == [];
    } else {
      TailIsARun(s.(disk := s.disk[key := Receipt(content, None)]), c, key, content, outcome, lifetime);
      hide Solo, Legal, Run;
    }
  }

  /** The call is a run of the protocol, so what holds of every run holds of every mix of calls. */
  lemma RequestOnceIsARun(s: System, c: nat, key: Key, content: Content, outcome: Option<Outcome>, lifetime: Lifetime)
    requires c !in s.callers && key !in s.locks
    ensures var run := Solo(c, key, content, outcome, lifetime, key in s.disk);
      && Legal(s, run)
      && Run(s, run).disk == DiskAfter(s.disk, key, content, outcome, lifetime)
      && Run(s, run).launches == s.launches + LaunchesBy(s.disk, key, content, lifetime)
      && Run(s, run).replies == s.replies + RepliesTo(s.disk, key, content, outcome, lifetime)
      && Run(s, run).callers == s.callers && Run(s, run).locks == s.locks
  {
    var run := Solo(c, key, content, outcome, lifetime, key in s.disk);
    var rest := run[3..];
    assert run == [Ask(c, key, content)] + ([Acquire(c)] + ([Look(c)] + rest));
    LookingIsThreeSteps(s, c, key, content);
    var seen := Next(Next(Next(s, Ask(c, key, content)), Acquire(c)), Look(c));
    RestIsARun(s, c, key, content, outcome, lifetime, seen);
    hide Next, Enabled, Solo, Legal, Run;
    RunThree(s, Ask(c, key, content), Acquire(c), Look(c), rest);
  }

  lemma LookingIsThreeSteps(s: System, c: nat, key: Key, content: Content)
    requires c !in s.callers && key !in s.locks
    ensures Enabled(s, Ask(c, key, content))
    ensures var s1 := Next(s, Ask(c, key, content)); Enabled(s1, Acquire(c)) && Enabled(Next(s1, Acquire(c)), Look(c))
    ensures Next(Next(Next(s, Ask(c, key, content)), Acquire(c)), Look(c)) ==
      if key in s.disk then s.(replies := s.replies + [Reply(key, content, Repeat(key, content, s.disk[key]))])
      else With(s.(disk := s.disk[key := Receipt(content, None)]), c, key, content, Marked)
  {
    var s1, s2 := Next(s, Ask(c, key, content)), With(s, c, key, content, Holds);
    assert Next(s1, Acquire(c)) == s2;
    if key in s.disk {
      GoneLeavesNothing(s, c, key, content, Holds);
    }
  }
}
