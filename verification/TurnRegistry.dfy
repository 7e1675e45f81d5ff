/** The registry of cancellable agent turns: a stop flags every turn open on a thread, and a turn
    learns at its close whether a stop came first. */
module TurnRegistry {

  datatype Entry = Entry(token: nat, cancelled: bool)

  // ---- the registry as a value ---------------------------------------------------------------

  type Turns = map<string, seq<Entry>>

  function Pushed(turns: Turns, thread: string, token: nat): Turns {
    turns[thread := (if thread in turns then turns[thread] else []) + [Entry(token, false)]]
  }

  function AllFlagged(entries: seq<Entry>): (r: seq<Entry>)
    ensures |r| == |entries|
    ensures forall i :: 0 <= i < |r| ==> r[i] == Entry(entries[i].token, true)
  {
    if entries == [] then [] else [entries[0].(cancelled := true)] + AllFlagged(entries[1..])
  }

  function Flagged(turns: Turns, thread: string): Turns {
    if thread in turns then turns[thread := AllFlagged(turns[thread])] else turns
  }

  /** Whether the first entry with that token is flagged. */
  function FlagOf(entries: seq<Entry>, token: nat): bool {
    if entries == [] then false
    else if entries[0].token == token then entries[0].cancelled else FlagOf(entries[1..], token)
  }

  function Without(entries: seq<Entry>, token: nat): seq<Entry> {
    if entries == [] then []
    else (if entries[0].token == token then [] else [entries[0]]) + Without(entries[1..], token)
  }

  function Removed(turns: Turns, thread: string, token: nat): Turns {
    if thread !in turns then turns
    else if Without(turns[thread], token) == [] then turns - {thread}
    else turns[thread := Without(turns[thread], token)]
  }

  // ---- the registry as an object --------------------------------------------------------------

  /** Each method is one stretch under the lock; a registration is two of them, and the token
      counter is taken before the lock. */
  class Registry {
    var nextToken: nat
    var turns: Turns

    constructor ()
      ensures nextToken == 0 && turns == map[]
    {
      nextToken, turns := 0, map[];
    }

    method TakeToken() returns (token: nat)
      modifies `nextToken
      ensures token == old(nextToken) && nextToken == old(nextToken) + 1
    {
      token := nextToken;
      nextToken := nextToken + 1;
    }

    method Push(thread: string, token: nat)
      modifies `turns
      ensures turns == Pushed(old(turns), thread, token)
    {
      if thread !in turns {
        turns := turns[thread := []];
      }
      turns := turns[thread := turns[thread] + [Entry(token, false)]];
    }

    method Cancel(thread: string) returns (any: bool)
      modifies `turns
      ensures turns == Flagged(old(turns), thread)
      ensures any <==> thread in old(turns) && old(turns)[thread] != []
    {
      if thread !in turns { return false; }
      var before := turns[thread];
      assert AllFlagged(before[..0]) == [];
      hide AllFlagged;
      for i := 0 to |before|
        invariant thread in turns && turns == old(turns)[thread := turns[thread]]
        invariant turns[thread] == AllFlagged(before[..i]) + before[i..]
      {
        FlaggedNext(before, i);
        var entries := turns[thread];
        turns := turns[thread := entries[i := entries[i].(cancelled := true)]];
      }
      assert before[..|before|] == before && before[|before|..] == [];
      assert turns[thread] == AllFlagged(before);
      return |turns[thread]| > 0;
    }

    method Deregister(thread: string, token: nat) returns (wasCancelled: bool)
      modifies `turns
      ensures turns == Removed(old(turns), thread, token)
      ensures wasCancelled <==> thread in old(turns) && FlagOf(old(turns)[thread], token)
    {
      wasCancelled := false;
      if thread in turns {
        wasCancelled := Find(turns[thread], token);
        var kept := Retain(turns[thread], token);
        turns := turns[thread := kept];
        if kept == [] { turns := turns - {thread}; }
      }
    }
  }

  method Find(entries: seq<Entry>, token: nat) returns (flagged: bool)
    ensures flagged == FlagOf(entries, token)
  {
    for i := 0 to |entries|
      invariant FlagOf(entries, token) == FlagOf(entries[i..], token)
    {
      if entries[i].token == token { return entries[i].cancelled; }
    }
    return false;
  }

  method Retain(entries: seq<Entry>, token: nat) returns (kept: seq<Entry>)
    ensures kept == Without(entries, token)
  {
    kept := [];
    for i := 0 to |entries|
      invariant kept + Without(entries[i..], token) == Without(entries, token)
    {
      if entries[i].token != token { kept := kept + [entries[i]]; }
    }
  }

  lemma FlaggedNext(s: seq<Entry>, i: nat)
    requires i < |s|
    ensures var t := AllFlagged(s[..i]) + s[i..];
      t[i := t[i].(cancelled := true)] == AllFlagged(s[..i + 1]) + s[i + 1..]
  {
  }

  // ---- turns and stops in every interleaving ----------------------------------------------------

  datatype Phase = HasToken | Open | Closed
  datatype Guard = Guard(thread: string, token: nat, phase: Phase, since: nat)

  datatype Event =
    | Registered(guard: nat)
    | Stopped(thread: string, answer: bool)
    | Finished(guard: nat, answer: bool)

  /** `since` of a guard is the place of its registration in the log. */
  datatype System = System(nextToken: nat, turns: Turns, guards: map<nat, Guard>, log: seq<Event>)

  const START := System(0, map[], map[], [])

  datatype Action = Take(g: nat, thread: string) | Register(g: nat) | Stop(thread: string) | Finish(g: nat)

  predicate Enabled(s: System, a: Action) {
    match a
    case Take(g, _) => g !in s.guards
    case Register(g) => g in s.guards && s.guards[g].phase == HasToken
    case Stop(_) => true
    case Finish(g) => g in s.guards && s.guards[g].phase != HasToken
  }

  predicate StopAnswer(s: System, thread: string) {
    thread in s.turns && s.turns[thread] != []
  }

  /** A guard that has closed answers false; so does its drop after an explicit finish. */
  predicate FinishAnswer(s: System, g: nat)
    requires g in s.guards
  {
    var guard := s.guards[g];
    guard.phase == Open && guard.thread in s.turns && FlagOf(s.turns[guard.thread], guard.token)
  }

  function Next(s: System, a: Action): System
    requires Enabled(s, a)
  {
    match a
    case Take(g, thread) =>
      s.(nextToken := s.nextToken + 1, guards := s.guards[g := Guard(thread, s.nextToken, HasToken, 0)])
    case Register(g) =>
      var guard := s.guards[g];
      s.(turns := Pushed(s.turns, guard.thread, guard.token),
         guards := s.guards[g := guard.(phase := Open, since := |s.log|)],
         log := s.log + [Registered(g)])
    case Stop(thread) => s.(turns := Flagged(s.turns, thread), log := s.log + [Stopped(thread, StopAnswer(s, thread))])
    case Finish(g) =>
      var guard := s.guards[g];
      s.(turns := if guard.phase == Open then Removed(s.turns, guard.thread, guard.token) else s.turns,
         guards := s.guards[g := guard.(phase := Closed)],
         log := s.log + [Finished(g, FinishAnswer(s, g))])
  }

  predicate Legal(s: System, run: seq<Action>)
    decreases |run|
  {
    run == [] || (Enabled(s, run[0]) && Legal(Next(s, run[0]), run[1..]))
  }

  function Run(s: System, run: seq<Action>): System
    requires Legal(s, run)
    decreases |run|
  {
    if run == [] then s else Run(Next(s, run[0]), run[1..])
  }

  // ---- the invariant ----------------------------------------------------------------------------

  /** A stop of that thread took effect after place `from` and before place `to` of the log. */
  ghost predicate StoppedBetween(log: seq<Event>, thread: string, from: nat, to: nat) {
    exists k :: from < k < to && k < |log| && log[k].Stopped? && log[k].thread == thread
  }

  ghost predicate OpenOn(s: System, g: nat, thread: string) {
    g in s.guards && s.guards[g].phase == Open && s.guards[g].thread == thread
  }

  ghost predicate TokensAreUnique(s: System) {
    && (forall g :: g in s.guards ==> s.guards[g].token < s.nextToken)
    && (forall g, f :: g in s.guards && f in s.guards && s.guards[g].token == s.guards[f].token ==> g == f)
  }

  /** The entry a guard should have: flagged exactly when its thread was stopped since it registered. */
  ghost function EntryOf(s: System, g: nat): Entry
    requires g in s.guards
  {
    Entry(s.guards[g].token, StoppedBetween(s.log, s.guards[g].thread, s.guards[g].since, |s.log|))
  }

  ghost predicate Holds(turns: Turns, thread: string, e: Entry) {
    thread in turns && e in turns[thread]
  }

  predicate DistinctTokens(entries: seq<Entry>) {
    forall i, j :: 0 <= i < j < |entries| ==> entries[i].token != entries[j].token
  }

  ghost predicate ListsAreTidy(turns: Turns) {
    forall thread :: thread in turns ==> turns[thread] != [] && DistinctTokens(turns[thread])
  }

  ghost predicate EntriesHaveGuards(s: System) {
    forall thread, e :: Holds(s.turns, thread, e) ==> exists g :: OpenOn(s, g, thread) && e == EntryOf(s, g)
  }

  ghost predicate GuardsHaveEntries(s: System) {
    forall g :: g in s.guards && s.guards[g].phase == Open ==> Holds(s.turns, s.guards[g].thread, EntryOf(s, g))
  }

  /** The entries of a thread are exactly those of its open guards, each once; no list is empty. */
  ghost predicate EntriesMatchGuards(s: System) {
    ListsAreTidy(s.turns) && EntriesHaveGuards(s) && GuardsHaveEntries(s)
  }

  ghost predicate SincesArePast(s: System) {
    forall g :: g in s.guards && s.guards[g].phase != HasToken ==>
      s.guards[g].since < |s.log| && s.log[s.guards[g].since] == Registered(g)
  }

  ghost predicate Inv(s: System) {
    TokensAreUnique(s) && SincesArePast(s) && EntriesMatchGuards(s)
  }

  lemma {:induction false} FlagOfEntry(entries: seq<Entry>, e: Entry)
    requires e in entries && DistinctTokens(entries)
    ensures FlagOf(entries, e.token) == e.cancelled
  {
    if entries[0] != e {
      var k :| 0 <= k < |entries| && entries[k] == e;
      assert entries[1..][k - 1] == e;
      FlagOfEntry(entries[1..], e);
    }
  }

  lemma {:induction false} WithoutMembers(entries: seq<Entry>, token: nat)
    ensures forall e :: e in Without(entries, token) <==> e in entries && e.token != token
  {
    if entries != [] {
      WithoutMembers(entries[1..], token);
      assert forall e :: e in entries <==> e == entries[0] || e in entries[1..];
    }
  }

  lemma {:induction false} WithoutIsDistinct(entries: seq<Entry>, token: nat)
    requires DistinctTokens(entries)
    ensures DistinctTokens(Without(entries, token))
  {
    if entries != [] {
      WithoutIsDistinct(entries[1..], token);
      WithoutMembers(entries[1..], token);
      var rest := Without(entries[1..], token);
      forall i | 0 <= i < |rest| ensures rest[i].token != entries[0].token {
        assert rest[i] in entries[1..];
      }
    }
  }

  lemma FlaggedMembers(entries: seq<Entry>)
    ensures forall e :: e in AllFlagged(entries) <==>
      e.cancelled && (Entry(e.token, true) in entries || Entry(e.token, false) in entries)
  {
    var r := AllFlagged(entries);
    forall e: Entry | e.cancelled && (Entry(e.token, true) in entries || Entry(e.token, false) in entries)
      ensures e in r
    {
      var i :| 0 <= i < |entries| && entries[i].token == e.token;
      assert r[i] == e;
    }
    forall e | e in r ensures Entry(e.token, true) in entries || Entry(e.token, false) in entries {
      var i :| 0 <= i < |r| && r[i] == e;
      assert entries[i] == Entry(e.token, entries[i].cancelled);
    }
  }

  // ---- each step keeps it ------------------------------------------------------------------------

  lemma StoppedGrows(log: seq<Event>, e: Event, thread: string, from: nat)
    requires from < |log|
    ensures StoppedBetween(log + [e], thread, from, |log| + 1) <==>
      StoppedBetween(log, thread, from, |log|) || (e.Stopped? && e.thread == thread)
  {
    var longer := log + [e];
    assert longer[|log|] == e;
    if StoppedBetween(log, thread, from, |log|) {
      var k :| from < k < |log| && log[k].Stopped? && log[k].thread == thread;
      assert longer[k] == log[k];
    }
  }

  lemma TakeKeepsInv(s: System, g: nat, thread: string)
    requires Inv(s) && g !in s.guards
    ensures Inv(Next(s, Take(g, thread)))
  {
    var t := Next(s, Take(g, thread));
    assert forall f :: f in s.guards ==> EntryOf(t, f) == EntryOf(s, f);
    forall name, e | Holds(t.turns, name, e) ensures exists f :: OpenOn(t, f, name) && e == EntryOf(t, f) {
      assert Holds(s.turns, name, e);
      var f :| OpenOn(s, f, name) && e == EntryOf(s, f);
      assert OpenOn(t, f, name);
    }
  }

  /** A step that appends an event other than a stop leaves the other guards' entries as they were. */
  lemma SameEntries(s: System, t: System, e: Event)
    requires SincesArePast(s) && !e.Stopped? && t.log == s.log + [e]
    requires forall f :: f in s.guards && s.guards[f].phase == Open ==>
      f in t.guards && t.guards[f].(phase := Open) == s.guards[f]
    ensures forall f :: f in s.guards && s.guards[f].phase == Open ==> EntryOf(t, f) == EntryOf(s, f)
  {
    forall f | f in s.guards && s.guards[f].phase == Open ensures EntryOf(t, f) == EntryOf(s, f) {
      StoppedGrows(s.log, e, s.guards[f].thread, s.guards[f].since);
    }
  }

  lemma RegisterKeepsLists(s: System, g: nat)
    requires Inv(s) && Enabled(s, Register(g))
    ensures ListsAreTidy(Next(s, Register(g)).turns)
  {
    var guard := s.guards[g];
    var before := if guard.thread in s.turns then s.turns[guard.thread] else [];
    forall i | 0 <= i < |before| ensures before[i].token != guard.token {
      assert Holds(s.turns, guard.thread, before[i]);
      var f :| OpenOn(s, f, guard.thread) && before[i] == EntryOf(s, f);
    }
  }

  lemma RegisterKeepsEntries(s: System, g: nat)
    requires Inv(s) && Enabled(s, Register(g))
    ensures EntriesHaveGuards(Next(s, Register(g))) && GuardsHaveEntries(Next(s, Register(g)))
  {
    var t, guard := Next(s, Register(g)), s.guards[g];
    SameEntries(s, t, Registered(g));
    assert EntryOf(t, g) == Entry(guard.token, false);
    hide EntryOf, ListsAreTidy, SincesArePast, TokensAreUnique;
    forall name, e | Holds(t.turns, name, e) ensures exists f :: OpenOn(t, f, name) && e == EntryOf(t, f) {
      if name == guard.thread && e == Entry(guard.token, false) {
        assert OpenOn(t, g, name);
      } else {
        assert Holds(s.turns, name, e);
        var f :| OpenOn(s, f, name) && e == EntryOf(s, f);
        assert OpenOn(t, f, name);
      }
    }
    forall f | f in t.guards && t.guards[f].phase == Open ensures Holds(t.turns, t.guards[f].thread, EntryOf(t, f)) {
      if f != g { assert Holds(s.turns, s.guards[f].thread, EntryOf(s, f)); }
    }
  }

  lemma RegisterKeepsInv(s: System, g: nat)
    requires Inv(s) && Enabled(s, Register(g))
    ensures Inv(Next(s, Register(g)))
  {
    RegisterKeepsLists(s, g);
    RegisterKeepsEntries(s, g);
    hide ListsAreTidy, EntriesHaveGuards, GuardsHaveEntries;
  }

  lemma StopKeepsInv(s: System, thread: string)
    requires Inv(s)
    ensures Inv(Next(s, Stop(thread)))
  {
    var t := Next(s, Stop(thread));
    var event := t.log[|s.log|];
    forall g | g in s.guards && s.guards[g].phase == Open
      ensures EntryOf(t, g) == if s.guards[g].thread == thread then Entry(s.guards[g].token, true) else EntryOf(s, g)
    {
      StoppedGrows(s.log, event, s.guards[g].thread, s.guards[g].since);
    }
    if thread in s.turns { FlaggedMembers(s.turns[thread]); }
    forall name, e | Holds(t.turns, name, e) ensures exists f :: OpenOn(t, f, name) && e == EntryOf(t, f) {
      var was := if name == thread && Holds(s.turns, name, Entry(e.token, false)) then Entry(e.token, false) else e;
      assert Holds(s.turns, name, was);
      var f :| OpenOn(s, f, name) && was == EntryOf(s, f);
      assert OpenOn(t, f, name);
    }
    forall f | f in t.guards && t.guards[f].phase == Open ensures Holds(t.turns, t.guards[f].thread, EntryOf(t, f)) {
      assert Holds(s.turns, s.guards[f].thread, EntryOf(s, f));
    }
  }

  /** A closed guard's finish changes nothing but the log. */
  lemma IdleFinishKeepsInv(s: System, g: nat)
    requires Inv(s) && Enabled(s, Finish(g)) && s.guards[g].phase == Closed
    ensures Inv(Next(s, Finish(g)))
  {
    var t := Next(s, Finish(g));
    SameEntries(s, t, Finished(g, FinishAnswer(s, g)));
    assert t.guards == s.guards;
    hide EntryOf, StoppedBetween;
    forall name, e | Holds(t.turns, name, e) ensures exists f :: OpenOn(t, f, name) && e == EntryOf(t, f) {
      assert Holds(s.turns, name, e);
      var f :| OpenOn(s, f, name) && e == EntryOf(s, f);
      assert OpenOn(t, f, name);
    }
  }

  lemma FinishKeepsLists(s: System, g: nat)
    requires Inv(s) && g in s.guards && s.guards[g].phase == Open
    ensures ListsAreTidy(Next(s, Finish(g)).turns)
  {
    var guard := s.guards[g];
    assert Holds(s.turns, guard.thread, EntryOf(s, g));
    WithoutIsDistinct(s.turns[guard.thread], guard.token);
  }

  /** The entries that are left belong to other guards, and those of the other guards are left. */
  lemma FinishKeepsEntries(s: System, g: nat)
    requires Inv(s) && g in s.guards && s.guards[g].phase == Open
    ensures EntriesHaveGuards(Next(s, Finish(g))) && GuardsHaveEntries(Next(s, Finish(g)))
  {
    var t, guard := Next(s, Finish(g)), s.guards[g];
    SameEntries(s, t, Finished(g, FinishAnswer(s, g)));
    RemovedEntries(s.turns, guard.thread, guard.token);
    hide StoppedBetween, Removed, FinishAnswer, ListsAreTidy, SincesArePast, Holds;
    forall name, e | Holds(t.turns, name, e) ensures exists f :: OpenOn(t, f, name) && e == EntryOf(t, f) {
      var f :| OpenOn(s, f, name) && e == EntryOf(s, f);
      assert f != g;
      assert OpenOn(t, f, name);
    }
    forall f | f in t.guards && t.guards[f].phase == Open ensures Holds(t.turns, t.guards[f].thread, EntryOf(t, f)) {
      assert Holds(s.turns, s.guards[f].thread, EntryOf(s, f));
    }
  }

  lemma RemovedEntries(turns: Turns, thread: string, token: nat)
    ensures forall name, e :: Holds(Removed(turns, thread, token), name, e) <==>
      Holds(turns, name, e) && !(name == thread && e.token == token)
  {
    if thread in turns { WithoutMembers(turns[thread], token); }
    hide Without;
  }

  lemma FinishKeepsInv(s: System, g: nat)
    requires Inv(s) && Enabled(s, Finish(g))
    ensures Inv(Next(s, Finish(g)))
  {
    if s.guards[g].phase == Open {
      FinishKeepsLists(s, g);
      FinishKeepsEntries(s, g);
      hide ListsAreTidy, EntriesHaveGuards, GuardsHaveEntries, Removed;
    } else {
      IdleFinishKeepsInv(s, g);
    }
  }

  lemma StepKeepsInv(s: System, a: Action)
    requires Inv(s) && Enabled(s, a)
    ensures Inv(Next(s, a))
  {
    hide Inv, Next;
    match a
    case Take(g, thread) => TakeKeepsInv(s, g, thread);
    case Register(g) => RegisterKeepsInv(s, g);
    case Stop(thread) => StopKeepsInv(s, thread);
    case Finish(g) => FinishKeepsInv(s, g);
  }

  // ---- what the log of every run says ------------------------------------------------------------

  ghost predicate ClosedBy(log: seq<Event>, g: nat, k: nat) {
    exists i :: 0 <= i < k && i < |log| && log[i].Finished? && log[i].guard == g
  }

  /** At place `k` of the log the turn was registered and not finished. */
  ghost predicate OpenAt(s: System, g: nat, k: nat) {
    g in s.guards && s.guards[g].phase != HasToken && s.guards[g].since < k && !ClosedBy(s.log, g, k)
  }

  ghost predicate PhasesAreLogged(s: System) {
    forall g :: g in s.guards ==> (s.guards[g].phase == Closed <==> ClosedBy(s.log, g, |s.log|))
  }

  /** A stop answered true exactly when its thread had an open turn; a finish answered true exactly
      when it was the turn's first and a stop of the thread lies between registration and finish. */
  ghost predicate AnswersAreTrue(s: System) {
    forall k :: 0 <= k < |s.log| ==> AnswerIsTrue(s, k)
  }

  ghost predicate AnswerIsTrue(s: System, k: nat)
    requires k < |s.log|
  {
    match s.log[k]
    case Registered(_) => true
    case Stopped(thread, answer) => answer <==> exists g :: OpenAt(s, g, k) && s.guards[g].thread == thread
    case Finished(g, answer) =>
      && g in s.guards
      && (answer <==> !ClosedBy(s.log, g, k) && StoppedBetween(s.log, s.guards[g].thread, s.guards[g].since, k))
  }

  ghost predicate Logged(s: System) {
    PhasesAreLogged(s) && AnswersAreTrue(s)
      && forall k :: 0 <= k < |s.log| && s.log[k].Finished? ==> s.log[k].guard in s.guards
  }

  lemma PastIsFixed(log: seq<Event>, e: Event, thread: string, from: nat, g: nat, k: nat)
    requires k <= |log|
    ensures StoppedBetween(log + [e], thread, from, k) <==> StoppedBetween(log, thread, from, k)
    ensures ClosedBy(log + [e], g, k) <==> ClosedBy(log, g, k)
  {
    var longer := log + [e];
    if StoppedBetween(log, thread, from, k) {
      var i :| from < i < k && i < |log| && log[i].Stopped? && log[i].thread == thread;
      assert longer[i] == log[i];
    }
    if ClosedBy(log, g, k) {
      var i :| 0 <= i < k && i < |log| && log[i].Finished? && log[i].guard == g;
      assert longer[i] == log[i];
    }
  }

  lemma ClosedGrows(log: seq<Event>, e: Event, g: nat)
    ensures ClosedBy(log + [e], g, |log| + 1) <==> ClosedBy(log, g, |log|) || (e.Finished? && e.guard == g)
  {
    PastIsFixed(log, e, "", 0, g, |log|);
    var longer := log + [e];
    assert longer[|log|] == e;
    if ClosedBy(log, g, |log|) {
      var i :| 0 <= i < |log| && longer[i].Finished? && longer[i].guard == g;
    }
  }

  lemma PhasesStayLogged(s: System, a: Action)
    requires Inv(s) && Logged(s) && Enabled(s, a)
    ensures PhasesAreLogged(Next(s, a))
  {
    var t := Next(s, a);
    if !a.Take? {
      forall g | g in t.guards ensures t.guards[g].phase == Closed <==> ClosedBy(t.log, g, |t.log|) {
        ClosedGrows(s.log, t.log[|s.log|], g);
      }
    }
  }

  lemma PastAnswersStay(s: System, a: Action, k: nat)
    requires Inv(s) && Logged(s) && Enabled(s, a) && k < |s.log|
    ensures AnswerIsTrue(Next(s, a), k)
  {
    var t := Next(s, a);
    assert AnswerIsTrue(s, k) && t.log[k] == s.log[k];
    forall g ensures ClosedBy(t.log, g, k) <==> ClosedBy(s.log, g, k) {
      if !a.Take? { PastIsFixed(s.log, t.log[|s.log|], "", 0, g, k); }
    }
    if s.log[k].Finished? {
      var g := s.log[k].guard;
      assert s.guards[g].phase == Closed by {
        assert ClosedBy(s.log, g, |s.log|);
      }
      if !a.Take? { PastIsFixed(s.log, t.log[|s.log|], s.guards[g].thread, s.guards[g].since, g, k); }
    } else if s.log[k].Stopped? {
      forall g ensures OpenAt(t, g, k) <==> OpenAt(s, g, k) {
      }
      assert forall g :: OpenAt(s, g, k) ==> t.guards[g].thread == s.guards[g].thread;
    }
  }

  lemma NewAnswerIsTrue(s: System, a: Action)
    requires Inv(s) && Logged(s) && Enabled(s, a) && !a.Take?
    ensures AnswerIsTrue(Next(s, a), |s.log|)
  {
    var t, n := Next(s, a), |s.log|;
    if a.Stop? {
      forall g ensures OpenAt(t, g, n) <==> (g in s.guards && s.guards[g].phase == Open) {
        PastIsFixed(s.log, t.log[n], "", 0, g, n);
      }
      StopAnswerIsTrue(s, a.thread);
    } else if a.Finish? {
      PastIsFixed(s.log, t.log[n], s.guards[a.g].thread, s.guards[a.g].since, a.g, n);
      FinishAnswerIsTrue(s, a.g);
    }
  }

  /** A stop finds something exactly when the thread has an open turn. */
  lemma StopAnswerIsTrue(s: System, thread: string)
    requires Inv(s)
    ensures StopAnswer(s, thread) <==> exists g :: OpenOn(s, g, thread)
  {
    if thread in s.turns {
      assert Holds(s.turns, thread, s.turns[thread][0]);
    }
    if g :| OpenOn(s, g, thread) {
      assert Holds(s.turns, thread, EntryOf(s, g));
    }
  }

  /** A finish reports a stop exactly when one took effect since the registration. */
  lemma FinishAnswerIsTrue(s: System, g: nat)
    requires Inv(s) && g in s.guards && s.guards[g].phase != HasToken
    ensures FinishAnswer(s, g) <==>
      s.guards[g].phase == Open && StoppedBetween(s.log, s.guards[g].thread, s.guards[g].since, |s.log|)
  {
    if s.guards[g].phase == Open {
      assert Holds(s.turns, s.guards[g].thread, EntryOf(s, g));
      FlagOfEntry(s.turns[s.guards[g].thread], EntryOf(s, g));
    }
  }

  lemma {:induction false} RunKeepsInv(s: System, run: seq<Action>)
    requires Inv(s) && Logged(s) && Legal(s, run)
    ensures Inv(Run(s, run)) && Logged(Run(s, run))
    decreases |run|
  {
    if run != [] {
      StepKeepsInv(s, run[0]);
      StepKeepsLogged(s, run[0]);
      hide Inv, Logged, Next;
      RunKeepsInv(Next(s, run[0]), run[1..]);
    }
  }

  lemma StepKeepsLogged(s: System, a: Action)
    requires Inv(s) && Logged(s) && Enabled(s, a)
    ensures Logged(Next(s, a))
  {
    var t := Next(s, a);
    PhasesStayLogged(s, a);
    forall k | 0 <= k < |t.log| ensures AnswerIsTrue(t, k) {
      if k < |s.log| { PastAnswersStay(s, a, k); } else { NewAnswerIsTrue(s, a); }
    }
  }

  /** In every interleaving: answers are true, and entries and open turns correspond by token. */
  lemma EveryAnswerIsTrue(run: seq<Action>)
    requires Legal(START, run)
    ensures AnswersAreTrue(Run(START, run)) && EntriesMatchGuards(Run(START, run)) && TokensAreUnique(Run(START, run))
  {
    RunKeepsInv(START, run);
  }
}
