/** The memory of validated Whisper bundles: what is remembered of a bundle is the identity of every
    file, taken before the validation that reads them one by one. Files may change at any moment,
    and any number of calls overlap. */
module WeightCache {

  import opened Wrappers

  type Content = string
  type Path = string

  /** A file's identity stands for its length, modification time and inode. */
  datatype File = File(id: nat, content: Content)

  type Dir = map<string, File>
  type Identity = map<string, nat>
  type View = map<string, Option<Content>>

  function IdentityOf(d: Dir): Identity {
    map name | name in d :: d[name].id
  }

  function Read(d: Dir, name: string): Option<Content> {
    if name in d then Some(d[name].content) else None
  }

  /** All that a directory has been, and what it is last. */
  type History = h: seq<Dir> | |h| > 0 witness [map[]]

  /** What the validator reads, if it reads the files it looks for all at once. */
  function ViewOf(d: Dir, names: set<string>): View {
    map name | name in names :: Read(d, name)
  }

  // ---- the memory --------------------------------------------------------------------------------

  predicate Remembered(entries: map<Path, Identity>, path: Path, identity: Option<Identity>) {
    identity.Some? && path in entries && entries[path] == identity.value
  }

  /** The static map from bundle path to identity. Its lock is held for each of the two sections. */
  class ValidatedBundles {
    var entries: map<Path, Identity>

    constructor ()
      ensures entries == map[]
    {
      entries := map[];
    }

    method Lookup(path: Path, identity: Option<Identity>) returns (hit: bool)
      ensures hit == Remembered(entries, path, identity)
    {
      hit := identity.Some? && path in entries && entries[path] == identity.value;
    }

    method Remember(path: Path, identity: Identity)
      modifies this
      ensures entries == old(entries)[path := identity]
    {
      entries := entries[path := identity];
    }

    /** Calls of others that end while this one validates: they leave any entries. */
    method Others()
      modifies this
    {
      entries := *;
    }

    /** One call: the identity was taken first, and `passes` is what the uncached validation says, if
        it is reached. A failure is never remembered, nor a bundle whose identity was unreadable. */
    method Validate(path: Path, identity: Option<Identity>, passes: bool)
      returns (ok: bool, ghost seen: map<Path, Identity>)
      modifies this
      ensures ok == (old(Remembered(entries, path, identity)) || passes)
      ensures old(Remembered(entries, path, identity)) ==> entries == seen == old(entries)
      ensures !ok || identity.None? ==> entries == seen
      ensures ok && identity.Some? ==> entries == seen[path := identity.value] && Remembered(entries, path, identity)
    {
      seen := entries;
      ok := Lookup(path, identity);
      if ok { return; }
      Others();
      seen := entries;
      if !passes { return; }
      if identity.Some? {
        Remember(path, identity.value);
      }
      ok := true;
    }
  }

  // ---- overlapping calls over changing directories -------------------------------------------------

  /** A call under way: what it took at the start, whether it has looked its bundle up, and what its
      validation has read so far. `began` and `times` date these in the directory's history. */
  datatype Call = Call(path: Path, identity: Option<Identity>, began: nat, looked: bool, seen: View,
    times: map<string, nat>)

  /** What is remembered, and of the validation that remembered it: when it began and read. */
  datatype Entry = Entry(identity: Identity, began: nat, times: map<string, nat>)

  /** An answer from memory, given at moment `at` to a call that took its identity at `taken`. */
  datatype Hit = Hit(path: Path, taken: nat, at: nat, entry: Entry)

  /** Every directory with all it has ever been, the memory, the calls under way, the answers. */
  datatype System = System(history: map<Path, History>, entries: map<Path, Entry>, calls: map<nat, Call>,
    hits: set<Hit>)

  /** Files change, a call takes the identity (which may be unreadable), looks it up, reads one file
      its validator looks for, remembers the bundle it accepts, or ends otherwise. */
  datatype Action =
    | Edit(path: Path, dir: Dir)
    | Begin(call: nat, path: Path, readable: bool)
    | Look(call: nat)
    | ReadFile(call: nat, name: string)
    | Insert(call: nat)
    | Drop(call: nat)

  function Identities(entries: map<Path, Entry>): map<Path, Identity> {
    map path | path in entries :: entries[path].identity
  }

  function Start(dirs: map<Path, Dir>): System {
    System(map path | path in dirs :: [dirs[path]], map[], map[], {})
  }

  function Moment(s: System, path: Path): nat
    requires path in s.history
  {
    |s.history[path]| - 1
  }

  predicate Enabled(s: System, a: Action, names: set<string>, accepts: View -> bool) {
    match a
    case Edit(path, _) => path in s.history
    case Begin(c, path, _) => path in s.history && c !in s.calls
    case Look(c) => c in s.calls && !s.calls[c].looked && s.calls[c].path in s.history
    case ReadFile(c, name) =>
      && c in s.calls && s.calls[c].looked && name in names && name !in s.calls[c].seen
      && s.calls[c].path in s.history
    case Insert(c) => c in s.calls && s.calls[c].looked && s.calls[c].seen.Keys == names && accepts(s.calls[c].seen)
    case Drop(c) => c in s.calls
  }

  function Next(s: System, a: Action, names: set<string>, accepts: View -> bool): System
    requires Enabled(s, a, names, accepts)
  {
    match a
    case Edit(path, dir) => s.(history := s.history[path := s.history[path] + [dir]])
    case Begin(c, path, readable) =>
      var now := Moment(s, path);
      var identity := if readable then Some(IdentityOf(s.history[path][now])) else None;
      s.(calls := s.calls[c := Call(path, identity, now, false, map[], map[])])
    case Look(c) =>
      var call := s.calls[c];
      if Remembered(Identities(s.entries), call.path, call.identity) then
        s.(calls := s.calls - {c},
           hits := s.hits + {Hit(call.path, call.began, Moment(s, call.path), s.entries[call.path])})
      else
        s.(calls := s.calls[c := call.(looked := true)])
    case ReadFile(c, name) =>
      var call := s.calls[c];
      var now := Moment(s, call.path);
      s.(calls := s.calls[c := call.(seen := call.seen[name := Read(s.history[call.path][now], name)],
                                     times := call.times[name := now])])
    case Insert(c) =>
      var call := s.calls[c];
      s.(calls := s.calls - {c},
         entries := if call.identity.None? then s.entries
                    else s.entries[call.path := Entry(call.identity.value, call.began, call.times)])
    case Drop(c) => s.(calls := s.calls - {c})
  }

  /** The system after a run; an action that is not enabled does nothing. */
  function Exec(s: System, run: seq<Action>, names: set<string>, accepts: View -> bool): System {
    if run == [] then s
    else
      var before := Exec(s, run[..|run| - 1], names, accepts);
      var a := run[|run| - 1];
      if Enabled(before, a, names, accepts) then Next(before, a, names, accepts) else before
  }

  // ---- what every run keeps ----------------------------------------------------------------------------

  /** The view of a validation that reads each file at its own moment. */
  function ReadAt(h: seq<Dir>, names: set<string>, times: map<string, nat>): View
    requires forall name :: name in names ==> name in times && times[name] < |h|
  {
    map name | name in names :: Read(h[times[name]], name)
  }

  /** A validation that began with this identity read all its files by moment `k`, and accepted. */
  ghost predicate Backed(e: Entry, h: seq<Dir>, k: nat, names: set<string>, accepts: View -> bool) {
    && e.began <= k < |h| && IdentityOf(h[e.began]) == e.identity
    && (forall name :: name in names ==> name in e.times && e.began <= e.times[name] <= k)
    && accepts(ReadAt(h, names, e.times))
  }

  ghost predicate CallSound(call: Call, h: seq<Dir>, names: set<string>) {
    && call.began < |h| && (call.identity.Some? ==> call.identity.value == IdentityOf(h[call.began]))
    && call.times.Keys == call.seen.Keys <= names
    && (forall name :: name in call.seen ==>
          call.began <= call.times[name] < |h| && call.seen[name] == Read(h[call.times[name]], name))
  }

  ghost predicate HitSound(hit: Hit, h: seq<Dir>, names: set<string>, accepts: View -> bool) {
    && hit.taken <= hit.at < |h| && IdentityOf(h[hit.taken]) == hit.entry.identity
    && Backed(hit.entry, h, hit.at, names, accepts)
  }

  ghost predicate Inv(s: System, names: set<string>, accepts: View -> bool) {
    && (forall p :: p in s.entries ==>
          p in s.history && Backed(s.entries[p], s.history[p], Moment(s, p), names, accepts))
    && (forall c :: c in s.calls ==>
          s.calls[c].path in s.history && CallSound(s.calls[c], s.history[s.calls[c].path], names))
    && (forall hit :: hit in s.hits ==> hit.path in s.history && HitSound(hit, s.history[hit.path], names, accepts))
  }

  lemma BackedLater(e: Entry, h: seq<Dir>, k: nat, g: seq<Dir>, l: nat, names: set<string>, accepts: View -> bool)
    requires Backed(e, h, k, names, accepts) && h <= g && k <= l < |g|
    ensures Backed(e, g, l, names, accepts)
  {
    assert ReadAt(g, names, e.times) == ReadAt(h, names, e.times);
  }

  lemma EditKeepsInv(s: System, path: Path, dir: Dir, names: set<string>, accepts: View -> bool)
    requires Inv(s, names, accepts) && Enabled(s, Edit(path, dir), names, accepts)
    ensures Inv(Next(s, Edit(path, dir), names, accepts), names, accepts)
  {
    var v := Next(s, Edit(path, dir), names, accepts);
    forall p | p in s.history ensures s.history[p] <= v.history[p] && Moment(s, p) <= Moment(v, p) {
    }
    hide Next, Backed, Read, IdentityOf;
    forall p | p in v.entries ensures Backed(v.entries[p], v.history[p], Moment(v, p), names, accepts) {
      BackedLater(s.entries[p], s.history[p], Moment(s, p), v.history[p], Moment(v, p), names, accepts);
    }
    forall hit | hit in v.hits ensures HitSound(hit, v.history[hit.path], names, accepts) {
      BackedLater(hit.entry, s.history[hit.path], hit.at, v.history[hit.path], hit.at, names, accepts);
    }
  }

  lemma InsertKeepsInv(s: System, c: nat, names: set<string>, accepts: View -> bool)
    requires Inv(s, names, accepts) && Enabled(s, Insert(c), names, accepts)
    ensures Inv(Next(s, Insert(c), names, accepts), names, accepts)
  {
    var call := s.calls[c];
    assert CallSound(call, s.history[call.path], names);
    assert ReadAt(s.history[call.path], names, call.times) == call.seen;
  }

  lemma BeginKeepsInv(s: System, c: nat, path: Path, readable: bool, names: set<string>, accepts: View -> bool)
    requires Inv(s, names, accepts) && Enabled(s, Begin(c, path, readable), names, accepts)
    ensures Inv(Next(s, Begin(c, path, readable), names, accepts), names, accepts)
  {
    hide Backed, HitSound;
  }

  lemma LookKeepsInv(s: System, c: nat, names: set<string>, accepts: View -> bool)
    requires Inv(s, names, accepts) && Enabled(s, Look(c), names, accepts)
    ensures Inv(Next(s, Look(c), names, accepts), names, accepts)
  {
    hide Backed, IdentityOf;
    assert CallSound(s.calls[c], s.history[s.calls[c].path], names);
  }

  lemma ReadKeepsInv(s: System, c: nat, name: string, names: set<string>, accepts: View -> bool)
    requires Inv(s, names, accepts) && Enabled(s, ReadFile(c, name), names, accepts)
    ensures Inv(Next(s, ReadFile(c, name), names, accepts), names, accepts)
  {
    hide Backed, HitSound, IdentityOf;
    assert CallSound(s.calls[c], s.history[s.calls[c].path], names);
  }

  lemma DropKeepsInv(s: System, c: nat, names: set<string>, accepts: View -> bool)
    requires Inv(s, names, accepts) && Enabled(s, Drop(c), names, accepts)
    ensures Inv(Next(s, Drop(c), names, accepts), names, accepts)
  {
    hide Backed, HitSound, CallSound;
  }

  lemma NextKeepsInv(s: System, a: Action, names: set<string>, accepts: View -> bool)
    requires Inv(s, names, accepts) && Enabled(s, a, names, accepts)
    ensures Inv(Next(s, a, names, accepts), names, accepts)
  {
    hide Inv, Next;
    match a
    case Edit(path, dir) => EditKeepsInv(s, path, dir, names, accepts);
    case Begin(c, path, readable) => BeginKeepsInv(s, c, path, readable, names, accepts);
    case Look(c) => LookKeepsInv(s, c, names, accepts);
    case ReadFile(c, name) => ReadKeepsInv(s, c, name, names, accepts);
    case Insert(c) => InsertKeepsInv(s, c, names, accepts);
    case Drop(c) => DropKeepsInv(s, c, names, accepts);
  }

  lemma {:induction false} ExecKeepsInv(dirs: map<Path, Dir>, run: seq<Action>, names: set<string>,
          accepts: View -> bool)
    ensures Inv(Exec(Start(dirs), run, names, accepts), names, accepts)
  {
    if run != [] {
      ExecKeepsInv(dirs, run[..|run| - 1], names, accepts);
      var s := Exec(Start(dirs), run[..|run| - 1], names, accepts);
      hide Inv;
      if Enabled(s, run[|run| - 1], names, accepts) {
        NextKeepsInv(s, run[|run| - 1], names, accepts);
      }
    }
  }

  /** The two locked sections of a call are two of its steps. On a memory that holds the identities of
      `s`, `Lookup` answers exactly when `Look` ends the call with a hit, and leaves the memory alone;
      what `Remember` leaves is what `Insert` leaves. */
  lemma LockedSectionsAreSteps(s: System, c: nat, names: set<string>, accepts: View -> bool)
    requires c in s.calls
    ensures Enabled(s, Look(c), names, accepts) ==>
      var v, call := Next(s, Look(c), names, accepts), s.calls[c];
      && Identities(v.entries) == Identities(s.entries)
      && if Remembered(Identities(s.entries), call.path, call.identity)
         then c !in v.calls && Hit(call.path, call.began, Moment(s, call.path), s.entries[call.path]) in v.hits
         else v.calls == s.calls[c := call.(looked := true)] && v.hits == s.hits
    ensures Enabled(s, Insert(c), names, accepts) ==>
      var v, call := Next(s, Insert(c), names, accepts), s.calls[c];
      && c !in v.calls && v.hits == s.hits
      && Identities(v.entries) == if call.identity.None? then Identities(s.entries)
                                  else Identities(s.entries)[call.path := call.identity.value]
  {
  }

  // ---- when answers from memory are right ----------------------------------------------------------------

  /** Equal identities mean equal files. */
  ghost predicate Faithful(h: seq<Dir>) {
    forall i, k, name ::
      (0 <= i < |h| && 0 <= k < |h| && name in h[i] && name in h[k] && h[i][name].id == h[k][name].id)
      ==> h[i][name].content == h[k][name].content
  }

  /** Every answer from memory about `path` that is given while the directory has the identity the
      call took is what the validator would say of the files there. */
  ghost predicate AnswersRight(s: System, path: Path, names: set<string>, accepts: View -> bool)
    requires path in s.history
  {
    var h := s.history[path];
    forall hit :: hit in s.hits && hit.path == path && hit.at < |h| && IdentityOf(h[hit.at]) == hit.entry.identity ==>
      accepts(ViewOf(h[hit.at], names))
  }

  /** Whatever the validator and whatever the run, if this is what becomes of one directory, the
      answers about it are right. */
  ghost predicate Sure(h: seq<Dir>, names: set<string>) {
    forall accepts: View -> bool, dirs: map<Path, Dir>, run: seq<Action>, path: Path ::
      var s := Exec(Start(dirs), run, names, accepts);
      path in s.history && s.history[path] == h ==> AnswersRight(s, path, names, accepts)
  }

  /** While a directory was away from an identity it had, and has again, the files the validator
      looks for were the same. */
  ghost predicate NothingElseBetween(h: seq<Dir>, names: set<string>) {
    forall i, m, k :: 0 <= i <= m <= k < |h| && IdentityOf(h[i]) == IdentityOf(h[k])
      ==> ViewOf(h[m], names) == ViewOf(h[k], names)
  }

  lemma ReadsAgree(h: seq<Dir>, names: set<string>, e: Entry, k: nat, accepts: View -> bool)
    requires NothingElseBetween(h, names) && Backed(e, h, k, names, accepts) && IdentityOf(h[k]) == e.identity
    ensures ReadAt(h, names, e.times) == ViewOf(h[k], names)
  {
    forall name | name in names ensures Read(h[e.times[name]], name) == Read(h[k], name) {
      assert ViewOf(h[e.times[name]], names) == ViewOf(h[k], names);
      assert ViewOf(h[e.times[name]], names)[name] == ViewOf(h[k], names)[name];
    }
  }

  lemma UndisturbedIsSure(h: seq<Dir>, names: set<string>)
    requires NothingElseBetween(h, names)
    ensures Sure(h, names)
  {
    hide NothingElseBetween, ViewOf, IdentityOf, Exec, Backed;
    forall accepts: View -> bool, dirs: map<Path, Dir>, run: seq<Action>, path: Path
      | var s := Exec(Start(dirs), run, names, accepts); path in s.history && s.history[path] == h
      ensures AnswersRight(Exec(Start(dirs), run, names, accepts), path, names, accepts)
    {
      var s := Exec(Start(dirs), run, names, accepts);
      ExecKeepsInv(dirs, run, names, accepts);
      forall hit | hit in s.hits && hit.path == path && hit.at < |h| && IdentityOf(h[hit.at]) == hit.entry.identity
        ensures accepts(ViewOf(h[hit.at], names))
      {
        assert HitSound(hit, h, names, accepts);
        BackedAccepts(hit.entry, h, hit.at, names, accepts);
        ReadsAgree(h, names, hit.entry, hit.at, accepts);
      }
    }
  }

  lemma BackedAccepts(e: Entry, h: seq<Dir>, k: nat, names: set<string>, accepts: View -> bool)
    requires Backed(e, h, k, names, accepts)
    ensures forall name :: name in names ==> name in e.times && e.times[name] < |h|
    ensures accepts(ReadAt(h, names, e.times))
  {
  }

  // ---- the run that goes wrong ---------------------------------------------------------------------------

  ghost predicate Reaches(s: System, v: System, names: set<string>, accepts: View -> bool) {
    exists run :: Exec(s, run, names, accepts) == v
  }

  lemma ReachesItself(s: System, names: set<string>, accepts: View -> bool)
    ensures Reaches(s, s, names, accepts)
  {
    assert Exec(s, [], names, accepts) == s;
  }

  lemma OneMore(s: System, v: System, a: Action, names: set<string>, accepts: View -> bool)
    requires Reaches(s, v, names, accepts) && Enabled(v, a, names, accepts)
    ensures Reaches(s, Next(v, a, names, accepts), names, accepts)
  {
    hide Enabled, Next;
    var run :| Exec(s, run, names, accepts) == v;
    assert (run + [a])[..|run|] == run;
    assert Exec(s, run + [a], names, accepts) == Next(v, a, names, accepts);
  }

  /** A system in which one directory alone has been all of `h` up to moment `n`, with the memory,
      the calls and the answers given. */
  function Alone(path: Path, h: seq<Dir>, n: nat, entries: map<Path, Entry>, calls: map<nat, Call>,
          hits: set<Hit>): System
    requires n < |h|
  {
    System(map[path := h[..n + 1]], entries, calls, hits)
  }

  lemma {:induction false} EditedTo(s: System, path: Path, h: seq<Dir>, n: nat, m: nat, v: System, names: set<string>,
          accepts: View -> bool)
    requires n <= m < |h| && v.history == map[path := h[..n + 1]] && Reaches(s, v, names, accepts)
    ensures Reaches(s, v.(history := map[path := h[..m + 1]]), names, accepts)
  {
    if n == m {
      assert v.(history := map[path := h[..m + 1]]) == v;
    } else {
      EditedTo(s, path, h, n, m - 1, v, names, accepts);
      var u := v.(history := map[path := h[..m]]);
      OneMore(s, u, Edit(path, h[m]), names, accepts);
      assert h[..m] + [h[m]] == h[..m + 1];
      assert map[path := h[..m]][path := h[..m + 1]] == map[path := h[..m + 1]];
    }
  }

  /** The call after it has read the files `done`, all at moment `now`. */
  function HavingRead(call: Call, h: History, done: set<string>): Call {
    call.(seen := ViewOf(h[|h| - 1], done), times := map name | name in done :: |h| - 1)
  }

  lemma {:induction false} ReadAll(s: System, v: System, c: nat, h: History, done: set<string>, names: set<string>,
          accepts: View -> bool)
    requires c in v.calls && v.calls[c].looked && v.calls[c].seen == map[] && v.calls[c].times == map[]
    requires v.calls[c].path in v.history && v.history[v.calls[c].path] == h
    requires done <= names && Reaches(s, v, names, accepts)
    ensures Reaches(s, v.(calls := v.calls[c := HavingRead(v.calls[c], h, done)]), names, accepts)
  {
    if done == {} {
      assert v.calls[c := HavingRead(v.calls[c], h, done)] == v.calls;
    } else {
      var name :| name in done;
      var less := done - {name};
      ReadAll(s, v, c, h, less, names, accepts);
      var u := v.(calls := v.calls[c := HavingRead(v.calls[c], h, less)]);
      OneMore(s, u, ReadFile(c, name), names, accepts);
      HavingReadOneMore(v.calls[c], h, done, name);
      assert Next(u, ReadFile(c, name), names, accepts).calls
          == v.calls[c := HavingRead(v.calls[c], h, done)];
    }
  }

  lemma HavingReadOneMore(call: Call, h: History, done: set<string>, name: string)
    requires name in done
    ensures var less := HavingRead(call, h, done - {name});
      HavingRead(call, h, done) == less.(seen := less.seen[name := Read(h[|h| - 1], name)],
                                         times := less.times[name := |h| - 1])
  {
  }

  /** A call takes the identity at `i` and finds no entry. */
  lemma BegunRun(path: Path, h: seq<Dir>, i: nat, names: set<string>, accepts: View -> bool) returns (call: Call)
    requires i < |h|
    ensures call == Call(path, Some(IdentityOf(h[i])), i, true, map[], map[])
    ensures Reaches(Start(map[path := h[0]]), Alone(path, h, i, map[], map[0 := call], {}), names, accepts)
  {
    hide Reaches, Exec;
    var s := Start(map[path := h[0]]);
    assert [h[0]] == h[..1];
    assert s == Alone(path, h, 0, map[], map[], {});
    ReachesItself(s, names, accepts);
    EditedTo(s, path, h, 0, i, s, names, accepts);
    var v := Alone(path, h, i, map[], map[], {});
    OneMore(s, v, Begin(0, path, true), names, accepts);
    v := Next(v, Begin(0, path, true), names, accepts);
    OneMore(s, v, Look(0), names, accepts);
    call := Next(v, Look(0), names, accepts).calls[0];
    assert Next(v, Look(0), names, accepts) == Alone(path, h, i, map[], map[0 := call], {});
  }

  /** It reads everything at `m`, and the bundle is remembered. */
  lemma RememberedRun(path: Path, h: seq<Dir>, i: nat, m: nat, names: set<string>, accepts: View -> bool)
    returns (e: Entry)
    requires i <= m < |h| && accepts(ViewOf(h[m], names))
    ensures e.identity == IdentityOf(h[i])
    ensures Reaches(Start(map[path := h[0]]), Alone(path, h, m, map[path := e], map[], {}), names, accepts)
  {
    hide Reaches, Exec;
    var s := Start(map[path := h[0]]);
    var call := BegunRun(path, h, i, names, accepts);
    EditedTo(s, path, h, i, m, Alone(path, h, i, map[], map[0 := call], {}), names, accepts);
    var v := Alone(path, h, m, map[], map[0 := call], {});
    ReadAll(s, v, 0, h[..m + 1], names, names, accepts);
    v := v.(calls := v.calls[0 := HavingRead(call, h[..m + 1], names)]);
    OneMore(s, v, Insert(0), names, accepts);
    e := Entry(IdentityOf(h[i]), i, v.calls[0].times);
    assert Next(v, Insert(0), names, accepts) == Alone(path, h, m, map[path := e], map[], {});
  }

  /** Another call takes the identity at `k`, where it is what it was at `i`, and is answered from
      memory. */
  lemma AnsweredRun(path: Path, h: seq<Dir>, i: nat, m: nat, k: nat, names: set<string>, accepts: View -> bool)
    returns (s: System, hit: Hit)
    requires i <= m <= k < |h| && IdentityOf(h[i]) == IdentityOf(h[k]) && accepts(ViewOf(h[m], names))
    ensures Reaches(Start(map[path := h[0]]), s, names, accepts) && s.history == map[path := h]
    ensures hit in s.hits && hit.path == path && hit.at == hit.taken == k && hit.entry.identity == IdentityOf(h[k])
  {
    hide Reaches, Exec, ViewOf;
    var e := RememberedRun(path, h, i, m, names, accepts);
    var start := Start(map[path := h[0]]);
    s := Alone(path, h, m, map[path := e], map[], {});
    EditedTo(start, path, h, m, k, s, names, accepts);
    s := Alone(path, h, k, map[path := e], map[], {});
    OneMore(start, s, Begin(0, path, true), names, accepts);
    s := Next(s, Begin(0, path, true), names, accepts);
    OneMore(start, s, Look(0), names, accepts);
    s := Next(s, Look(0), names, accepts);
    hit := Hit(path, k, k, e);
    EditedTo(start, path, h, k, |h| - 1, s, names, accepts);
    s := s.(history := map[path := h[..|h| - 1 + 1]]);
    assert h[..|h| - 1 + 1] == h;
  }

  lemma DisturbedIsNotSure(h: seq<Dir>, names: set<string>, i: nat, m: nat, k: nat)
    requires i <= m <= k < |h| && IdentityOf(h[i]) == IdentityOf(h[k])
    requires ViewOf(h[m], names) != ViewOf(h[k], names)
    ensures !Sure(h, names)
  {
    hide ViewOf, IdentityOf;
    var seen := ViewOf(h[m], names);
    var accepts: View -> bool := view => view == seen;
    var s, hit := AnsweredRun("bundle", h, i, m, k, names, accepts);
    var run :| Exec(Start(map["bundle" := h[0]]), run, names, accepts) == s;
    assert !AnswersRight(s, "bundle", names, accepts);
  }

  /** Over every run, for every validator, answers from memory are right exactly when no identity
      returns after the files looked for were different. */
  lemma SureExactlyWithoutReturns(h: seq<Dir>, names: set<string>)
    ensures Sure(h, names) <==> NothingElseBetween(h, names)
  {
    hide Sure, ViewOf, IdentityOf;
    if NothingElseBetween(h, names) {
      UndisturbedIsSure(h, names);
    } else {
      var i, m, k :| 0 <= i <= m <= k < |h| && IdentityOf(h[i]) == IdentityOf(h[k])
                     && ViewOf(h[m], names) != ViewOf(h[k], names);
      DisturbedIsNotSure(h, names, i, m, k);
    }
  }

  // ---- a call that is overtaken --------------------------------------------------------------------------

  /** Every answer from memory is what the validator would say of the directory as it was when the
      call took its identity. */
  ghost predicate RightWhenTaken(s: System, path: Path, names: set<string>, accepts: View -> bool)
    requires path in s.history
  {
    var h := s.history[path];
    forall hit :: hit in s.hits && hit.path == path && hit.taken < |h| ==> accepts(ViewOf(h[hit.taken], names))
  }

  ghost predicate SureWhenTaken(h: seq<Dir>, names: set<string>) {
    forall accepts: View -> bool, dirs: map<Path, Dir>, run: seq<Action>, path: Path ::
      var s := Exec(Start(dirs), run, names, accepts);
      path in s.history && s.history[path] == h ==> RightWhenTaken(s, path, names, accepts)
  }

  ghost predicate NothingEver(h: seq<Dir>, names: set<string>) {
    forall i, m :: 0 <= i <= m < |h| ==> ViewOf(h[i], names) == ViewOf(h[m], names)
  }

  /** Two calls take the identity at `i`, and only the first looks. */
  lemma TwoBegunRun(path: Path, h: seq<Dir>, i: nat, names: set<string>, accepts: View -> bool)
    returns (first: Call, second: Call)
    requires i < |h|
    ensures first == Call(path, Some(IdentityOf(h[i])), i, true, map[], map[]) && second == first.(looked := false)
    ensures var both := Alone(path, h, i, map[], map[0 := first, 1 := second], {});
      Reaches(Start(map[path := h[0]]), both, names, accepts)
  {
    hide Reaches, Exec;
    first := BegunRun(path, h, i, names, accepts);
    var s := Alone(path, h, i, map[], map[0 := first], {});
    OneMore(Start(map[path := h[0]]), s, Begin(1, path, true), names, accepts);
    second := first.(looked := false);
    assert Next(s, Begin(1, path, true), names, accepts) == Alone(path, h, i, map[], map[0 := first, 1 := second], {});
  }

  /** The first of the two validates at `m` and is remembered. */
  lemma FirstRemembered(path: Path, h: seq<Dir>, i: nat, m: nat, names: set<string>, accepts: View -> bool)
    returns (e: Entry, second: Call)
    requires i <= m < |h| && accepts(ViewOf(h[m], names))
    ensures e.identity == IdentityOf(h[i])
    ensures second == Call(path, Some(IdentityOf(h[i])), i, false, map[], map[])
    ensures var left := Alone(path, h, m, map[path := e], map[1 := second], {});
      Reaches(Start(map[path := h[0]]), left, names, accepts)
  {
    hide Reaches, Exec, IdentityOf;
    var start := Start(map[path := h[0]]);
    var first;
    first, second := TwoBegunRun(path, h, i, names, accepts);
    EditedTo(start, path, h, i, m, Alone(path, h, i, map[], map[0 := first, 1 := second], {}), names, accepts);
    var s := Alone(path, h, m, map[], map[0 := first, 1 := second], {});
    ReadAll(start, s, 0, h[..m + 1], names, names, accepts);
    s := s.(calls := s.calls[0 := HavingRead(first, h[..m + 1], names)]);
    OneMore(start, s, Insert(0), names, accepts);
    e := Entry(IdentityOf(h[i]), i, s.calls[0].times);
    assert Next(s, Insert(0), names, accepts) == Alone(path, h, m, map[path := e], map[1 := second], {});
  }

  /** Two calls take the identity at `i`; the first validates at `m`, and the second, which looks only
      then, is answered from memory. */
  lemma OvertakenRun(path: Path, h: seq<Dir>, i: nat, m: nat, names: set<string>, accepts: View -> bool)
    returns (s: System, hit: Hit)
    requires i <= m < |h| && accepts(ViewOf(h[m], names))
    ensures Reaches(Start(map[path := h[0]]), s, names, accepts) && s.history == map[path := h]
    ensures hit in s.hits && hit.path == path && hit.taken == i && hit.at == m
  {
    hide Reaches, Exec, ViewOf;
    var start := Start(map[path := h[0]]);
    var e, second := FirstRemembered(path, h, i, m, names, accepts);
    s := Alone(path, h, m, map[path := e], map[1 := second], {});
    OneMore(start, s, Look(1), names, accepts);
    s := Next(s, Look(1), names, accepts);
    hit := Hit(path, i, m, e);
    EditedTo(start, path, h, m, |h| - 1, s, names, accepts);
    s := s.(history := map[path := h[..|h| - 1 + 1]]);
    assert h[..|h| - 1 + 1] == h;
  }

  /** Where files may change between the taking of the identity and the lookup, nothing less than
      files that never change makes the answer right for what the identity was taken of. */
  lemma OvertakenCallsAreSureOfNothing(h: seq<Dir>, names: set<string>)
    ensures SureWhenTaken(h, names) <==> NothingEver(h, names)
  {
    hide ViewOf, IdentityOf;
    if NothingEver(h, names) {
      forall accepts: View -> bool, dirs: map<Path, Dir>, run: seq<Action>, path: Path
        | var s := Exec(Start(dirs), run, names, accepts); path in s.history && s.history[path] == h
        ensures RightWhenTaken(Exec(Start(dirs), run, names, accepts), path, names, accepts)
      {
        UnchangedIsRight(h, names, accepts, dirs, run, path);
      }
    } else {
      var i, m :| 0 <= i <= m < |h| && ViewOf(h[i], names) != ViewOf(h[m], names);
      var seen := ViewOf(h[m], names);
      var accepts: View -> bool := view => view == seen;
      var s, hit := OvertakenRun("bundle", h, i, m, names, accepts);
      var run :| Exec(Start(map["bundle" := h[0]]), run, names, accepts) == s;
      assert !RightWhenTaken(s, "bundle", names, accepts);
    }
  }

  lemma UnchangedIsRight(h: seq<Dir>, names: set<string>, accepts: View -> bool, dirs: map<Path, Dir>,
          run: seq<Action>, path: Path)
    requires NothingEver(h, names)
    requires var s := Exec(Start(dirs), run, names, accepts); path in s.history && s.history[path] == h
    ensures RightWhenTaken(Exec(Start(dirs), run, names, accepts), path, names, accepts)
  {
    hide NothingEver, ViewOf, IdentityOf, Exec, Backed;
    var s := Exec(Start(dirs), run, names, accepts);
    ExecKeepsInv(dirs, run, names, accepts);
    forall hit | hit in s.hits && hit.path == path && hit.taken < |h| ensures accepts(ViewOf(h[hit.taken], names)) {
      assert HitSound(hit, h, names, accepts);
      BackedAccepts(hit.entry, h, hit.at, names, accepts);
      UnchangedReads(h, names, hit.entry.times, hit.taken);
    }
  }

  lemma UnchangedReads(h: seq<Dir>, names: set<string>, times: map<string, nat>, j: nat)
    requires NothingEver(h, names) && j < |h|
    requires forall name :: name in names ==> name in times && times[name] < |h|
    ensures ReadAt(h, names, times) == ViewOf(h[j], names)
  {
    forall name | name in names ensures Read(h[times[name]], name) == Read(h[j], name) {
      assert ViewOf(h[times[name]], names) == ViewOf(h[j], names);
      assert ViewOf(h[times[name]], names)[name] == ViewOf(h[j], names)[name];
    }
  }

  // ---- edits that never bring an identity back ----------------------------------------------------

  ghost predicate Used(h: seq<Dir>, t: nat, id: nat) {
    exists i, name :: 0 <= i <= t < |h| && name in h[i] && h[i][name].id == id
  }

  /** From each moment to the next, files are added or written anew with identities not seen
      before; none is removed. */
  ghost predicate OnlyAddsAndRewrites(h: seq<Dir>) {
    forall t, u, name :: 0 <= t && u == t + 1 < |h| ==>
      && (name in h[t] ==> name in h[u])
      && (name in h[u] && !(name in h[t] && h[t][name] == h[u][name]) ==> !Used(h, t, h[u][name].id))
  }

  /** A file that was there stays, as it was or under an identity never used until then. */
  lemma {:induction false} FilesStay(h: seq<Dir>, i: nat, k: nat, name: string)
    requires OnlyAddsAndRewrites(h) && i <= k < |h| && name in h[i]
    ensures name in h[k] && (h[k][name] == h[i][name] || !Used(h, i, h[k][name].id))
    decreases k - i
  {
    if i < k {
      FilesStay(h, i, k - 1, name);
      assert name in h[k];
      if h[k][name] != h[k - 1][name] {
        assert !Used(h, k - 1, h[k][name].id);
        if Used(h, i, h[k][name].id) { assert Used(h, k - 1, h[k][name].id); }
      }
    }
  }

  lemma SameIdentityMeansSameFiles(h: seq<Dir>, i: nat, m: nat, k: nat)
    requires OnlyAddsAndRewrites(h) && i <= m <= k < |h| && IdentityOf(h[i]) == IdentityOf(h[k])
    ensures h[m] == h[k]
  {
    forall name | name in h[m] ensures name in h[k] && h[m][name] == h[k][name] {
      FilesStay(h, m, k, name);
      assert name in IdentityOf(h[k]) && name in IdentityOf(h[i]);
      assert IdentityOf(h[i])[name] == IdentityOf(h[k])[name];
      assert Used(h, m, h[k][name].id);
    }
    forall name | name in h[k] ensures name in h[m] {
      assert name in IdentityOf(h[k]) && name in IdentityOf(h[i]);
      FilesStay(h, i, m, name);
    }
  }

  /** Adding and rewriting files, also in the middle of a validation, keeps the memory right. */
  lemma AddsAndRewritesAreSure(h: seq<Dir>, names: set<string>)
    requires OnlyAddsAndRewrites(h)
    ensures Sure(h, names)
  {
    hide OnlyAddsAndRewrites, Sure, ViewOf;
    forall i, m, k | 0 <= i <= m <= k < |h| && IdentityOf(h[i]) == IdentityOf(h[k])
      ensures ViewOf(h[m], names) == ViewOf(h[k], names)
    {
      SameIdentityMeansSameFiles(h, i, m, k);
    }
    SureExactlyWithoutReturns(h, names);
  }

  // ---- removal brings an identity back --------------------------------------------------------------

  /** No file comes back: where a name has the same identity twice, it had it all the while. */
  ghost predicate NoFileReturns(h: seq<Dir>) {
    forall i, m, k, name ::
      (0 <= i <= m <= k < |h| && name in h[i] && name in h[k] && h[i][name].id == h[k][name].id)
      ==> name in h[m] && h[m][name] == h[k][name]
  }

  const CONFIG := "config.json"
  const WEIGHTS := "model.safetensors"
  const BARE: Dir := map[CONFIG := File(1, "c")]
  const FULL: Dir := map[CONFIG := File(1, "c"), WEIGHTS := File(2, "w")]

  /** Identities of single files that never recur are not enough: the weights arrive during the
      validation, the bundle is remembered without them, and they are taken away again. */
  lemma RemovalIsNotSure()
    ensures Faithful([BARE, FULL, BARE]) && NoFileReturns([BARE, FULL, BARE])
    ensures !Sure([BARE, FULL, BARE], {CONFIG, WEIGHTS})
  {
    var h, names := [BARE, FULL, BARE], {CONFIG, WEIGHTS};
    NothingRecurs();
    hide ViewOf, IdentityOf, Sure, Faithful, NoFileReturns;
    assert !NothingElseBetween(h, names) by {
      assert h[1] == FULL && h[2] == BARE && IdentityOf(h[0]) == IdentityOf(h[2]);
      WeightsComeAndGo();
    }
    SureExactlyWithoutReturns(h, names);
  }

  lemma NothingRecurs()
    ensures Faithful([BARE, FULL, BARE]) && NoFileReturns([BARE, FULL, BARE])
  {
    WeightsAreNotConfig();
    NothingRecursIn(CONFIG, WEIGHTS);
  }

  lemma NothingRecursIn(a: string, b: string)
    requires a != b
    ensures var bare, full := map[a := File(1, "c")], map[a := File(1, "c"), b := File(2, "w")];
      Faithful([bare, full, bare]) && NoFileReturns([bare, full, bare])
  {
  }

  lemma WeightsAreNotConfig()
    ensures CONFIG != WEIGHTS
  {
    assert CONFIG[0] != WEIGHTS[0];
  }

  lemma WeightsComeAndGo()
    ensures ViewOf(FULL, {CONFIG, WEIGHTS}) != ViewOf(BARE, {CONFIG, WEIGHTS})
  {
    WeightsAreNotConfig();
    assert ViewOf(FULL, {CONFIG, WEIGHTS})[WEIGHTS] == Some("w");
    assert ViewOf(BARE, {CONFIG, WEIGHTS})[WEIGHTS] == None;
  }
}
