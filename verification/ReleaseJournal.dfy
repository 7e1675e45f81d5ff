/** The journalled multi-file rewrite of the release script, and its recovery.

    A write replaces a file atomically, but it may fail, it may take effect and still report
    failure, and the process may die before or after it; the same goes for removing a file. The
    journal lists, for every file, the bytes before and after and the permission bits. */
module ReleaseJournal {

  import opened Faults
  import opened Wrappers

  type Path = string
  type Data = string

  datatype File = File(data: Data, mode: nat)

  datatype Entry = Entry(path: Path, before: Option<Data>, after: Data, mode: nat)

  type Files = map<Path, File>

  function ReadOptional(files: Files, p: Path): Option<Data> {
    if p in files then Some(files[p].data) else None
  }

  predicate AtBefore(files: Files, e: Entry) {
    ReadOptional(files, e.path) == e.before
  }

  predicate AtAfter(files: Files, e: Entry) {
    ReadOptional(files, e.path) == Some(e.after)
  }

  predicate Recognized(files: Files, entries: seq<Entry>) {
    forall i :: 0 <= i < |entries| ==> AtBefore(files, entries[i]) || AtAfter(files, entries[i])
  }

  predicate AllAfter(files: Files, entries: seq<Entry>) {
    forall i :: 0 <= i < |entries| ==> AtAfter(files, entries[i])
  }

  predicate AllBefore(files: Files, entries: seq<Entry>) {
    forall i :: 0 <= i < |entries| ==> AtBefore(files, entries[i])
  }

  ghost predicate DistinctPaths(entries: seq<Entry>) {
    forall i, j :: 0 <= i < j < |entries| ==> entries[i].path != entries[j].path
  }

  /** `files` and `files'` agree on a path, bytes and mode. */
  predicate SameAt(files: Files, files': Files, p: Path) {
    (p in files <==> p in files') && (p in files ==> files[p] == files'[p])
  }

  function Restored(e: Entry): Option<File> {
    if e.before.None? then None else Some(File(e.before.value, e.mode))
  }

  function Lookup(files: Files, p: Path): Option<File> {
    if p in files then Some(files[p]) else None
  }

  /** What recovery may have done so far: nothing but put listed files back that were at
      `after`, and not even that when all of them were. */
  ghost predicate OnlyRestored(was: Files, files: Files, entries: seq<Entry>) {
    forall p: Path :: SameAt(was, files, p) ||
      exists i :: 0 <= i < |entries| && entries[i].path == p && Lookup(files, p) == Restored(entries[i])
               && AtAfter(was, entries[i]) && !AllAfter(was, entries)
  }

  /** The state a completed recovery leaves. */
  ghost predicate RolledBackOrKept(was: Files, files: Files, entries: seq<Entry>) {
    if AllAfter(was, entries) then files == was else AllBefore(files, entries)
  }

  /** The file of the entry is there with these bytes, or is not there. */
  ghost predicate Stands(files: Files, e: Entry, data: Option<Data>) {
    match data
    case None => e.path !in files
    case Some(bytes) => e.path in files && files[e.path].data == bytes
  }

  /** A completed recovery: nothing changed where all listed files were new; otherwise all are old. */
  ghost predicate RecoveredTo(was: Files, files: Files, entries: seq<Entry>) {
    if forall e :: e in entries ==> Stands(was, e, Some(e.after)) then files == was
    else forall e :: e in entries ==> Stands(files, e, e.before)
  }

  /** A path that changed is listed, was new, and is old again, with the mode listed. */
  ghost predicate PutBack(was: Files, files: Files, entries: seq<Entry>) {
    forall p: Path :: (p in was || p in files) && !SameAt(was, files, p) ==>
      exists e :: e in entries && e.path == p && Stands(was, e, Some(e.after)) && Stands(files, e, e.before)
                  && (p in files ==> files[p].mode == e.mode)
  }

  lemma RestoredIsPutBack(was: Files, files: Files, entries: seq<Entry>)
    requires OnlyRestored(was, files, entries)
    ensures PutBack(was, files, entries)
    ensures RolledBackOrKept(was, files, entries) ==> RecoveredTo(was, files, entries)
  {
    forall p: Path | (p in was || p in files) && !SameAt(was, files, p)
      ensures exists e :: e in entries && e.path == p && Stands(was, e, Some(e.after)) && Stands(files, e, e.before)
                          && (p in files ==> files[p].mode == e.mode)
    {
      var i :| 0 <= i < |entries| && entries[i].path == p && Lookup(files, p) == Restored(entries[i])
               && AtAfter(was, entries[i]);
      assert entries[i] in entries;
    }
    assert forall i :: 0 <= i < |entries| ==> entries[i] in entries;
  }

  lemma UnrecognizedStandsElsewhere(files: Files, entries: seq<Entry>)
    ensures Recognized(files, entries) <==>
      forall e :: e in entries ==> Stands(files, e, e.before) || Stands(files, e, Some(e.after))
  {
    assert forall i :: 0 <= i < |entries| ==> entries[i] in entries;
  }

  // ---- the transaction ---------------------------------------------------------------------

  datatype Change = Change(path: Path, data: Data)

  ghost predicate DistinctChanges(changes: seq<Change>) {
    forall i, j :: 0 <= i < j < |changes| ==> changes[i].path != changes[j].path
  }

  const MODE_BITS: nat := 512     // keep the nine permission bits
  const DEFAULT_MODE: nat := 420  // 0o644, for a file that was not there

  function EntryFor(files: Files, c: Change): Entry {
    Entry(c.path, ReadOptional(files, c.path), c.data,
          if c.path in files then files[c.path].mode % MODE_BITS else DEFAULT_MODE)
  }

  /** One entry for each change that would change its file. */
  function EntriesFor(files: Files, changes: seq<Change>): seq<Entry> {
    if changes == [] then []
    else
      var rest, c := EntriesFor(files, changes[..|changes| - 1]), changes[|changes| - 1];
      if ReadOptional(files, c.path) == Some(c.data) then rest else rest + [EntryFor(files, c)]
  }

  ghost predicate Describes(files: Files, entries: seq<Entry>, changes: seq<Change>) {
    && DistinctPaths(entries) && AllBefore(files, entries)
    && (forall e :: e in entries ==>
          exists c :: c in changes && e == EntryFor(files, c) && ReadOptional(files, c.path) != Some(c.data))
    && (forall c :: c in changes ==> ReadOptional(files, c.path) == Some(c.data) || EntryFor(files, c) in entries)
  }

  lemma {:induction false} EntriesSelectChanges(files: Files, changes: seq<Change>)
    ensures forall e :: e in EntriesFor(files, changes) <==>
      exists c :: c in changes && e == EntryFor(files, c) && ReadOptional(files, c.path) != Some(c.data)
  {
    if changes != [] {
      var front, last := changes[..|changes| - 1], changes[|changes| - 1];
      EntriesSelectChanges(files, front);
      assert changes == front + [last];
    }
  }

  lemma {:induction false} EntriesAreDistinct(files: Files, changes: seq<Change>)
    requires DistinctChanges(changes)
    ensures DistinctPaths(EntriesFor(files, changes)) && AllBefore(files, EntriesFor(files, changes))
  {
    if changes != [] {
      var front, last := changes[..|changes| - 1], changes[|changes| - 1];
      EntriesAreDistinct(files, front);
      EntriesSelectChanges(files, front);
      var rest := EntriesFor(files, front);
      forall i | 0 <= i < |rest| ensures rest[i].path != last.path {
        assert rest[i] in rest;
        var c :| c in front && rest[i] == EntryFor(files, c);
      }
    }
  }

  /** Entry `e` lists change `c`: the old bytes or their absence, the new bytes, and the nine permission
      bits of the file, or rw-r--r-- for a file that was not there. */
  ghost predicate Lists(files: Files, e: Entry, c: Change) {
    && e.path == c.path && e.after == c.data
    && (c.path in files ==> e.before == Some(files[c.path].data) && e.mode == files[c.path].mode % 512)
    && (c.path !in files ==> e.before == None && e.mode == 420)
  }

  lemma EntriesDescribe(files: Files, changes: seq<Change>)
    requires DistinctChanges(changes)
    ensures var entries := EntriesFor(files, changes);
      && Describes(files, entries, changes)
      && (forall e :: e in entries ==> exists c :: c in changes && Lists(files, e, c))
      && (forall c :: c in changes && (c.path !in files || files[c.path].data != c.data) ==>
            exists e :: e in entries && Lists(files, e, c))
      && (forall c :: c in changes && c.path in files && files[c.path].data == c.data ==>
            forall e :: e in entries ==> e.path != c.path)
  {
    EntriesSelectChanges(files, changes);
    EntriesAreDistinct(files, changes);
    var entries := EntriesFor(files, changes);
    hide EntriesFor;
    forall e | e in entries ensures exists c :: c in changes && Lists(files, e, c) {
      var c :| c in changes && e == EntryFor(files, c);
      assert Lists(files, e, c);
    }
    forall c | c in changes && (c.path !in files || files[c.path].data != c.data)
      ensures exists e :: e in entries && Lists(files, e, c)
    {
      assert Lists(files, EntryFor(files, c), c);
    }
    forall c, e | c in changes && c.path in files && files[c.path].data == c.data && e in entries
      ensures e.path != c.path
    {
      var d :| d in changes && e == EntryFor(files, d) && ReadOptional(files, d.path) != Some(d.data);
    }
  }

  /** Every file is as it was, or is listed and stands at one of its two versions. */
  ghost predicate Between(was: Files, files: Files, entries: seq<Entry>) {
    forall p: Path :: SameAt(was, files, p) ||
      exists i :: 0 <= i < |entries| && entries[i].path == p && AtVersion(files, entries[i])
  }

  /** The file as the transaction or the recovery writes it. */
  predicate AtVersion(files: Files, e: Entry) {
    Lookup(files, e.path) == Restored(e) || Lookup(files, e.path) == Some(File(e.after, e.mode))
  }

  lemma BetweenIsRecognized(was: Files, files: Files, entries: seq<Entry>)
    requires Between(was, files, entries) && DistinctPaths(entries) && AllBefore(was, entries)
    ensures Recognized(files, entries)
  {
    forall i | 0 <= i < |entries| ensures AtBefore(files, entries[i]) || AtAfter(files, entries[i]) {
      var p := entries[i].path;
      if !SameAt(was, files, p) {
        var k :| 0 <= k < |entries| && entries[k].path == p && AtVersion(files, entries[k]);
        assert k == i;
      }
    }
  }

  lemma RestoringStaysBetween(was: Files, mid: Files, files: Files, entries: seq<Entry>)
    requires Between(was, mid, entries) && OnlyRestored(mid, files, entries)
    ensures Between(was, files, entries)
  {
    forall p: Path | !SameAt(was, files, p)
      ensures exists i :: 0 <= i < |entries| && entries[i].path == p && AtVersion(files, entries[i])
    {
      if SameAt(mid, files, p) {
        assert !SameAt(was, mid, p);
        var i :| 0 <= i < |entries| && entries[i].path == p && AtVersion(mid, entries[i]);
        assert AtVersion(files, entries[i]);
      } else {
        var i :| 0 <= i < |entries| && entries[i].path == p && Lookup(files, p) == Restored(entries[i]);
        assert AtVersion(files, entries[i]);
      }
    }
  }

  /** No change was made: every file has its old bytes and its old permission bits, and no file came
      or went. A file that was put back has no other mode bits than those. */
  ghost predicate Untouched(was: Files, files: Files) {
    && files.Keys == was.Keys
    && forall p :: p in was ==>
         files[p].data == was[p].data && (files[p].mode == was[p].mode || files[p].mode == was[p].mode % 512)
  }

  /** Every change was made, and no other file was touched. A file that was there keeps its permission
      bits, and its whole mode where it had the bytes already; a new one is readable by all. */
  ghost predicate Applied(was: Files, files: Files, changes: seq<Change>) {
    && (forall j :: 0 <= j < |changes| ==>
          var p := changes[j].path;
          && p in files && files[p].data == changes[j].data
          && (p in was && was[p].data == changes[j].data ==> files[p] == was[p])
          && (p in was && was[p].data != changes[j].data ==> files[p].mode == was[p].mode % 512)
          && (p !in was ==> files[p].mode == 420))
    && (forall p: Path :: SameAt(was, files, p) || exists j :: 0 <= j < |changes| && changes[j].path == p)
  }

  /** The journal lists the mode a file is to have. */
  ghost predicate KeepsMode(was: Files, e: Entry) {
    e.mode == if e.path in was then was[e.path].mode % 512 else 420
  }

  lemma AllBeforeIsUntouched(was: Files, files: Files, entries: seq<Entry>)
    requires Between(was, files, entries) && AllBefore(was, entries) && AllBefore(files, entries)
    requires forall e :: e in entries ==> KeepsMode(was, e)
    ensures Untouched(was, files)
  {
    forall p: Path ensures p in files <==> p in was
      ensures p in was ==>
        files[p].data == was[p].data && (files[p].mode == was[p].mode || files[p].mode == was[p].mode % 512)
    {
      if !SameAt(was, files, p) {
        var i :| 0 <= i < |entries| && entries[i].path == p && AtVersion(files, entries[i]);
        assert AtBefore(was, entries[i]) && AtBefore(files, entries[i]) && entries[i] in entries;
      }
    }
  }

  lemma AllAfterIsApplied(was: Files, files: Files, entries: seq<Entry>, changes: seq<Change>)
    requires DistinctChanges(changes) && Describes(was, entries, changes)
    requires Between(was, files, entries) && AllAfter(files, entries)
    ensures Applied(was, files, changes)
  {
    forall j | 0 <= j < |changes|
      ensures var p := changes[j].path;
        && p in files && files[p].data == changes[j].data
        && (p in was && was[p].data == changes[j].data ==> files[p] == was[p])
        && (p in was && was[p].data != changes[j].data ==> files[p].mode == was[p].mode % 512)
        && (p !in was ==> files[p].mode == 420)
    {
      if ReadOptional(was, changes[j].path) == Some(changes[j].data) {
        SameIsUnlisted(was, entries, changes, j);
        UnlistedIsUnchanged(was, files, entries, changes, j);
      } else {
        ListedIsWritten(was, files, entries, changes, j);
      }
    }
    forall p: Path | !SameAt(was, files, p) ensures exists j :: 0 <= j < |changes| && changes[j].path == p {
      var i :| 0 <= i < |entries| && entries[i].path == p;
      assert entries[i] in entries;
      var c :| c in changes && entries[i] == EntryFor(was, c);
      assert c.path == p;
    }
  }

  lemma ListedIsWritten(was: Files, files: Files, entries: seq<Entry>, changes: seq<Change>, j: nat)
    requires DistinctChanges(changes) && Describes(was, entries, changes)
    requires Between(was, files, entries) && AllAfter(files, entries)
    requires j < |changes| && ReadOptional(was, changes[j].path) != Some(changes[j].data)
    ensures var p := changes[j].path;
      && p in files && files[p].data == changes[j].data
      && files[p].mode == if p in was then was[p].mode % 512 else 420
  {
    var e := EntryFor(was, changes[j]);
    var i :| 0 <= i < |entries| && entries[i] == e;
    assert AtBefore(was, e) && AtAfter(files, entries[i]) && !SameAt(was, files, e.path);
    var k :| 0 <= k < |entries| && entries[k].path == e.path && AtVersion(files, entries[k]);
    assert k == i;
  }

  lemma SameIsUnlisted(was: Files, entries: seq<Entry>, changes: seq<Change>, j: nat)
    requires DistinctChanges(changes) && Describes(was, entries, changes)
    requires j < |changes| && ReadOptional(was, changes[j].path) == Some(changes[j].data)
    ensures EntryFor(was, changes[j]) !in entries
  {
  }

  lemma DescribedKeepModes(was: Files, entries: seq<Entry>, changes: seq<Change>)
    requires Describes(was, entries, changes)
    ensures forall e :: e in entries ==> KeepsMode(was, e)
  {
  }

  lemma UnlistedIsUnchanged(was: Files, files: Files, entries: seq<Entry>, changes: seq<Change>, j: nat)
    requires DistinctChanges(changes) && Describes(was, entries, changes) && Between(was, files, entries)
    requires j < |changes| && EntryFor(was, changes[j]) !in entries
    ensures SameAt(was, files, changes[j].path)
  {
    forall i | 0 <= i < |entries| ensures entries[i].path != changes[j].path {
      assert entries[i] in entries;
      var c :| c in changes && entries[i] == EntryFor(was, c);
      var k :| 0 <= k < |changes| && changes[k] == c;
    }
  }

  class Disk {
    const calm: bool
    var files: Files
    var journal: Option<seq<Entry>>

    ghost predicate Valid()
      reads this
    {
      journal.Some? ==> DistinctPaths(journal.value)
    }

    constructor (files: Files, calm: bool)
      ensures Valid() && this.files == files && journal.None? && this.calm == calm
    {
      this.files, journal, this.calm := files, None, calm;
    }

    method Write(p: Path, data: Data, mode: nat) returns (o: Outcome)
      modifies this`files
      ensures !o.Refused? && (calm ==> o.Done?)
      ensures files == old(files) || files == old(files)[p := File(data, mode)]
      ensures o.Done? ==> files == old(files)[p := File(data, mode)]
    {
      var takes;
      o, takes := Attempt(calm);
      if takes { files := files[p := File(data, mode)]; }
    }

    method Unlink(p: Path) returns (o: Outcome)
      modifies this`files
      ensures !o.Refused? && (calm ==> o.Done?)
      ensures files == old(files) || files == old(files) - {p}
      ensures o.Done? ==> files == old(files) - {p}
    {
      var takes;
      o, takes := Attempt(calm);
      if takes { files := files - {p}; }
    }

    method WriteJournal(entries: seq<Entry>) returns (o: Outcome)
      modifies this`journal
      ensures !o.Refused? && (calm ==> o.Done?)
      ensures journal == old(journal) || journal == Some(entries)
      ensures o.Done? ==> journal == Some(entries)
    {
      var takes;
      o, takes := Attempt(calm);
      if takes { journal := Some(entries); }
    }

    method UnlinkJournal() returns (o: Outcome)
      modifies this`journal
      ensures !o.Refused? && (calm ==> o.Done?)
      ensures journal == old(journal) || journal == None
      ensures o.Done? ==> journal == None
    {
      var takes;
      o, takes := Attempt(calm);
      if takes { journal := None; }
    }

    /** Recovery from whatever is on the disk. */
    method Recover() returns (o: Outcome)
      requires Valid()
      modifies this
      ensures Valid()
      ensures old(journal).None? ==> o.Done? && files == old(files) && journal.None?
      // A file that is at neither version: refuse, touch nothing, keep the journal.
      ensures o.Refused? <==> old(journal).Some? && !Recognized(old(files), old(journal).value)
      ensures o.Refused? ==> files == old(files) && journal == old(journal)
      ensures calm && !o.Refused? ==> o.Done?
      ensures old(journal).Some? && Recognized(old(files), old(journal).value) ==>
        && OnlyRestored(old(files), files, old(journal).value)
        && (journal == old(journal) || journal.None?)
        && (o.Done? ==> journal.None?)
        && (journal.None? ==> RolledBackOrKept(old(files), files, old(journal).value))
      // The same, said of the files themselves.
      ensures o.Refused? <==> old(journal).Some? && exists e ::
        e in old(journal).value && !Stands(old(files), e, e.before) && !Stands(old(files), e, Some(e.after))
      ensures old(journal).Some? ==> PutBack(old(files), files, old(journal).value)
      ensures old(journal).Some? && journal.None? ==> RecoveredTo(old(files), files, old(journal).value)
    {
      if journal.None? { return Done; }
      var entries := journal.value;
      UnrecognizedStandsElsewhere(files, entries);
      hide Stands, RecoveredTo;
      var i := 0;
      while i < |entries|
        invariant 0 <= i <= |entries|
        invariant forall j :: 0 <= j < i ==> AtBefore(files, entries[j]) || AtAfter(files, entries[j])
      {
        if !AtBefore(files, entries[i]) && !AtAfter(files, entries[i]) { return Refused; }
        i := i + 1;
      }
      if !AllAfter(files, entries) {
        o := RollBack(entries);
        RestoredIsPutBack(old(files), files, entries);
        if !o.Done? { return; }
      }
      RestoredIsPutBack(old(files), files, entries);
      o := UnlinkJournal();
    }

    /** Put the files back, last first. */
    method RollBack(entries: seq<Entry>) returns (o: Outcome)
      requires DistinctPaths(entries) && Recognized(files, entries) && !AllAfter(files, entries)
      modifies this`files
      ensures OnlyRestored(old(files), files, entries)
      ensures o.Done? ==> AllBefore(files, entries)
      ensures !o.Refused? && (calm ==> o.Done?)
    {
      o := Done;
      var i := |entries|;
      while i > 0
        invariant 0 <= i <= |entries| && o.Done?
        invariant OnlyRestored(old(files), files, entries)
        invariant forall j :: i <= j < |entries| ==> AtBefore(files, entries[j])
        invariant forall j :: 0 <= j < i ==> SameAt(old(files), files, entries[j].path)
      {
        i := i - 1;
        if !AtBefore(files, entries[i]) {
          ghost var before := files;
          o := RestoreOne(entries, i, old(files));
          if !o.Done? { return; }
          assert forall j :: 0 <= j < |entries| && j != i ==> SameAt(before, files, entries[j].path);
        }
      }
    }

    method RestoreOne(entries: seq<Entry>, i: nat, ghost was: Files) returns (o: Outcome)
      requires DistinctPaths(entries) && i < |entries|
      requires OnlyRestored(was, files, entries) && !AllAfter(was, entries)
      requires SameAt(was, files, entries[i].path) && AtAfter(was, entries[i])
      modifies this`files
      ensures OnlyRestored(was, files, entries)
      ensures forall p :: p != entries[i].path ==> SameAt(old(files), files, p)
      ensures o.Done? ==> AtBefore(files, entries[i])
      ensures !o.Refused? && (calm ==> o.Done?)
    {
      var e := entries[i];
      if e.before.None? {
        o := Unlink(e.path);
      } else {
        o := Write(e.path, e.before.value, e.mode);
      }
      forall p: Path | !SameAt(was, files, p)
        ensures exists k :: 0 <= k < |entries| && entries[k].path == p && Lookup(files, p) == Restored(entries[k])
                            && AtAfter(was, entries[k]) && !AllAfter(was, entries)
      {
        if p == e.path {
          assert Lookup(files, entries[i].path) == Restored(entries[i]);
        } else {
          assert SameAt(old(files), files, p) && !SameAt(was, old(files), p);
        }
      }
    }

    /** The guarded rewrite. The journal is not there: every run recovers before it starts. */
    method Transact(changes: seq<Change>, expected: map<Path, Option<Data>>) returns (o: Outcome)
      requires Valid() && journal.None? && DistinctChanges(changes)
      modifies this
      ensures Valid()
      ensures o.Refused? <==> exists p :: p in expected && ReadOptional(old(files), p) != expected[p]
      ensures o.Refused? ==> files == old(files) && journal.None?
      ensures calm && !o.Refused? ==> o.Done?
      ensures o.Done? ==> journal.None? && Applied(old(files), files, changes)
      ensures journal.None? ==> Untouched(old(files), files) || Applied(old(files), files, changes)
      ensures journal.Some? ==>
        Describes(old(files), journal.value, changes) && Between(old(files), files, journal.value)
    {
      if exists p :: p in expected && ReadOptional(files, p) != expected[p] { return Refused; }
      var entries := Prepare(changes);
      EntriesDescribe(files, changes);
      if entries == [] {
        AllAfterIsApplied(files, files, entries, changes);
        return Done;
      }
      o := WriteJournal(entries);
      if !o.Done? { return; }
      o := WriteAll(entries, old(files));
      if o.Crashed? { return; }
      if o.Raised? {
        o := RecoverOwn(entries, changes, old(files));
        if !o.Crashed? { o := Raised; }
        return;
      }
      AllAfterIsApplied(old(files), files, entries, changes);
      o := UnlinkJournal();
    }

    method Prepare(changes: seq<Change>) returns (entries: seq<Entry>)
      ensures entries == EntriesFor(files, changes)
    {
      entries := [];
      for i := 0 to |changes|
        invariant entries == EntriesFor(files, changes[..i])
      {
        assert changes[..i + 1][..i] == changes[..i];
        if ReadOptional(files, changes[i].path) != Some(changes[i].data) {
          entries := entries + [EntryFor(files, changes[i])];
        }
      }
      assert changes[..|changes|] == changes;
    }

    method WriteAll(entries: seq<Entry>, ghost was: Files) returns (o: Outcome)
      requires files == was && AllBefore(was, entries) && DistinctPaths(entries)
      modifies this`files
      ensures Between(was, files, entries)
      ensures o.Done? ==> AllAfter(files, entries)
      ensures !o.Refused? && (calm ==> o.Done?)
    {
      o := Done;
      for i := 0 to |entries|
        invariant o.Done? && Between(was, files, entries)
        invariant forall j :: 0 <= j < i ==> AtAfter(files, entries[j])
        invariant forall j :: i <= j < |entries| ==> SameAt(was, files, entries[j].path)
      {
        if !AtBefore(files, entries[i]) { return Raised; }
        ghost var before := files;
        o := WriteOne(entries, i, was);
        if !o.Done? { return; }
        assert forall j :: 0 <= j < |entries| && j != i ==> SameAt(before, files, entries[j].path);
      }
    }

    method WriteOne(entries: seq<Entry>, i: nat, ghost was: Files) returns (o: Outcome)
      requires i < |entries| && Between(was, files, entries)
      modifies this`files
      ensures Between(was, files, entries)
      ensures forall p :: p != entries[i].path ==> SameAt(old(files), files, p)
      ensures o.Done? ==> AtAfter(files, entries[i])
      ensures !o.Refused? && (calm ==> o.Done?)
    {
      o := Write(entries[i].path, entries[i].after, entries[i].mode);
      forall p: Path | !SameAt(was, files, p)
        ensures exists k :: 0 <= k < |entries| && entries[k].path == p && AtVersion(files, entries[k])
      {
        if SameAt(old(files), files, p) {
          assert !SameAt(was, old(files), p);
          var k :| 0 <= k < |entries| && entries[k].path == p && AtVersion(old(files), entries[k]);
          assert AtVersion(files, entries[k]);
        } else {
          assert entries[i].path == p && AtVersion(files, entries[i]);
        }
      }
    }

    /** Recovery of a transaction this script left behind, whole or in part. */
    method RecoverOwn(ghost entries: seq<Entry>, ghost changes: seq<Change>, ghost was: Files) returns (o: Outcome)
      requires Valid() && journal == Some(entries)
      requires DistinctChanges(changes) && Describes(was, entries, changes) && Between(was, files, entries)
      modifies this
      ensures Valid() && (journal == Some(entries) || journal.None?)
      ensures Between(was, files, entries)
      ensures o.Done? ==> journal.None?
      ensures !o.Refused? && (calm ==> o.Done?)
      ensures journal.None? ==> Untouched(was, files) || Applied(was, files, changes)
    {
      BetweenIsRecognized(was, files, entries);
      DescribedKeepModes(was, entries, changes);
      o := Recover();
      RestoringStaysBetween(was, old(files), files, entries);
      if journal.None? {
        if AllAfter(old(files), entries) {
          AllAfterIsApplied(was, files, entries, changes);
        } else {
          AllBeforeIsUntouched(was, files, entries);
        }
      }
    }
  }

  /** A rewrite that may die anywhere, then any number of recoveries that may die anywhere: as
      soon as the journal is gone, all of the files are old or all of them are new, and no
      other file was touched. */
  method RewriteAndRecover(disk: Disk, changes: seq<Change>, expected: map<Path, Option<Data>>, attempts: nat)
    returns (o: Outcome)
    requires disk.Valid() && disk.journal.None? && DistinctChanges(changes)
    modifies disk
    ensures disk.Valid()
    ensures o.Done? ==> disk.journal.None?
    ensures disk.calm && !o.Refused? ==> o.Done? && Applied(old(disk.files), disk.files, changes)
    ensures disk.journal.None? ==>
      Untouched(old(disk.files), disk.files) || Applied(old(disk.files), disk.files, changes)
    ensures disk.journal.Some? ==>
      && Describes(old(disk.files), disk.journal.value, changes)
      && Between(old(disk.files), disk.files, disk.journal.value)
  {
    ghost var was := disk.files;
    o := disk.Transact(changes, expected);
    var i := 0;
    while i < attempts && disk.journal.Some?
      invariant disk.Valid() && (o.Done? ==> disk.journal.None?)
      invariant disk.calm ==> disk.journal.None?
      invariant disk.calm && !o.Refused? ==> o.Done? && Applied(was, disk.files, changes)
      invariant disk.journal.None? ==> Untouched(was, disk.files) || Applied(was, disk.files, changes)
      invariant disk.journal.Some? ==>
        Describes(was, disk.journal.value, changes) && Between(was, disk.files, disk.journal.value)
    {
      o := disk.RecoverOwn(disk.journal.value, changes, was);
      i := i + 1;
    }
  }
}
