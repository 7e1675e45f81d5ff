/** Folding byte-identical session recordings onto one inode: grouping by size and digest, then a
    link and a rename for each duplicate name. */
module Dedupe {

  import opened Faults

  /** Names with the tool's own temporary form are told apart from all others. */
  datatype Name = Plain(text: string) | Temp(pid: nat, count: nat)

  type Bytes = string

  datatype File = File(content: Bytes, mtime: int)

  datatype Entry = Entry(name: Name, size: nat, mtime: int, ino: nat)

  datatype Action = AlreadyLinked | Pending | Linked

  datatype Duplicate = Duplicate(entry: Entry, action: Action)

  /** The digest stands for the bytes themselves. */
  datatype Group = Group(
    content: Bytes,
    size: nat,
    canonical: Entry,
    members: seq<Entry>,
    duplicates: seq<Duplicate>,
    reclaimable: nat)

  type Files = map<nat, File>
  type Names = map<Name, nat>

  // ---- the directory ---------------------------------------------------------------------------

  class Directory {
    var names: Names
    const files: Files
    const calm: bool

    ghost predicate Valid()
      reads this
    {
      forall n :: n in names ==> names[n] in files
    }

    constructor (names: Names, files: Files, calm: bool)
      requires forall n :: n in names ==> names[n] in files
      ensures Valid() && this.names == names && this.files == files && this.calm == calm
    {
      this.names, this.files, this.calm := names, files, calm;
    }

    /** A second name for the inode; refused when the name is taken. */
    method Link(source: Name, name: Name) returns (ok: bool)
      requires Valid() && source in names
      modifies this
      ensures Valid() && ok == (name !in old(names))
      ensures names == if ok then old(names)[name := old(names)[source]] else old(names)
    {
      if name in names { return false; }
      names := names[name := names[source]];
      return true;
    }

    /** rename() of two names of one inode does nothing at all. */
    method Replace(source: Name, name: Name)
      requires Valid() && source in names
      modifies this
      ensures Valid()
      ensures names == if name in old(names) && old(names)[name] == old(names)[source] then old(names)
        else old(names)[name := old(names)[source]] - {source}
    {
      if name in names && names[name] == names[source] { return; }
      names := names[name := names[source]] - {source};
    }

    method Unlink(name: Name)
      requires Valid() && name in names
      modifies this
      ensures Valid() && names == old(names) - {name}
    {
      names := names - {name};
    }
  }

  // ---- grouping ----------------------------------------------------------------------------------

  predicate TextBefore(a: string, b: string) {
    b != "" && (a == "" || a[0] < b[0] || (a[0] == b[0] && TextBefore(a[1..], b[1..])))
  }

  predicate NameBefore(a: Name, b: Name) {
    match (a, b)
    case (Plain(x), Plain(y)) => TextBefore(x, y)
    case (Plain(_), Temp(_, _)) => true
    case (Temp(_, _), Plain(_)) => false
    case (Temp(p, c), Temp(q, d)) => p < q || (p == q && c < d)
  }

  predicate Before(a: Entry, b: Entry) {
    a.mtime < b.mtime || (a.mtime == b.mtime && NameBefore(a.name, b.name))
  }

  lemma {:induction false} TextBeforeIsTransitive(a: string, b: string, c: string)
    requires !TextBefore(b, a) && !TextBefore(c, b)
    ensures !TextBefore(c, a)
  {
    if a != "" && b != "" && c != "" && a[0] == b[0] == c[0] {
      TextBeforeIsTransitive(a[1..], b[1..], c[1..]);
    }
  }

  /** `a` is not after `b`, `b` not after `c`. */
  lemma NotAfterIsTransitive(a: Entry, b: Entry, c: Entry)
    requires !Before(b, a) && !Before(c, b)
    ensures !Before(c, a)
  {
    if a.mtime == b.mtime == c.mtime && a.name.Plain? && b.name.Plain? && c.name.Plain? {
      TextBeforeIsTransitive(a.name.text, b.name.text, c.name.text);
    }
  }

  lemma {:induction false} TextBeforeIsStrict(a: string)
    ensures !TextBefore(a, a)
  {
    if a != "" { TextBeforeIsStrict(a[1..]); }
  }

  ghost predicate Least(e: Entry, entries: seq<Entry>) {
    e in entries && forall f :: f in entries ==> !Before(f, e)
  }

  method FindLeast(entries: seq<Entry>) returns (least: Entry)
    requires entries != []
    ensures Least(least, entries)
  {
    hide NameBefore;
    least := entries[0];
    if least.name.Plain? { TextBeforeIsStrict(least.name.text); }
    assert !Before(least, least) by { StrictHere(least); }
    for i := 1 to |entries|
      invariant least in entries[..i] && forall f :: f in entries[..i] ==> !Before(f, least)
    {
      var e := entries[i];
      StrictHere(e);
      if Before(e, least) {
        BeforeIsAsymmetric(e, least);
        forall f | f in entries[..i] ensures !Before(f, e) {
          NotAfterIsTransitive(e, least, f);
        }
        least := e;
      }
      assert entries[..i + 1] == entries[..i] + [e];
    }
    assert entries[..|entries|] == entries;
  }

  lemma StrictHere(e: Entry)
    ensures !Before(e, e)
  {
    if e.name.Plain? { TextBeforeIsStrict(e.name.text); }
  }

  lemma {:induction false} TextBeforeIsAsymmetric(a: string, b: string)
    requires TextBefore(a, b)
    ensures !TextBefore(b, a)
  {
    if a != "" && a[0] == b[0] { TextBeforeIsAsymmetric(a[1..], b[1..]); }
  }

  lemma BeforeIsAsymmetric(a: Entry, b: Entry)
    requires Before(a, b)
    ensures !Before(b, a)
  {
    if a.name.Plain? && b.name.Plain? && a.mtime == b.mtime { TextBeforeIsAsymmetric(a.name.text, b.name.text); }
  }

  function OfSize(entries: seq<Entry>, size: nat): seq<Entry> {
    if entries == [] then [] else
      var last := entries[|entries| - 1];
      OfSize(entries[..|entries| - 1], size) + if last.size == size then [last] else []
  }

  predicate Described(entries: seq<Entry>, files: Files) {
    forall e :: e in entries ==> e.ino in files && e.size == |files[e.ino].content| && e.mtime == files[e.ino].mtime
  }

  /** The copies of one content, in the order of the listing. */
  function Copies(entries: seq<Entry>, files: Files, content: Bytes): seq<Entry> {
    if entries == [] then [] else
      var last := entries[|entries| - 1];
      Copies(entries[..|entries| - 1], files, content)
        + if last.ino in files && files[last.ino].content == content then [last] else []
  }

  function DuplicatesOf(copies: seq<Entry>, canonical: Entry): seq<Duplicate> {
    if copies == [] then [] else
      var last := copies[|copies| - 1];
      DuplicatesOf(copies[..|copies| - 1], canonical) +
        if last == canonical then []
        else [Duplicate(last, if last.ino == canonical.ino then AlreadyLinked else Pending)]
  }

  function ForeignInodes(copies: seq<Entry>, ino: nat): set<nat> {
    set e | e in copies && e.ino != ino :: e.ino
  }

  ghost predicate WellFormed(g: Group, copies: seq<Entry>) {
    && g.size == |g.content| && g.members == copies && Least(g.canonical, copies)
    && g.duplicates == DuplicatesOf(copies, g.canonical)
    && g.reclaimable == g.size * |ForeignInodes(copies, g.canonical.ino)|
  }

  lemma DuplicatesNext(copies: seq<Entry>, i: nat, canonical: Entry)
    requires i < |copies|
    ensures DuplicatesOf(copies[..i + 1], canonical) == DuplicatesOf(copies[..i], canonical) +
      if copies[i] == canonical then []
      else [Duplicate(copies[i], if copies[i].ino == canonical.ino then AlreadyLinked else Pending)]
  {
    assert copies[..i + 1][..i] == copies[..i];
  }

  lemma ForeignNext(copies: seq<Entry>, i: nat, ino: nat)
    requires i < |copies|
    ensures ForeignInodes(copies[..i + 1], ino) ==
      ForeignInodes(copies[..i], ino) + if copies[i].ino == ino then {} else {copies[i].ino}
  {
    assert copies[..i + 1] == copies[..i] + [copies[i]];
  }

  /** `a` is a prefix of `b`, or smaller where they first differ. */
  predicate NotAfter(a: string, b: string) {
    a <= b || exists i :: 0 <= i < |a| && i < |b| && a[..i] == b[..i] && a[i] < b[i]
  }

  lemma {:induction false} BeforeIsNotAfter(a: string, b: string)
    requires !TextBefore(b, a)
    ensures NotAfter(a, b)
  {
    if a != "" && b != "" && a[0] == b[0] {
      BeforeIsNotAfter(a[1..], b[1..]);
      if a[1..] <= b[1..] {
        assert a == [a[0]] + a[1..] && b == [b[0]] + b[1..];
      } else {
        var i :| 0 <= i < |a[1..]| && i < |b[1..]| && a[1..][..i] == b[1..][..i] && a[1..][i] < b[1..][i];
        assert a[..i + 1] == [a[0]] + a[1..][..i] && b[..i + 1] == [b[0]] + b[1..][..i];
        assert a[i + 1] < b[i + 1];
      }
    } else if a != "" {
      assert b != "" && a[0] < b[0];
      assert a[..0] == b[..0];
    }
  }

  /** The oldest, and of those of one age the one that sorts first by name. */
  ghost predicate Oldest(e: Entry, copies: seq<Entry>) {
    && e in copies
    && (forall f :: f in copies ==> e.mtime <= f.mtime)
    && (forall f :: f in copies && f.mtime == e.mtime && f.name.Plain? && e.name.Plain? ==>
          NotAfter(e.name.text, f.name.text))
  }

  lemma LeastIsOldest(e: Entry, copies: seq<Entry>)
    requires Least(e, copies)
    ensures Oldest(e, copies)
  {
    forall f | f in copies && f.mtime == e.mtime && f.name.Plain? && e.name.Plain?
      ensures NotAfter(e.name.text, f.name.text)
    {
      BeforeIsNotAfter(e.name.text, f.name.text);
    }
  }

  /** The canonical copy is the oldest; every other one is a duplicate, linked already exactly where it
      has that inode; a run gives up the others' inodes, each of the size of the content. */
  ghost predicate Grouped(g: Group, copies: seq<Entry>) {
    && g.size == |g.content| && g.members == copies && Oldest(g.canonical, copies)
    && (forall d :: d in g.duplicates ==>
          && d.entry in copies && d.entry != g.canonical
          && d.action == if d.entry.ino == g.canonical.ino then AlreadyLinked else Pending)
    && (forall e :: e in copies && e != g.canonical ==> exists d :: d in g.duplicates && d.entry == e)
    && g.reclaimable == |g.content| * |set e | e in copies && e.ino != g.canonical.ino :: e.ino|
  }

  lemma WellFormedIsGrouped(g: Group, copies: seq<Entry>)
    requires WellFormed(g, copies)
    ensures Grouped(g, copies)
  {
    LeastIsOldest(g.canonical, copies);
    DuplicatesMembers(copies, g.canonical);
    hide DuplicatesOf, Least, Oldest;
    forall e | e in copies && e != g.canonical ensures exists d :: d in g.duplicates && d.entry == e {
      var d := Duplicate(e, if e.ino == g.canonical.ino then AlreadyLinked else Pending);
      assert d in g.duplicates;
    }
  }

  method MakeGroup(content: Bytes, copies: seq<Entry>) returns (g: Group)
    requires copies != []
    ensures g.content == content && WellFormed(g, copies)
    ensures Grouped(g, copies)
    ensures forall e :: e in copies ==> g.canonical.mtime <= e.mtime
  {
    var canonical := FindLeast(copies);
    var duplicates: seq<Duplicate>, foreign: set<nat> := [], {};
    assert copies[..0] == [];
    for i := 0 to |copies|
      invariant duplicates == DuplicatesOf(copies[..i], canonical)
      invariant foreign == ForeignInodes(copies[..i], canonical.ino)
    {
      var e := copies[i];
      DuplicatesNext(copies, i, canonical);
      ForeignNext(copies, i, canonical.ino);
      hide DuplicatesOf, ForeignInodes, Least;
      if e != canonical {
        var shared := e.ino == canonical.ino;
        if !shared { foreign := foreign + {e.ino}; }
        duplicates := duplicates + [Duplicate(e, if shared then AlreadyLinked else Pending)];
      }
    }
    assert copies[..|copies|] == copies;
    g := Group(content, |content|, canonical, copies, duplicates, |content| * |foreign|);
    WellFormedIsGrouped(g, copies);
  }

  /** The lists by digest that one pass over the entries fills. */
  ghost predicate ByContent(lists: map<Bytes, seq<Entry>>, entries: seq<Entry>, files: Files) {
    && (forall c :: c in lists ==> lists[c] == Copies(entries, files, c))
    && (forall c :: c !in lists ==> Copies(entries, files, c) == [])
  }

  method ListByDigest(entries: seq<Entry>, files: Files) returns (lists: map<Bytes, seq<Entry>>)
    requires Described(entries, files)
    ensures ByContent(lists, entries, files)
  {
    lists := map[];
    for i := 0 to |entries|
      invariant ByContent(lists, entries[..i], files)
    {
      var e := entries[i];
      var digest := files[e.ino].content;
      assert entries[..i + 1][..i] == entries[..i];
      lists := lists[digest := (if digest in lists then lists[digest] else []) + [e]];
    }
    assert entries[..|entries|] == entries;
  }

  /** One group for each content that two or more of the entries have. */
  ghost predicate GroupsFor(groups: seq<Group>, entries: seq<Entry>, files: Files) {
    && (forall i :: 0 <= i < |groups| ==>
          && |Copies(entries, files, groups[i].content)| >= 2
          && WellFormed(groups[i], Copies(entries, files, groups[i].content)))
    && (forall i, j :: 0 <= i < j < |groups| ==> groups[i].content != groups[j].content)
    && (forall c :: |Copies(entries, files, c)| >= 2 ==> exists i :: 0 <= i < |groups| && groups[i].content == c)
  }

  /** The groups of the listed contents that are no longer in `left`. */
  ghost predicate GroupsOver(groups: seq<Group>, lists: map<Bytes, seq<Entry>>, left: set<Bytes>) {
    && (forall i :: 0 <= i < |groups| ==>
          && groups[i].content in lists && groups[i].content !in left
          && |lists[groups[i].content]| >= 2 && WellFormed(groups[i], lists[groups[i].content]))
    && (forall i, j :: 0 <= i < j < |groups| ==> groups[i].content != groups[j].content)
    && (forall c :: c in lists && c !in left && |lists[c]| >= 2 ==>
          exists i :: 0 <= i < |groups| && groups[i].content == c)
  }

  lemma GroupsOverNext(groups: seq<Group>, lists: map<Bytes, seq<Entry>>, left: set<Bytes>, c: Bytes, more: seq<Group>)
    requires GroupsOver(groups, lists, left) && c in left && c in lists
    requires if |lists[c]| < 2 then more == [] else |more| == 1 && more[0].content == c && WellFormed(more[0], lists[c])
    ensures GroupsOver(groups + more, lists, left - {c})
  {
    hide WellFormed;
    var all := groups + more;
    assert forall i :: 0 <= i < |groups| ==> all[i] == groups[i];
    assert more != [] ==> all[|groups|] == more[0];
  }

  /** Group the entries of one size by content. */
  method GroupsOfSize(entries: seq<Entry>, files: Files) returns (groups: seq<Group>)
    requires Described(entries, files)
    ensures GroupsFor(groups, entries, files)
  {
    hide Copies, WellFormed, GroupsOver;
    var lists := ListByDigest(entries, files);
    groups := [];
    var left := lists.Keys;
    assert GroupsOver([], lists, lists.Keys) by { NothingGrouped(lists); }
    while left != {}
      invariant left <= lists.Keys && GroupsOver(groups, lists, left)
    {
      var c :| c in left;
      var more: seq<Group> := [];
      if |lists[c]| >= 2 {
        var g := MakeGroup(c, lists[c]);
        more := [g];
      }
      GroupsOverNext(groups, lists, left, c, more);
      groups, left := groups + more, left - {c};
    }
    AllGrouped(groups, lists, entries, files);
  }

  lemma NothingGrouped(lists: map<Bytes, seq<Entry>>)
    ensures GroupsOver([], lists, lists.Keys)
  {
  }

  lemma AllGrouped(groups: seq<Group>, lists: map<Bytes, seq<Entry>>, entries: seq<Entry>, files: Files)
    requires ByContent(lists, entries, files) && GroupsOver(groups, lists, {})
    ensures GroupsFor(groups, entries, files)
  {
    hide Copies, WellFormed;
  }

  /** The entries that are large enough to bother. */
  function Large(entries: seq<Entry>, minSize: nat): seq<Entry> {
    if entries == [] then [] else
      var last := entries[|entries| - 1];
      Large(entries[..|entries| - 1], minSize) + if last.size >= minSize then [last] else []
  }

  ghost predicate BySize(lists: map<nat, seq<Entry>>, entries: seq<Entry>) {
    && (forall k :: k in lists ==> lists[k] == OfSize(entries, k))
    && (forall k :: k !in lists ==> OfSize(entries, k) == [])
  }

  lemma NothingBySize()
    ensures BySize(map[], [])
  {
  }

  lemma LargeNext(entries: seq<Entry>, i: nat, minSize: nat)
    requires i < |entries|
    ensures Large(entries[..i + 1], minSize) ==
      if entries[i].size >= minSize then Large(entries[..i], minSize) + [entries[i]] else Large(entries[..i], minSize)
  {
    assert entries[..i + 1][..i] == entries[..i];
  }

  lemma ListGrows(lists: map<nat, seq<Entry>>, entries: seq<Entry>, e: Entry)
    requires BySize(lists, entries)
    ensures BySize(lists[e.size := (if e.size in lists then lists[e.size] else []) + [e]], entries + [e])
  {
    forall k ensures OfSize(entries + [e], k) == OfSize(entries, k) + if e.size == k then [e] else [] {
      OfSizeNext(entries, e, k);
    }
    hide OfSize;
  }

  lemma OfSizeNext(entries: seq<Entry>, e: Entry, k: nat)
    ensures OfSize(entries + [e], k) == OfSize(entries, k) + if e.size == k then [e] else []
  {
    assert (entries + [e])[..|entries|] == entries;
  }

  lemma CopiesNext(entries: seq<Entry>, e: Entry, files: Files, c: Bytes)
    ensures Copies(entries + [e], files, c) ==
      Copies(entries, files, c) + if e.ino in files && files[e.ino].content == c then [e] else []
  {
    assert (entries + [e])[..|entries|] == entries;
  }

  method ListBySize(entries: seq<Entry>, minSize: nat) returns (lists: map<nat, seq<Entry>>)
    ensures BySize(lists, Large(entries, minSize))
  {
    hide BySize;
    assert BySize(map[], []) by { NothingBySize(); }
    lists := map[];
    for i := 0 to |entries|
      invariant BySize(lists, Large(entries[..i], minSize))
    {
      var e := entries[i];
      LargeNext(entries, i, minSize);
      if e.size >= minSize {
        ListGrows(lists, Large(entries[..i], minSize), e);
        lists := lists[e.size := (if e.size in lists then lists[e.size] else []) + [e]];
      }
    }
    assert entries[..|entries|] == entries;
  }

  /** Entries of one content are of one size. */
  lemma {:induction false} SizedCopies(entries: seq<Entry>, files: Files, c: Bytes, k: nat)
    requires Described(entries, files)
    ensures Copies(OfSize(entries, k), files, c) == if |c| == k then Copies(entries, files, c) else []
  {
    if entries != [] {
      var front, last := entries[..|entries| - 1], entries[|entries| - 1];
      assert last in entries && forall e :: e in front ==> e in entries;
      assert entries == front + [last];
      SizedCopies(front, files, c, k);
      OfSizeNext(front, last, k);
      CopiesNext(front, last, files, c);
      CopiesNext(OfSize(front, k), last, files, c);
      assert OfSize(front, k) + [] == OfSize(front, k);
      hide OfSize, Copies;
    }
  }

  lemma {:induction false} OfSizeMembers(entries: seq<Entry>, k: nat)
    ensures forall e :: e in OfSize(entries, k) <==> e in entries && e.size == k
  {
    if entries != [] {
      OfSizeMembers(entries[..|entries| - 1], k);
      assert entries == entries[..|entries| - 1] + [entries[|entries| - 1]];
    }
  }

  lemma {:induction false} LargeMembers(entries: seq<Entry>, minSize: nat)
    ensures forall e :: e in Large(entries, minSize) <==> e in entries && e.size >= minSize
  {
    if entries != [] {
      LargeMembers(entries[..|entries| - 1], minSize);
      assert entries == entries[..|entries| - 1] + [entries[|entries| - 1]];
    }
  }

  /** The groups of the contents whose lengths are in `sizes`. */
  ghost predicate GroupsUpTo(groups: seq<Group>, entries: seq<Entry>, files: Files, sizes: set<nat>) {
    && (forall i :: 0 <= i < |groups| ==>
          && |groups[i].content| in sizes && |Copies(entries, files, groups[i].content)| >= 2
          && WellFormed(groups[i], Copies(entries, files, groups[i].content)))
    && (forall i, j :: 0 <= i < j < |groups| ==> groups[i].content != groups[j].content)
    && (forall c: Bytes :: |c| in sizes && |Copies(entries, files, c)| >= 2 ==>
          exists i :: 0 <= i < |groups| && groups[i].content == c)
  }

  lemma GroupsExtend(groups: seq<Group>, more: seq<Group>, entries: seq<Entry>, files: Files, sizes: set<nat>, k: nat)
    requires Described(entries, files) && k !in sizes
    requires GroupsUpTo(groups, entries, files, sizes) && GroupsFor(more, OfSize(entries, k), files)
    ensures GroupsUpTo(groups + more, entries, files, sizes + {k})
  {
    GroupsOfThatSize(more, entries, files, k);
    hide Copies, WellFormed, OfSize, Described, GroupsFor;
    ContentsStayDistinct(groups, more, entries, files, sizes, k);
    var all := groups + more;
    forall i | 0 <= i < |all|
      ensures |all[i].content| in sizes + {k} && |Copies(entries, files, all[i].content)| >= 2
      ensures WellFormed(all[i], Copies(entries, files, all[i].content))
    {
      if i < |groups| { assert all[i] == groups[i]; } else { assert all[i] == more[i - |groups|]; }
    }
    ContentsStayCovered(groups, more, entries, files, sizes, k);
  }

  lemma ContentsStayDistinct(groups: seq<Group>, more: seq<Group>, entries: seq<Entry>, files: Files, sizes: set<nat>,
          k: nat)
    requires k !in sizes && GroupsUpTo(groups, entries, files, sizes) && GroupsUpTo(more, entries, files, {k})
    ensures var all := groups + more; forall i, j :: 0 <= i < j < |all| ==> all[i].content != all[j].content
  {
    hide Copies, WellFormed;
    var all := groups + more;
    forall i, j | 0 <= i < j < |all| ensures all[i].content != all[j].content {
      if i < |groups| { assert |groups[i].content| in sizes; } else { assert all[i] == more[i - |groups|]; }
      if j >= |groups| { assert |more[j - |groups|].content| in {k}; }
    }
  }

  lemma ContentsStayCovered(groups: seq<Group>, more: seq<Group>, entries: seq<Entry>, files: Files, sizes: set<nat>,
          k: nat)
    requires GroupsUpTo(groups, entries, files, sizes) && GroupsUpTo(more, entries, files, {k})
    ensures var all := groups + more;
      forall c: Bytes :: |c| in sizes + {k} && |Copies(entries, files, c)| >= 2 ==>
        exists i :: 0 <= i < |all| && all[i].content == c
  {
    hide Copies, WellFormed;
    var all := groups + more;
    forall c: Bytes | |c| in sizes + {k} && |Copies(entries, files, c)| >= 2
      ensures exists i :: 0 <= i < |all| && all[i].content == c
    {
      if |c| == k {
        var i :| 0 <= i < |more| && more[i].content == c;
        assert all[|groups| + i].content == c;
      } else {
        var i :| 0 <= i < |groups| && groups[i].content == c;
        assert all[i].content == c;
      }
    }
  }

  lemma GroupsOfThatSize(more: seq<Group>, entries: seq<Entry>, files: Files, k: nat)
    requires Described(entries, files) && GroupsFor(more, OfSize(entries, k), files)
    ensures GroupsUpTo(more, entries, files, {k})
  {
    hide Copies, WellFormed, OfSize, Described;
    forall i | 0 <= i < |more|
      ensures |more[i].content| == k
      ensures |Copies(entries, files, more[i].content)| >= 2
      ensures WellFormed(more[i], Copies(entries, files, more[i].content))
    {
      SizedCopies(entries, files, more[i].content, k);
    }
    forall c: Bytes | |c| == k && |Copies(entries, files, c)| >= 2
      ensures exists i :: 0 <= i < |more| && more[i].content == c
    {
      SizedCopies(entries, files, c, k);
    }
  }

  /** Exactly one group for each content that two or more large enough entries have. */
  method FindGroups(entries: seq<Entry>, files: Files, minSize: nat) returns (groups: seq<Group>)
    requires Described(entries, files)
    ensures GroupsFor(groups, Large(entries, minSize), files)
    ensures Together(groups, entries, files, minSize)
  {
    hide Together, Grouped, Copies, WellFormed, OfSize, Large, GroupsUpTo, GroupsFor;
    ghost var large := Large(entries, minSize);
    LargeMembers(entries, minSize);
    var lists := ListBySize(entries, minSize);
    groups := [];
    NoGroupsYet(large, files);
    var left := lists.Keys;
    ghost var done: set<nat> := {};
    while left != {}
      invariant done + left == lists.Keys && done !! left
      invariant GroupsUpTo(groups, large, files, done)
    {
      var k :| k in left;
      OfSizeMembers(large, k);
      var more := GroupsOfSize(lists[k], files);
      GroupsExtend(groups, more, large, files, done, k);
      groups, left, done := groups + more, left - {k}, done + {k};
    }
    AllSizesDone(groups, lists, large, files);
    GroupsHoldTheirContents(groups, entries, files, minSize);
  }

  /** A group has all entries of its content, of the least size or more, and two such entries meet. */
  ghost predicate Together(groups: seq<Group>, entries: seq<Entry>, files: Files, minSize: nat)
    requires Described(entries, files)
  {
    && (forall g :: g in groups ==> Grouped(g, g.members))
    && (forall g, e :: g in groups ==>
          (e in g.members <==> e in entries && e.size >= minSize && files[e.ino].content == g.content))
    && (forall i, j :: 0 <= i < j < |groups| ==> groups[i].content != groups[j].content)
    && (forall e, f :: (e in entries && f in entries && e != f && e.size >= minSize
                        && files[e.ino].content == files[f.ino].content) ==>
          exists g :: g in groups && e in g.members && f in g.members)
  }

  lemma GroupsHoldTheirContents(groups: seq<Group>, entries: seq<Entry>, files: Files, minSize: nat)
    requires Described(entries, files) && GroupsFor(groups, Large(entries, minSize), files)
    ensures Together(groups, entries, files, minSize)
  {
    var large := Large(entries, minSize);
    LargeMembers(entries, minSize);
    hide Large, Copies, WellFormed, Grouped;
    forall g | g in groups ensures g.members == Copies(large, files, g.content) && Grouped(g, g.members)
      ensures forall e :: e in g.members <==> e in entries && e.size >= minSize && files[e.ino].content == g.content
    {
      GroupHolds(g, large, files);
    }
    forall e, f | e in entries && f in entries && e != f && e.size >= minSize
                  && files[e.ino].content == files[f.ino].content
      ensures exists g :: g in groups && e in g.members && f in g.members
    {
      var c := files[e.ino].content;
      CopiesMembers(large, files, c);
      TwoMembers(Copies(large, files, c), e, f);
      var i :| 0 <= i < |groups| && groups[i].content == c;
      assert groups[i] in groups;
    }
  }

  lemma GroupHolds(g: Group, large: seq<Entry>, files: Files)
    requires WellFormed(g, Copies(large, files, g.content))
    ensures g.members == Copies(large, files, g.content) && Grouped(g, g.members)
    ensures forall e :: e in g.members <==> e in large && e.ino in files && files[e.ino].content == g.content
  {
    WellFormedIsGrouped(g, Copies(large, files, g.content));
    CopiesMembers(large, files, g.content);
    hide Copies, Grouped;
  }

  lemma NoGroupsYet(entries: seq<Entry>, files: Files)
    ensures GroupsUpTo([], entries, files, {})
  {
  }

  lemma AllSizesDone(groups: seq<Group>, lists: map<nat, seq<Entry>>, entries: seq<Entry>, files: Files)
    requires BySize(lists, entries) && GroupsUpTo(groups, entries, files, lists.Keys) && Described(entries, files)
    ensures GroupsFor(groups, entries, files)
  {
    hide WellFormed;
    forall c | |Copies(entries, files, c)| >= 2 ensures |c| in lists {
      SizedCopies(entries, files, c, |c|);
    }
  }

  // ---- the listing ---------------------------------------------------------------------------------

  const LAST_SESSION := "last_session.wav"
  const TMP_PREFIX := ".dedupe-"

  predicate Candidate(n: Name) {
    n.Plain? && n.text != LAST_SESSION && !(TMP_PREFIX <= n.text)
  }

  function EntryFor(n: Name, names: Names, files: Files): Entry
    requires n in names && names[n] in files
  {
    Entry(n, |files[names[n]].content|, files[names[n]].mtime, names[n])
  }

  ghost predicate Resolves(names: Names, files: Files) {
    forall n :: n in names ==> names[n] in files
  }

  /** Each candidate name of the directory is listed once, as it is. */
  ghost predicate Listed(entries: seq<Entry>, names: Names, files: Files) {
    && Resolves(names, files)
    && (forall e :: e in entries ==> e.name in names && Candidate(e.name) && e == EntryFor(e.name, names, files))
    && (forall n :: n in names && Candidate(n) ==> EntryFor(n, names, files) in entries)
    && (forall i, j :: 0 <= i < j < |entries| ==> entries[i].name != entries[j].name)
  }

  method Scan(directory: Directory) returns (entries: seq<Entry>)
    requires directory.Valid()
    ensures Listed(entries, directory.names, directory.files)
    // Neither the protected recording nor a name with the tool's own prefix is listed.
    ensures forall n :: n in directory.names && n.Plain? && n.text != "last_session.wav" && !(".dedupe-" <= n.text) <==>
      exists e :: e in entries && e.name == n
    ensures forall e :: e in entries ==>
      && e.ino == directory.names[e.name] && e.mtime == directory.files[e.ino].mtime
      && e.size == |directory.files[e.ino].content|
  {
    entries := [];
    var names, files := directory.names, directory.files;
    var left := names.Keys;
    while left != {}
      invariant left <= names.Keys
      invariant forall e :: e in entries ==>
        e.name in names && e.name !in left && Candidate(e.name) && e == EntryFor(e.name, names, files)
      invariant forall n :: n in names && n !in left && Candidate(n) ==> EntryFor(n, names, files) in entries
      invariant forall i, j :: 0 <= i < j < |entries| ==> entries[i].name != entries[j].name
    {
      var n :| n in left;
      left := left - {n};
      if Candidate(n) {
        entries := entries + [EntryFor(n, names, files)];
      }
    }
    forall n | n in names && Candidate(n) ensures exists e :: e in entries && e.name == n {
      assert EntryFor(n, names, files).name == n;
    }
  }

  // ---- linking -------------------------------------------------------------------------------------

  /** Each name that was there is there, with the same inode, and any other name is a temporary. */
  predicate OnlyTempsAdded(was: Names, now: Names) {
    && (forall n :: n in was ==> n in now && now[n] == was[n])
    && (forall n :: n in now && n !in was ==> n.Temp?)
  }

  ghost function TempsAbove(names: Names, pid: nat, count: nat): set<Name> {
    set n | n in names && n.Temp? && n.pid == pid && n.count > count
  }

  lemma FewerTemps(names: Names, pid: nat, count: nat)
    requires Temp(pid, count + 1) in names
    ensures |TempsAbove(names, pid, count + 1)| < |TempsAbove(names, pid, count)|
  {
    assert TempsAbove(names, pid, count) - {Temp(pid, count + 1)} >= TempsAbove(names, pid, count + 1);
    SmallerSet(TempsAbove(names, pid, count + 1), TempsAbove(names, pid, count) - {Temp(pid, count + 1)});
  }

  lemma {:induction false} SmallerSet<T>(a: set<T>, b: set<T>)
    requires a <= b
    ensures |a| <= |b|
  {
    if a != {} {
      var x :| x in a;
      SmallerSet(a - {x}, b - {x});
    }
  }

  /** Nothing moved but perhaps `duplicate`, and temporary names may be left. */
  predicate AtMostOneMove(was: Names, now: Names, duplicate: Name, ino: nat) {
    OnlyTempsAdded(was, now) || OnlyTempsAdded(was[duplicate := ino], now)
  }

  /** Point `duplicate` at the inode of `canonical`. A call that fails, or in which the process dies,
      may have taken effect. */
  method LinkDuplicate(directory: Directory, canonical: Name, duplicate: Name, pid: nat, counter: nat)
    returns (outcome: Outcome, count: nat)
    requires directory.Valid() && canonical in directory.names && duplicate in directory.names
    requires canonical.Plain? && duplicate.Plain? && directory.names[canonical] != directory.names[duplicate]
    modifies directory
    ensures directory.Valid()
    ensures outcome.Done? ==> directory.names == old(directory.names)[duplicate := old(directory.names)[canonical]]
    ensures !outcome.Done? ==>
      AtMostOneMove(old(directory.names), directory.names, duplicate, old(directory.names)[canonical])
    ensures directory.calm ==> outcome.Done?
  {
    count := counter;
    var takes;
    var linked := false;
    while !linked
      invariant linked ==> Temp(pid, count) !in old(directory.names)
      invariant directory.Valid() && directory.names ==
        if linked then old(directory.names)[Temp(pid, count) := old(directory.names)[canonical]]
        else old(directory.names)
      decreases !linked, |TempsAbove(old(directory.names), pid, count)|
    {
      ghost var before := count;
      count := count + 1;
      outcome, takes := Attempt(directory.calm);
      if !outcome.Done? {
        if takes { linked := directory.Link(canonical, Temp(pid, count)); }
        return;
      }
      linked := directory.Link(canonical, Temp(pid, count));
      if !linked { FewerTemps(old(directory.names), pid, before); }
    }
    outcome, takes := Attempt(directory.calm);
    if takes {
      directory.Replace(Temp(pid, count), duplicate);
    } else if outcome.Raised? {
      var removal;
      removal, takes := Attempt(directory.calm);
      if takes { directory.Unlink(Temp(pid, count)); }
      if removal.Crashed? { outcome := Crashed; }
    }
  }

  /** Where the pending duplicates of a group lead. */
  function Moves(duplicates: seq<Duplicate>, ino: nat): Names {
    map d | d in duplicates && d.action == Pending :: d.entry.name := ino
  }

  function AllMoves(groups: seq<Group>): Names {
    if groups == [] then map[] else
      var last := groups[|groups| - 1];
      AllMoves(groups[..|groups| - 1]) + Moves(last.duplicates, last.canonical.ino)
  }

  function Relinked(d: Duplicate): Duplicate {
    if d.action == Pending then d.(action := Linked) else d
  }

  function AllRelinked(duplicates: seq<Duplicate>): seq<Duplicate> {
    seq(|duplicates|, i requires 0 <= i < |duplicates| => Relinked(duplicates[i]))
  }

  predicate DistinctDuplicates(ds: seq<Duplicate>) {
    forall i, j :: 0 <= i < j < |ds| ==> ds[i].entry.name != ds[j].entry.name
  }

  /** A group as found in a directory: distinct names, each leading where the listing says, all to
      the same bytes, and pending exactly where it is another inode. */
  ghost predicate Current(g: Group, names: Names, files: Files) {
    && g.canonical.name.Plain? && g.canonical.name in names && names[g.canonical.name] == g.canonical.ino
    && (forall d :: d in g.duplicates ==>
          && d.entry.name.Plain? && d.entry.name != g.canonical.name
          && d.entry.name in names && names[d.entry.name] == d.entry.ino
          && d.action == (if d.entry.ino == g.canonical.ino then AlreadyLinked else Pending)
          && d.entry.ino in files && g.canonical.ino in files
          && files[d.entry.ino].content == files[g.canonical.ino].content)
    && DistinctDuplicates(g.duplicates)
  }

  /** Every name that was there still leads to the bytes it led to; any other is a temporary. */
  ghost predicate BytesKept(was: Names, now: Names, files: Files) {
    && Resolves(was, files) && Resolves(now, files)
    && (forall n :: n in was ==> n in now && files[now[n]].content == files[was[n]].content)
    && (forall n :: n in now && n !in was ==> n.Temp?)
  }

  predicate NonePending(g: Group) {
    forall d :: d in g.duplicates ==> d.action != Pending
  }

  method ApplyGroup(directory: Directory, g: Group, pid: nat, counter: nat)
    returns (outcome: Outcome, count: nat, duplicates: seq<Duplicate>)
    requires directory.Valid() && Current(g, directory.names, directory.files)
    modifies directory
    ensures directory.Valid() && BytesKept(old(directory.names), directory.names, directory.files)
    ensures outcome.Done? ==> directory.names == old(directory.names) + Moves(g.duplicates, g.canonical.ino)
    ensures outcome.Done? ==> duplicates == AllRelinked(g.duplicates)
    ensures NonePending(g) || directory.calm ==> outcome.Done?
  {
    outcome, count, duplicates := Done, counter, g.duplicates;
    ghost var was := directory.names;
    MovesStart(g, was);
    hide Current, Moves, AllRelinked, BytesKept, OnlyTempsAdded, AtMostOneMove;
    for i := 0 to |g.duplicates|
      invariant directory.Valid() && outcome.Done?
      invariant directory.names == was + Moves(g.duplicates[..i], g.canonical.ino)
      invariant duplicates == AllRelinked(g.duplicates[..i]) + g.duplicates[i..]
    {
      var d := g.duplicates[i];
      ghost var before := directory.names;
      MovesKeepBytes(g, was, directory.files, i);
      MovesNext(g.duplicates, was, g.canonical.ino, i);
      if d.action == Pending {
        outcome, count := LinkDuplicate(directory, g.canonical.name, d.entry.name, pid, count);
        if !outcome.Done? {
          MovesKeepBytes(g, was, directory.files, i + 1);
          KeptThrough(was, before, directory.names, directory.files, d.entry.name, g.canonical.ino);
          return;
        }
        duplicates := duplicates[i := d.(action := Linked)];
      }
    }
    assert g.duplicates[..|g.duplicates|] == g.duplicates && g.duplicates[|g.duplicates|..] == [];
    MovesKeepBytes(g, was, directory.files, |g.duplicates|);
  }

  lemma MovesStart(g: Group, was: Names)
    ensures was + Moves(g.duplicates[..0], g.canonical.ino) == was
    ensures AllRelinked(g.duplicates[..0]) + g.duplicates[0..] == g.duplicates
  {
    assert Moves(g.duplicates[..0], g.canonical.ino) == map[];
  }

  lemma MovesNext(duplicates: seq<Duplicate>, was: Names, ino: nat, i: nat)
    requires i < |duplicates|
    ensures var d := duplicates[i];
      was + Moves(duplicates[..i + 1], ino) ==
        if d.action == Pending then (was + Moves(duplicates[..i], ino))[d.entry.name := ino]
        else was + Moves(duplicates[..i], ino)
    ensures var half := AllRelinked(duplicates[..i]) + duplicates[i..];
      half[i] == duplicates[i]
      && AllRelinked(duplicates[..i + 1]) + duplicates[i + 1..] == half[i := Relinked(duplicates[i])]
  {
    MovesGrow(duplicates, ino, i);
    hide Moves;
  }

  lemma MovesGrow(duplicates: seq<Duplicate>, ino: nat, i: nat)
    requires i < |duplicates|
    ensures var d := duplicates[i];
      Moves(duplicates[..i + 1], ino) ==
        if d.action == Pending then Moves(duplicates[..i], ino)[d.entry.name := ino] else Moves(duplicates[..i], ino)
  {
    var d := duplicates[i];
    assert duplicates[..i + 1] == duplicates[..i] + [d];
    assert d in duplicates[..i + 1] && forall e :: e in duplicates[..i] ==> e in duplicates[..i + 1];
  }

  /** In the middle of a group every name keeps its bytes; the canonical name and the duplicates to
      come keep their inodes. */
  lemma MovesKeepBytes(g: Group, was: Names, files: Files, i: nat)
    requires Resolves(was, files) && Current(g, was, files) && i <= |g.duplicates|
    ensures var now := was + Moves(g.duplicates[..i], g.canonical.ino);
      && BytesKept(was, now, files) && now[g.canonical.name] == g.canonical.ino
      && g.canonical.name.Plain?
      && (i < |g.duplicates| ==>
            var d := g.duplicates[i];
            && d.entry.name.Plain? && d.entry.name in now
            && (d.action == Pending ==> now[d.entry.name] != g.canonical.ino))
  {
    var moves := Moves(g.duplicates[..i], g.canonical.ino);
    forall n | n in moves
      ensures n in was && n != g.canonical.name && files[was[n]].content == files[g.canonical.ino].content
      ensures i < |g.duplicates| ==> n != g.duplicates[i].entry.name
    {
      var k :| 0 <= k < i && g.duplicates[k].entry.name == n;
      assert g.duplicates[k] in g.duplicates;
    }
    if i < |g.duplicates| { assert g.duplicates[i] in g.duplicates; }
  }

  lemma KeptThrough(was: Names, middle: Names, now: Names, files: Files, duplicate: Name, ino: nat)
    requires BytesKept(was, middle, files) && BytesKept(was, middle[duplicate := ino], files)
    requires AtMostOneMove(middle, now, duplicate, ino) && Resolves(now, files)
    ensures BytesKept(was, now, files)
  {
  }

  // ---- all groups ----------------------------------------------------------------------------------

  function DuplicateNames(g: Group): set<Name> {
    set d | d in g.duplicates :: d.entry.name
  }

  /** Every group as found in the directory, no name in two of them. */
  ghost predicate Planned(groups: seq<Group>, names: Names, files: Files) {
    && (forall i :: 0 <= i < |groups| ==> Current(groups[i], names, files))
    && (forall i, j :: 0 <= i < |groups| && 0 <= j < |groups| && i != j ==>
          DuplicateNames(groups[i]) + {groups[i].canonical.name} !! DuplicateNames(groups[j]))
  }

  /** Group `a` has that name pending, and that is where the moves lead it. */
  ghost predicate LedBy(groups: seq<Group>, n: Name, a: nat)
    requires a < |groups|
  {
    && n in DuplicateNames(groups[a]) && n in Moves(groups[a].duplicates, groups[a].canonical.ino)
    && n in AllMoves(groups) && AllMoves(groups)[n] == groups[a].canonical.ino
  }

  lemma {:induction false} AllMovesAreMoves(groups: seq<Group>, n: Name)
    requires n in AllMoves(groups)
    ensures exists a :: 0 <= a < |groups| && LedBy(groups, n, a)
  {
    var front, last := groups[..|groups| - 1], groups[|groups| - 1];
    if n in Moves(last.duplicates, last.canonical.ino) {
      assert LedBy(groups, n, |groups| - 1);
    } else {
      AllMovesAreMoves(front, n);
      var a :| 0 <= a < |front| && LedBy(front, n, a);
      assert groups[a] == front[a];
      assert LedBy(groups, n, a);
    }
  }

  lemma {:induction false} MovesAreInAllMoves(groups: seq<Group>, a: nat, n: Name)
    requires a < |groups| && n in Moves(groups[a].duplicates, groups[a].canonical.ino)
    ensures n in AllMoves(groups)
  {
    if a < |groups| - 1 {
      assert groups[..|groups| - 1][a] == groups[a];
      MovesAreInAllMoves(groups[..|groups| - 1], a, n);
    }
  }

  /** When its turn comes a group still is as it was found. */
  lemma CurrentInTurn(groups: seq<Group>, names: Names, files: Files, i: nat)
    requires Planned(groups, names, files) && i < |groups|
    ensures Current(groups[i], names + AllMoves(groups[..i]), files)
  {
    hide AllMoves;
    var g, moved := groups[i], AllMoves(groups[..i]);
    assert forall a :: 0 <= a < i ==> DuplicateNames(g) + {g.canonical.name} !! DuplicateNames(groups[a]);
    forall n | n in moved ensures n !in DuplicateNames(g) + {g.canonical.name} {
      AllMovesAreMoves(groups[..i], n);
    }
    assert Current(g, names, files);
    forall d | d in g.duplicates ensures d.entry.name !in moved {
      assert d.entry.name in DuplicateNames(g);
    }
  }

  lemma BytesKeptTwice(was: Names, middle: Names, now: Names, files: Files)
    requires BytesKept(was, middle, files) && BytesKept(middle, now, files)
    ensures BytesKept(was, now, files)
  {
  }

  function RelinkedGroup(g: Group): Group {
    g.(duplicates := AllRelinked(g.duplicates))
  }

  /** Carry out a plan. Wherever the process dies or a call fails, each name leads to the bytes it
      led to; when it comes to its end the moves are made and no temporary name is left. */
  method ApplyGroups(directory: Directory, groups: seq<Group>, pid: nat)
    returns (outcome: Outcome, done: seq<Group>)
    requires directory.Valid() && Planned(groups, directory.names, directory.files)
    modifies directory
    ensures directory.Valid() && BytesKept(old(directory.names), directory.names, directory.files)
    ensures outcome.Done? ==> directory.names == old(directory.names) + AllMoves(groups)
    ensures outcome.Done? ==> |done| == |groups| && forall i :: 0 <= i < |done| ==> done[i] == RelinkedGroup(groups[i])
    ensures (forall i :: 0 <= i < |groups| ==> NonePending(groups[i])) || directory.calm ==> outcome.Done?
  {
    var count := 0;
    outcome, done := Done, [];
    ghost var was := directory.names;
    assert groups[..0] == [] && was + AllMoves([]) == was;
    hide BytesKept, Current, Planned, Moves, AllMoves, AllRelinked, NonePending;
    assert BytesKept(was, was, directory.files) by { NothingMoved(was, directory.files); }
    for i := 0 to |groups|
      invariant directory.Valid() && directory.names == was + AllMoves(groups[..i])
      invariant BytesKept(was, directory.names, directory.files)
      invariant |done| == i && forall j :: 0 <= j < i ==> done[j] == RelinkedGroup(groups[j])
    {
      var g := groups[i];
      ghost var before := directory.names;
      CurrentInTurn(groups, was, directory.files, i);
      var duplicates;
      outcome, count, duplicates := ApplyGroup(directory, g, pid, count);
      BytesKeptTwice(was, before, directory.names, directory.files);
      if !outcome.Done? { return; }
      done := done + [g.(duplicates := duplicates)];
      AllMovesNext(groups, was, i);
    }
    assert groups[..|groups|] == groups;
    outcome := Done;
  }

  lemma AllMovesNext(groups: seq<Group>, was: Names, i: nat)
    requires i < |groups|
    ensures was + AllMoves(groups[..i + 1]) ==
      (was + AllMoves(groups[..i])) + Moves(groups[i].duplicates, groups[i].canonical.ino)
  {
    assert groups[..i + 1][..i] == groups[..i];
    hide Moves;
  }

  lemma NothingMoved(names: Names, files: Files)
    requires Resolves(names, files)
    ensures BytesKept(names, names, files)
  {
  }

  // ---- the plan fits the directory ------------------------------------------------------------------

  lemma {:induction false} CopiesMembers(entries: seq<Entry>, files: Files, c: Bytes)
    ensures forall e :: e in Copies(entries, files, c) <==> e in entries && e.ino in files && files[e.ino].content == c
  {
    if entries != [] {
      CopiesMembers(entries[..|entries| - 1], files, c);
      assert entries == entries[..|entries| - 1] + [entries[|entries| - 1]];
    }
  }

  predicate DistinctNames(entries: seq<Entry>) {
    forall i, j :: 0 <= i < j < |entries| ==> entries[i].name != entries[j].name
  }

  lemma {:induction false} CopiesAreDistinct(entries: seq<Entry>, files: Files, c: Bytes)
    requires DistinctNames(entries)
    ensures DistinctNames(Copies(entries, files, c))
  {
    if entries != [] {
      var front, last := entries[..|entries| - 1], entries[|entries| - 1];
      CopiesAreDistinct(front, files, c);
      CopiesMembers(front, files, c);
      forall e | e in Copies(front, files, c) ensures e.name != last.name {
        assert e in front;
      }
    }
  }

  lemma {:induction false} LargeIsDistinct(entries: seq<Entry>, minSize: nat)
    requires DistinctNames(entries)
    ensures DistinctNames(Large(entries, minSize))
  {
    if entries != [] {
      var front, last := entries[..|entries| - 1], entries[|entries| - 1];
      LargeIsDistinct(front, minSize);
      LargeMembers(front, minSize);
      forall e | e in Large(front, minSize) ensures e.name != last.name {
        assert e in front;
      }
    }
  }

  lemma {:induction false} DuplicatesMembers(copies: seq<Entry>, canonical: Entry)
    ensures forall d :: d in DuplicatesOf(copies, canonical) <==>
      d.entry in copies && d.entry != canonical
      && d.action == (if d.entry.ino == canonical.ino then AlreadyLinked else Pending)
  {
    if copies != [] {
      DuplicatesMembers(copies[..|copies| - 1], canonical);
      assert copies == copies[..|copies| - 1] + [copies[|copies| - 1]];
    }
  }

  lemma {:induction false} DuplicatesAreDistinct(copies: seq<Entry>, canonical: Entry)
    requires DistinctNames(copies)
    ensures DistinctDuplicates(DuplicatesOf(copies, canonical))
  {
    if copies != [] {
      var front, last := copies[..|copies| - 1], copies[|copies| - 1];
      DuplicatesAreDistinct(front, canonical);
      DuplicatesMembers(front, canonical);
      var before := DuplicatesOf(front, canonical);
      forall k | 0 <= k < |before| ensures before[k].entry.name != last.name {
        assert before[k] in before;
        var m :| 0 <= m < |front| && front[m] == before[k].entry;
        assert copies[m] == front[m];
      }
      var ds := DuplicatesOf(copies, canonical);
      assert |ds| == |before| + if last == canonical then 0 else 1;
      if last != canonical { assert ds[|before|].entry == last; }
      assert forall k :: 0 <= k < |before| ==> ds[k] == before[k];
    }
  }

  /** What the steps below need to know of a directory, its listing and the groups found in it. */
  ghost predicate Found(groups: seq<Group>, entries: seq<Entry>, names: Names, files: Files, minSize: nat) {
    Listed(entries, names, files) && GroupsFor(groups, Large(entries, minSize), files)
  }

  /** The members of a group are the candidates with its bytes. */
  lemma GroupMembers(groups: seq<Group>, entries: seq<Entry>, names: Names, files: Files, minSize: nat, i: nat)
    requires Found(groups, entries, names, files, minSize) && i < |groups|
    ensures var g := groups[i];
      && WellFormed(g, g.members) && DistinctNames(g.members)
      && forall e :: e in g.members <==>
           e in entries && e.size >= minSize && e.ino in files && files[e.ino].content == g.content
  {
    var g := groups[i];
    LargeMembers(entries, minSize);
    LargeIsDistinct(entries, minSize);
    CopiesMembers(Large(entries, minSize), files, g.content);
    CopiesAreDistinct(Large(entries, minSize), files, g.content);
    assert g.members == Copies(Large(entries, minSize), files, g.content);
  }

  /** The duplicates of a found group are its other members, each judged by its inode. */
  lemma DuplicatesAreMembers(groups: seq<Group>, entries: seq<Entry>, names: Names, files: Files, minSize: nat, i: nat)
    requires Found(groups, entries, names, files, minSize) && i < |groups|
    ensures var g := groups[i];
      && g.canonical in g.members
      && forall d :: d in g.duplicates <==>
           d.entry in g.members && d.entry != g.canonical
           && d.action == (if d.entry.ino == g.canonical.ino then AlreadyLinked else Pending)
  {
    var g := groups[i];
    GroupMembers(groups, entries, names, files, minSize, i);
    hide Found, DuplicatesOf;
    assert g.duplicates == DuplicatesOf(g.members, g.canonical);
    DuplicatesMembers(g.members, g.canonical);
  }

  lemma MemberIsListed(groups: seq<Group>, entries: seq<Entry>, names: Names, files: Files, minSize: nat, i: nat,
          e: Entry)
    requires Found(groups, entries, names, files, minSize) && i < |groups| && e in groups[i].members
    ensures e.name.Plain? && e.name in names && names[e.name] == e.ino && e.ino in files
    ensures e == EntryFor(e.name, names, files) && files[e.ino].content == groups[i].content
  {
    GroupMembers(groups, entries, names, files, minSize, i);
    assert e in entries;
  }

  lemma GroupIsCurrent(groups: seq<Group>, entries: seq<Entry>, names: Names, files: Files, minSize: nat, i: nat)
    requires Found(groups, entries, names, files, minSize) && i < |groups|
    ensures Current(groups[i], names, files)
    ensures forall n :: n in DuplicateNames(groups[i]) + {groups[i].canonical.name} ==>
      n in names && names[n] in files && files[names[n]].content == groups[i].content
  {
    var g := groups[i];
    GroupMembers(groups, entries, names, files, minSize, i);
    DuplicatesMembers(g.members, g.canonical);
    DuplicatesAreDistinct(g.members, g.canonical);
    assert g.canonical in g.members && g.duplicates == DuplicatesOf(g.members, g.canonical);
    hide Found, Copies, Large, DuplicatesOf, WellFormed;
    MemberIsListed(groups, entries, names, files, minSize, i, g.canonical);
    forall d | d in g.duplicates
      ensures d.entry.name.Plain? && d.entry.name != g.canonical.name && d.entry.name in names
      ensures names[d.entry.name] == d.entry.ino && d.entry.ino in files
      ensures files[d.entry.ino].content == g.content
    {
      MemberIsListed(groups, entries, names, files, minSize, i, d.entry);
    }
    hide EntryFor;
  }

  lemma FoundIsPlanned(groups: seq<Group>, entries: seq<Entry>, names: Names, files: Files, minSize: nat)
    requires Found(groups, entries, names, files, minSize)
    ensures Planned(groups, names, files)
  {
    forall i | 0 <= i < |groups| ensures Current(groups[i], names, files) {
      GroupIsCurrent(groups, entries, names, files, minSize, i);
    }
    forall i, j | 0 <= i < |groups| && 0 <= j < |groups| && i != j
      ensures DuplicateNames(groups[i]) + {groups[i].canonical.name} !! DuplicateNames(groups[j])
    {
      GroupIsCurrent(groups, entries, names, files, minSize, i);
      GroupIsCurrent(groups, entries, names, files, minSize, j);
      assert groups[i].content != groups[j].content;
    }
  }

  // ---- stored bytes ------------------------------------------------------------------------------------

  ghost function Inodes(names: Names): set<nat> {
    set n | n in names :: names[n]
  }

  function SizeOf(files: Files, x: nat): nat {
    if x in files then |files[x].content| else 0
  }

  ghost function BytesOf(inodes: set<nat>, files: Files): nat {
    if inodes == {} then 0 else
      var x :| x in inodes;
      SizeOf(files, x) + BytesOf(inodes - {x}, files)
  }

  /** Any inode may be counted first. */
  lemma {:induction false} BytesPick(inodes: set<nat>, files: Files, x: nat)
    requires x in inodes
    ensures BytesOf(inodes, files) == SizeOf(files, x) + BytesOf(inodes - {x}, files)
    decreases |inodes|
  {
    hide SizeOf;
    var y :| y in inodes && BytesOf(inodes, files) == SizeOf(files, y) + BytesOf(inodes - {y}, files);
    if y != x {
      hide BytesOf;
      BytesPick(inodes - {y}, files, x);
      BytesPick(inodes - {x}, files, y);
      assert inodes - {y} - {x} == inodes - {x} - {y};
    }
  }

  lemma {:induction false} BytesAdd(a: set<nat>, b: set<nat>, files: Files)
    requires a !! b
    ensures BytesOf(a + b, files) == BytesOf(a, files) + BytesOf(b, files)
  {
    if a == {} {
      assert a + b == b;
    } else {
      var x :| x in a;
      BytesPick(a, files, x);
      BytesPick(a + b, files, x);
      assert a + b - {x} == (a - {x}) + b;
      BytesAdd(a - {x}, b, files);
    }
  }

  lemma {:induction false} BytesOfEqual(inodes: set<nat>, files: Files, size: nat)
    requires forall x :: x in inodes ==> x in files && |files[x].content| == size
    ensures BytesOf(inodes, files) == size * |inodes|
  {
    if inodes != {} {
      var x :| x in inodes;
      BytesPick(inodes, files, x);
      BytesOfEqual(inodes - {x}, files, size);
    }
  }

  /** The inodes of the pending duplicates of a group. */
  function Foreign(g: Group): set<nat> {
    ForeignInodes(g.members, g.canonical.ino)
  }

  function AllForeign(groups: seq<Group>): set<nat> {
    if groups == [] then {} else AllForeign(groups[..|groups| - 1]) + Foreign(groups[|groups| - 1])
  }

  function Reclaimable(groups: seq<Group>): nat {
    if groups == [] then 0 else Reclaimable(groups[..|groups| - 1]) + groups[|groups| - 1].reclaimable
  }

  ghost predicate Priced(groups: seq<Group>, files: Files) {
    && (forall i :: 0 <= i < |groups| ==> groups[i].reclaimable == |groups[i].content| * |Foreign(groups[i])|)
    && (forall i, x :: 0 <= i < |groups| && x in Foreign(groups[i]) ==>
          x in files && files[x].content == groups[i].content)
    && (forall i, j :: 0 <= i < j < |groups| ==> groups[i].content != groups[j].content)
  }

  lemma {:induction false} AllForeignMembers(groups: seq<Group>, x: nat)
    ensures x in AllForeign(groups) <==> exists i :: 0 <= i < |groups| && x in Foreign(groups[i])
  {
    if groups != [] {
      var front := groups[..|groups| - 1];
      AllForeignMembers(front, x);
      if x in AllForeign(front) {
        var i :| 0 <= i < |front| && x in Foreign(front[i]);
        assert groups[i] == front[i];
      }
      if i :| 0 <= i < |groups| && x in Foreign(groups[i]) {
        if i < |groups| - 1 { assert front[i] == groups[i]; }
      }
    }
  }

  lemma {:induction false} ForeignBytes(groups: seq<Group>, files: Files)
    requires Priced(groups, files)
    ensures BytesOf(AllForeign(groups), files) == Reclaimable(groups)
  {
    if groups != [] {
      var front, last := groups[..|groups| - 1], groups[|groups| - 1];
      PricedFront(groups, files);
      ForeignIsApart(groups, files);
      assert last.reclaimable == |last.content| * |Foreign(last)|;
      BytesOfEqual(Foreign(last), files, |last.content|);
      hide Priced, Foreign, BytesOf;
      ForeignBytes(front, files);
      BytesAdd(AllForeign(front), Foreign(last), files);
    }
  }

  lemma ForeignOfOther(groups: seq<Group>, files: Files, i: nat, x: nat)
    requires Priced(groups, files) && i < |groups| - 1 && x in Foreign(groups[i])
    ensures x in files && x !in Foreign(groups[|groups| - 1])
  {
    hide Foreign;
    assert groups[i].content != groups[|groups| - 1].content;
  }

  lemma ForeignIsApart(groups: seq<Group>, files: Files)
    requires Priced(groups, files) && groups != []
    ensures AllForeign(groups[..|groups| - 1]) !! Foreign(groups[|groups| - 1])
    ensures forall x :: x in AllForeign(groups[..|groups| - 1]) ==> x in files
  {
    hide AllForeign, Foreign, Priced;
    var front := groups[..|groups| - 1];
    forall x | x in AllForeign(front) ensures x in files && x !in Foreign(groups[|groups| - 1]) {
      AllForeignMembers(front, x);
      var i :| 0 <= i < |front| && x in Foreign(front[i]);
      ForeignOfOther(groups, files, i, x);
    }
  }

  lemma PricedFront(groups: seq<Group>, files: Files)
    requires Priced(groups, files) && groups != []
    ensures Priced(groups[..|groups| - 1], files)
  {
  }

  lemma FoundIsPriced(groups: seq<Group>, entries: seq<Entry>, names: Names, files: Files, minSize: nat)
    requires Found(groups, entries, names, files, minSize)
    ensures Priced(groups, files)
  {
    forall i | 0 <= i < |groups|
      ensures groups[i].reclaimable == |groups[i].content| * |Foreign(groups[i])|
      ensures forall x :: x in Foreign(groups[i]) ==> x in files && files[x].content == groups[i].content
    {
      GroupMembers(groups, entries, names, files, minSize, i);
    }
  }

  /** Every name of an inode that a duplicate is to leave is itself a duplicate of that group. */
  ghost predicate NoOutsideLinks(groups: seq<Group>, names: Names) {
    forall i, n :: 0 <= i < |groups| && n in names && names[n] in Foreign(groups[i]) ==> n in DuplicateNames(groups[i])
  }

  // ---- what a whole run comes to -----------------------------------------------------------------------

  /** Once the moves are made a duplicate has the inode of its group's canonical name. */
  lemma DuplicatesMeet(groups: seq<Group>, names: Names, files: Files, i: nat, d: Duplicate)
    requires Planned(groups, names, files) && i < |groups| && d in groups[i].duplicates
    ensures var now := names + AllMoves(groups); d.entry.name in now && now[d.entry.name] == groups[i].canonical.ino
  {
    hide AllMoves;
    var g, n := groups[i], d.entry.name;
    assert Current(g, names, files) && n in DuplicateNames(g);
    if n in AllMoves(groups) {
      AllMovesAreMoves(groups, n);
      var a :| 0 <= a < |groups| && LedBy(groups, n, a);
      assert a == i;
    } else if d.action == Pending {
      assert n in Moves(g.duplicates, g.canonical.ino);
      MovesAreInAllMoves(groups, i, n);
    }
  }

  lemma CanonicalStays(groups: seq<Group>, names: Names, files: Files, i: nat)
    requires Planned(groups, names, files) && i < |groups|
    ensures var now, c := names + AllMoves(groups), groups[i].canonical; c.name in now && now[c.name] == c.ino
  {
    hide AllMoves;
    var g, n := groups[i], groups[i].canonical.name;
    assert Current(g, names, files);
    assert n !in DuplicateNames(g);
    if n in AllMoves(groups) {
      AllMovesAreMoves(groups, n);
      assert false;
    }
  }

  /** A member of a group, once the moves are made, has the inode of the canonical name. */
  lemma {:induction false} MembersMeet(groups: seq<Group>, entries: seq<Entry>, names: Names, files: Files,
          minSize: nat, i: nat, e: Entry)
    requires Found(groups, entries, names, files, minSize) && i < |groups| && e in groups[i].members
    ensures var now := names + AllMoves(groups); e.name in now && now[e.name] == groups[i].canonical.ino
  {
    hide AllMoves, Found, Planned;
    var g := groups[i];
    FoundIsPlanned(groups, entries, names, files, minSize);
    DuplicatesAreMembers(groups, entries, names, files, minSize, i);
    if e == g.canonical {
      CanonicalStays(groups, names, files, i);
    } else {
      var action := if e.ino == g.canonical.ino then AlreadyLinked else Pending;
      DuplicatesMeet(groups, names, files, i, Duplicate(e, action));
    }
  }

  lemma RunKeepsBytes(groups: seq<Group>, names: Names, files: Files)
    requires Planned(groups, names, files) && Resolves(names, files)
    ensures BytesKept(names, names + AllMoves(groups), files)
  {
    hide AllMoves;
    forall n | n in AllMoves(groups)
      ensures n in names && AllMoves(groups)[n] in files
      ensures files[AllMoves(groups)[n]].content == files[names[n]].content
    {
      AllMovesAreMoves(groups, n);
      var a :| 0 <= a < |groups| && LedBy(groups, n, a);
      assert Current(groups[a], names, files);
    }
  }

  /** A candidate of those bytes is listed among their copies. */
  lemma CandidateIsCopy(entries: seq<Entry>, names: Names, files: Files, minSize: nat, n: Name)
    requires Listed(entries, names, files) && n in names && Candidate(n)
    requires |files[names[n]].content| >= minSize
    ensures EntryFor(n, names, files) in Copies(Large(entries, minSize), files, files[names[n]].content)
  {
    LargeMembers(entries, minSize);
    CopiesMembers(Large(entries, minSize), files, files[names[n]].content);
  }

  lemma TwoMembers<T>(s: seq<T>, a: T, b: T)
    requires a in s && b in s && a != b
    ensures |s| >= 2
  {
  }

  /** Two names that a run leaves with equal bytes have one inode. */
  lemma SameBytesSameInode(groups: seq<Group>, entries: seq<Entry>, names: Names, files: Files, minSize: nat, n: Name,
          m: Name)
    requires Found(groups, entries, names, files, minSize) && n != m
    requires n in names && Candidate(n) && m in names && Candidate(m)
    requires names[n] in files && names[m] in files
    requires files[names[n]].content == files[names[m]].content && |files[names[n]].content| >= minSize
    ensures var now := names + AllMoves(groups); now[n] == now[m]
  {
    hide AllMoves, Copies, Large, WellFormed;
    var c, e, f := files[names[n]].content, EntryFor(n, names, files), EntryFor(m, names, files);
    CandidateIsCopy(entries, names, files, minSize, n);
    CandidateIsCopy(entries, names, files, minSize, m);
    TwoMembers(Copies(Large(entries, minSize), files, c), e, f);
    var k :| 0 <= k < |groups| && groups[k].content == c;
    GroupMembers(groups, entries, names, files, minSize, k);
    LargeMembers(entries, minSize);
    CopiesMembers(Large(entries, minSize), files, c);
    MembersMeet(groups, entries, names, files, minSize, k, e);
    MembersMeet(groups, entries, names, files, minSize, k, f);
  }

  /** A duplicate and the canonical entry of its group: two candidates, large enough, of equal bytes. */
  lemma PairIsComparable(groups: seq<Group>, entries: seq<Entry>, names: Names, files: Files, minSize: nat, i: nat,
          d: Duplicate)
    requires Found(groups, entries, names, files, minSize) && i < |groups| && d in groups[i].duplicates
    ensures var n, m := d.entry.name, groups[i].canonical.name;
      && n != m && n in names && Candidate(n) && m in names && Candidate(m) && names[n] in files && names[m] in files
      && files[names[n]].content == files[names[m]].content && |files[names[n]].content| >= minSize
      && d.action == (if names[n] == names[m] then AlreadyLinked else Pending)
  {
    var g := groups[i];
    GroupIsCurrent(groups, entries, names, files, minSize, i);
    GroupMembers(groups, entries, names, files, minSize, i);
    DuplicatesAreMembers(groups, entries, names, files, minSize, i);
    assert d.entry in entries && g.canonical in entries;
  }

  /** After a whole run, a second one finds every duplicate linked already, so it moves nothing. */
  lemma {:induction false} SecondRunMovesNothing(groups: seq<Group>, entries: seq<Entry>, names: Names, files: Files,
          minSize: nat, again: seq<Group>, relisted: seq<Entry>)
    requires Found(groups, entries, names, files, minSize)
    requires Found(again, relisted, names + AllMoves(groups), files, minSize)
    ensures AllMoves(again) == map[]
    ensures forall i, d :: 0 <= i < |again| && d in again[i].duplicates ==> d.action == AlreadyLinked
  {
    var now := names + AllMoves(groups);
    FoundIsPlanned(groups, entries, names, files, minSize);
    RunKeepsBytes(groups, names, files);
    hide AllMoves, Planned;
    forall i, d | 0 <= i < |again| && d in again[i].duplicates ensures d.action == AlreadyLinked {
      GroupIsCurrent(again, relisted, now, files, minSize, i);
      PairIsComparable(again, relisted, now, files, minSize, i, d);
      SameBytesSameInode(groups, entries, names, files, minSize, d.entry.name, again[i].canonical.name);
    }
    if n :| n in AllMoves(again) {
      AllMovesAreMoves(again, n);
      assert false;
    }
  }

  // ---- the sum of it -----------------------------------------------------------------------------------

  /** What the pending duplicates of a found group are, by inode. */
  lemma ForeignIsPending(groups: seq<Group>, entries: seq<Entry>, names: Names, files: Files, minSize: nat, i: nat)
    requires Found(groups, entries, names, files, minSize) && i < |groups|
    ensures var g := groups[i];
      && g.canonical.ino !in Foreign(g)
      && (forall d :: d in g.duplicates && d.action == Pending ==> d.entry.ino in Foreign(g))
      && (forall x :: x in Foreign(g) ==> exists d :: d in g.duplicates && d.action == Pending && d.entry.ino == x)
  {
    hide Found;
    var g := groups[i];
    DuplicatesAreMembers(groups, entries, names, files, minSize, i);
    forall x | x in Foreign(g) ensures exists d :: d in g.duplicates && d.action == Pending && d.entry.ino == x {
      var e :| e in g.members && e.ino != g.canonical.ino && e.ino == x;
      assert Duplicate(e, Pending) in g.duplicates;
    }
  }

  /** Where a name leads afterwards is an inode that some name led to and no group gives up. */
  lemma NewInodesAreKept(groups: seq<Group>, entries: seq<Entry>, names: Names, files: Files, minSize: nat, n: Name)
    requires Found(groups, entries, names, files, minSize) && NoOutsideLinks(groups, names)
    requires n in names + AllMoves(groups)
    ensures var x := (names + AllMoves(groups))[n]; x in Inodes(names) && x !in AllForeign(groups)
  {
    var x := (names + AllMoves(groups))[n];
    FoundIsPlanned(groups, entries, names, files, minSize);
    FoundIsPriced(groups, entries, names, files, minSize);
    hide Found, AllMoves, AllForeign;
    AllForeignMembers(groups, x);
    if n in AllMoves(groups) {
      AllMovesAreMoves(groups, n);
      var a :| 0 <= a < |groups| && LedBy(groups, n, a);
      CanonicalIsNotForeign(groups, entries, names, files, minSize, a);
    } else if x in AllForeign(groups) {
      var i :| 0 <= i < |groups| && x in Foreign(groups[i]);
      StayingIsNotForeign(groups, entries, names, files, minSize, i, n);
      assert false;
    }
  }

  lemma CanonicalIsNotForeign(groups: seq<Group>, entries: seq<Entry>, names: Names, files: Files, minSize: nat, a: nat)
    requires Found(groups, entries, names, files, minSize) && a < |groups|
    ensures var x := groups[a].canonical.ino;
      x in Inodes(names) && forall i :: 0 <= i < |groups| ==> x !in Foreign(groups[i])
  {
    GroupIsCurrent(groups, entries, names, files, minSize, a);
    FoundIsPriced(groups, entries, names, files, minSize);
    ForeignIsPending(groups, entries, names, files, minSize, a);
    var c := groups[a].canonical;
    assert c.name in DuplicateNames(groups[a]) + {c.name};
    assert names[c.name] in Inodes(names);
  }

  lemma StayingIsNotForeign(groups: seq<Group>, entries: seq<Entry>, names: Names, files: Files, minSize: nat, i: nat,
          n: Name)
    requires Found(groups, entries, names, files, minSize) && NoOutsideLinks(groups, names)
    requires i < |groups| && n in names && n !in AllMoves(groups)
    ensures names[n] !in Foreign(groups[i])
  {
    hide AllMoves;
    var g := groups[i];
    GroupIsCurrent(groups, entries, names, files, minSize, i);
    ForeignIsPending(groups, entries, names, files, minSize, i);
    hide Found;
    if names[n] in Foreign(g) {
      assert n in DuplicateNames(g);
      var d :| d in g.duplicates && d.entry.name == n;
      assert n in Moves(g.duplicates, g.canonical.ino);
      MovesAreInAllMoves(groups, i, n);
      assert false;
    }
  }

  /** The inode a moved name leaves is one its group gives up. */
  lemma MovedWasForeign(groups: seq<Group>, entries: seq<Entry>, names: Names, files: Files, minSize: nat, n: Name)
    requires Found(groups, entries, names, files, minSize) && n in AllMoves(groups)
    ensures n in names && names[n] in AllForeign(groups)
  {
    hide AllMoves, AllForeign;
    AllMovesAreMoves(groups, n);
    var a :| 0 <= a < |groups| && LedBy(groups, n, a);
    GroupIsCurrent(groups, entries, names, files, minSize, a);
    ForeignIsPending(groups, entries, names, files, minSize, a);
    assert names[n] in Foreign(groups[a]);
    AllForeignMembers(groups, names[n]);
  }

  lemma OldInodesAreKept(groups: seq<Group>, entries: seq<Entry>, names: Names, files: Files, minSize: nat, n: Name)
    requires Found(groups, entries, names, files, minSize)
    requires n in names && names[n] !in AllForeign(groups)
    ensures names[n] in Inodes(names + AllMoves(groups))
  {
    hide AllMoves, AllForeign, Found;
    if n in AllMoves(groups) {
      MovedWasForeign(groups, entries, names, files, minSize, n);
      assert false;
    }
    assert (names + AllMoves(groups))[n] == names[n];
  }

  lemma GoneWereThere(groups: seq<Group>, entries: seq<Entry>, names: Names, files: Files, minSize: nat, x: nat)
    requires Found(groups, entries, names, files, minSize) && x in AllForeign(groups)
    ensures x in Inodes(names) && x in files
  {
    hide AllForeign;
    AllForeignMembers(groups, x);
    var i :| 0 <= i < |groups| && x in Foreign(groups[i]);
    ForeignIsPending(groups, entries, names, files, minSize, i);
    GroupIsCurrent(groups, entries, names, files, minSize, i);
    hide Found;
    var d :| d in groups[i].duplicates && d.action == Pending && d.entry.ino == x;
    assert d.entry.name in DuplicateNames(groups[i]);
  }

  lemma InodesSplit(groups: seq<Group>, entries: seq<Entry>, names: Names, files: Files, minSize: nat)
    requires Found(groups, entries, names, files, minSize) && NoOutsideLinks(groups, names)
    ensures Inodes(names) == AllForeign(groups) + Inodes(names + AllMoves(groups))
    ensures AllForeign(groups) !! Inodes(names + AllMoves(groups))
  {
    var before, now, gone := Inodes(names), Inodes(names + AllMoves(groups)), AllForeign(groups);
    hide Found, NoOutsideLinks, AllMoves, AllForeign;
    forall x | x in now ensures x in before && x !in gone {
      var n :| n in names + AllMoves(groups) && (names + AllMoves(groups))[n] == x;
      NewInodesAreKept(groups, entries, names, files, minSize, n);
    }
    forall x | x in before && x !in gone ensures x in now {
      var n :| n in names && names[n] == x;
      OldInodesAreKept(groups, entries, names, files, minSize, n);
    }
    forall x | x in gone ensures x in before {
      GoneWereThere(groups, entries, names, files, minSize, x);
    }
  }

  /** Stored bytes fall by exactly the sum of what the groups call reclaimable, when no name from
      outside a group shares an inode its duplicates leave. */
  lemma StoredBytesFall(groups: seq<Group>, entries: seq<Entry>, names: Names, files: Files, minSize: nat)
    requires Found(groups, entries, names, files, minSize) && NoOutsideLinks(groups, names)
    ensures BytesOf(Inodes(names), files) == BytesOf(Inodes(names + AllMoves(groups)), files) + Reclaimable(groups)
  {
    FoundIsPriced(groups, entries, names, files, minSize);
    ForeignBytes(groups, files);
    InodesSplit(groups, entries, names, files, minSize);
    forall x | x in AllForeign(groups) ensures x in files {
      GoneWereThere(groups, entries, names, files, minSize, x);
    }
    hide AllMoves, AllForeign, BytesOf, Reclaimable, Found, NoOutsideLinks, Inodes, Priced;
    BytesAdd(AllForeign(groups), Inodes(names + AllMoves(groups)), files);
  }

  /** List, group and link. Whatever happens each name leads to the bytes it led to; a run that comes
      to its end leaves the same names, and stored bytes fall by what it reclaims. */
  method Run(directory: Directory, minSize: nat, pid: nat)
    returns (outcome: Outcome, groups: seq<Group>, ghost entries: seq<Entry>)
    requires directory.Valid()
    modifies directory
    ensures directory.Valid() && BytesKept(old(directory.names), directory.names, directory.files)
    ensures Found(groups, entries, old(directory.names), directory.files, minSize)
    ensures outcome.Done? ==> directory.names == old(directory.names) + AllMoves(groups)
    ensures outcome.Done? ==> directory.names.Keys == old(directory.names).Keys
    ensures (forall i :: 0 <= i < |groups| ==> NonePending(groups[i])) || directory.calm ==> outcome.Done?
    ensures outcome.Done? && NoOutsideLinks(groups, old(directory.names)) ==>
      BytesOf(Inodes(old(directory.names)), directory.files) ==
        BytesOf(Inodes(directory.names), directory.files) + Reclaimable(groups)
  {
    var names, files := directory.names, directory.files;
    var listing := Scan(directory);
    entries := listing;
    hide Listed, GroupsFor, Planned, AllMoves, BytesOf, Reclaimable, NoOutsideLinks;
    assert Described(listing, files) by { ListedIsDescribed(listing, names, files); }
    groups := FindGroups(listing, files, minSize);
    FoundIsPlanned(groups, entries, names, files, minSize);
    var done;
    outcome, done := ApplyGroups(directory, groups, pid);
    MovedNamesWereThere(groups, names, files);
    if NoOutsideLinks(groups, names) {
      StoredBytesFall(groups, entries, names, files, minSize);
    }
  }

  /** Two runs, with the names as the first leaves them in `middle`. A run after a whole one comes to
      its end and changes nothing. */
  method RunTwice(directory: Directory, minSize: nat, pid: nat, again: nat)
    returns (first: Outcome, second: Outcome, groups: seq<Group>, ghost entries: seq<Entry>, ghost middle: Names)
    requires directory.Valid()
    modifies directory
    ensures directory.Valid() && BytesKept(old(directory.names), directory.names, directory.files)
    ensures Found(groups, entries, old(directory.names), directory.files, minSize)
    ensures first.Done? ==> middle == old(directory.names) + AllMoves(groups)
    ensures first.Done? ==> second.Done? && directory.names == middle
    ensures directory.calm ==> first.Done?
  {
    hide AllMoves, BytesOf, Reclaimable, NoOutsideLinks, Found, BytesKept;
    ghost var names, relisted := directory.names, [];
    var found;
    first, groups, entries := Run(directory, minSize, pid);
    middle := directory.names;
    second, found, relisted := Run(directory, minSize, again);
    BytesKeptTwice(names, middle, directory.names, directory.files);
    if first.Done? {
      SecondRunMovesNothing(groups, entries, names, directory.files, minSize, found, relisted);
    }
  }

  lemma ListedIsDescribed(entries: seq<Entry>, names: Names, files: Files)
    requires Listed(entries, names, files)
    ensures Described(entries, files)
  {
  }

  lemma MovedNamesWereThere(groups: seq<Group>, names: Names, files: Files)
    requires Planned(groups, names, files)
    ensures (names + AllMoves(groups)).Keys == names.Keys
  {
    hide AllMoves;
    forall n | n in AllMoves(groups) ensures n in names {
      AllMovesAreMoves(groups, n);
      var a :| 0 <= a < |groups| && LedBy(groups, n, a);
      assert Current(groups[a], names, files);
    }
  }
}
