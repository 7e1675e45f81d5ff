/** The safetensors header check of the Whisper loader: dtypes, sizes without u64 overflow, and
    a sort-and-cursor walk over the byte ranges. */
module WeightLayout {

  import opened Wrappers

  const U64: nat := 0x1_0000_0000_0000_0000

  /** A header entry as parsed; every number was read as a u64. */
  datatype Tensor = Tensor(name: string, dtype: string, shape: seq<nat>, start: nat, end: nat)

  ghost predicate Parsed(t: Tensor) {
    t.start < U64 && t.end < U64 && forall i :: 0 <= i < |t.shape| ==> t.shape[i] < U64
  }

  datatype Range = Range(start: nat, end: nat)

  function EndsWith(s: string, suffix: string): bool {
    |suffix| <= |s| && s[|s| - |suffix|..] == suffix
  }

  /** Bytes per element, for the dtypes a tensor of that name may have. */
  function Width(name: string, dtype: string): Option<nat> {
    if name == "alignment_heads" then (if dtype == "I64" then Some(8) else None)
    else if dtype == "F16" then Some(2)
    else if dtype == "F32" then Some(4)
    else None
  }

  predicate Companion(name: string) {
    EndsWith(name, ".scales") || EndsWith(name, ".biases")
  }

  function Product(shape: seq<nat>): nat {
    if shape == [] then 1 else Product(shape[..|shape| - 1]) * shape[|shape| - 1]
  }

  // ---- sizes -------------------------------------------------------------------------------

  lemma {:induction false} ProductSplit(shape: seq<nat>, i: nat)
    requires i <= |shape|
    ensures Product(shape) == Product(shape[..i]) * Product(shape[i..])
    decreases |shape|
  {
    if i == |shape| {
      assert shape[..i] == shape;
    } else {
      var front, last := shape[..|shape| - 1], shape[|shape| - 1];
      ProductSplit(front, i);
      assert front[..i] == shape[..i] && front[i..] == shape[i..][..|shape| - i - 1];
      assert Product(shape[i..]) == Product(front[i..]) * last;
      Associate(Product(shape[..i]), Product(front[i..]), last);
    }
  }

  lemma Associate(a: nat, b: nat, c: nat)
    ensures (a * b) * c == a * (b * c)
  {
  }

  /** A checked prefix that overflows leaves no room for a good total: zero or too large. */
  lemma PrefixBoundsProduct(shape: seq<nat>, i: nat)
    requires i <= |shape|
    ensures Product(shape) == 0 || Product(shape[..i]) <= Product(shape)
  {
    ProductSplit(shape, i);
    TimesGrows(Product(shape[..i]), Product(shape[i..]));
  }

  lemma TimesGrows(a: nat, b: nat)
    ensures a * b == 0 || a <= a * b
  {
  }

  /** The product of the first dimensions fits, however many are taken. */
  ghost predicate Countable(shape: seq<nat>) {
    forall i :: 0 <= i <= |shape| ==> Product(shape[..i]) < U64
  }

  /** The checked fold over the dimensions: a positive count is the exact product. */
  method ElementCount(shape: seq<nat>) returns (count: Option<nat>)
    ensures count.Some? <==> Countable(shape)
    ensures (count.Some? && count.value > 0) <==> 0 < Product(shape) < U64
    ensures count.Some? ==> count.value == Product(shape)
  {
    var c: nat := 1;
    for i := 0 to |shape|
      invariant c == Product(shape[..i]) && c < U64
      invariant forall j :: 0 <= j <= i ==> Product(shape[..j]) < U64
    {
      assert shape[..i + 1][..i] == shape[..i];
      if c * shape[i] >= U64 {
        PrefixBoundsProduct(shape, i + 1);
        return None;
      }
      c := c * shape[i];
    }
    assert shape[..|shape|] == shape;
    return Some(c);
  }

  /** What the entry must say for its bytes to be its elements. */
  predicate WellSized(t: Tensor) {
    var width := Width(t.name, t.dtype);
    && width.Some? && !Companion(t.name)
    && 0 < Product(t.shape) < U64 && Product(t.shape) * width.value < U64
    && t.start + Product(t.shape) * width.value == t.end
  }

  /** The range has room for exactly the elements, `width` bytes each, and nothing overflows. */
  predicate Holds(t: Tensor, width: nat) {
    var bytes := Product(t.shape) * width;
    0 < Product(t.shape) < U64 && bytes < U64 && t.end - t.start == bytes
  }

  /** Eight bytes for the alignment heads, which are I64; two for F16 and four for F32 for every
      other tensor; nothing else, and no companion of a quantized tensor. */
  method CheckSize(t: Tensor) returns (ok: bool)
    requires Parsed(t)
    ensures ok == WellSized(t)
    ensures t.name == "alignment_heads" ==> (ok <==> t.dtype == "I64" && Holds(t, 8))
    ensures t.name != "alignment_heads" ==>
      (ok <==> ((t.dtype == "F16" && Holds(t, 2)) || (t.dtype == "F32" && Holds(t, 4)))
               && !EndsWith(t.name, ".scales") && !EndsWith(t.name, ".biases"))
  {
    hide Product, Countable;
    assert |"alignment_heads"| == 15 && "alignment_heads"[8] == 't';
    var width := Width(t.name, t.dtype);
    if width.None? || Companion(t.name) { return false; }
    var count := ElementCount(t.shape);
    if count.None? || count.value == 0 { return false; }
    if count.value * width.value >= U64 { return false; }
    return t.start <= t.end && t.end - t.start == count.value * width.value;
  }

  // ---- tiling ------------------------------------------------------------------------------

  /** How many ranges hold byte `b`. */
  function Owners(ranges: seq<Range>, b: nat): nat {
    if ranges == [] then 0
    else (if ranges[0].start <= b < ranges[0].end then 1 else 0) + Owners(ranges[1..], b)
  }

  /** Every byte from `from` up to `to` is in exactly one range, every other byte in none. */
  ghost predicate ExactCover(ranges: seq<Range>, from: nat, to: nat) {
    forall b: nat :: Owners(ranges, b) == if from <= b < to then 1 else 0
  }

  predicate Chain(ranges: seq<Range>, from: nat, to: nat) {
    if ranges == [] then from == to
    else ranges[0].start == from && Chain(ranges[1..], ranges[0].end, to)
  }

  ghost predicate NonEmpty(ranges: seq<Range>) {
    forall i :: 0 <= i < |ranges| ==> ranges[i].start < ranges[i].end
  }

  predicate Sorted(ranges: seq<Range>) {
    forall i, j :: 0 <= i < j < |ranges| ==> ranges[i].start <= ranges[j].start
  }

  function Insert(r: Range, ranges: seq<Range>): seq<Range> {
    if ranges == [] || r.start < ranges[0].start then [r] + ranges
    else [ranges[0]] + Insert(r, ranges[1..])
  }

  /** The library's sort by start. */
  function SortByStart(ranges: seq<Range>): seq<Range> {
    if ranges == [] then [] else Insert(ranges[0], SortByStart(ranges[1..]))
  }

  lemma {:induction false} InsertKeeps(r: Range, ranges: seq<Range>)
    requires Sorted(ranges) && NonEmpty(ranges) && r.start < r.end
    ensures var s := Insert(r, ranges);
      && Sorted(s) && NonEmpty(s)
      && (ranges != [] ==> s[0].start == if r.start < ranges[0].start then r.start else ranges[0].start)
      && (ranges == [] ==> s == [r])
    ensures forall b: nat :: Owners(Insert(r, ranges), b) == Owners([r] + ranges, b)
  {
    if ranges == [] || r.start < ranges[0].start {
    } else {
      InsertKeeps(r, ranges[1..]);
      var s := Insert(r, ranges);
      assert s[1..] == Insert(r, ranges[1..]);
      assert ([r] + ranges)[1..] == ranges && ([r] + ranges[1..])[1..] == ranges[1..];
      StartsFrom(s);
    }
  }

  lemma StartsFrom(s: seq<Range>)
    requires s != [] && Sorted(s[1..]) && (|s| > 1 ==> s[0].start <= s[1].start)
    ensures Sorted(s)
  {
    forall i, j | 0 <= i < j < |s| ensures s[i].start <= s[j].start {
      assert s[j] == s[1..][j - 1];
      if i > 0 { assert s[i] == s[1..][i - 1]; } else { assert s[1] == s[1..][0]; }
    }
  }

  lemma {:induction false} SortKeeps(ranges: seq<Range>)
    requires NonEmpty(ranges)
    ensures Sorted(SortByStart(ranges)) && NonEmpty(SortByStart(ranges))
    ensures forall b: nat :: Owners(SortByStart(ranges), b) == Owners(ranges, b)
  {
    if ranges != [] {
      SortKeeps(ranges[1..]);
      InsertKeeps(ranges[0], SortByStart(ranges[1..]));
      assert ([ranges[0]] + SortByStart(ranges[1..]))[1..] == SortByStart(ranges[1..]);
    }
  }

  lemma {:induction false} ChainGoesUp(ranges: seq<Range>, from: nat, to: nat)
    requires NonEmpty(ranges) && Chain(ranges, from, to)
    ensures from <= to
  {
    if ranges != [] { ChainGoesUp(ranges[1..], ranges[0].end, to); }
  }

  lemma {:induction false} NoOwnerBelow(ranges: seq<Range>, b: nat)
    requires forall i :: 0 <= i < |ranges| ==> b < ranges[i].start
    ensures Owners(ranges, b) == 0
  {
    if ranges != [] { NoOwnerBelow(ranges[1..], b); }
  }

  lemma {:induction false} ChainCovers(ranges: seq<Range>, from: nat, to: nat)
    requires NonEmpty(ranges) && Chain(ranges, from, to)
    ensures ExactCover(ranges, from, to)
  {
    if ranges != [] {
      ChainCovers(ranges[1..], ranges[0].end, to);
      ChainGoesUp(ranges[1..], ranges[0].end, to);
    }
  }

  lemma {:induction false} CoverChains(ranges: seq<Range>, from: nat, to: nat)
    requires Sorted(ranges) && NonEmpty(ranges) && from <= to
    requires ExactCover(ranges, from, to)
    ensures Chain(ranges, from, to)
  {
    if ranges == [] {
      assert Owners(ranges, from) == 0;
    } else {
      var r := ranges[0];
      assert Owners(ranges, r.start) >= 1 && Owners(ranges, r.end - 1) >= 1;
      if from < r.start {
        NoOwnerBelow(ranges, from);
      }
      forall b: nat ensures Owners(ranges[1..], b) == if r.end <= b < to then 1 else 0 {
        assert Owners(ranges, b) == if from <= b < to then 1 else 0;
      }
      CoverChains(ranges[1..], r.end, to);
    }
  }

  lemma SortedChainIsExactCover(ranges: seq<Range>, to: nat)
    requires NonEmpty(ranges)
    ensures Chain(SortByStart(ranges), 0, to) <==> ExactCover(ranges, 0, to)
  {
    SortKeeps(ranges);
    if Chain(SortByStart(ranges), 0, to) {
      ChainCovers(SortByStart(ranges), 0, to);
      forall b: nat ensures Owners(ranges, b) == if 0 <= b < to then 1 else 0 {
        assert Owners(SortByStart(ranges), b) == Owners(ranges, b);
      }
    }
    if ExactCover(ranges, 0, to) {
      forall b: nat ensures Owners(SortByStart(ranges), b) == if 0 <= b < to then 1 else 0 {
        assert Owners(SortByStart(ranges), b) == Owners(ranges, b);
      }
      CoverChains(SortByStart(ranges), 0, to);
    }
  }

  function Ranges(tensors: seq<Tensor>): seq<Range> {
    seq(|tensors|, i requires 0 <= i < |tensors| => Range(tensors[i].start, tensors[i].end))
  }

  /** The header is accepted exactly when every entry is well sized and the entries' ranges
      partition the data: each data byte belongs to exactly one tensor. */
  ghost predicate Acceptable(tensors: seq<Tensor>, dataLen: nat) {
    && tensors != []
    && (forall i :: 0 <= i < |tensors| ==> WellSized(tensors[i]))
    && ExactCover(Ranges(tensors), 0, dataLen)
  }

  method ReadShapes(tensors: seq<Tensor>, dataLen: nat) returns (shapes: Option<map<string, seq<nat>>>)
    requires forall i :: 0 <= i < |tensors| ==> Parsed(tensors[i])
    requires forall i, j :: 0 <= i < j < |tensors| ==> tensors[i].name != tensors[j].name  // keys of one JSON object
    ensures shapes.Some? <==> Acceptable(tensors, dataLen)
    ensures shapes.Some? ==> shapes.value.Keys == set t | t in tensors :: t.name
    ensures shapes.Some? ==> forall t :: t in tensors ==> shapes.value[t.name] == t.shape
  {
    hide WellSized, Parsed, ExactCover;
    var ranges: seq<Range>, out: map<string, seq<nat>> := [], map[];
    for i := 0 to |tensors|
      invariant forall j :: 0 <= j < i ==> WellSized(tensors[j])
      invariant ranges == Ranges(tensors[..i])
      invariant out.Keys == set t | t in tensors[..i] :: t.name
      invariant forall j :: 0 <= j < i ==> tensors[j].name in out && out[tensors[j].name] == tensors[j].shape
    {
      var t := tensors[i];
      var ok := CheckSize(t);
      if !ok { return None; }
      ranges := ranges + [Range(t.start, t.end)];
      assert tensors[..i + 1] == tensors[..i] + [t];
      out := out[t.name := t.shape];
    }
    assert tensors[..|tensors|] == tensors;
    if ranges == [] { return None; }
    WellSizedRanges(tensors);
    SortedChainIsExactCover(ranges, dataLen);
    var tiles := CursorWalk(SortByStart(ranges), dataLen);
    if tiles {
      return Some(out);
    }
    return None;
  }

  lemma WellSizedRanges(tensors: seq<Tensor>)
    requires forall i :: 0 <= i < |tensors| ==> WellSized(tensors[i])
    ensures NonEmpty(Ranges(tensors))
  {
    forall i | 0 <= i < |tensors| ensures tensors[i].start < tensors[i].end {
      var width := Width(tensors[i].name, tensors[i].dtype).value;
      assert Product(tensors[i].shape) * width >= 1;
    }
  }

  method CursorWalk(ranges: seq<Range>, dataLen: nat) returns (ok: bool)
    ensures ok == Chain(ranges, 0, dataLen)
  {
    var cursor := 0;
    for i := 0 to |ranges|
      invariant Chain(ranges, 0, dataLen) == Chain(ranges[i..], cursor, dataLen)
    {
      if ranges[i].start != cursor { return false; }
      cursor := ranges[i].end;
    }
    ok := cursor == dataLen;
  }

  /** One owner means one tensor: the byte is in the range of exactly one index. */
  lemma {:induction false} OneOwnerIsUnique(ranges: seq<Range>, b: nat) returns (i: nat)
    requires Owners(ranges, b) == 1
    ensures i < |ranges| && ranges[i].start <= b < ranges[i].end
    ensures forall j :: 0 <= j < |ranges| && ranges[j].start <= b < ranges[j].end ==> j == i
  {
    if ranges[0].start <= b < ranges[0].end {
      i := 0;
      forall j | 0 < j < |ranges| ensures !(ranges[j].start <= b < ranges[j].end) {
        NoOwnerAt(ranges[1..], b, j - 1);
      }
    } else {
      i := OneOwnerIsUnique(ranges[1..], b);
      forall j | 0 <= j < |ranges| && ranges[j].start <= b < ranges[j].end ensures j == i + 1 {
        assert ranges[j] == ranges[1..][j - 1];
      }
      i := i + 1;
    }
  }

  lemma {:induction false} NoOwnerAt(ranges: seq<Range>, b: nat, j: nat)
    requires Owners(ranges, b) == 0 && j < |ranges|
    ensures !(ranges[j].start <= b < ranges[j].end)
  {
    if j > 0 { NoOwnerAt(ranges[1..], b, j - 1); }
  }

  lemma AcceptedByteHasOneTensor(tensors: seq<Tensor>, dataLen: nat, b: nat) returns (i: nat)
    requires Acceptable(tensors, dataLen) && b < dataLen
    ensures i < |tensors| && tensors[i].start <= b < tensors[i].end
    ensures forall j :: 0 <= j < |tensors| && tensors[j].start <= b < tensors[j].end ==> j == i
  {
    i := OneOwnerIsUnique(Ranges(tensors), b);
    forall j | 0 <= j < |tensors| && tensors[j].start <= b < tensors[j].end ensures j == i {
      assert Ranges(tensors)[j] == Range(tensors[j].start, tensors[j].end);
    }
  }

  /** The range at `i` holds the byte. */
  ghost predicate Holder(ranges: seq<Range>, b: nat, i: int) {
    0 <= i < |ranges| && ranges[i].start <= b < ranges[i].end
  }

  lemma {:induction false} OneHolderOwns(ranges: seq<Range>, b: nat, i: int)
    requires Holder(ranges, b, i) && forall j :: Holder(ranges, b, j) ==> j == i
    ensures Owners(ranges, b) == 1
  {
    var rest := ranges[1..];
    assert forall j :: Holder(rest, b, j) ==> Holder(ranges, b, j + 1);
    if i == 0 {
      NoHolderOwns(rest, b);
    } else {
      assert !Holder(ranges, b, 0) && Holder(rest, b, i - 1);
      OneHolderOwns(rest, b, i - 1);
    }
  }

  lemma {:induction false} NoHolderOwns(ranges: seq<Range>, b: nat)
    requires forall j :: !Holder(ranges, b, j)
    ensures Owners(ranges, b) == 0
  {
    if ranges != [] {
      var rest := ranges[1..];
      assert !Holder(ranges, b, 0);
      assert forall j :: Holder(rest, b, j) ==> Holder(ranges, b, j + 1);
      NoHolderOwns(rest, b);
    }
  }

  /** The tensor at `i` holds the byte. */
  ghost predicate HasByte(tensors: seq<Tensor>, b: int, i: int) {
    0 <= i < |tensors| && tensors[i].start <= b < tensors[i].end
  }

  ghost predicate IsHeld(tensors: seq<Tensor>, b: int) {
    exists i :: HasByte(tensors, b, i)
  }

  /** Well sized tensors that hold each byte of the data once, and none beyond it, are accepted, in
      whatever order the header lists them. */
  lemma PartitionIsAccepted(tensors: seq<Tensor>, dataLen: nat)
    requires tensors != [] && forall i :: 0 <= i < |tensors| ==> WellSized(tensors[i])
    requires forall b :: IsHeld(tensors, b) <==> 0 <= b < dataLen
    requires forall b, i, j :: HasByte(tensors, b, i) && HasByte(tensors, b, j) ==> i == j
    ensures Acceptable(tensors, dataLen)
  {
    hide WellSized, Owners;
    var ranges := Ranges(tensors);
    forall b: nat ensures Owners(ranges, b) == if 0 <= b < dataLen then 1 else 0 {
      assert forall i :: Holder(ranges, b, i) <==> HasByte(tensors, b, i);
      if b < dataLen {
        assert IsHeld(tensors, b);
        var i :| HasByte(tensors, b, i);
        OneHolderOwns(ranges, b, i);
      } else {
        assert !IsHeld(tensors, b);
        NoHolderOwns(ranges, b);
      }
    }
  }

  // ---- the layout of a generated file ---------------------------------------------------------

  datatype Field = Field(name: string, shape: seq<nat>)

  predicate PlainName(name: string) {
    name != "alignment_heads" && !Companion(name)
  }

  /** Tensors laid end to end from `from`, two bytes an element. */
  ghost predicate LaidOut(schema: seq<Field>, tensors: seq<Tensor>, from: nat, to: nat) {
    && |tensors| == |schema|
    && (forall i :: 0 <= i < |schema| ==>
          && tensors[i].name == schema[i].name && tensors[i].dtype == "F16" && tensors[i].shape == schema[i].shape
          && tensors[i].start + 2 * Product(schema[i].shape) == tensors[i].end)
    && (schema != [] ==> tensors[0].start == from)
    && (forall i, j :: 0 <= i && j == i + 1 < |schema| ==> tensors[j].start == tensors[i].end)
    && to == if schema == [] then from else tensors[|schema| - 1].end
  }

  /** The bytes that the tensors take. */
  function Payload(schema: seq<Field>): nat {
    if schema == [] then 0
    else Payload(schema[..|schema| - 1]) + 2 * Product(schema[|schema| - 1].shape)
  }

  lemma {:induction false} PayloadGrows(schema: seq<Field>, i: nat)
    requires i <= |schema|
    ensures Payload(schema[..i]) <= Payload(schema)
    ensures i < |schema| ==> Payload(schema[..i]) + 2 * Product(schema[i].shape) <= Payload(schema)
    decreases |schema|
  {
    if i < |schema| {
      var front := schema[..|schema| - 1];
      PayloadGrows(front, i);
      assert front[..i] == schema[..i];
    } else {
      assert schema[..i] == schema;
    }
  }

  lemma PayloadNext(schema: seq<Field>, i: nat)
    requires i < |schema|
    ensures Payload(schema[..i + 1]) == Payload(schema[..i]) + 2 * Product(schema[i].shape)
  {
    assert schema[..i + 1][..i] == schema[..i];
  }

  ghost predicate Writable(schema: seq<Field>) {
    (forall i :: 0 <= i < |schema| ==> Countable(schema[i].shape)) && Payload(schema) < U64
  }

  /** A layout is written exactly when every element count and the whole payload fit in 64 bits. */
  method WriteLayout(schema: seq<Field>) returns (tensors: Option<seq<Tensor>>, dataLen: nat)
    ensures tensors.Some? <==> Writable(schema)
    ensures tensors.Some? ==> LaidOut(schema, tensors.value, 0, dataLen) && dataLen == Payload(schema)
    ensures tensors.Some? ==> forall i :: 0 <= i < |schema| ==> tensors.value[i].end < U64
  {
    hide LaidOut, Product, Countable, Payload;
    dataLen := 0;
    LaidOutNothing();
    var out: seq<Tensor> := [];
    for i := 0 to |schema|
      invariant LaidOut(schema[..i], out, 0, dataLen) && dataLen == Payload(schema[..i]) < U64
      invariant |out| == i && forall j :: 0 <= j < i ==> out[j].end < U64 && Countable(schema[j].shape)
    {
      PayloadGrows(schema, i);
      PayloadNext(schema, i);
      var count := ElementCount(schema[i].shape);
      if count.None? || dataLen + count.value * 2 >= U64 { return None, 0; }
      var end := dataLen + count.value * 2;
      var t := Tensor(schema[i].name, "F16", schema[i].shape, dataLen, end);
      LaidOutExtends(schema[..i], out, dataLen, schema[i], t);
      LaidOutLength(schema[..i], out, dataLen);
      assert schema[..i + 1] == schema[..i] + [schema[i]];
      out := out + [t];
      dataLen := end;
    }
    assert schema[..|schema|] == schema;
    LaidOutLength(schema, out, dataLen);
    tensors := Some(out);
  }

  lemma LaidOutNothing()
    ensures LaidOut([], [], 0, 0) && Payload([]) == 0
  {
  }

  lemma LaidOutLength(schema: seq<Field>, tensors: seq<Tensor>, to: nat)
    requires LaidOut(schema, tensors, 0, to)
    ensures |tensors| == |schema|
  {
  }

  lemma LaidOutExtends(schema: seq<Field>, tensors: seq<Tensor>, to: nat, f: Field, t: Tensor)
    requires LaidOut(schema, tensors, 0, to)
    requires t.name == f.name && t.dtype == "F16" && t.shape == f.shape && t.start == to
    requires t.end == to + Product(f.shape) * 2
    ensures LaidOut(schema + [f], tensors + [t], 0, t.end)
  {
  }

  lemma {:induction false} LaidOutChains(schema: seq<Field>, tensors: seq<Tensor>, from: nat, to: nat)
    requires LaidOut(schema, tensors, from, to)
    ensures Chain(Ranges(tensors), from, to)
  {
    if schema != [] {
      assert Ranges(tensors)[1..] == Ranges(tensors[1..]);
      LaidOutChains(schema[1..], tensors[1..], tensors[0].end, to);
    }
  }

  /** A generated file is accepted exactly when it has tensors and none of them is empty. */
  lemma GeneratedIsAcceptable(schema: seq<Field>, tensors: seq<Tensor>, dataLen: nat)
    requires LaidOut(schema, tensors, 0, dataLen)
    requires forall i :: 0 <= i < |schema| ==> PlainName(schema[i].name) && tensors[i].end < U64
    ensures (Acceptable(tensors, dataLen) <==>
             schema != [] && forall i :: 0 <= i < |schema| ==> Product(schema[i].shape) > 0)
  {
    if forall i :: 0 <= i < |schema| ==> Product(schema[i].shape) > 0 {
      forall i | 0 <= i < |tensors| ensures WellSized(tensors[i]) {
        assert PlainName(schema[i].name);
      }
      WellSizedRanges(tensors);
      LaidOutChains(schema, tensors, 0, dataLen);
      ChainCovers(Ranges(tensors), 0, dataLen);
    } else {
      var i :| 0 <= i < |schema| && Product(schema[i].shape) == 0;
      assert !WellSized(tensors[i]);
    }
  }
}
