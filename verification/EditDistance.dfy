/** The word-level edit distance of the local-helper benchmark.

    The program keeps one row of the dynamic-programming table. What it promises is a
    statement about edit scripts: no way of rewriting one word list into the other is
    cheaper than the number it returns, and one way costs exactly that. */
module EditDistance {

  datatype Word = Word(text: string)

  /** One step of a script, read left to right over both word lists. */
  datatype Op =
    | Pair(from: Word, to: Word)  // align two words; free when they are equal
    | Drop(from: Word)         // delete a word of the left list
    | Add(to: Word)            // insert a word of the right list
  {
    function Cost(): nat {
      if Pair? && from == to then 0 else 1
    }

    function Left(): seq<Word> {
      if Add? then [] else [from]
    }

    function Right(): seq<Word> {
      if Drop? then [] else [to]
    }

    function Flip(): Op {
      match this
      case Pair(x, y) => Pair(y, x)
      case Drop(x) => Add(x)
      case Add(y) => Drop(y)
    }
  }

  type Script = seq<Op>

  function Left(s: Script): seq<Word> {
    if s == [] then [] else Left(s[..|s| - 1]) + s[|s| - 1].Left()
  }

  function Right(s: Script): seq<Word> {
    if s == [] then [] else Right(s[..|s| - 1]) + s[|s| - 1].Right()
  }

  function Cost(s: Script): nat {
    if s == [] then 0 else Cost(s[..|s| - 1]) + s[|s| - 1].Cost()
  }

  ghost predicate Rewrites(s: Script, a: seq<Word>, b: seq<Word>) {
    Left(s) == a && Right(s) == b
  }

  /** `d` is the least cost of any script that rewrites `a` into `b`. */
  ghost predicate IsLeastCost(a: seq<Word>, b: seq<Word>, d: nat) {
    && (exists s: Script :: Rewrites(s, a, b) && Cost(s) == d)
    && (forall s: Script :: Rewrites(s, a, b) ==> d <= Cost(s))
  }

  function Min(x: int, y: int): int {
    if x < y then x else y
  }

  function Bump(x: Word, y: Word): nat {
    if x == y then 0 else 1
  }

  /** `s` followed by one more step. */
  function Then(s: Script, op: Op): (r: Script)
    ensures Left(r) == Left(s) + op.Left()
    ensures Right(r) == Right(s) + op.Right()
    ensures Cost(r) == Cost(s) + op.Cost()
  {
    assert (s + [op])[..|s|] == s;
    s + [op]
  }

  // ---- one step of the recurrence -------------------------------------------------------

  lemma LeastCostFromNothing(b: seq<Word>)
    ensures IsLeastCost([], b, |b|)
  {
    var s := AddAll(b);
    forall t: Script | Rewrites(t, [], b) ensures |b| <= Cost(t) {
      RightOutgrowsLeftAtCost(t);
    }
  }

  lemma {:induction false} AddAll(b: seq<Word>) returns (s: Script)
    ensures Rewrites(s, [], b) && Cost(s) == |b|
  {
    if b == [] {
      s := [];
    } else {
      s := AddAll(b[..|b| - 1]);
      s := Then(s, Add(b[|b| - 1]));
    }
  }

  lemma {:induction false} RightOutgrowsLeftAtCost(s: Script)
    ensures |Right(s)| <= |Left(s)| + Cost(s)
  {
    if s != [] {
      RightOutgrowsLeftAtCost(s[..|s| - 1]);
    }
  }

  /** The cell rule: the last step of a script adds the last word on the right, drops the last
      word on the left, or pairs the two, and each choice leaves a smaller problem. */
  lemma LeastCostStep(a: seq<Word>, b: seq<Word>, x: Word, y: Word, add: nat, drop: nat, pair: nat)
    requires IsLeastCost(a + [x], b, add) && IsLeastCost(a, b + [y], drop) && IsLeastCost(a, b, pair)
    ensures IsLeastCost(a + [x], b + [y], Min(Min(add + 1, drop + 1), pair + Bump(x, y)))
  {
    var d := Min(Min(add + 1, drop + 1), pair + Bump(x, y));
    forall t: Script | Rewrites(t, a + [x], b + [y]) ensures d <= Cost(t) {
      NoneIsCheaper(t, a, b, x, y, add, drop, pair);
    }
    hide Rewrites, Cost;
    if d == add + 1 {
      ScriptWithLastStep(a + [x], b, add, Add(y));
    } else if d == drop + 1 {
      ScriptWithLastStep(a, b + [y], drop, Drop(x));
    } else {
      ScriptWithLastStep(a, b, pair, Pair(x, y));
    }
  }

  lemma NoneIsCheaper(t: Script, a: seq<Word>, b: seq<Word>, x: Word, y: Word, add: nat, drop: nat, pair: nat)
    requires IsLeastCost(a + [x], b, add) && IsLeastCost(a, b + [y], drop) && IsLeastCost(a, b, pair)
    requires Rewrites(t, a + [x], b + [y])
    ensures Min(Min(add + 1, drop + 1), pair + Bump(x, y)) <= Cost(t)
  {
    ScriptOfExtendedLists(t, a, b, x, y);
    hide Rewrites;
  }

  lemma ScriptWithLastStep(a: seq<Word>, b: seq<Word>, d: nat, op: Op)
    requires IsLeastCost(a, b, d)
    ensures exists s: Script :: Rewrites(s, a + op.Left(), b + op.Right()) && Cost(s) == d + op.Cost()
  {
    var s: Script :| Rewrites(s, a, b) && Cost(s) == d;
    assert Rewrites(Then(s, op), a + op.Left(), b + op.Right());
  }

  lemma ScriptOfExtendedLists(t: Script, a: seq<Word>, b: seq<Word>, x: Word, y: Word)
    requires Rewrites(t, a + [x], b + [y])
    ensures t != []
    ensures var s, op := t[..|t| - 1], t[|t| - 1];
      || (op == Add(y) && Rewrites(s, a + [x], b))
      || (op == Drop(x) && Rewrites(s, a, b + [y]))
      || (op == Pair(x, y) && Rewrites(s, a, b))
  {
    var s, op := t[..|t| - 1], t[|t| - 1];
    if !op.Add? { LastWordsAgree(Left(s), op.from, a, x); }
    if !op.Drop? { LastWordsAgree(Right(s), op.to, b, y); }
  }

  // ---- the loop ----------------------------------------------------------------------

  method Compute(left: seq<Word>, right: seq<Word>) returns (distance: nat)
    ensures IsLeastCost(left, right, distance)
  {
    hide IsLeastCost;
    var row: seq<nat> := seq(|right| + 1, j => j);
    forall j | 0 <= j <= |right| ensures IsLeastCost(left[..0], right[..j], row[j]) {
      LeastCostFromNothing(right[..j]);
    }
    for i := 1 to |left| + 1
      invariant |row| == |right| + 1
      invariant forall j :: 0 <= j <= |right| ==> IsLeastCost(left[..i - 1], right[..j], row[j])
    {
      var nextRow: seq<nat> := [i];
      LeastCostFromNothing(left[..i]);
      LeastCostIsSymmetric([], left[..i], i);
      assert right[..0] == [];
      for j := 1 to |right| + 1
        invariant |nextRow| == j
        invariant forall k :: 0 <= k < j ==> IsLeastCost(left[..i], right[..k], nextRow[k])
      {
        var cell := Min(Min(nextRow[j - 1] + 1, row[j] + 1), row[j - 1] + Bump(left[i - 1], right[j - 1]));
        assert left[..i] == left[..i - 1] + [left[i - 1]] && right[..j] == right[..j - 1] + [right[j - 1]];
        LeastCostStep(left[..i - 1], right[..j - 1], left[i - 1], right[j - 1],
                      nextRow[j - 1], row[j], row[j - 1]);
        nextRow := nextRow + [cell];
      }
      row := nextRow;
    }
    distance := row[|right|];
    assert left[..|left|] == left && right[..|right|] == right;
  }

  // ---- it is a metric ----------------------------------------------------------------

  function Flipped(s: Script): Script {
    if s == [] then [] else Then(Flipped(s[..|s| - 1]), s[|s| - 1].Flip())
  }

  lemma {:induction false} FlippedRewritesBack(s: Script)
    ensures Rewrites(Flipped(s), Right(s), Left(s)) && Cost(Flipped(s)) == Cost(s)
  {
    if s != [] {
      FlippedRewritesBack(s[..|s| - 1]);
    }
  }

  lemma LeastCostIsSymmetric(a: seq<Word>, b: seq<Word>, d: nat)
    requires IsLeastCost(a, b, d)
    ensures IsLeastCost(b, a, d)
  {
    var s: Script :| Rewrites(s, a, b) && Cost(s) == d;
    FlippedRewritesBack(s);
    assert Rewrites(Flipped(s), b, a);
    forall t: Script | Rewrites(t, b, a) ensures d <= Cost(t) {
      FlippedRewritesBack(t);
      assert Rewrites(Flipped(t), a, b);
    }
  }

  /** Run `s` and then `t` as one script, dropping what `s` adds only for `t` to delete. */
  lemma {:induction false} Compose(s: Script, t: Script) returns (st: Script)
    requires Right(s) == Left(t)
    ensures Rewrites(st, Left(s), Right(t)) && Cost(st) <= Cost(s) + Cost(t)
    decreases |s| + |t|
  {
    if s == [] && t == [] {
      st := [];
    } else if s != [] && s[|s| - 1].Drop? {
      assert Right(s) == Right(s[..|s| - 1]);
      st := Compose(s[..|s| - 1], t);
      st := Then(st, s[|s| - 1]);
    } else if t != [] && t[|t| - 1].Add? {
      assert Left(t) == Left(t[..|t| - 1]);
      st := Compose(s, t[..|t| - 1]);
      st := Then(st, t[|t| - 1]);
    } else {
      var s', t', x, y := s[..|s| - 1], t[..|t| - 1], s[|s| - 1], t[|t| - 1];
      LastWordsAgree(Right(s'), x.to, Left(t'), y.from);
      st := Compose(s', t');
      st := ComposeLast(st, Left(s'), Right(t'), x, y);
    }
  }

  lemma LastWordsAgree(a: seq<Word>, x: Word, b: seq<Word>, y: Word)
    requires a + [x] == b + [y]
    ensures a == b && x == y
  {
    assert a == (a + [x])[..|a|] && b == (b + [y])[..|b|];
    assert x == (a + [x])[|a|];
  }

  lemma ComposeLast(s: Script, a: seq<Word>, c: seq<Word>, x: Op, y: Op) returns (st: Script)
    requires Rewrites(s, a, c) && !x.Drop? && !y.Add? && x.to == y.from
    ensures Rewrites(st, a + x.Left(), c + y.Right()) && Cost(st) <= Cost(s) + x.Cost() + y.Cost()
  {
    match (x, y)
    case (Pair(u, _), Pair(_, w)) => st := Then(s, Pair(u, w));
    case (Pair(u, _), Drop(_)) => st := Then(s, Drop(u));
    case (Add(_), Pair(_, w)) => st := Then(s, Add(w));
    case (Add(_), Drop(_)) => st := s;
  }

  lemma LeastCostTriangle(a: seq<Word>, b: seq<Word>, c: seq<Word>, ab: nat, bc: nat, ac: nat)
    requires IsLeastCost(a, b, ab) && IsLeastCost(b, c, bc) && IsLeastCost(a, c, ac)
    ensures ac <= ab + bc
  {
    var s: Script :| Rewrites(s, a, b) && Cost(s) == ab;
    var t: Script :| Rewrites(t, b, c) && Cost(t) == bc;
    var st := Compose(s, t);
  }

  lemma {:induction false} FreeScriptCopies(s: Script)
    requires Cost(s) == 0
    ensures Left(s) == Right(s)
  {
    if s != [] {
      FreeScriptCopies(s[..|s| - 1]);
    }
  }

  lemma LeastCostZeroMeansEqual(a: seq<Word>, b: seq<Word>, d: nat)
    requires IsLeastCost(a, b, d)
    ensures d == 0 <==> a == b
  {
    if d == 0 {
      var s: Script :| Rewrites(s, a, b) && Cost(s) == d;
      FreeScriptCopies(s);
    }
    if a == b {
      var s := Copy(a);
    }
  }

  lemma {:induction false} Copy(a: seq<Word>) returns (s: Script)
    ensures Rewrites(s, a, a) && Cost(s) == 0
  {
    if a == [] {
      s := [];
    } else {
      s := Copy(a[..|a| - 1]);
      s := Then(s, Pair(a[|a| - 1], a[|a| - 1]));
    }
  }

  /** Align the lists word by word and add or drop what is left over. */
  lemma {:induction false} Align(a: seq<Word>, b: seq<Word>) returns (s: Script)
    ensures Rewrites(s, a, b) && (Cost(s) <= |a| || Cost(s) <= |b|)
  {
    if a == [] {
      s := AddAll(b);
    } else if b == [] {
      s := AddAll(a);
      FlippedRewritesBack(s);
      s := Flipped(s);
    } else {
      s := Align(a[..|a| - 1], b[..|b| - 1]);
      s := Then(s, Pair(a[|a| - 1], b[|b| - 1]));
    }
  }

  /** Changing a word costs no more than adding one: the distance is at most the longer length, and
      at least the difference of the two lengths. */
  lemma LeastCostIsBounded(a: seq<Word>, b: seq<Word>, d: nat)
    requires IsLeastCost(a, b, d)
    ensures |b| - |a| <= d && |a| - |b| <= d
    ensures d <= |a| || d <= |b|
  {
    var s: Script :| Rewrites(s, a, b) && Cost(s) == d;
    RightOutgrowsLeftAtCost(s);
    FlippedRewritesBack(s);
    RightOutgrowsLeftAtCost(Flipped(s));
    var t := Align(a, b);
  }

  /** Lists that differ in one word are at distance one. */
  lemma OneChangeCostsOne(front: seq<Word>, x: Word, y: Word, back: seq<Word>, d: nat)
    requires x != y && IsLeastCost(front + [x] + back, front + [y] + back, d)
    ensures d == 1
  {
    var a, b := front + [x] + back, front + [y] + back;
    assert a[|front|] != b[|front|];
    LeastCostZeroMeansEqual(a, b, d);
    var s := Copy(front);
    s := Then(s, Pair(x, y));
    s := CopyOn(s, front + [x], front + [y], back);
  }

  lemma {:induction false} CopyOn(s: Script, a: seq<Word>, b: seq<Word>, more: seq<Word>) returns (t: Script)
    requires Rewrites(s, a, b)
    ensures Rewrites(t, a + more, b + more) && Cost(t) == Cost(s)
  {
    if more == [] {
      t := s;
      assert a + more == a && b + more == b;
    } else {
      var last := more[|more| - 1];
      t := CopyOn(s, a, b, more[..|more| - 1]);
      t := Then(t, Pair(last, last));
      assert a + more == a + more[..|more| - 1] + [last] && b + more == b + more[..|more| - 1] + [last];
    }
  }
}
