/** The name rewriting of the Whisper loader: substring replacements, one after another, over
    names that carry a decimal layer number. */
module WeightNames {

  // ---- substring replacement ---------------------------------------------------------------

  /** Replace every occurrence from the left, without overlap. */
  function Replace(s: string, pat: string, rep: string): string
    requires pat != ""
  {
    if |s| < |pat| then s
    else if s[..|pat|] == pat then rep + Replace(s[|pat|..], pat, rep)
    else [s[0]] + Replace(s[1..], pat, rep)
  }

  /** Nowhere in `s` is `x` followed by `y`. */
  ghost predicate Lacks(s: string, x: char, y: char) {
    forall i, j :: 0 <= i && j == i + 1 < |s| ==> !(s[i] == x && s[j] == y)
  }

  lemma {:induction false} ReplaceSkips(s: string, pat: string, rep: string, k: nat)
    requires k + 1 < |pat| && Lacks(s, pat[k], pat[k + 1])
    ensures Replace(s, pat, rep) == s
  {
    if |s| >= |pat| {
      assert s[..|pat|] != pat by {
        assert s[k] == s[..|pat|][k] && s[k + 1] == s[..|pat|][k + 1];
      }
      ReplaceSkips(s[1..], pat, rep, k);
    }
  }

  /** A first character that cannot begin an occurrence is copied. */
  lemma ReplaceCopies(c: char, t: string, pat: string, rep: string)
    requires |pat| >= 2 && t != "" && !(c == pat[0] && t[0] == pat[1])
    ensures Replace([c] + t, pat, rep) == [c] + Replace(t, pat, rep)
  {
    var s := [c] + t;
    assert s[1..] == t;
    if |s| >= |pat| {
      assert s[..|pat|][0] == c && s[..|pat|][1] == t[0];
    }
  }

  lemma ReplaceAtFront(b: string, pat: string, rep: string)
    requires pat != ""
    ensures Replace(pat + b, pat, rep) == rep + Replace(b, pat, rep)
  {
    assert (pat + b)[..|pat|] == pat && (pat + b)[|pat|..] == b;
  }

  /** The first occurrence of `pat` is right after `a`. */
  ghost predicate FirstAfter(a: string, pat: string)
    requires |pat| >= 2
  {
    forall i, j :: 0 <= i < |a| && j == i + 1 ==> !((a + pat)[i] == pat[0] && (a + pat)[j] == pat[1])
  }

  lemma {:induction false} ReplaceHits(a: string, b: string, pat: string, rep: string)
    requires |pat| >= 2 && FirstAfter(a, pat)
    ensures Replace(a + pat + b, pat, rep) == a + rep + Replace(b, pat, rep)
  {
    hide Replace;
    if a == "" {
      ReplaceAtFront(b, pat, rep);
      assert a + pat + b == pat + b && a + rep == rep;
    } else {
      var c, rest := a[0], a[1..];
      assert a + pat == [c] + (rest + pat);
      var t := rest + pat + b;
      assert t[0] == (a + pat)[1] && c == (a + pat)[0];
      ReplaceCopies(c, t, pat, rep);
      FirstAfterRest(a, pat);
      ReplaceHits(rest, b, pat, rep);
      assert a + pat + b == [c] + t;
      assert a + rep + Replace(b, pat, rep) == [c] + (rest + rep + Replace(b, pat, rep));
    }
  }

  lemma FirstAfterRest(a: string, pat: string)
    requires |pat| >= 2 && a != "" && FirstAfter(a, pat)
    ensures FirstAfter(a[1..], pat)
  {
    var whole, less := a + pat, a[1..] + pat;
    assert whole[1..] == less;
    forall i, j | 0 <= i < |a[1..]| && j == i + 1
      ensures !(less[i] == pat[0] && less[j] == pat[1])
    {
      assert less[i] == whole[i + 1] && less[j] == whole[j + 1];
    }
  }

  /** No occurrence of `pat` can straddle the seam between `a` and `b`. */
  ghost predicate Seam(a: string, b: string, pat: string) {
    a != "" && b != "" ==> Lacks(pat, a[|a| - 1], b[0])
  }

  lemma StraddlingIsImpossible(a: string, b: string, pat: string)
    requires a != "" && b != "" && Lacks(pat, a[|a| - 1], b[0]) && |a| < |pat| <= |a + b|
    ensures (a + b)[..|pat|] != pat
  {
    var front := (a + b)[..|pat|];
    assert front[|a| - 1] == a[|a| - 1] && front[|a|] == b[0];
  }

  lemma {:induction false} ReplaceSplits(a: string, b: string, pat: string, rep: string)
    requires pat != "" && Seam(a, b, pat)
    ensures Replace(a + b, pat, rep) == Replace(a, pat, rep) + Replace(b, pat, rep)
    decreases |a|
  {
    if a == "" {
      assert a + b == b;
    } else if |a| >= |pat| && a[..|pat|] == pat {
      ReplaceSplits(a[|pat|..], b, pat, rep);
      ReplaceAtFront(a[|pat|..] + b, pat, rep);
      assert a + b == pat + (a[|pat|..] + b);
    } else {
      assert |a + b| >= |pat| ==> (a + b)[..|pat|] != pat by {
        if |a| >= |pat| {
          assert (a + b)[..|pat|] == a[..|pat|];
        } else if |a + b| >= |pat| {
          StraddlingIsImpossible(a, b, pat);
        }
      }
      ReplaceSplits(a[1..], b, pat, rep);
      ReplaceMoves(a, b, pat, rep);
    }
  }

  /** Away from an occurrence the first character is copied, also near the end. */
  lemma ReplaceSteps(s: string, pat: string, rep: string)
    requires pat != "" && s != "" && (|s| >= |pat| ==> s[..|pat|] != pat)
    ensures Replace(s, pat, rep) == [s[0]] + Replace(s[1..], pat, rep)
  {
    if |s| < |pat| { assert s == [s[0]] + s[1..]; }
  }

  lemma ReplaceMoves(a: string, b: string, pat: string, rep: string)
    requires pat != "" && a != ""
    requires |a + b| >= |pat| ==> (a + b)[..|pat|] != pat
    requires |a| >= |pat| ==> a[..|pat|] != pat
    requires Replace(a[1..] + b, pat, rep) == Replace(a[1..], pat, rep) + Replace(b, pat, rep)
    ensures Replace(a + b, pat, rep) == Replace(a, pat, rep) + Replace(b, pat, rep)
  {
    hide Replace;
    ReplaceSteps(a, pat, rep);
    ReplaceSteps(a + b, pat, rep);
    assert (a + b)[1..] == a[1..] + b;
    var first, r, t := [a[0]], Replace(a[1..], pat, rep), Replace(b, pat, rep);
    assert first + (r + t) == (first + r) + t;
  }

  lemma {:induction false} ReplaceKeepsLast(s: string, pat: string, rep: string, c: char)
    requires s != "" && s[|s| - 1] == c && pat != ""
    requires pat[|pat| - 1] == c ==> rep != "" && rep[|rep| - 1] == c
    ensures var r := Replace(s, pat, rep); r != "" && r[|r| - 1] == c
  {
    if |s| < |pat| {
    } else if s[..|pat|] == pat {
      if |s| > |pat| {
        ReplaceKeepsLast(s[|pat|..], pat, rep, c);
      } else {
        assert s[|s| - 1] == s[..|pat|][|pat| - 1];
      }
    } else {
      if |s| > 1 { ReplaceKeepsLast(s[1..], pat, rep, c); }
    }
  }

  lemma ReplaceKeepsFirst(s: string, pat: string, rep: string, c: char)
    requires s != "" && s[0] == c && pat != ""
    requires pat[0] == c ==> rep != "" && rep[0] == c
    ensures var r := Replace(s, pat, rep); r != "" && r[0] == c
  {
    if |s| >= |pat| && s[..|pat|] == pat {
      assert s[0] == s[..|pat|][0];
    }
  }

  // ---- the rewriting rules -----------------------------------------------------------------

  const RULES: nat := 15

  function Pat(i: nat): string
    requires i < RULES
  {
    match i
    case 0 => "blocks"
    case 1 => "mlp1"
    case 2 => "mlp2"
    case 3 => "decoder.ln"
    case 4 => "cross_attn_ln"
    case 5 => "attn_ln"
    case 6 => "mlp_ln"
    case 7 => "ln_post"
    case 8 => "cross_attn"
    case 9 => ".attn."
    case 10 => "query"
    case 11 => "key"
    case 12 => "value"
    case 13 => ".out."
    case _ => "decoder." + "token_embedding"
  }

  function Rep(i: nat): string
    requires i < RULES
  {
    match i
    case 0 => "layers"
    case 1 => "fc1"
    case 2 => "fc2"
    case 3 => "decoder." + "layer_norm"
    case 4 => "encoder_attn" + "_layer_norm"
    case 5 => "self_attn" + "_layer_norm"
    case 6 => "final" + "_layer_norm"
    case 7 => "layer_norm"
    case 8 => "encoder_attn"
    case 9 => ".self_attn."
    case 10 => "q_proj"
    case 11 => "k_proj"
    case 12 => "v_proj"
    case 13 => ".out_proj."
    case _ => "decoder." + "embed_tokens"
  }

  /** The rules from `i` on, in order. */
  function Apply(s: string, i: nat): string
    requires i <= RULES
    decreases RULES - i
  {
    if i == RULES then s else Apply(Replace(s, Pat(i), Rep(i)), i + 1)
  }

  function MapName(name: string): string {
    var rewritten := Apply(name, 0);
    var rooted := if "model." <= rewritten then rewritten else "model." + rewritten;
    var special := if rooted == "model." + POSITIONAL
      then "model." + ("decoder." + "embed_positions" + ".weight") else rooted;
    Replace(special, ".biases", ".bias")
  }

  // ---- names that a rule misses ---------------------------------------------------------------

  /** Two neighbouring characters of the pattern; a name without them is left alone. For three
      patterns either of two pairs serves. */
  function Mark(i: nat, second: bool): (char, char)
    requires i <= RULES
  {
    match i
    case 0 => ('b', 'l')
    case 1 => ('p', '1')
    case 2 => ('p', '2')
    case 3 => if second then ('l', 'n') else ('e', 'c')
    case 4 => if second then ('_', 'l') else ('c', 'r')
    case 5 => if second then ('l', 'n') else ('a', 't')
    case 6 => ('m', 'l')
    case 7 => ('l', 'n')
    case 8 => ('c', 'r')
    case 9 => ('.', 'a')
    case 10 => ('q', 'u')
    case 11 => ('e', 'y')
    case 12 => ('v', 'a')
    case 13 => ('.', 'o')
    case 14 => ('.', 't')
    case _ => ('e', 's')  // of the closing replacement, ".biases"
  }

  function MarkAt(i: nat, second: bool): nat
    requires i < RULES
  {
    match i
    case 1 => 2
    case 2 => 2
    case 3 => if second then 8 else 1
    case 4 => if second then 10 else 0
    case 5 => if second then 5 else 0
    case 11 => 1
    case 14 => 7
    case _ => 0
  }

  lemma MarksAreInPatterns(i: nat, second: bool)
    requires i < RULES
    ensures |Pat(i)| >= 2 && MarkAt(i, second) + 1 < |Pat(i)|
    ensures (Pat(i)[MarkAt(i, second)], Pat(i)[MarkAt(i, second) + 1]) == Mark(i, second)
  {
  }

  /** The pair is the mark of one of the rules `lo`, ..., `hi - 1`. */
  predicate Marked(x: char, y: char, lo: nat, hi: nat, second: bool) {
    || (lo <= 0 < hi && x == 'b' && y == 'l')
    || (lo <= 1 < hi && x == 'p' && y == '1')
    || (lo <= 2 < hi && x == 'p' && y == '2')
    || (lo <= 3 < hi && if second then x == 'l' && y == 'n' else x == 'e' && y == 'c')
    || (lo <= 4 < hi && if second then x == '_' && y == 'l' else x == 'c' && y == 'r')
    || (lo <= 5 < hi && if second then x == 'l' && y == 'n' else x == 'a' && y == 't')
    || (lo <= 6 < hi && x == 'm' && y == 'l')
    || (lo <= 7 < hi && x == 'l' && y == 'n')
    || (lo <= 8 < hi && x == 'c' && y == 'r')
    || (lo <= 9 < hi && x == '.' && y == 'a')
    || (lo <= 10 < hi && x == 'q' && y == 'u')
    || (lo <= 11 < hi && x == 'e' && y == 'y')
    || (lo <= 12 < hi && x == 'v' && y == 'a')
    || (lo <= 13 < hi && x == '.' && y == 'o')
    || (lo <= 14 < hi && x == '.' && y == 't')
    || (lo <= 15 < hi && x == 'e' && y == 's')
  }

  /** No pair of `s` from position `k` on is a mark of those rules. */
  predicate Clear(s: string, k: nat, lo: nat, hi: nat, second: bool)
    decreases |s| - k
  {
    k + 1 >= |s| || (!Marked(s[k], s[k + 1], lo, hi, second) && Clear(s, k + 1, lo, hi, second))
  }

  lemma {:induction false} ClearLacks(s: string, k: nat, lo: nat, hi: nat, second: bool, r: nat)
    requires lo <= r < hi <= RULES + 1 && Clear(s, k, lo, hi, second)
    ensures forall i, j :: k <= i && j == i + 1 < |s| ==> (s[i], s[j]) != Mark(r, second)
    decreases |s| - k
  {
    if k + 1 < |s| {
      assert (s[k], s[k + 1]) != Mark(r, second);
      hide Marked, Mark;
      ClearLacks(s, k + 1, lo, hi, second, r);
    }
  }

  lemma {:induction false} ClearJoins(a: string, b: string, k: nat, lo: nat, hi: nat, second: bool)
    requires k <= |a| && Clear(a, k, lo, hi, second) && Clear(b, 0, lo, hi, second)
    requires a != "" && b != "" ==> !Marked(a[|a| - 1], b[0], lo, hi, second)
    ensures Clear(a + b, k, lo, hi, second)
    decreases |a| - k
  {
    hide Marked;
    if k < |a| {
      ClearJoins(a, b, k + 1, lo, hi, second);
    } else {
      ClearAfter(a, b, 0, lo, hi, second);
    }
  }

  lemma {:induction false} ClearAfter(a: string, b: string, k: nat, lo: nat, hi: nat, second: bool)
    requires k <= |b| && Clear(b, k, lo, hi, second)
    ensures Clear(a + b, |a| + k, lo, hi, second)
    decreases |b| - k
  {
    hide Marked;
    if k + 1 < |b| {
      ClearAfter(a, b, k + 1, lo, hi, second);
    }
  }

  lemma ClearIsUntouched(s: string, lo: nat, hi: nat, second: bool, i: nat)
    requires lo <= i < hi <= RULES && Clear(s, 0, lo, hi, second)
    ensures Replace(s, Pat(i), Rep(i)) == s
  {
    MarksAreInPatterns(i, second);
    ClearLacks(s, 0, lo, hi, second, i);
    hide Pat, Rep, Mark, MarkAt;
    ReplaceSkips(s, Pat(i), Rep(i), MarkAt(i, second));
  }

  lemma {:induction false} SkipTo(s: string, i: nat, j: nat, lo: nat, second: bool)
    requires lo <= i <= j <= RULES && Clear(s, 0, lo, j, second)
    ensures Apply(s, i) == Apply(s, j)
    decreases j - i
  {
    hide Pat, Rep, Replace;
    if i < j {
      ClearIsUntouched(s, lo, j, second, i);
      SkipTo(s, i + 1, j, lo, second);
    }
  }

  /** The rules before `j` miss, rule `j` rewrites the one occurrence between `a` and `b`. */
  lemma HitAt(s: string, i: nat, j: nat, second: bool, a: string, b: string, t: string)
    requires i <= j < RULES && s == a + Pat(j) + b && t == a + Rep(j) + b
    requires |Pat(j)| >= 2 && FirstAfter(a, Pat(j))
    requires Clear(s, 0, i, j, second) && Clear(b, 0, j, j + 1, second)
    ensures Apply(s, i) == Apply(t, j + 1)
  {
    hide Pat, Rep, Replace;
    SkipTo(s, i, j, i, second);
    ReplaceHits(a, b, Pat(j), Rep(j));
    ClearIsUntouched(b, j, j + 1, second, j);
  }

  lemma FinishFrom(s: string, i: nat, second: bool)
    requires i <= RULES && Clear(s, 0, i, RULES, second)
    ensures Apply(s, i) == s
  {
    SkipTo(s, i, RULES, i, second);
  }

  /** As `HitAt`, looking at the three parts one by one. */
  lemma HitParts(a: string, pat: string, b: string, rep: string, i: nat, j: nat, second: bool)
    requires i <= j < RULES && pat == Pat(j) && rep == Rep(j) && |pat| >= 2 && FirstAfter(a, pat)
    requires Clear(a, 0, i, j, second) && Clear(pat, 0, i, j, second) && Clear(b, 0, i, j, second)
    requires a != "" ==> !Marked(a[|a| - 1], pat[0], i, j, second)
    requires b != "" ==> !Marked(pat[|pat| - 1], b[0], i, j, second)
    requires Clear(b, 0, j, j + 1, second)
    ensures Apply(a + pat + b, i) == Apply(a + rep + b, j + 1)
  {
    hide Pat, Rep, Marked, Apply;
    ClearJoins(a, pat, 0, i, j, second);
    ClearJoins(a + pat, b, 0, i, j, second);
    hide Clear;
    HitAt(a + pat + b, i, j, second, a, b, a + rep + b);
  }

  lemma FinishParts(a: string, b: string, i: nat, second: bool)
    requires i <= RULES && Clear(a, 0, i, RULES, second) && Clear(b, 0, i, RULES, second)
    requires a != "" && b != "" ==> !Marked(a[|a| - 1], b[0], i, RULES, second)
    ensures Apply(a + b, i) == a + b
  {
    ClearJoins(a, b, 0, i, RULES, second);
    FinishFrom(a + b, i, second);
  }

  // ---- names put together --------------------------------------------------------------------

  /** The rules rewrite the two sides of this seam one by one, for ever. */
  ghost predicate SafeSeam(c: char, d: char) {
    forall r :: 0 <= r < RULES ==> SeamFor(r, c, d)
  }

  ghost predicate SeamFor(r: nat, c: char, d: char)
    requires r < RULES
  {
    && Lacks(Pat(r), c, d)
    && |Pat(r)| >= 2 && |Rep(r)| >= 2
    && (Pat(r)[|Pat(r)| - 1] == c ==> Rep(r)[|Rep(r)| - 1] == c)
  }

  /** Inside a pattern there is no digit before the end, and only `l`, `a`, `o`, `t` follow a dot. */
  predicate Plain(s: string, k: nat)
    decreases |s| - k
  {
    k + 1 >= |s|
    || (!('0' <= s[k] <= '9') && (s[k] == '.' ==> s[k + 1] in "laot") && Plain(s, k + 1))
  }

  lemma {:induction false} PlainLacks(s: string, k: nat, c: char, d: char)
    requires Plain(s, k)
    requires '0' <= c <= '9' || (c == '.' && d !in "laot")
    ensures forall i, j :: k <= i && j == i + 1 < |s| ==> !(s[i] == c && s[j] == d)
    decreases |s| - k
  {
    if k + 1 < |s| {
      PlainLacks(s, k + 1, c, d);
    }
  }

  lemma PatternsArePlain(r: nat)
    requires r < RULES
    ensures Plain(Pat(r), 0)
  {
    if r < 8 { FirstPatternsArePlain(r); } else { LastPatternsArePlain(r); }
  }

  lemma FirstPatternsArePlain(r: nat)
    requires r < 8
    ensures Plain(Pat(r), 0)
  {
    match r
    case 0 => assert Plain("blocks", 0);
    case 1 => assert Plain("mlp1", 0);
    case 2 => assert Plain("mlp2", 0);
    case 3 => assert Plain("decoder.ln", 0);
    case 4 => assert Plain("cross_attn_ln", 0);
    case 5 => assert Plain("attn_ln", 0);
    case 6 => assert Plain("mlp_ln", 0);
    case _ => assert Plain("ln_post", 0);
  }

  lemma LastPatternsArePlain(r: nat)
    requires 8 <= r < RULES
    ensures Plain(Pat(r), 0)
  {
    match r
    case 8 => assert Plain("cross_attn", 0);
    case 9 => assert Plain(".attn.", 0);
    case 10 => assert Plain("query", 0);
    case 11 => assert Plain("key", 0);
    case 12 => assert Plain("value", 0);
    case 13 => assert Plain(".out.", 0);
    case _ => PlainJoins("decoder.", "token_embedding", 0);
  }

  lemma {:induction false} PlainJoins(a: string, b: string, k: nat)
    requires k <= |a| && Plain(a, k) && Plain(b, 0)
    requires a != "" && b != "" ==> !('0' <= a[|a| - 1] <= '9') && (a[|a| - 1] == '.' ==> b[0] in "laot")
    ensures Plain(a + b, k)
    decreases |a| - k
  {
    if k < |a| {
      PlainJoins(a, b, k + 1);
    } else {
      PlainAfter(a, b, 0);
    }
  }

  lemma {:induction false} PlainAfter(a: string, b: string, k: nat)
    requires k <= |b| && Plain(b, k)
    ensures Plain(a + b, |a| + k)
    decreases |b| - k
  {
    if k + 1 < |b| {
      PlainAfter(a, b, k + 1);
    }
  }

  /** A dot or digit at an end of a pattern, and the first letter of a projection, survive. */
  predicate EndsKept(p: string, q: string)
    requires p != "" && q != ""
  {
    var first, last := p[0], p[|p| - 1];
    && (last == '.' || '0' <= last <= '9' ==> q[|q| - 1] == last)
    && (first == '.' || first == 'k' || first == 'q' || first == 'v' ==> q[0] == first)
    && !('0' <= first <= '9') && first != 'w'
  }

  lemma PatternEnds(r: nat)
    requires r < RULES
    ensures |Pat(r)| >= 2 && |Rep(r)| >= 2 && EndsKept(Pat(r), Rep(r))
  {
    if r < 8 { FirstPatternEnds(r); } else { LastPatternEnds(r); }
  }

  lemma FirstPatternEnds(r: nat)
    requires r < 8
    ensures |Pat(r)| >= 2 && |Rep(r)| >= 2 && EndsKept(Pat(r), Rep(r))
  {
    match r
    case 0 => assert EndsKept("blocks", "layers");
    case 1 => assert EndsKept("mlp1", "fc1");
    case 2 => assert EndsKept("mlp2", "fc2");
    case 3 => assert EndsKept("decoder.ln", "decoder." + "layer_norm");
    case 4 => assert EndsKept("cross_attn_ln", "encoder_attn" + "_layer_norm");
    case 5 => assert EndsKept("attn_ln", "self_attn" + "_layer_norm");
    case 6 => assert EndsKept("mlp_ln", "final" + "_layer_norm");
    case _ => assert EndsKept("ln_post", "layer_norm");
  }

  lemma LastPatternEnds(r: nat)
    requires 8 <= r < RULES
    ensures |Pat(r)| >= 2 && |Rep(r)| >= 2 && EndsKept(Pat(r), Rep(r))
  {
    match r
    case 8 => assert EndsKept("cross_attn", "encoder_attn");
    case 9 => assert EndsKept(".attn.", ".self_attn.");
    case 10 => assert EndsKept("query", "q_proj");
    case 11 => assert EndsKept("key", "k_proj");
    case 12 => assert EndsKept("value", "v_proj");
    case 13 => assert EndsKept(".out.", ".out_proj.");
    case _ => assert EndsKept("decoder." + "token_embedding", "decoder." + "embed_tokens");
  }

  lemma SeamIsSafe(c: char, d: char)
    requires '0' <= c <= '9' || (c == '.' && d !in "laot")
    ensures SafeSeam(c, d)
  {
    hide Pat, Rep;
    forall r | 0 <= r < RULES ensures SeamFor(r, c, d) {
      PatternsArePlain(r);
      PlainLacks(Pat(r), 0, c, d);
      PatternEnds(r);
      hide Plain;
    }
  }

  /** A rewriting rule never moves a character across a safe seam, so the parts are rewritten
      apart; the right part starts with a character that survives, or no rule touches it. */
  lemma {:induction false} ApplySplits(a: string, b: string, i: nat, second: bool)
    requires i <= RULES && a != "" && b != "" && SafeSeam(a[|a| - 1], b[0])
    requires b[0] in ".kqv" || Clear(b, 0, 0, RULES, second)
    ensures Apply(a + b, i) == Apply(a, i) + Apply(b, i)
    decreases RULES - i
  {
    hide Pat, Rep, Clear;
    if i < RULES {
      var pat, rep, c := Pat(i), Rep(i), a[|a| - 1];
      assert SeamFor(i, c, b[0]);
      PatternEnds(i);
      hide Lacks, Seam;
      assert Seam(a, b, pat) by { SeamMeans(a, b, pat); }
      ReplaceSplits(a, b, pat, rep);
      ReplaceKeepsLast(a, pat, rep, c);
      if b[0] in ".kqv" {
        ReplaceKeepsFirst(b, pat, rep, b[0]);
      } else {
        ClearIsUntouched(b, 0, RULES, second, i);
      }
      hide Replace;
      ApplySplits(Replace(a, pat, rep), Replace(b, pat, rep), i + 1, second);
    }
  }

  lemma SeamMeans(a: string, b: string, pat: string)
    requires a != "" && b != "" && Lacks(pat, a[|a| - 1], b[0])
    ensures Seam(a, b, pat)
  {
  }

  // ---- the pieces of a tensor name ------------------------------------------------------------

  datatype Attention = Itself | Cross
  datatype Projection = Key | Query | Value | Out
  datatype Part =
    | Proj(attention: Attention, projection: Projection)
    | AttentionNorm
    | CrossNorm
    | Mlp1
    | Mlp2
    | MlpNorm
  datatype Leaf = Weight | Bias
  datatype Stem = Conv1 | Conv2 | LnPost | TokenEmbedding | DecoderNorm

  function AttentionText(a: Attention): string {
    match a case Itself => ".attn" case Cross => ".cross_attn"
  }

  function ProjectionText(p: Projection): string {
    match p case Key => "key." case Query => "query." case Value => "value." case Out => "out."
  }

  function PartText(part: Part): string {
    match part
    case Proj(a, p) => AttentionText(a) + "." + ProjectionText(p)
    case AttentionNorm => ".attn_ln."
    case CrossNorm => "." + "cross_attn_ln" + "."
    case Mlp1 => ".mlp1."
    case Mlp2 => ".mlp2."
    case MlpNorm => ".mlp_ln."
  }

  function LeafText(leaf: Leaf): string {
    match leaf case Weight => "weight" case Bias => "bias"
  }

  function SideText(decoder: bool): string {
    if decoder then "decoder." else "encoder."
  }

  function StemText(stem: Stem): string {
    match stem
    case Conv1 => "encoder." + "conv1."
    case Conv2 => "encoder." + "conv2."
    case LnPost => "encoder." + "ln_post."
    case TokenEmbedding => "decoder." + "token_embedding" + "."
    case DecoderNorm => "decoder." + "ln."
  }

  // ---- what each piece becomes ----------------------------------------------------------------

  function MappedAttention(a: Attention): string {
    match a case Itself => ".self_attn" case Cross => ".encoder_attn"
  }

  function MappedProjection(p: Projection): string {
    match p case Key => "k_proj." case Query => "q_proj." case Value => "v_proj." case Out => "out_proj."
  }

  function MappedPart(part: Part): string {
    match part
    case Proj(a, p) => MappedAttention(a) + "." + MappedProjection(p)
    case AttentionNorm => ".self_attn" + "_layer_norm" + "."
    case CrossNorm => ".encoder_attn" + "_layer_norm" + "."
    case Mlp1 => ".fc1."
    case Mlp2 => ".fc2."
    case MlpNorm => ".final" + "_layer_norm" + "."
  }

  function MappedStem(stem: Stem): string {
    match stem
    case Conv1 => "encoder." + "conv1."
    case Conv2 => "encoder." + "conv2."
    case LnPost => "encoder." + "layer_norm" + "."
    case TokenEmbedding => "decoder." + "embed_tokens" + "."
    case DecoderNorm => "decoder." + "layer_norm" + "."
  }

  lemma ProjectionIsMapped(p: Projection)
    requires p != Out
    ensures Apply(ProjectionText(p), 0) == MappedProjection(p)
  {
    hide Apply;
    match p
    case Key =>
      HitAt("key.", 0, 11, false, "", ".", "k_proj.");
      FinishFrom("k_proj.", 12, false);
    case Query =>
      HitAt("query.", 0, 10, false, "", ".", "q_proj.");
      FinishFrom("q_proj.", 11, false);
    case Value =>
      HitAt("value.", 0, 12, false, "", ".", "v_proj.");
      FinishFrom("v_proj.", 13, false);
  }

  lemma AttentionIsMapped(a: Attention)
    ensures Apply(AttentionText(a) + ".", 0) == MappedAttention(a) + "."
  {
    match a
    case Itself => OwnAttentionIsMapped();
    case Cross => CrossAttentionIsMapped();
  }

  lemma OwnAttentionIsMapped()
    ensures Apply(AttentionText(Itself) + ".", 0) == MappedAttention(Itself) + "."
  {
    hide Apply;
    assert ".attn" + "." == "" + ".attn." + "";
    HitParts("", ".attn.", "", ".self_attn.", 0, 9, true);
    assert "" + ".self_attn." + "" == ".self_attn" + ".";
    FinishParts(".self_attn", ".", 10, false);
  }

  lemma CrossAttentionIsMapped()
    ensures Apply(AttentionText(Cross) + ".", 0) == MappedAttention(Cross) + "."
  {
    hide Apply;
    assert ".cross_attn" + "." == "." + "cross_attn" + ".";
    HitParts(".", "cross_attn", ".", "encoder_attn", 0, 8, true);
    assert "." + "encoder_attn" + "." == ".encoder_attn" + ".";
    FinishParts(".encoder_attn", ".", 9, true);
  }

  lemma OwnOutIsMapped()
    ensures Apply(".attn.out.", 0) == ".self_attn" + ".out_proj."
  {
    hide Apply;
    HitParts("", ".attn.", "out.", ".self_attn.", 0, 9, true);
    assert "" + ".attn." + "out." == ".attn.out.";
    assert "" + ".self_attn." + "out." == ".self_attn" + ".out." + "";
    HitParts(".self_attn", ".out.", "", ".out_proj.", 10, 13, true);
    assert ".self_attn" + ".out_proj." + "" == ".self_attn" + ".out_proj.";
    FinishParts(".self_attn", ".out_proj.", 14, true);
  }

  lemma CrossOutIsMapped()
    ensures Apply(".cross_attn" + ".out.", 0) == ".encoder_attn" + ".out_proj."
  {
    hide Apply;
    HitParts(".", "cross_attn", ".out.", "encoder_attn", 0, 8, true);
    assert "." + "cross_attn" + ".out." == ".cross_attn" + ".out.";
    assert "." + "encoder_attn" + ".out." == ".encoder_attn" + ".out.";
    CrossOutIsFinished();
  }

  lemma CrossOutIsFinished()
    ensures Apply(".encoder_attn" + ".out.", 9) == ".encoder_attn" + ".out_proj."
  {
    hide Apply;
    assert ".encoder_attn" + ".out." == ".encoder_attn" + ".out." + "";
    HitParts(".encoder_attn", ".out.", "", ".out_proj.", 9, 13, true);
    assert ".encoder_attn" + ".out_proj." + "" == ".encoder_attn" + ".out_proj.";
    FinishParts(".encoder_attn", ".out_proj.", 14, true);
  }

  lemma NormIsFinished(a: string, i: nat)
    requires 5 <= i <= RULES && a != "" && a[|a| - 1] in "nl" && Clear(a, 0, 5, RULES, true)
    ensures Apply(a + "_layer_norm" + ".", i) == a + "_layer_norm" + "."
  {
    hide Apply;
    ClearJoins(a, "_layer_norm", 0, 5, RULES, true);
    ClearJoins(a + "_layer_norm", ".", 0, 5, RULES, true);
    SkipTo(a + "_layer_norm" + ".", i, RULES, 5, true);
    AllRulesApplied(a + "_layer_norm" + ".");
  }

  lemma AllRulesApplied(s: string)
    ensures Apply(s, RULES) == s
  {
  }

  lemma AttentionNormIsMapped()
    ensures Apply(".attn_ln.", 0) == ".self_attn" + "_layer_norm" + "."
  {
    hide Apply;
    assert ".attn_ln." == "." + "attn_ln" + ".";
    HitParts(".", "attn_ln", ".", "self_attn" + "_layer_norm", 0, 5, false);
    assert "." + ("self_attn" + "_layer_norm") + "." == ".self_attn" + "_layer_norm" + ".";
    NormIsFinished(".self_attn", 6);
  }

  lemma MlpNormIsMapped()
    ensures Apply(".mlp_ln.", 0) == ".final" + "_layer_norm" + "."
  {
    hide Apply;
    assert ".mlp_ln." == "." + "mlp_ln" + ".";
    HitParts(".", "mlp_ln", ".", "final" + "_layer_norm", 0, 6, false);
    assert "." + ("final" + "_layer_norm") + "." == ".final" + "_layer_norm" + ".";
    NormIsFinished(".final", 7);
  }

  lemma CrossNormIsMapped()
    ensures Apply("." + "cross_attn_ln" + ".", 0) == ".encoder_attn" + "_layer_norm" + "."
  {
    hide Apply;
    HitParts(".", "cross_attn_ln", ".", "encoder_attn" + "_layer_norm", 0, 4, false);
    assert "." + ("encoder_attn" + "_layer_norm") + "." == ".encoder_attn" + "_layer_norm" + ".";
    CrossNormIsFinished();
  }

  lemma CrossNormIsFinished()
    ensures Apply(".encoder_attn" + "_layer_norm" + ".", 5) == ".encoder_attn" + "_layer_norm" + "."
  {
    hide Apply;
    NormIsFinished(".encoder_attn", 5);
  }

  lemma MlpIsMapped(part: Part)
    requires part == Mlp1 || part == Mlp2
    ensures Apply(PartText(part), 0) == MappedPart(part)
  {
    hide Apply;
    match part
    case Mlp1 =>
      HitAt(".mlp1.", 0, 1, false, ".", ".", ".fc1.");
      FinishFrom(".fc1.", 2, false);
    case Mlp2 =>
      HitAt(".mlp2.", 0, 2, false, ".", ".", ".fc2.");
      FinishFrom(".fc2.", 3, false);
  }

  lemma PartIsMapped(part: Part)
    ensures Apply(PartText(part), 0) == MappedPart(part)
  {
    hide Apply;
    match part
    case Proj(a, Out) =>
      ProjectionOutIsMapped(a);
    case Proj(a, p) =>
      var x, y := AttentionText(a) + ".", ProjectionText(p);
      SeamIsSafe('.', y[0]);
      ApplySplits(x, y, 0, false);
      AttentionIsMapped(a);
      ProjectionIsMapped(p);
    case CrossNorm => CrossNormIsMapped();
    case Mlp1 => MlpIsMapped(Mlp1);
    case Mlp2 => MlpIsMapped(Mlp2);
    case AttentionNorm => AttentionNormIsMapped();
    case MlpNorm => MlpNormIsMapped();
  }

  lemma ProjectionOutIsMapped(a: Attention)
    ensures Apply(PartText(Proj(a, Out)), 0) == MappedPart(Proj(a, Out))
  {
    hide Apply;
    match a
    case Itself =>
      assert ".attn" + "." + "out." == ".attn.out.";
      OwnOutIsMapped();
      assert ".self_attn" + ".out_proj." == ".self_attn" + "." + "out_proj.";
    case Cross =>
      assert ".cross_attn" + "." + "out." == ".cross_attn" + ".out.";
      CrossOutIsMapped();
      assert ".encoder_attn" + ".out_proj." == ".encoder_attn" + "." + "out_proj.";
  }

  lemma ConvIsMapped(stem: Stem)
    requires stem == Conv1 || stem == Conv2
    ensures Apply(StemText(stem), 0) == MappedStem(stem)
  {
    hide Apply;
    match stem
    case Conv1 => FinishParts("encoder.", "conv1.", 0, false);
    case Conv2 => FinishParts("encoder.", "conv2.", 0, false);
  }

  lemma LnPostIsMapped()
    ensures Apply("encoder." + "ln_post.", 0) == "encoder." + "layer_norm" + "."
  {
    hide Apply;
    assert "encoder." + "ln_post." == "encoder." + "ln_post" + ".";
    HitParts("encoder.", "ln_post", ".", "layer_norm", 0, 7, false);
    assert "encoder." + "layer_norm" + "." == "encoder." + "layer_norm.";
    FinishParts("encoder.", "layer_norm.", 8, false);
  }

  lemma TokenEmbeddingIsClear()
    ensures Clear("decoder." + "token_embedding", 0, 0, 14, true)
  {
    ClearJoins("decoder.", "token_embedding", 0, 0, 14, true);
  }

  lemma TokenEmbeddingIsMapped()
    ensures Apply("decoder." + "token_embedding" + ".", 0) == "decoder." + "embed_tokens" + "."
  {
    TokenEmbeddingIsClear();
    HitFront("decoder." + "token_embedding", "decoder." + "embed_tokens", 14, true);
    AllRulesApplied("decoder." + "embed_tokens" + ".");
  }

  lemma HitFront(pat: string, rep: string, j: nat, second: bool)
    requires j < RULES && pat == Pat(j) && rep == Rep(j) && |pat| >= 2 && Clear(pat, 0, 0, j, second)
    requires !Marked(pat[|pat| - 1], '.', 0, j, second)
    ensures Apply(pat + ".", 0) == Apply(rep + ".", j + 1)
  {
    hide Pat, Rep, Marked;
    assert Clear(".", 0, 0, j, second);
    ClearJoins(pat, ".", 0, 0, j, second);
    hide Clear;
    SkipTo(pat + ".", 0, j, 0, second);
    ReplaceAtFront(".", pat, rep);
  }

  lemma DecoderNormIsMapped()
    ensures Apply("decoder." + "ln.", 0) == "decoder." + "layer_norm" + "."
  {
    hide Apply;
    assert "decoder." + "ln." == "" + "decoder.ln" + ".";
    HitParts("", "decoder.ln", ".", "decoder." + "layer_norm", 0, 3, true);
    assert "" + ("decoder." + "layer_norm") == "decoder." + "layer_norm";
    DecoderNormIsFinished();
  }

  lemma DecoderNormIsFinished()
    ensures Apply("decoder." + "layer_norm" + ".", 4) == "decoder." + "layer_norm" + "."
  {
    hide Apply;
    ClearJoins("decoder.", "layer_norm", 0, 4, RULES, true);
    FinishParts("decoder." + "layer_norm", ".", 4, true);
  }

  lemma StemIsMapped(stem: Stem)
    ensures Apply(StemText(stem), 0) == MappedStem(stem)
  {
    hide Apply;
    match stem
    case LnPost => LnPostIsMapped();
    case TokenEmbedding => TokenEmbeddingIsMapped();
    case DecoderNorm => DecoderNormIsMapped();
    case _ => ConvIsMapped(stem);
  }

  lemma BlocksIsMapped(decoder: bool)
    ensures Apply(SideText(decoder) + "blocks" + ".", 0) == SideText(decoder) + "layers" + "."
  {
    hide Apply;
    var side := SideText(decoder);
    SideIsClear(decoder);
    HitParts(side, "blocks", ".", "layers", 0, 0, true);
    assert side + "layers" + "." == side + "layers.";
    FinishParts(side, "layers.", 1, true);
  }

  lemma SideIsClear(decoder: bool)
    ensures Clear(SideText(decoder), 0, 0, 0, true) && Clear(SideText(decoder), 0, 1, RULES, true)
  {
    if decoder {
      assert Clear("decoder.", 0, 0, 0, true) && Clear("decoder.", 0, 1, RULES, true);
    } else {
      assert Clear("encoder.", 0, 0, 0, true) && Clear("encoder.", 0, 1, RULES, true);
    }
  }

  const POSITIONAL := "decoder." + "positional" + "_embedding"

  lemma PositionalIsMapped()
    ensures Apply(POSITIONAL, 0) == POSITIONAL
  {
    hide Apply;
    ClearJoins("decoder.", "positional", 0, 0, RULES, true);
    FinishParts("decoder." + "positional", "_embedding", 0, true);
  }

  // ---- whole names ----------------------------------------------------------------------------

  function Digit(n: nat): char
    requires n < 10
  {
    '0' + n as char
  }

  function Decimal(n: nat): (s: string)
    ensures s != "" && forall i :: 0 <= i < |s| ==> '0' <= s[i] <= '9'
  {
    if n < 10 then [Digit(n)] else Decimal(n / 10) + [Digit(n % 10)]
  }

  datatype Name =
    | Positional
    | Global(stem: Stem, leaf: Leaf)
    | Block(decoder: bool, layer: nat, part: Part, leaf: Leaf)

  function Text(n: Name): string {
    match n
    case Positional => POSITIONAL
    case Global(stem, leaf) => StemText(stem) + LeafText(leaf)
    case Block(decoder, layer, part, leaf) =>
      SideText(decoder) + "blocks" + "." + Decimal(layer) + PartText(part) + LeafText(leaf)
  }

  /** Where the mapping of a name other than the positional embedding leads. */
  function Rewritten(n: Name): string {
    match n
    case Positional => POSITIONAL
    case Global(stem, leaf) => MappedStem(stem) + LeafText(leaf)
    case Block(decoder, layer, part, leaf) =>
      SideText(decoder) + "layers" + "." + Decimal(layer) + MappedPart(part) + LeafText(leaf)
  }

  /** The mapped name without its root. */
  function Tail(n: Name): string {
    if n == Positional then "decoder." + "embed_positions" + ".weight" else Rewritten(n)
  }

  function MappedText(n: Name): string {
    "model." + Tail(n)
  }

  lemma {:induction false} DigitsAreClear(s: string, k: nat, lo: nat, hi: nat)
    requires forall i :: 0 <= i < |s| ==> '0' <= s[i] <= '9'
    ensures Clear(s, k, lo, hi, true)
    decreases |s| - k
  {
    if k + 1 < |s| { DigitsAreClear(s, k + 1, lo, hi); }
  }

  lemma LeafIsClear(leaf: Leaf, lo: nat)
    requires lo == 0 || lo == 15
    ensures Clear(LeafText(leaf), 0, lo, lo + RULES, true)
  {
    match leaf
    case Weight => assert Clear("weight", 0, 0, 15, true) && Clear("weight", 0, 15, 30, true);
    case Bias => assert Clear("bias", 0, 0, 15, true) && Clear("bias", 0, 15, 30, true);
  }

  lemma StemEnds(stem: Stem)
    ensures var a, b := StemText(stem), MappedStem(stem); |a| > 6 && |b| > 6 && a[|a| - 1] == '.' == b[|b| - 1]
    ensures MappedStem(stem)[0] == if stem == TokenEmbedding || stem == DecoderNorm then 'd' else 'e'
  {
  }

  lemma PartEnds(part: Part)
    ensures var a, b := PartText(part), MappedPart(part);
      a != "" && b != "" && a[0] == '.' == b[0] && a[|a| - 1] == '.' == b[|b| - 1]
  {
    match part
    case Proj(a, p) =>
      var x, y := AttentionText(a) + ".", ProjectionText(p);
      var u, v := MappedAttention(a) + ".", MappedProjection(p);
      assert x[0] == '.' == u[0];
      ProjectionEnds(p);
      hide AttentionText, ProjectionText, MappedAttention, MappedProjection;
    case _ =>
  }

  lemma ProjectionEnds(p: Projection)
    ensures var a, b := ProjectionText(p), MappedProjection(p);
      a != "" && b != "" && a[|a| - 1] == '.' == b[|b| - 1]
  {
  }

  lemma LeafIsText(leaf: Leaf)
    ensures LeafText(leaf) != "" && LeafText(leaf)[0] !in "laot"
  {
  }

  lemma WithLeaf(a: string, leaf: Leaf)
    requires a != "" && a[|a| - 1] == '.'
    ensures Apply(a + LeafText(leaf), 0) == Apply(a, 0) + LeafText(leaf)
  {
    hide Apply, Clear, SafeSeam, LeafText;
    LeafIsClear(leaf, 0);
    LeafIsText(leaf);
    SeamIsSafe('.', LeafText(leaf)[0]);
    ApplySplits(a, LeafText(leaf), 0, true);
    FinishFrom(LeafText(leaf), 0, true);
  }

  lemma GlobalIsRewritten(stem: Stem, leaf: Leaf)
    ensures Apply(Text(Global(stem, leaf)), 0) == Rewritten(Global(stem, leaf))
  {
    hide Apply, StemText, MappedStem, LeafText;
    StemEnds(stem);
    StemIsMapped(stem);
    WithLeaf(StemText(stem), leaf);
  }

  /** The layer's prefix. */
  lemma LayerIsRewritten(decoder: bool, layer: nat)
    ensures Apply(SideText(decoder) + "blocks" + "." + Decimal(layer), 0)
         == SideText(decoder) + "layers" + "." + Decimal(layer)
  {
    hide Apply, SideText, Decimal, Clear, SafeSeam;
    var front, digits := SideText(decoder) + "blocks" + ".", Decimal(layer);
    SeamIsSafe('.', digits[0]);
    DigitsAreClear(digits, 0, 0, RULES);
    ApplySplits(front, digits, 0, true);
    FinishFrom(digits, 0, true);
    BlocksIsMapped(decoder);
  }

  lemma BlockIsRewritten(decoder: bool, layer: nat, part: Part, leaf: Leaf)
    ensures Apply(Text(Block(decoder, layer, part, leaf)), 0) == Rewritten(Block(decoder, layer, part, leaf))
  {
    hide Apply, PartText, MappedPart, LeafText, SideText, Decimal, SafeSeam;
    var front, tail := SideText(decoder) + "blocks" + "." + Decimal(layer), PartText(part);
    PartEnds(part);
    WithLeaf(front + tail, leaf);
    SeamIsSafe(front[|front| - 1], '.');
    ApplySplits(front, tail, 0, true);
    LayerIsRewritten(decoder, layer);
    PartIsMapped(part);
  }

  // ---- the mapped name ------------------------------------------------------------------------

  lemma NameIsRewritten(n: Name)
    ensures Apply(Text(n), 0) == Rewritten(n)
  {
    match n
    case Positional => PositionalIsMapped();
    case Global(stem, leaf) => GlobalIsRewritten(stem, leaf);
    case Block(decoder, layer, part, leaf) => BlockIsRewritten(decoder, layer, part, leaf);
  }

  /** No `e` is followed by an `s`, as in ".biases". */
  predicate NoBiases(s: string) {
    Clear(s, 0, 15, 16, true)
  }

  lemma NoBiasesJoins(a: string, b: string)
    requires NoBiases(a) && NoBiases(b) && (a != "" ==> a[|a| - 1] != 'e')
    ensures NoBiases(a + b)
  {
    hide Clear;
    ClearJoins(a, b, 0, 15, 16, true);
  }

  lemma NoBiasesIsUntouched(s: string)
    requires NoBiases(s)
    ensures Replace(s, ".biases", ".bias") == s
  {
    ClearLacks(s, 0, 15, 16, true, 15);
    ReplaceSkips(s, ".biases", ".bias", 5);
  }

  lemma PartHasNoBiases(part: Part)
    ensures NoBiases(MappedPart(part))
  {
    match part
    case Proj(a, p) => ProjectionHasNoBiases(a, p);
    case AttentionNorm => NormHasNoBiases(".self_attn");
    case CrossNorm => NormHasNoBiases(".encoder_attn");
    case Mlp1 => assert Clear(".fc1.", 0, 15, 16, true);
    case Mlp2 => assert Clear(".fc2.", 0, 15, 16, true);
    case MlpNorm => NormHasNoBiases(".final");
  }

  lemma NormHasNoBiases(a: string)
    requires a != "" && a[|a| - 1] != 'e' && Clear(a, 0, 15, 16, true)
    ensures NoBiases(a + "_layer_norm" + ".")
  {
    assert Clear("_layer_norm", 0, 15, 16, true) && Clear(".", 0, 15, 16, true);
    hide Clear;
    NoBiasesJoins(a, "_layer_norm");
    NoBiasesJoins(a + "_layer_norm", ".");
  }

  lemma ProjectionHasNoBiases(a: Attention, p: Projection)
    ensures NoBiases(MappedAttention(a) + "." + MappedProjection(p))
  {
    var x, y := MappedAttention(a), MappedProjection(p);
    assert NoBiases(x) by {
      match a
      case Itself => assert Clear(".self_attn", 0, 15, 16, true);
      case Cross => assert Clear(".encoder_attn", 0, 15, 16, true);
    }
    assert NoBiases(y) by {
      match p
      case Key => assert Clear("k_proj.", 0, 15, 16, true);
      case Query => assert Clear("q_proj.", 0, 15, 16, true);
      case Value => assert Clear("v_proj.", 0, 15, 16, true);
      case Out => assert Clear("out_proj.", 0, 15, 16, true);
    }
    assert Clear(".", 0, 15, 16, true);
    hide Clear;
    NoBiasesJoins(x, ".");
    NoBiasesJoins(x + ".", y);
  }

  lemma StemHasNoBiases(stem: Stem)
    ensures NoBiases(MappedStem(stem))
  {
    SideHasNoBiases();
    match stem
    case Conv1 =>
      assert Clear("conv1.", 0, 15, 16, true);
      NoBiasesJoins("encoder.", "conv1.");
    case Conv2 =>
      assert Clear("conv2.", 0, 15, 16, true);
      NoBiasesJoins("encoder.", "conv2.");
    case LnPost => ThreeHaveNoBiases("encoder.", "layer_norm");
    case TokenEmbedding => ThreeHaveNoBiases("decoder.", "embed_tokens");
    case DecoderNorm => ThreeHaveNoBiases("decoder.", "layer_norm");
  }

  lemma SideHasNoBiases()
    ensures NoBiases("encoder.") && NoBiases("decoder.") && NoBiases("model.")
  {
    assert Clear("encoder.", 0, 15, 16, true) && Clear("decoder.", 0, 15, 16, true) && Clear("model.", 0, 15, 16, true);
  }

  lemma ThreeHaveNoBiases(a: string, b: string)
    requires NoBiases(a) && NoBiases(b) && a != "" && b != "" && a[|a| - 1] != 'e' && b[|b| - 1] != 'e'
    ensures NoBiases(a + b + ".")
  {
    assert Clear(".", 0, 15, 16, true);
    hide Clear;
    NoBiasesJoins(a, b);
    NoBiasesJoins(a + b, ".");
  }

  lemma RewrittenHasNoBiases(n: Name)
    requires n != Positional
    ensures NoBiases(Rewritten(n))
  {
    LeafIsClear(n.leaf, 15);
    ClearNarrows(LeafText(n.leaf), 0, 15, 30, 16);
    hide LeafText;
    match n
    case Global(stem, leaf) =>
      hide Clear, MappedStem;
      StemHasNoBiases(stem);
      StemEnds(stem);
      NoBiasesJoins(MappedStem(stem), LeafText(leaf));
    case Block(decoder, layer, part, leaf) =>
      BlockFrontHasNoBiases(decoder, layer);
      hide Clear, MappedPart, SideText, Decimal;
      var front := SideText(decoder) + "layers" + "." + Decimal(layer);
      PartHasNoBiases(part);
      PartEnds(part);
      NoBiasesJoins(front, MappedPart(part));
      NoBiasesJoins(front + MappedPart(part), LeafText(leaf));
  }

  lemma BlockFrontHasNoBiases(decoder: bool, layer: nat)
    ensures NoBiases(SideText(decoder) + "layers" + "." + Decimal(layer))
  {
    SideHasNoBiases();
    assert Clear("layers", 0, 15, 16, true);
    DigitsAreClear(Decimal(layer), 0, 15, 16);
    hide Clear, Decimal;
    ThreeHaveNoBiases(SideText(decoder), "layers");
    NoBiasesJoins(SideText(decoder) + "layers" + ".", Decimal(layer));
  }

  lemma {:induction false} ClearNarrows(s: string, k: nat, lo: nat, hi: nat, less: nat)
    requires less <= hi && Clear(s, k, lo, hi, true)
    ensures Clear(s, k, lo, less, true)
    decreases |s| - k
  {
    if k + 1 < |s| { ClearNarrows(s, k + 1, lo, hi, less); }
  }

  /** What the whole rewriting does to a name of the schema, whatever the layer number. */
  lemma NameIsMapped(n: Name)
    ensures MapName(Text(n)) == MappedText(n)
  {
    NameIsRewritten(n);
    RewrittenShape(n);
    hide Apply, Rewritten, Text, Replace, NoBiases;
    SideHasNoBiases();
    if n == Positional {
      PositionalTarget();
    } else {
      RewrittenHasNoBiases(n);
      NoBiasesJoins("model.", Rewritten(n));
      NoBiasesIsUntouched("model." + Rewritten(n));
    }
  }

  lemma RewrittenShape(n: Name)
    ensures Rewritten(n) != "" && Rewritten(n)[0] in "ed" && !("model." <= Rewritten(n))
    ensures n != Positional ==> "model." + Rewritten(n) != "model." + POSITIONAL
    ensures n == Positional ==> Rewritten(n) == POSITIONAL
  {
    var r := Rewritten(n);
    if n.Global? { StemEnds(n.stem); }
    assert r[0] == 'e' || r[0] == 'd';
    if n != Positional {
      var last := LeafText(n.leaf)[|LeafText(n.leaf)| - 1];
      hide MappedStem, MappedPart, Decimal;
      assert r[|r| - 1] == last && last in "ts";
      assert ("model." + r)[|"model." + r| - 1] == last && ("model." + POSITIONAL)[|"model." + POSITIONAL| - 1] == 'g';
    }
  }

  lemma PositionalTarget()
    ensures Replace(MappedText(Positional), ".biases", ".bias") == MappedText(Positional)
  {
    assert Clear("embed_positions", 0, 15, 16, true);
    assert Clear(".weight", 0, 15, 16, true);
    SideHasNoBiases();
    hide Clear;
    NoBiasesJoins("decoder.", "embed_positions");
    NoBiasesJoins("decoder." + "embed_positions", ".weight");
    NoBiasesJoins("model.", "decoder." + "embed_positions" + ".weight");
    NoBiasesIsUntouched(MappedText(Positional));
  }

  /** In any layer of a side, the tensor ending in `a` goes by the name ending in `b` at run time. */
  ghost predicate Becomes(side: string, layer: nat, a: string, b: string) {
    forall leaf :: leaf == "weight" || leaf == "bias" ==>
      MapName(side + "blocks" + "." + Decimal(layer) + a + leaf)
      == "model." + (side + "layers" + "." + Decimal(layer)) + b + leaf
  }

  ghost predicate AttentionBecomes(side: string, layer: nat, a: string, b: string) {
    && Becomes(side, layer, a + "." + "query.", b + "." + "q_proj.")
    && Becomes(side, layer, a + "." + "key.", b + "." + "k_proj.")
    && Becomes(side, layer, a + "." + "value.", b + "." + "v_proj.")
    && Becomes(side, layer, a + "." + "out.", b + "." + "out_proj.")
  }

  /** The runtime names of a layer, one by one. */
  lemma LayerNamesAreMapped(decoder: bool, layer: nat)
    ensures var side := if decoder then "decoder." else "encoder.";
      && AttentionBecomes(side, layer, ".attn", ".self_attn")
      && AttentionBecomes(side, layer, ".cross_attn", ".encoder_attn")
      && Becomes(side, layer, ".attn_ln.", ".self_attn" + "_layer_norm" + ".")
      && Becomes(side, layer, "." + "cross_attn_ln" + ".", ".encoder_attn" + "_layer_norm" + ".")
      && Becomes(side, layer, ".mlp1.", ".fc1.")
      && Becomes(side, layer, ".mlp2.", ".fc2.")
      && Becomes(side, layer, ".mlp_ln.", ".final" + "_layer_norm" + ".")
  {
    hide Becomes;
    forall part ensures Becomes(SideText(decoder), layer, PartText(part), MappedPart(part)) {
      LayerNameIsMapped(decoder, layer, part);
    }
    forall a, p ensures Becomes(SideText(decoder), layer, AttentionText(a) + "." + ProjectionText(p),
                                MappedAttention(a) + "." + MappedProjection(p))
    {
      assert PartText(Proj(a, p)) == AttentionText(a) + "." + ProjectionText(p);
      assert MappedPart(Proj(a, p)) == MappedAttention(a) + "." + MappedProjection(p);
    }
    hide Decimal;
    assert AttentionText(Itself) == ".attn" && AttentionText(Cross) == ".cross_attn";
    assert ProjectionText(Key) == "key." && ProjectionText(Query) == "query.";
    assert ProjectionText(Projection.Value) == "value." && ProjectionText(Out) == "out.";
    assert PartText(Mlp1) == ".mlp1." && PartText(Mlp2) == ".mlp2." && PartText(MlpNorm) == ".mlp_ln.";
    assert PartText(AttentionNorm) == ".attn_ln." && PartText(CrossNorm) == "." + "cross_attn_ln" + ".";
  }

  lemma LayerNameIsMapped(decoder: bool, layer: nat, part: Part)
    ensures Becomes(SideText(decoder), layer, PartText(part), MappedPart(part))
  {
    hide MapName, SideText, Decimal, PartText, MappedPart;
    forall leaf | leaf == "weight" || leaf == "bias"
      ensures MapName(SideText(decoder) + "blocks" + "." + Decimal(layer) + PartText(part) + leaf)
           == "model." + (SideText(decoder) + "layers" + "." + Decimal(layer)) + MappedPart(part) + leaf
    {
      var l := if leaf == "weight" then Weight else Bias;
      assert LeafText(l) == leaf;
      NameIsMapped(Block(decoder, layer, part, l));
      hide LeafText;
      var front, p := SideText(decoder) + "layers" + "." + Decimal(layer), MappedPart(part);
      assert "model." + (front + p + leaf) == "model." + front + p + leaf;
    }
  }

  /** The runtime names of the other tensors. */
  lemma GlobalNamesAreMapped(leaf: string)
    requires leaf == "weight" || leaf == "bias"
    ensures MapName("encoder." + "conv1." + leaf) == "model." + ("encoder." + "conv1." + leaf)
    ensures MapName("encoder." + "conv2." + leaf) == "model." + ("encoder." + "conv2." + leaf)
    ensures MapName("encoder." + "ln_post." + leaf) == "model." + ("encoder." + "layer_norm" + "." + leaf)
    ensures MapName("decoder." + "ln." + leaf) == "model." + ("decoder." + "layer_norm" + "." + leaf)
    ensures MapName("decoder." + "token_embedding" + "." + leaf)
         == "model." + ("decoder." + "embed_tokens" + "." + leaf)
    ensures MapName("decoder." + "positional" + "_embedding")
         == "model." + ("decoder." + "embed_positions" + ".weight")
  {
    hide MapName;
    var l := if leaf == "weight" then Weight else Bias;
    assert LeafText(l) == leaf;
    hide LeafText;
    NameIsMapped(Global(Conv1, l));
    NameIsMapped(Global(Conv2, l));
    NameIsMapped(Global(LnPost, l));
    NameIsMapped(Global(DecoderNorm, l));
    NameIsMapped(Global(TokenEmbedding, l));
    NameIsMapped(Positional);
  }

  // ---- no two names meet ----------------------------------------------------------------------

  function NumberOf(s: string): int {
    if s == "" then 0 else NumberOf(s[..|s| - 1]) * 10 + (s[|s| - 1] as int - '0' as int)
  }

  lemma {:induction false} DecimalHasValue(n: nat)
    ensures NumberOf(Decimal(n)) == n
  {
    if n < 10 {
      assert Decimal(n)[..0] == "";
    } else {
      DecimalHasValue(n / 10);
      assert Decimal(n)[..|Decimal(n)| - 1] == Decimal(n / 10);
    }
  }

  /** A number ends where a dot follows. */
  lemma NumberEndsAtDot(d: string, r: string, e: string, q: string)
    requires forall i :: 0 <= i < |d| ==> '0' <= d[i] <= '9'
    requires forall i :: 0 <= i < |e| ==> '0' <= e[i] <= '9'
    requires r != "" && q != "" && r[0] == '.' == q[0] && d + r == e + q
    ensures d == e && r == q
  {
    assert (d + r)[|d|] == '.' && (e + q)[|e|] == '.';
    assert |d| == |e|;
    assert d == (d + r)[..|d|] == e && r == (d + r)[|d|..] == q;
  }

  function PartOf(s: string): Part
    requires |s| > 4
  {
    if s[1] == 'f' then
      (if s[2] == 'i' then MlpNorm else if s[3] == '1' then Mlp1 else Mlp2)
    else
      var at := if s[1] == 's' then 10 else 13;
      if |s| <= at + 1 then CrossNorm
      else if s[at] == '_' then (if s[1] == 's' then AttentionNorm else CrossNorm)
      else
        var p := match s[at + 1] case 'k' => Key case 'q' => Query case 'v' => Value case _ => Out;
        Proj(if s[1] == 's' then Itself else Cross, p)
  }

  lemma PartIsRecovered(part: Part)
    ensures |MappedPart(part)| > 4 && PartOf(MappedPart(part)) == part
  {
    match part
    case Proj(a, p) => ProjectionIsRecovered(a, p);
    case _ =>
  }

  lemma ProjectionIsRecovered(a: Attention, p: Projection)
    ensures var s := MappedPart(Proj(a, p)); |s| > 4 && PartOf(s) == Proj(a, p)
  {
    var x, y := MappedAttention(a), MappedProjection(p);
    assert (x + "." + y)[|x|] == '.' && (x + "." + y)[|x| + 1] == y[0];
    assert (x + "." + y)[1] == x[1];
  }

  /** Characters that tell the forms of mapped names apart. */
  ghost predicate Landmarks(n: Name, s: string) {
    && |s| > 14
    && match n
       case Positional => s[0] == 'd' && s[8] == 'e' && s[14] == 'p'
       case Global(TokenEmbedding, _) => s[0] == 'd' && s[8] == 'e' && s[14] == 't'
       case Global(DecoderNorm, _) => s[0] == 'd' && s[8] == 'l' && s[13] == '_'
       case Global(LnPost, _) => s[0] == 'e' && s[8] == 'l' && s[13] == '_'
       case Global(Conv1, _) => s[0] == 'e' && s[8] == 'c' && s[12] == '1'
       case Global(Conv2, _) => s[0] == 'e' && s[8] == 'c' && s[12] == '2'
       case Block(decoder, _, _, _) => s[0] == (if decoder then 'd' else 'e') && s[8] == 'l' && s[13] == 's'
  }

  lemma TailHasLandmarks(n: Name)
    ensures Landmarks(n, Tail(n))
  {
    match n
    case Positional =>
      assert ("decoder." + "embed_positions")[8] == 'e' && ("decoder." + "embed_positions")[14] == 'p';
    case Global(stem, leaf) => GlobalHasLandmarks(stem, leaf);
    case Block(decoder, layer, part, leaf) => BlockHasLandmarks(decoder, layer, part, leaf);
  }

  lemma GlobalHasLandmarks(stem: Stem, leaf: Leaf)
    ensures Landmarks(Global(stem, leaf), Rewritten(Global(stem, leaf)))
  {
    assert |LeafText(leaf)| >= 4;
    hide LeafText;
    var s := MappedStem(stem);
    match stem
    case Conv1 => assert s[8] == 'c' && s[12] == '1';
    case Conv2 => assert s[8] == 'c' && s[12] == '2';
    case LnPost => assert s[8] == 'l' && s[13] == '_';
    case TokenEmbedding => assert s[8] == 'e' && s[14] == 't';
    case DecoderNorm => assert s[8] == 'l' && s[13] == '_';
  }

  lemma BlockHasLandmarks(decoder: bool, layer: nat, part: Part, leaf: Leaf)
    ensures Landmarks(Block(decoder, layer, part, leaf), Rewritten(Block(decoder, layer, part, leaf)))
  {
    var front := SideText(decoder) + "layers" + ".";
    assert |front| == 15 && front[0] == (if decoder then 'd' else 'e') && front[8] == 'l' && front[13] == 's';
    hide SideText, Decimal, MappedPart, LeafText;
    var s := front + Decimal(layer) + MappedPart(part) + LeafText(leaf);
    assert forall i :: 0 <= i < 15 ==> s[i] == front[i];
  }

  lemma LeafIsRecovered(a: string, x: Leaf, b: string, y: Leaf)
    requires a + LeafText(x) == b + LeafText(y)
    ensures x == y && a == b
  {
    var s := a + LeafText(x);
    assert s[|s| - 1] == (if x == Weight then 't' else 's') && s[|s| - 1] == (if y == Weight then 't' else 's');
    assert a == s[..|s| - |LeafText(x)|] == b;
  }

  lemma BlockIsRecovered(decoder: bool, k: nat, p: Part, x: Leaf, m: nat, q: Part, y: Leaf)
    requires Rewritten(Block(decoder, k, p, x)) == Rewritten(Block(decoder, m, q, y))
    ensures k == m && p == q && x == y
  {
    hide SideText, Decimal, MappedPart, LeafText;
    var front := SideText(decoder) + "layers" + ".";
    LeafIsRecovered(front + Decimal(k) + MappedPart(p), x, front + Decimal(m) + MappedPart(q), y);
    SamePrefix(front, Decimal(k), MappedPart(p), Decimal(m), MappedPart(q));
    PartEnds(p);
    PartEnds(q);
    NumberEndsAtDot(Decimal(k), MappedPart(p), Decimal(m), MappedPart(q));
    DecimalHasValue(k);
    DecimalHasValue(m);
    PartIsRecovered(p);
    PartIsRecovered(q);
  }

  lemma SamePrefix(front: string, d: string, r: string, e: string, q: string)
    requires front + d + r == front + e + q
    ensures d + r == e + q
  {
    assert d + r == (front + d + r)[|front|..] && e + q == (front + e + q)[|front|..];
  }

  /** The mapping is injective on the names of the schema, for every number of layers. */
  lemma MappedNamesAreDistinct(a: Name, b: Name)
    requires MapName(Text(a)) == MapName(Text(b))
    ensures a == b
  {
    NameIsMapped(a);
    NameIsMapped(b);
    TailHasLandmarks(a);
    TailHasLandmarks(b);
    assert Tail(a) == MappedText(a)[6..] && Tail(b) == MappedText(b)[6..];
    match a {
      case Positional =>
      case Global(stem, leaf) =>
        assert b.Global? && b.stem == stem;
        LeafIsRecovered(MappedStem(stem), leaf, MappedStem(stem), b.leaf);
      case Block(decoder, layer, part, leaf) =>
        assert b.Block? && b.decoder == decoder;
        BlockIsRecovered(decoder, layer, part, leaf, b.layer, b.part, b.leaf);
    }
  }

  lemma NamesAreDistinct(a: Name, b: Name)
    requires Text(a) == Text(b)
    ensures a == b
  {
    MappedNamesAreDistinct(a, b);
  }
}
