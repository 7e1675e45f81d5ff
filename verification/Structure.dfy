/** Two scanners of the structural verifier: blocks whose condition is provably false, found with a
    stack of open braces, and the whitespace collapse that keeps the tokens apart. */
module Structure {

  import opened Wrappers

  // ---- braces -----------------------------------------------------------------------------------

  /** Openers less closers before position `k`. */
  function Depth(code: string, k: nat): int
    requires k <= |code|
  {
    if k == 0 then 0
    else Depth(code, k - 1) + if code[k - 1] == '{' then 1 else if code[k - 1] == '}' then -1 else 0
  }

  /** The closer at `j` belongs to the opener at `i`: between them the depth comes back to where it
      was and never falls below it. */
  ghost predicate Matched(code: string, i: nat, j: nat) {
    && i < j < |code| && code[i] == '{' && code[j] == '}'
    && Depth(code, j) == Depth(code, i + 1)
    && forall k :: i < k <= j ==> Depth(code, k) >= Depth(code, i + 1)
  }

  function Count(text: string, c: char): int {
    multiset(text)[c]
  }

  /** As many openers as closers, and nowhere more closers than openers before them. */
  ghost predicate Balanced(text: string) {
    && Count(text, '{') == Count(text, '}')
    && forall k :: 0 <= k <= |text| ==> Count(text[..k], '{') >= Count(text[..k], '}')
  }

  lemma {:induction false} DepthCounts(code: string, start: nat, end: nat)
    requires start <= end <= |code|
    ensures Depth(code, end) - Depth(code, start) == Count(code[start..end], '{') - Count(code[start..end], '}')
    decreases end
  {
    if start < end {
      DepthCounts(code, start, end - 1);
      assert code[start..end] == code[start..end - 1] + [code[end - 1]];
    } else {
      assert code[start..end] == [];
    }
  }

  /** A brace matches exactly when the text in between is balanced. */
  lemma MatchedIsBalanced(code: string, i: nat, j: nat)
    requires i < j < |code| && code[i] == '{' && code[j] == '}'
    ensures Matched(code, i, j) <==> Balanced(code[i + 1..j])
  {
    var text, start := code[i + 1..j], i + 1;
    forall k | 0 <= k <= |text|
      ensures Depth(code, start + k) - Depth(code, start) == Count(text[..k], '{') - Count(text[..k], '}')
    {
      DepthCounts(code, start, start + k);
      assert text[..k] == code[start..start + k];
    }
    hide Depth, Count;
    assert text[..|text|] == text;
    if Matched(code, i, j) {
      forall k | 0 <= k <= |text| ensures Count(text[..k], '{') >= Count(text[..k], '}') {
        assert Depth(code, start + k) >= Depth(code, start);
      }
    }
    if Balanced(text) {
      forall k | i < k <= j ensures Depth(code, k) >= Depth(code, start) {
        assert Count(text[..k - start], '{') >= Count(text[..k - start], '}');
      }
    }
  }

  /** Blocks are nested or disjoint. */
  lemma MatchedNest(code: string, i: nat, j: nat, p: nat, q: nat)
    requires Matched(code, i, j) && Matched(code, p, q) && i < p
    ensures q < j || j < p
  {
    assert Depth(code, j + 1) == Depth(code, j) - 1 && Depth(code, p + 1) == Depth(code, p) + 1;
  }

  lemma MatchedOnce(code: string, i: nat, j: nat, p: nat, q: nat)
    requires Matched(code, i, j) && Matched(code, p, q) && (i == p || j == q)
    ensures i == p && j == q
  {
    assert Depth(code, j + 1) == Depth(code, j) - 1 && Depth(code, q + 1) == Depth(code, q) - 1;
    if i < p { MatchedNest(code, i, j, p, q); }
    if p < i { MatchedNest(code, p, q, i, j); }
  }

  // ---- the header of a block ----------------------------------------------------------------------

  /** The last place of `c` before `end`, or -1. */
  function LastPlace(code: string, c: char, end: nat): (r: int)
    requires end <= |code|
    ensures -1 <= r < end && (r >= 0 ==> code[r] == c)
    ensures forall k :: r < k < end ==> code[k] != c
  {
    if end == 0 then -1 else if code[end - 1] == c then end - 1 else LastPlace(code, c, end - 1)
  }

  function Max(a: int, b: int): int {
    if a < b then b else a
  }

  /** What stands between the clause before and the brace. */
  function Header(code: string, index: nat): string
    requires index <= |code|
  {
    var boundary := Max(LastPlace(code, ';', index), Max(LastPlace(code, '{', index), LastPlace(code, '}', index)));
    code[boundary + 1..index]
  }

  /** The header is the longest stretch before the brace without a separator. */
  lemma HeaderIsLongest(code: string, index: nat)
    requires index <= |code|
    ensures var h := Header(code, index);
      && |h| <= index && h == code[index - |h|..index] && (forall c :: c in h ==> c !in ";{}")
      && (|h| < index ==> code[index - |h| - 1] in ";{}")
  {
  }

  // ---- false blocks ---------------------------------------------------------------------------------

  datatype Block = Block(open: nat, close: nat, reason: string)

  datatype Opener = Opener(index: nat, reason: Option<string>)

  /** A verdict gives the reason why a header's condition is provably false, if it is. */
  type Verdict = string -> Option<string>

  /** Still open at `k`: since the brace the depth never fell to what it was before. */
  ghost predicate OpenAt(code: string, i: nat, k: nat) {
    && i < k <= |code| && code[i] == '{'
    && forall m :: i < m <= k ==> Depth(code, m) >= Depth(code, i + 1)
  }

  predicate Has(stack: seq<Opener>, i: nat) {
    exists t :: 0 <= t < |stack| && stack[t].index == i
  }

  /** The stack holds the braces open at `k`, outermost first, each one level deeper than the one
      below, and the top at the present depth. */
  ghost predicate Tower(code: string, k: nat, stack: seq<Opener>) {
    && k <= |code|
    && (forall t :: 0 <= t < |stack| ==> OpenAt(code, stack[t].index, k))
    && (forall t, u :: 0 <= t && u == t + 1 < |stack| ==>
          stack[t].index < stack[u].index && Depth(code, stack[u].index) == Depth(code, stack[t].index + 1))
    && (stack != [] ==> Depth(code, k) == Depth(code, stack[|stack| - 1].index + 1))
  }

  ghost predicate Complete(code: string, k: nat, stack: seq<Opener>) {
    forall i: nat :: OpenAt(code, i, k) ==> Has(stack, i)
  }

  ghost predicate Judged(code: string, stack: seq<Opener>, verdict: Verdict) {
    forall t :: 0 <= t < |stack| ==> stack[t].index < |code| && stack[t].reason == verdict(Header(code, stack[t].index))
  }

  ghost predicate Stacked(code: string, k: nat, stack: seq<Opener>, verdict: Verdict) {
    Tower(code, k, stack) && Complete(code, k, stack) && Judged(code, stack, verdict)
  }

  ghost predicate FalseBlock(code: string, b: Block, verdict: Verdict) {
    Matched(code, b.open, b.close) && verdict(Header(code, b.open)) == Some(b.reason)
  }

  lemma OpenLater(code: string, i: nat, k: nat)
    requires k < |code| && i < k
    ensures OpenAt(code, i, k + 1) <==> OpenAt(code, i, k) && Depth(code, k + 1) >= Depth(code, i + 1)
  {
    hide Depth;
  }

  /** A brace opens: it is on top of what was open. */
  lemma OpeningBuilds(code: string, k: nat, stack: seq<Opener>, opener: Opener)
    requires k < |code| && code[k] == '{' && Tower(code, k, stack) && opener.index == k
    ensures Tower(code, k + 1, stack + [opener])
  {
    var now := stack + [opener];
    assert Depth(code, k + 1) == Depth(code, k) + 1;
    hide Depth;
    forall t | 0 <= t < |now| ensures OpenAt(code, now[t].index, k + 1) {
      if t < |stack| {
        assert OpenAt(code, stack[t].index, k);
        OpenLater(code, stack[t].index, k);
      }
    }
    forall t, u | 0 <= t && u == t + 1 < |now|
      ensures now[t].index < now[u].index && Depth(code, now[u].index) == Depth(code, now[t].index + 1)
    {
      assert now[t] == stack[t] && OpenAt(code, stack[t].index, k);
      if u < |stack| { assert now[u] == stack[u]; }
    }
  }

  lemma OpeningCompletes(code: string, k: nat, stack: seq<Opener>, opener: Opener)
    requires k < |code| && code[k] == '{' && Complete(code, k, stack) && opener.index == k
    ensures Complete(code, k + 1, stack + [opener])
  {
    var now := stack + [opener];
    hide Depth;
    forall i: nat | OpenAt(code, i, k + 1) ensures Has(now, i) {
      if i == k {
        assert now[|stack|].index == i;
      } else {
        OpenLater(code, i, k);
        var t :| 0 <= t < |stack| && stack[t].index == i;
        assert now[t].index == i;
      }
    }
  }

  /** Of the open braces only the top one is at the present depth. */
  lemma {:induction false} TopIsDeepest(code: string, k: nat, stack: seq<Opener>, t: nat)
    requires Tower(code, k, stack) && t < |stack| - 1
    ensures Depth(code, stack[t].index + 1) < Depth(code, k)
    ensures stack[t].index < stack[|stack| - 1].index
    decreases |stack| - t
  {
    var u := t + 1;
    assert OpenAt(code, stack[u].index, k);
    assert Depth(code, stack[u].index + 1) == Depth(code, stack[u].index) + 1;
    hide Depth;
    if u < |stack| - 1 { TopIsDeepest(code, k, stack, u); }
  }

  /** A brace closes: it matches the top, and no other. */
  lemma ClosingMatches(code: string, k: nat, stack: seq<Opener>)
    requires k < |code| && code[k] == '}' && Tower(code, k, stack) && Complete(code, k, stack) && stack != []
    ensures Matched(code, stack[|stack| - 1].index, k)
    ensures forall i :: Matched(code, i, k) ==> i == stack[|stack| - 1].index
  {
    var top := stack[|stack| - 1].index;
    assert OpenAt(code, top, k);
    hide Depth;
    forall i: nat | Matched(code, i, k) ensures i == top {
      assert OpenAt(code, i, k);
      var t :| 0 <= t < |stack| && stack[t].index == i;
      if t < |stack| - 1 { TopIsDeepest(code, k, stack, t); }
    }
  }

  lemma ClosingUncovers(code: string, k: nat, stack: seq<Opener>)
    requires k < |code| && code[k] == '}' && Tower(code, k, stack) && Complete(code, k, stack) && stack != []
    ensures Tower(code, k + 1, stack[..|stack| - 1]) && Complete(code, k + 1, stack[..|stack| - 1])
  {
    var top, rest := stack[|stack| - 1].index, stack[..|stack| - 1];
    assert OpenAt(code, top, k);
    assert Depth(code, k + 1) == Depth(code, k) - 1 && Depth(code, top + 1) == Depth(code, top) + 1;
    hide Depth;
    forall t | 0 <= t < |rest| ensures OpenAt(code, rest[t].index, k + 1) {
      assert OpenAt(code, stack[t].index, k);
      TopIsDeepest(code, k, stack, t);
      OpenLater(code, stack[t].index, k);
    }
    if rest != [] { assert stack[|stack| - 2] == rest[|rest| - 1]; }
    forall i: nat | OpenAt(code, i, k + 1) ensures Has(rest, i) {
      OpenIsNotClosed(code, i, k);
      OpenLater(code, i, k);
      var t :| 0 <= t < |stack| && stack[t].index == i;
      assert rest[t].index == i;
    }
  }

  lemma OpenIsNotClosed(code: string, i: nat, k: nat)
    requires k < |code| && code[k] == '}' && OpenAt(code, i, k + 1)
    ensures i < k && Depth(code, k) > Depth(code, i + 1)
  {
    assert Depth(code, k + 1) == Depth(code, k) - 1 && Depth(code, k + 1) >= Depth(code, i + 1);
  }

  /** Any other character, or a closer with nothing open, leaves the stack alone. */
  lemma OtherStaysStacked(code: string, k: nat, stack: seq<Opener>)
    requires k < |code| && code[k] != '{' && (code[k] == '}' ==> stack == [])
    requires Tower(code, k, stack) && Complete(code, k, stack)
    ensures Tower(code, k + 1, stack) && Complete(code, k + 1, stack)
    ensures forall i :: !Matched(code, i, k)
  {
    assert code[k] != '}' ==> Depth(code, k + 1) == Depth(code, k);
    hide Depth;
    forall t | 0 <= t < |stack| ensures OpenAt(code, stack[t].index, k + 1) {
      assert OpenAt(code, stack[t].index, k);
      OpenLater(code, stack[t].index, k);
    }
    forall i: nat | OpenAt(code, i, k + 1) ensures Has(stack, i) {
      OpenLater(code, i, k);
    }
    forall i: nat ensures !Matched(code, i, k) {
      assert Matched(code, i, k) ==> OpenAt(code, i, k);
    }
  }

  /** The result is exactly the blocks under a false condition, each with its own closer, in the
      order in which they close. */
  method FalseBlockRanges(code: string, verdict: Verdict) returns (ranges: seq<Block>)
    ensures forall b :: b in ranges <==> FalseBlock(code, b, verdict)
    ensures forall a, b :: 0 <= a < b < |ranges| ==> ranges[a].close < ranges[b].close
  {
    hide Depth, Header, Tower, Complete, Matched;
    ranges := [];
    var stack: seq<Opener> := [];
    assert Stacked(code, 0, [], verdict) by { NothingStacked(code, verdict); }
    for k := 0 to |code|
      invariant Stacked(code, k, stack, verdict)
      invariant forall b :: b in ranges <==> FalseBlock(code, b, verdict) && b.close < k
      invariant forall a, b :: 0 <= a < b < |ranges| ==> ranges[a].close < ranges[b].close
    {
      if code[k] == '{' {
        var opener := Opener(k, verdict(Header(code, k)));
        OpeningBuilds(code, k, stack, opener);
        OpeningCompletes(code, k, stack, opener);
        OpenersMatchNothing(code, k);
        stack := stack + [opener];
      } else if code[k] == '}' && stack != [] {
        ClosingMatches(code, k, stack);
        ClosingUncovers(code, k, stack);
        var top := stack[|stack| - 1];
        stack := stack[..|stack| - 1];
        if top.reason.Some? {
          forall i | 0 <= i < |ranges| ensures ranges[i].close < k {
            assert ranges[i] in ranges;
          }
          ranges := ranges + [Block(top.index, k, top.reason.value)];
        }
      } else {
        OtherStaysStacked(code, k, stack);
      }
    }
    forall b | FalseBlock(code, b, verdict) ensures b.close < |code| {
      MatchedIsInside(code, b.open, b.close);
    }
  }

  lemma NothingStacked(code: string, verdict: Verdict)
    ensures Stacked(code, 0, [], verdict)
  {
  }

  lemma OpenersMatchNothing(code: string, k: nat)
    requires k < |code| && code[k] == '{'
    ensures forall i :: !Matched(code, i, k)
  {
  }

  lemma MatchedIsInside(code: string, i: nat, j: nat)
    requires Matched(code, i, j)
    ensures j < |code|
  {
  }

  // ---- whitespace -----------------------------------------------------------------------------------

  /** Which characters are layout, and which belong to identifiers. */
  datatype Classes = Classes(space: char -> bool, word: char -> bool)

  ghost predicate Proper(k: Classes) {
    k.space(' ') && forall c :: !(k.space(c) && k.word(c))
  }

  function DropSpaces(k: Classes, s: string): (r: string)
    ensures |r| <= |s| && (r != "" ==> !k.space(r[0]))
    ensures s != "" && k.space(s[0]) ==> |r| < |s|
  {
    if s == "" || !k.space(s[0]) then s else DropSpaces(k, s[1..])
  }

  predicate LastIsWord(k: Classes, s: string) {
    s != "" && k.word(s[|s| - 1])
  }

  predicate FirstIsWord(k: Classes, s: string) {
    s != "" && k.word(s[0])
  }

  /** What is appended for `s`, when an identifier character may stand before it. */
  function Collapsed(k: Classes, afterWord: bool, s: string): string
    decreases |s|
  {
    if s == "" then ""
    else if !k.space(s[0]) then [s[0]] + Collapsed(k, k.word(s[0]), s[1..])
    else
      var rest := DropSpaces(k, s);
      if afterWord && FirstIsWord(k, rest) then " " + Collapsed(k, false, rest) else Collapsed(k, afterWord, rest)
  }

  function Collapse(k: Classes, s: string): string {
    Collapsed(k, false, s)
  }

  method CollapseCodeWhitespace(k: Classes, source: string) returns (collapsed: string)
    requires Proper(k)
    ensures collapsed == Collapse(k, source)
  {
    collapsed := "";
    var index := 0;
    assert source[0..] == source;
    hide Collapsed;
    while index < |source|
      invariant index <= |source|
      invariant collapsed + Collapsed(k, LastIsWord(k, collapsed), source[index..]) == Collapse(k, source)
    {
      var c := source[index];
      if !k.space(c) {
        CharacterStep(k, collapsed, source, index);
        collapsed, index := collapsed + [c], index + 1;
        continue;
      }
      var next := index + 1;
      assert source[index..][1..] == source[next..];
      while next < |source| && k.space(source[next])
        invariant index < next <= |source|
        invariant DropSpaces(k, source[index..]) == DropSpaces(k, source[next..])
      {
        assert source[next..][1..] == source[next + 1..];
        next := next + 1;
      }
      var separated := LastIsWord(k, collapsed) && FirstIsWord(k, source[next..]);
      SpaceStep(k, collapsed, source[index..], source[next..]);
      if separated {
        collapsed := collapsed + " ";
      }
      index := next;
    }
  }

  lemma CharacterStep(k: Classes, collapsed: string, source: string, index: nat)
    requires index < |source| && !k.space(source[index])
    ensures var now := collapsed + [source[index]];
      collapsed + Collapsed(k, LastIsWord(k, collapsed), source[index..]) ==
        now + Collapsed(k, LastIsWord(k, now), source[index + 1..])
  {
    assert source[index..][1..] == source[index + 1..];
    var more := Collapsed(k, k.word(source[index]), source[index + 1..]);
    assert collapsed + ([source[index]] + more) == collapsed + [source[index]] + more;
  }

  lemma SpaceStep(k: Classes, collapsed: string, s: string, rest: string)
    requires Proper(k) && s != "" && k.space(s[0]) && rest == DropSpaces(k, s)
    ensures var now := if LastIsWord(k, collapsed) && FirstIsWord(k, rest) then collapsed + " " else collapsed;
      collapsed + Collapsed(k, LastIsWord(k, collapsed), s) == now + Collapsed(k, LastIsWord(k, now), rest)
  {
    var more := Collapsed(k, false, rest);
    assert collapsed + (" " + more) == collapsed + " " + more;
  }

  // ---- tokens -----------------------------------------------------------------------------------------

  function Flushed(run: string): seq<string> {
    if run == "" then [] else [run]
  }

  /** The tokens of `s` after an identifier begun with `run`: maximal identifier runs, and every
      other character that is not layout by itself. */
  function TokensFrom(k: Classes, run: string, s: string): seq<string>
    decreases |s|
  {
    if s == "" then Flushed(run)
    else if k.word(s[0]) then TokensFrom(k, run + [s[0]], s[1..])
    else Flushed(run) + (if k.space(s[0]) then [] else [[s[0]]]) + TokensFrom(k, "", s[1..])
  }

  function Tokens(k: Classes, s: string): seq<string> {
    TokensFrom(k, "", s)
  }

  /** Tokens written out, one space between two identifiers and nothing anywhere else. */
  function Render(k: Classes, tokens: seq<string>): string {
    if tokens == [] then ""
    else if |tokens| > 1 && LastIsWord(k, tokens[0]) && FirstIsWord(k, tokens[1])
      then tokens[0] + " " + Render(k, tokens[1..])
    else tokens[0] + Render(k, tokens[1..])
  }

  lemma {:induction false} SpacesAddNoTokens(k: Classes, run: string, s: string)
    requires Proper(k) && s != "" && k.space(s[0])
    ensures TokensFrom(k, run, s) == Flushed(run) + TokensFrom(k, "", DropSpaces(k, s))
    decreases |s|
  {
    var t := s[1..];
    if t != "" && k.space(t[0]) {
      SpacesAddNoTokens(k, "", t);
    }
    assert Flushed(run) + [] + TokensFrom(k, "", t) == Flushed(run) + TokensFrom(k, "", t);
    assert Flushed("") + TokensFrom(k, "", DropSpaces(k, t)) == TokensFrom(k, "", DropSpaces(k, t));
  }

  lemma {:induction false} FirstTokenStarts(k: Classes, run: string, s: string)
    requires run != "" || (s != "" && !k.space(s[0]))
    ensures var ts := TokensFrom(k, run, s); ts != [] && ts[0] != "" && ts[0][0] == (run + s)[0]
    decreases |s|
  {
    if s != "" && k.word(s[0]) {
      FirstTokenStarts(k, run + [s[0]], s[1..]);
      assert (run + [s[0]] + s[1..])[0] == (run + s)[0];
    }
  }

  /** One token in front: a space only between two identifiers. */
  lemma RenderFirst(k: Classes, t: string, ts: seq<string>)
    ensures Render(k, [t] + ts) ==
      t + (if ts != [] && LastIsWord(k, t) && FirstIsWord(k, ts[0]) then " " else "") + Render(k, ts)
  {
    assert ([t] + ts)[1..] == ts;
  }

  /** The collapse writes out the tokens: `run` is the identifier that was just being written. */
  lemma {:induction false} CollapseRenders(k: Classes, run: string, s: string)
    requires Proper(k) && (run != "" ==> LastIsWord(k, run))
    ensures run + Collapsed(k, run != "", s) == Render(k, TokensFrom(k, run, s))
    decreases |s|
  {
    if s == "" {
      RenderRun(k, run);
    } else if k.word(s[0]) {
      CollapseRenders(k, run + [s[0]], s[1..]);
      assert run + ([s[0]] + Collapsed(k, true, s[1..])) == run + [s[0]] + Collapsed(k, true, s[1..]);
    } else if !k.space(s[0]) {
      CollapseRenders(k, "", s[1..]);
      MarkIsRendered(k, run, s);
    } else {
      CollapseRenders(k, "", DropSpaces(k, s));
      SpacesAreRendered(k, run, s);
    }
  }

  lemma RenderRun(k: Classes, run: string)
    ensures Render(k, Flushed(run)) == run
  {
    if run != "" { RenderFirst(k, run, []); }
  }

  lemma MarkIsRendered(k: Classes, run: string, s: string)
    requires s != "" && !k.word(s[0]) && !k.space(s[0])
    requires "" + Collapsed(k, false, s[1..]) == Render(k, TokensFrom(k, "", s[1..]))
    ensures run + Collapsed(k, run != "", s) == Render(k, TokensFrom(k, run, s))
  {
    var mark, more := [s[0]], TokensFrom(k, "", s[1..]);
    assert Collapsed(k, run != "", s) == mark + Collapsed(k, false, s[1..]);
    assert TokensFrom(k, run, s) == Flushed(run) + [mark] + more;
    hide Collapsed, TokensFrom, Render;
    RenderFirst(k, mark, more);
    assert "" + Collapsed(k, false, s[1..]) == Collapsed(k, false, s[1..]);
    assert mark + "" + Render(k, more) == mark + Render(k, more);
    if run == "" {
      assert Flushed(run) + [mark] + more == [mark] + more;
      assert run + (mark + Render(k, more)) == mark + Render(k, more);
    } else {
      RenderFirst(k, run, [mark] + more);
      assert Flushed(run) + [mark] + more == [run] + ([mark] + more);
      assert run + "" + (mark + Render(k, more)) == run + (mark + Render(k, more));
    }
  }

  /** What the first token after the layout is like. */
  lemma AfterSpaces(k: Classes, rest: string)
    requires rest != "" ==> !k.space(rest[0])
    ensures var more := TokensFrom(k, "", rest);
      (more == [] <==> rest == "") && (more != [] ==> (FirstIsWord(k, more[0]) <==> FirstIsWord(k, rest)))
    ensures Collapsed(k, true, rest) == Collapsed(k, false, rest)
  {
    if rest != "" {
      FirstTokenStarts(k, "", rest);
      assert ("" + rest)[0] == rest[0];
    }
  }

  lemma SpacesAreRendered(k: Classes, run: string, s: string)
    requires Proper(k) && (run != "" ==> LastIsWord(k, run)) && s != "" && k.space(s[0])
    requires var rest := DropSpaces(k, s); "" + Collapsed(k, false, rest) == Render(k, TokensFrom(k, "", rest))
    ensures run + Collapsed(k, run != "", s) == Render(k, TokensFrom(k, run, s))
  {
    var rest := DropSpaces(k, s);
    var out, more := Collapsed(k, false, rest), TokensFrom(k, "", rest);
    SpacesAddNoTokens(k, run, s);
    AfterSpaces(k, rest);
    assert Collapsed(k, run != "", s) == if run != "" && FirstIsWord(k, rest) then " " + out else out;
    assert "" + out == out;
    RenderRunFirst(k, run, more, out, FirstIsWord(k, rest));
  }

  lemma RenderRunFirst(k: Classes, run: string, more: seq<string>, out: string, first: bool)
    requires out == Render(k, more) && (run != "" ==> LastIsWord(k, run))
    requires first <==> more != [] && FirstIsWord(k, more[0])
    ensures Render(k, Flushed(run) + more) == run + if run != "" && first then " " + out else out
  {
    hide Render;
    if run == "" {
      assert Flushed(run) + more == more && run + out == out;
    } else {
      RenderFirst(k, run, more);
      assert run + (" " + out) == run + " " + out && run + "" + out == run + out;
    }
  }

  /** The collapse of a text is a function of its tokens alone. */
  lemma CollapseIsRender(k: Classes, s: string)
    requires Proper(k)
    ensures Collapse(k, s) == Render(k, Tokens(k, s))
  {
    CollapseRenders(k, "", s);
    assert "" + Collapse(k, s) == Collapse(k, s);
  }

  /** No token is lost, joined or split. */
  lemma {:induction false} CollapseKeepsTokens(k: Classes, run: string, s: string)
    requires Proper(k)
    ensures TokensFrom(k, run, Collapsed(k, run != "", s)) == TokensFrom(k, run, s)
    decreases |s|
  {
    if s == "" {
    } else if !k.space(s[0]) {
      var out := Collapsed(k, k.word(s[0]), s[1..]);
      assert ([s[0]] + out)[1..] == out;
      CollapseKeepsTokens(k, if k.word(s[0]) then run + [s[0]] else "", s[1..]);
    } else {
      var rest := DropSpaces(k, s);
      SpacesAddNoTokens(k, run, s);
      CollapseKeepsTokens(k, "", rest);
      assert Collapsed(k, run != "", rest) == Collapsed(k, false, rest);
      var out := Collapsed(k, false, rest);
      if run != "" && FirstIsWord(k, rest) {
        assert (" " + out)[1..] == out;
        assert Flushed(run) + [] + TokensFrom(k, "", out) == Flushed(run) + TokensFrom(k, "", out);
      } else if rest == "" {
        assert Flushed(run) + [] == Flushed(run);
      } else if run == "" {
        assert Flushed(run) + TokensFrom(k, "", rest) == TokensFrom(k, "", rest);
      } else {
        RunEndsHere(k, run, out);
      }
    }
  }

  lemma RunEndsHere(k: Classes, run: string, s: string)
    requires s != "" && !k.word(s[0])
    ensures TokensFrom(k, run, s) == Flushed(run) + TokensFrom(k, "", s)
  {
    var own := if k.space(s[0]) then [] else [[s[0]]];
    assert Flushed("") + own + TokensFrom(k, "", s[1..]) == own + TokensFrom(k, "", s[1..]);
    assert Flushed(run) + own + TokensFrom(k, "", s[1..]) == Flushed(run) + (own + TokensFrom(k, "", s[1..]));
  }

  /** Two texts collapse to one exactly when they have the same tokens. */
  lemma CollapseDecidesTokens(k: Classes, a: string, b: string)
    requires Proper(k)
    ensures Collapse(k, a) == Collapse(k, b) <==> Tokens(k, a) == Tokens(k, b)
  {
    CollapseKeepsTokens(k, "", a);
    CollapseKeepsTokens(k, "", b);
    CollapseIsRender(k, a);
    CollapseIsRender(k, b);
  }

  lemma CollapseIsIdempotent(k: Classes, s: string)
    requires Proper(k)
    ensures Collapse(k, Collapse(k, s)) == Collapse(k, s)
  {
    CollapseKeepsTokens(k, "", s);
    CollapseDecidesTokens(k, Collapse(k, s), s);
  }

  /** The text without its layout. */
  function Solid(k: Classes, s: string): string {
    if s == "" then "" else (if k.space(s[0]) then "" else [s[0]]) + Solid(k, s[1..])
  }

  lemma {:induction false} DroppedIsLayout(k: Classes, s: string)
    ensures Solid(k, DropSpaces(k, s)) == Solid(k, s)
  {
    if s != "" && k.space(s[0]) {
      DroppedIsLayout(k, s[1..]);
    }
  }

  /** Every character but layout is kept, in its order. */
  lemma {:induction false} CollapseKeepsCharacters(k: Classes, afterWord: bool, s: string)
    requires Proper(k)
    ensures Solid(k, Collapsed(k, afterWord, s)) == Solid(k, s)
    decreases |s|
  {
    if s == "" {
    } else if !k.space(s[0]) {
      CollapseKeepsCharacters(k, k.word(s[0]), s[1..]);
      var more := Collapsed(k, k.word(s[0]), s[1..]);
      assert ([s[0]] + more)[1..] == more;
    } else {
      var rest := DropSpaces(k, s);
      DroppedIsLayout(k, s);
      CollapseKeepsCharacters(k, afterWord, rest);
      CollapseKeepsCharacters(k, false, rest);
      var more := Collapsed(k, false, rest);
      assert (" " + more)[1..] == more;
    }
  }

  /** The layout left at `i` is one space between two identifier characters. */
  ghost predicate Separates(k: Classes, afterWord: bool, out: string, i: nat)
    requires i < |out|
  {
    && out[i] == ' ' && i + 1 < |out| && k.word(out[i + 1])
    && if i == 0 then afterWord else k.word(out[i - 1])
  }

  /** What layout is left separates identifiers, none is at either end of the text. */
  lemma {:induction false} CollapseOnlySeparates(k: Classes, afterWord: bool, s: string, i: nat)
    requires Proper(k) && i < |Collapsed(k, afterWord, s)| && k.space(Collapsed(k, afterWord, s)[i])
    ensures Separates(k, afterWord, Collapsed(k, afterWord, s), i)
    decreases |s|, i
  {
    if !k.space(s[0]) {
      CollapseOnlySeparates(k, k.word(s[0]), s[1..], i - 1);
    } else {
      var rest := DropSpaces(k, s);
      if afterWord && FirstIsWord(k, rest) {
        var more := Collapsed(k, false, rest);
        assert more[0] == rest[0];
        if i > 0 { CollapseOnlySeparates(k, false, rest, i - 1); }
      } else {
        CollapseOnlySeparates(k, afterWord, rest, i);
      }
    }
  }
}
