/** The literal phase of the recolourer removes every spelling of black it
    knows about: after the six replace-all steps none of the six literals
    occurs in the markup, because no replacement text can overlap one of
    them (`Separated`). */
module LiteralPhase {
  import opened Text
  import opened Recolor
  import SeparationFacts

  /** The first index at or after `i` where `p` occurs, or `|s|`. */
  function FirstHit(p: string, s: string, i: nat): (f: nat)
    requires i <= |s|
    ensures i <= f <= |s|
    ensures forall k :: i <= k < f ==> !OccursAt(p, s, k)
    ensures f < |s| ==> OccursAt(p, s, f)
    decreases |s| - i
  {
    if i == |s| || OccursAt(p, s, i) then i else FirstHit(p, s, i + 1)
  }

  /** `s[i:].replace(p, q)`: scanning left to right, each occurrence of
      `p` that does not overlap an earlier replaced one becomes `q`. */
  function Replaced(p: string, q: string, s: string, i: nat): string
    requires |p| > 0 && i <= |s|
    decreases |s| - i
  {
    if i == |s| then []
    else if OccursAt(p, s, i) then q + Replaced(p, q, s, i + |p|)
    else [s[i]] + Replaced(p, q, s, i + 1)
  }

  /** The general substitution scan, given a literal pattern, is
      `str.replace`. */
  lemma {:induction false} LiteralScan(p: string, q: string, s: string, i: nat)
    requires |p| > 0 && i <= |s|
    ensures SubFrom(Literal(p, q), s, i) == Replaced(p, q, s, i)
    decreases |s| - i
  {
    if i < |s| {
      if OccursAt(p, s, i) {
        LiteralScan(p, q, s, i + |p|);
      } else {
        LiteralScan(p, q, s, i + 1);
      }
    }
  }

  /** One step of the replace-all scan of a literal. */
  lemma LiteralStep(p: string, q: string, s: string, i: nat)
    requires |p| > 0 && i < |s|
    ensures OccursAt(p, s, i) ==> Replaced(p, q, s, i) == q + Replaced(p, q, s, i + |p|)
    ensures !OccursAt(p, s, i) ==> Replaced(p, q, s, i) == [s[i]] + Replaced(p, q, s, i + 1)
  {
  }

  /** Where `p` does not start anywhere in `s[i..f]`, the replace-all scan
      copies that stretch. */
  lemma {:induction false} CopiedUpTo(p: string, q: string, s: string, i: nat, f: nat)
    requires |p| > 0 && i <= f <= |s|
    requires forall k :: i <= k < f ==> !OccursAt(p, s, k)
    ensures Replaced(p, q, s, i) == s[i..f] + Replaced(p, q, s, f)
    decreases f - i
  {
    if i < f {
      assert !OccursAt(p, s, i);
      LiteralStep(p, q, s, i);
      CopiedUpTo(p, q, s, i + 1, f);
      ConsSlice(s, i, f, Replaced(p, q, s, f));
    }
  }

  lemma ConsSlice(s: string, i: nat, f: nat, tail: string)
    requires i < f <= |s|
    ensures [s[i]] + (s[i + 1..f] + tail) == s[i..f] + tail
  {
    assert s[i..f] == [s[i]] + s[i + 1..f];
  }

  /** A literal cannot start inside a replacement it is separated from. */
  lemma WindowInsideRepl(q: string, rest: string, p2: string, k: nat)
    requires k < |q|
    requires NoneAgreeFrom(q, 0, p2)
    ensures !OccursAt(p2, q + rest, k)
  {
    if OccursAt(p2, q + rest, k) {
      var o := q + rest;
      forall m | k <= m < |q| && 0 + m - k < |p2|
        ensures q[m] == p2[0 + m - k]
      {
        assert o[k..k + |p2|][m - k] == o[m];
      }
      AgreeAtOfEqual(q, k, p2, 0);
      NoneAgreeFromAt(q, 0, p2, k);
    }
  }

  /** An occurrence past a prefix `h` is an occurrence in the rest. */
  lemma WindowPastPrefix(h: string, rest: string, p2: string, k: int)
    requires k >= |h|
    requires OccursAt(p2, h + rest, k)
    ensures OccursAt(p2, rest, k - |h|)
  {
    assert (h + rest)[k..k + |p2|] == rest[k - |h|..k - |h| + |p2|];
  }

  /** The window at the start of `o` cannot hold `p2` when `o` copies `s`
      from index `i` up to index `f` and then continues with `q` (or copies
      all of `s[i..]` when `f == |s|`), `s` has no `p2` at `i`, and `p2`
      cannot overlap `q`. */
  lemma NoWindowAtCopiedHead(s: string, i: nat, f: nat, o: string, q: string, p2: string)
    requires i < f <= |s|
    requires f - i <= |o| && o[..f - i] == s[i..f]
    requires f == |s| ==> o == s[i..]
    requires f < |s| ==> |q| <= |o| - (f - i) && o[f - i..f - i + |q|] == q
    requires Separated(q, p2)
    requires !OccursAt(p2, s, i)
    ensures !OccursAt(p2, o, 0)
  {
    var d := f - i;
    if f == |s| || d >= |p2| {
      if |p2| <= |o| {
        if f < |s| {
          assert o[..|p2|] == o[..d][..|p2|];
          assert s[i..i + |p2|] == s[i..f][..|p2|];
        }
        assert s[i..i + |p2|] == o[..|p2|];
      }
    } else if OccursAt(p2, o, 0) {
      forall m | d <= m < |p2| && 0 + m - d < |q|
        ensures p2[m] == q[0 + m - d]
      {
        assert o[..|p2|][m] == o[m];
        assert o[d..d + |q|][m - d] == o[m];
      }
      AgreeAtOfEqual(p2, d, q, 0);
      NoneAgreeFromAt(p2, 1, q, d);
    }
  }

  /** The scan's output from `i` is the input up to the first occurrence
      of `p`, then `q` when there is one. */
  lemma SplitAtFirstHit(p: string, q: string, s: string, i: nat)
    requires |p| > 0 && i <= |s|
    ensures var f := FirstHit(p, s, i);
      var o := Replaced(p, q, s, i);
      && f - i <= |o| && o[..f - i] == s[i..f]
      && (f == |s| ==> o == s[i..])
      && (f < |s| ==> |q| <= |o| - (f - i) && o[f - i..f - i + |q|] == q)
  {
    var f := FirstHit(p, s, i);
    CopiedUpTo(p, q, s, i, f);
    if f < |s| {
      LiteralStep(p, q, s, f);
      ConcatWindows(s[i..f], q, Replaced(p, q, s, f + |p|));
    } else {
      assert Replaced(p, q, s, f) == [];
      assert s[i..f] + [] == s[i..];
    }
  }

  /** The scan from index `i + j` of `s` is the scan from index `j` of
      `s[i..]`. */
  lemma {:induction false} ReplacedShift(p: string, q: string, s: string, i: nat, j: nat)
    requires |p| > 0 && i + j <= |s|
    ensures Replaced(p, q, s, i + j) == Replaced(p, q, s[i..], j)
    decreases |s| - i - j
  {
    var t := s[i..];
    if i + j < |s| {
      assert t[j] == s[i + j];
      assert OccursAt(p, s, i + j) <==> OccursAt(p, t, j) by {
        if i + j + |p| <= |s| {
          assert t[j..j + |p|] == s[i + j..i + j + |p|];
        }
      }
      if OccursAt(p, s, i + j) {
        ReplacedShift(p, q, s, i, j + |p|);
      } else {
        ReplacedShift(p, q, s, i, j + 1);
      }
    }
  }

  /** The first occurrence scan reaches the end exactly when `p` does not
      occur. */
  lemma FirstHitOccurs(p: string, s: string)
    requires |p| > 0
    ensures FirstHit(p, s, 0) == |s| <==> !Occurs(p, s)
  {
    var f := FirstHit(p, s, 0);
    if Occurs(p, s) {
      var k :| 0 <= k <= |s| && OccursAt(p, s, k);
      assert f <= k < |s|;
    }
  }

  /** The replace-all scan splits at the first occurrence. */
  lemma ReplacedScanSplitsAtFirst(p: string, q: string, s: string)
    requires |p| > 0
    ensures var f := FirstHit(p, s, 0);
      f < |s| ==> f + |p| <= |s| && Replaced(p, q, s, 0) == s[..f] + q + Replaced(p, q, s[f + |p|..], 0)
    ensures FirstHit(p, s, 0) == |s| ==> Replaced(p, q, s, 0) == s
  {
    var f := FirstHit(p, s, 0);
    CopiedUpTo(p, q, s, 0, f);
    if f < |s| {
      ReplacedAtHit(p, q, s, f);
    } else {
      assert Replaced(p, q, s, f) == [];
      assert s[0..f] + [] == s;
    }
  }

  lemma ReplacedAtHit(p: string, q: string, s: string, f: nat)
    requires |p| > 0 && f < |s| && OccursAt(p, s, f)
    requires Replaced(p, q, s, 0) == s[0..f] + Replaced(p, q, s, f)
    ensures Replaced(p, q, s, 0) == s[..f] + q + Replaced(p, q, s[f + |p|..], 0)
  {
    LiteralStep(p, q, s, f);
    ReplacedShift(p, q, s, f + |p|, 0);
    assert s[0..f] == s[..f];
  }

  /** `s.replace(p, q)` with a non-empty `p`: `s` itself when `p` does not
      occur; otherwise the text before the first occurrence, `q`, and the
      replacement applied to the rest after that occurrence. */
  lemma ReplaceSplitsAtFirst(p: string, q: string, s: string)
    requires |p| > 0
    ensures FirstHit(p, s, 0) == |s| <==> !Occurs(p, s)
    ensures !Occurs(p, s) ==> Sub(Literal(p, q), s) == s
    ensures Occurs(p, s) ==>
      var f := FirstHit(p, s, 0);
      && f + |p| <= |s|
      && Sub(Literal(p, q), s) == s[..f] + q + Sub(Literal(p, q), s[f + |p|..])
  {
    var f := FirstHit(p, s, 0);
    FirstHitOccurs(p, s);
    LiteralScan(p, q, s, 0);
    ReplacedScanSplitsAtFirst(p, q, s);
    if f < |s| {
      LiteralScan(p, q, s[f + |p|..], 0);
    }
  }

  lemma ConcatWindows(a: string, q: string, rest: string)
    ensures (a + (q + rest))[..|a|] == a
    ensures (a + (q + rest))[|a|..|a| + |q|] == q
  {
  }

  /** A literal cannot start at a character the scan copied. */
  lemma WindowAtCopied(p: string, q: string, p2: string, s: string, i: nat)
    requires |p| > 0 && i < |s| && !OccursAt(p, s, i)
    requires Separated(q, p2)
    requires p2 == p || AbsentFrom(p2, s, i)
    ensures !OccursAt(p2, Replaced(p, q, s, i), 0)
  {
    SplitAtFirstHit(p, q, s, i);
    NoWindowAtCopiedHead(s, i, FirstHit(p, s, i), Replaced(p, q, s, i), q, p2);
  }

  /** One replace-all step of `p` by `q` leaves no occurrence of `p2`, when
      `p2` is `p` itself or is absent from the input, and `q` cannot overlap
      `p2`. */
  lemma {:induction false} LiteralClears(p: string, q: string, p2: string, s: string, i: nat)
    requires |p| > 0 && i <= |s|
    requires Separated(q, p2)
    requires p2 == p || AbsentFrom(p2, s, i)
    ensures !Occurs(p2, Replaced(p, q, s, i))
    decreases |s| - i
  {
    var o := Replaced(p, q, s, i);
    if i == |s| {
      assert o == [];
    } else if OccursAt(p, s, i) {
      var rest := Replaced(p, q, s, i + |p|);
      LiteralStep(p, q, s, i);
      LiteralClears(p, q, p2, s, i + |p|);
      forall k | 0 <= k <= |o| ensures !OccursAt(p2, o, k) {
        if k < |q| {
          WindowInsideRepl(q, rest, p2, k);
        } else if OccursAt(p2, o, k) {
          WindowPastPrefix(q, rest, p2, k);
        }
      }
    } else {
      var rest := Replaced(p, q, s, i + 1);
      LiteralStep(p, q, s, i);
      LiteralClears(p, q, p2, s, i + 1);
      forall k | 0 <= k <= |o| ensures !OccursAt(p2, o, k) {
        if k == 0 {
          WindowAtCopied(p, q, p2, s, i);
        } else if OccursAt(p2, o, k) {
          WindowPastPrefix([s[i]], rest, p2, k);
        }
      }
    }
  }

  lemma {:induction false} ApplyAllConcat(a: seq<Pattern>, b: seq<Pattern>, s: string)
    requires AllValid(a) && AllValid(b)
    ensures AllValid(a + b)
    ensures ApplyAll(a + b, s) == ApplyAll(b, ApplyAll(a, s))
    decreases |a|
  {
    assert AllValid(a + b);
    if |a| > 0 {
      assert (a + b)[0] == a[0];
      assert (a + b)[1..] == a[1..] + b;
      var s' := Sub(a[0], s);
      ApplyAllConcat(a[1..], b, s');
      calc {
        ApplyAll(a + b, s);
        ApplyAll((a + b)[1..], Sub((a + b)[0], s));
        ApplyAll(a[1..] + b, s');
        ApplyAll(b, ApplyAll(a[1..], s'));
        ApplyAll(b, ApplyAll(a, s));
      }
    } else {
      assert a + b == b;
    }
  }

  /** Every rule is a replace-all of a nonempty literal whose replacement
      cannot overlap `p2`. */
  predicate LiteralsSeparatedFrom(rules: seq<Pattern>, p2: string)
  {
    forall k :: 0 <= k < |rules| ==>
      rules[k].Literal? && |rules[k].find| > 0 && Separated(rules[k].repl, p2)
  }

  /** Replace-all steps whose replacements cannot overlap `p2` never
      create an occurrence of `p2`. */
  lemma {:induction false} LiteralsKeepAbsent(rules: seq<Pattern>, s: string, p2: string)
    requires LiteralsSeparatedFrom(rules, p2)
    requires !Occurs(p2, s)
    ensures AllValid(rules)
    ensures !Occurs(p2, ApplyAll(rules, s))
    decreases |rules|
  {
    if |rules| > 0 {
      var r := rules[0];
      assert r == Literal(r.find, r.repl);
      LiteralClears(r.find, r.repl, p2, s, 0);
      LiteralScan(r.find, r.repl, s, 0);
      assert Sub(r, s) == Replaced(r.find, r.repl, s, 0);
      LiteralsKeepAbsent(rules[1..], Sub(r, s), p2);
    }
  }

  /** The colour's replacement texts cannot overlap any spelling of black. */
  predicate ClearsBlack(color: string)
  {
    forall j :: 0 <= j < |BlackFills| ==>
      Separated(FillAttr(color), BlackFills[j]) && Separated(FillStyle(color), BlackFills[j])
  }

  /** The literal phase of `recolor_svg`: after its six replace-all steps
      no spelling of black it handles is left anywhere in the markup. */
  lemma LiteralPhaseClears(svg: string, color: string)
    requires ClearsBlack(color)
    ensures forall j :: 0 <= j < |BlackFills| ==> !Occurs(BlackFills[j], ApplyAll(LiteralRules(color), svg))
  {
    forall j | 0 <= j < |BlackFills|
      ensures !Occurs(BlackFills[j], ApplyAll(LiteralRules(color), svg))
    {
      LiteralStepClears(svg, color, j);
    }
  }

  /** Step `j` removes spelling `j`, and the later steps do not bring it
      back. */
  lemma LiteralStepClears(svg: string, color: string, j: nat)
    requires ClearsBlack(color) && j < |BlackFills|
    ensures !Occurs(BlackFills[j], ApplyAll(LiteralRules(color), svg))
  {
    var rules := LiteralRules(color);
    var p2 := BlackFills[j];
    var q := BlackFillReplacement(j, color);
    var before, after := rules[..j], rules[j + 1..];
    LiteralRuleAt(color, j);
    assert rules == before + ([rules[j]] + after);
    ApplyAllConcat(before, [rules[j]] + after, svg);
    var mid := ApplyAll(before, svg);
    LiteralClears(p2, q, p2, mid, 0);
    LiteralScan(p2, q, mid, 0);
    assert ApplyAll([rules[j]] + after, mid) == ApplyAll(after, Sub(rules[j], mid));
    LaterStepsSeparated(color, j);
    LiteralsKeepAbsent(after, Sub(rules[j], mid), p2);
  }

  lemma LiteralRuleAt(color: string, j: nat)
    requires ClearsBlack(color) && j < |BlackFills|
    ensures LiteralRules(color)[j] == Literal(BlackFills[j], BlackFillReplacement(j, color))
    ensures Separated(BlackFillReplacement(j, color), BlackFills[j])
  {
  }

  lemma LaterStepsSeparated(color: string, j: nat)
    requires ClearsBlack(color) && j < |BlackFills|
    ensures LiteralsSeparatedFrom(LiteralRules(color)[j + 1..], BlackFills[j])
  {
    var after := LiteralRules(color)[j + 1..];
    forall k | 0 <= k < |after|
      ensures after[k].Literal? && |after[k].find| > 0 && Separated(after[k].repl, BlackFills[j])
    {
      LiteralRuleAt(color, j + 1 + k);
    }
  }

  const TableColor: string := "#221FBB"

  /** The icon colour of every configuration satisfies the separation the
      literal phase needs. */
  lemma TableColorClearsBlack()
    ensures ClearsBlack(TableColor)
  {
    assert FillAttr(TableColor) == SeparationFacts.TableFillAttr;
    assert FillStyle(TableColor) == SeparationFacts.TableFillStyle;
    SeparationFacts.SeparatedFillHex6();
    SeparationFacts.SeparatedFillHex3();
    SeparationFacts.SeparatedFillBlack();
    SeparationFacts.SeparatedFillCurrentColor();
    SeparationFacts.SeparatedStyleHex6();
    SeparationFacts.SeparatedStyleHex3();
    forall j | 0 <= j < |BlackFills|
      ensures Separated(FillAttr(TableColor), BlackFills[j]) && Separated(FillStyle(TableColor), BlackFills[j])
    {
      if j == 0 { assert BlackFills[j] == FillHex6; }
      else if j == 1 { assert BlackFills[j] == FillHex3; }
      else if j == 2 { assert BlackFills[j] == FillBlack; }
      else if j == 3 { assert BlackFills[j] == FillCurrentColor; }
      else if j == 4 { assert BlackFills[j] == StyleHex6; }
      else { assert BlackFills[j] == StyleHex3; }
    }
  }
}
