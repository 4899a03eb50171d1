/** What the recolourer's tag rewrites do, stated over the hand-written
    matchers: the `<path` rewrite keeps the attributes up to the first `d="`
    verbatim and drops the whitespace run; the shape rewrite fires exactly
    when the rest of the line after the whitespace has no `fill=`; and
    markup the patterns cannot match comes back unchanged. */
module RecolorFacts {
  import opened Wrappers
  import opened Text
  import opened Recolor
  import opened Template

  // ---------------------------------------------------------------------
  // The lookahead, restated without recursion.

  /** `FillOnLine` holds exactly when `fill=` starts at some index `k` at or
      after `p` with no newline between `p` and `k`. */
  lemma {:induction false} FillOnLineMeaning(s: string, p: nat)
    requires p <= |s|
    ensures FillOnLine(s, p) <==>
      exists k :: p <= k <= |s| && OccursAt(FillKey, s, k) && forall m :: p <= m < k ==> s[m] != '\n'
    decreases |s| - p
  {
    if p < |s| && !OccursAt(FillKey, s, p) {
      FillOnLineMeaning(s, p + 1);
      if s[p] != '\n' {
        if exists k :: p <= k <= |s| && OccursAt(FillKey, s, k) && forall m :: p <= m < k ==> s[m] != '\n' {
          var k :| p <= k <= |s| && OccursAt(FillKey, s, k) && forall m :: p <= m < k ==> s[m] != '\n';
          assert k != p;
        }
      } else {
        forall k | p <= k <= |s| && OccursAt(FillKey, s, k)
          ensures exists m :: p <= m < k && s[m] == '\n'
        {
          assert k != p;
        }
      }
    }
  }

  /** The lazy group stops at the first `d="` and never crosses a `>`. */
  lemma {:induction false} FindDFirst(s: string, j: nat)
    requires j <= |s|
    ensures FindD(s, j).Some? ==> OccursAt(DAttr, s, FindD(s, j).value)
    ensures FindD(s, j).Some? ==>
      forall k :: j <= k < FindD(s, j).value ==> s[k] != '>' && !OccursAt(DAttr, s, k)
    decreases |s| - j
  {
    if !OccursAt(DAttr, s, j) && j < |s| && s[j] != '>' {
      FindDFirst(s, j + 1);
    }
  }

  /** The lazy group finds nothing exactly when every `d="` from `j` on
      comes after a `>`. */
  lemma {:induction false} FindDNone(s: string, j: nat)
    requires j <= |s|
    ensures FindD(s, j).None? <==>
      forall e :: j <= e <= |s| && OccursAt(DAttr, s, e) ==> exists k :: j <= k < e && s[k] == '>'
    decreases |s| - j
  {
    if !OccursAt(DAttr, s, j) && j < |s| && s[j] != '>' {
      FindDNone(s, j + 1);
      forall e | j <= e <= |s| && OccursAt(DAttr, s, e) && (exists k :: j + 1 <= k < e && s[k] == '>')
        ensures exists k :: j <= k < e && s[k] == '>'
      {
        var k :| j + 1 <= k < e && s[k] == '>';
        assert j <= k;
      }
    }
  }

  // ---------------------------------------------------------------------
  // Whitespace is invisible to the lazy groups and to the lookahead.

  lemma {:induction false} FindDSkipsSpace(s: string, a: nat, b: nat)
    requires a <= b <= |s|
    requires forall k :: a <= k < b ==> IsSpace(s[k])
    ensures FindD(s, a) == FindD(s, b)
    decreases b - a
  {
    if a < b {
      assert !OccursAt(DAttr, s, a) by { assert IsSpace(s[a]); }
      FindDSkipsSpace(s, a + 1, b);
    }
  }

  /** The lazy group of the shape pattern ends at the first `>`, and finds
      none when no `>` follows. */
  lemma {:induction false} FindGtFirst(s: string, p: nat)
    requires p <= |s|
    ensures FindGt(s, p).Some? ==> s[FindGt(s, p).value] == '>'
    ensures FindGt(s, p).Some? ==> forall k :: p <= k < FindGt(s, p).value ==> s[k] != '>'
    ensures FindGt(s, p).None? <==> forall k :: p <= k < |s| ==> s[k] != '>'
    decreases |s| - p
  {
    if p < |s| && s[p] != '>' {
      FindGtFirst(s, p + 1);
    }
  }

  lemma {:induction false} FindGtSkips(s: string, a: nat, b: nat)
    requires a <= b <= |s|
    requires forall k :: a <= k < b ==> s[k] != '>'
    ensures FindGt(s, a) == FindGt(s, b)
    decreases b - a
  {
    if a < b {
      FindGtSkips(s, a + 1, b);
    }
  }

  lemma {:induction false} FillOnLineSkipsSpace(s: string, a: nat, b: nat)
    requires a <= b <= |s|
    requires forall k :: a <= k < b ==> IsSpace(s[k]) && s[k] != '\n'
    ensures FillOnLine(s, a) == FillOnLine(s, b)
    decreases b - a
  {
    if a < b {
      assert !OccursAt(FillKey, s, a) by { assert IsSpace(s[a]); }
      FillOnLineSkipsSpace(s, a + 1, b);
    }
  }

  // ---------------------------------------------------------------------
  // The path rewrite.

  /** Giving characters of the `\s+` run back never helps the path
      pattern: it matches with the whole run or not at all. */
  lemma {:induction false} TryPathWholeRun(s: string, start: nat, len: nat)
    requires start + len <= |s|
    requires forall k :: start <= k < start + len ==> IsSpace(s[k])
    ensures TryPath(s, start, len) ==
      if len > 0 && FindD(s, start + len).Some? then Some(Span(start + len, FindD(s, start + len).value)) else None
    decreases len
  {
    if len > 0 && FindD(s, start + len).None? {
      FindDSkipsSpace(s, start + len - 1, start + len);
      TryPathWholeRun(s, start, len - 1);
    }
  }

  /** `re.sub(r'<path\s+([^>]*?)d="', '<path fill="C" \1d="', ...)` at index
      `i`: it matches exactly when `<path` and at least one whitespace
      character start there and a `d="` follows before any `>`. The match
      ends just after the first such `d="`; its replacement keeps every
      character between the whitespace run and that `d="` verbatim, puts
      `fill="C"` and one space in place of the run, and does not look at
      any fill already present. */
  lemma PathRewrite(template: seq<Piece>, s: string, i: nat)
    requires i <= |s|
    ensures var start := i + 1 + |PathTag|;
      var g := start + (if start <= |s| then SpaceRun(s, start) else 0);
      MatchPath(template, s, i).Some? <==> (OpensTag(PathTag, s, i) && g <= |s| && FindD(s, g).Some?)
    ensures MatchPath(template, s, i).Some? ==>
      var g := i + 1 + |PathTag| + SpaceRun(s, i + 1 + |PathTag|);
      var e := FindD(s, g).value;
      && MatchPath(template, s, i).value.repl == Expand(template, s[i..e + 3], s[g..e])
      && MatchPath(template, s, i).value.len == e + 3 - i
  {
    if OccursAt("<" + PathTag, s, i) {
      PathRewriteOpened(template, s, i);
    }
  }

  lemma PathRewriteOpened(template: seq<Piece>, s: string, i: nat)
    requires OccursAt("<" + PathTag, s, i)
    ensures var g := i + 1 + |PathTag| + SpaceRun(s, i + 1 + |PathTag|);
      && (MatchPath(template, s, i).Some? <==> (SpaceRun(s, i + 1 + |PathTag|) > 0 && FindD(s, g).Some?))
      && (MatchPath(template, s, i).Some? ==>
           var e := FindD(s, g).value;
           MatchPath(template, s, i).value == Hit(Expand(template, s[i..e + 3], s[g..e]), e + 3 - i))
      && (OpensTag(PathTag, s, i) <==> SpaceRun(s, i + 1 + |PathTag|) > 0)
  {
    PathOpenedSpan(template, s, i);
    PathOpenedHit(template, s, i);
  }

  /** Where `<path` occurs, the path pattern's span is the whole whitespace
      run and the first `d="` after it. */
  lemma PathOpenedSpan(template: seq<Piece>, s: string, i: nat)
    requires OccursAt("<" + PathTag, s, i)
    ensures var start := i + 1 + |PathTag|;
      var g := start + SpaceRun(s, start);
      && (MatchPath(template, s, i).Some? <==> (SpaceRun(s, start) > 0 && FindD(s, g).Some?))
      && (MatchPath(template, s, i).Some? ==> TryPath(s, start, SpaceRun(s, start)) == Some(Span(g, FindD(s, g).value)))
  {
    var start := i + 1 + |PathTag|;
    TryPathWholeRun(s, start, SpaceRun(s, start));
  }

  lemma PathOpenedHit(template: seq<Piece>, s: string, i: nat)
    requires OccursAt("<" + PathTag, s, i)
    requires var start := i + 1 + |PathTag|;
      var g := start + SpaceRun(s, start);
      MatchPath(template, s, i).Some? ==> FindD(s, g).Some? && TryPath(s, start, SpaceRun(s, start)) == Some(Span(g, FindD(s, g).value))
    ensures var g := i + 1 + |PathTag| + SpaceRun(s, i + 1 + |PathTag|);
      MatchPath(template, s, i).Some? ==>
        && FindD(s, g).Some?
        && var e := FindD(s, g).value;
        MatchPath(template, s, i).value == Hit(Expand(template, s[i..e + 3], s[g..e]), e + 3 - i)
  {
  }


  // ---------------------------------------------------------------------
  // The shape rewrite.

  /** Once some length of the `\s+` run lets the rest of the shape pattern
      match, trying that length or a longer one first still finds a match. */
  lemma {:induction false} TryShapeFinds(s: string, start: nat, len: nat, good: nat)
    requires start + len <= |s|
    requires 0 < good <= len
    requires !FillOnLine(s, start + good) && FindGt(s, start + good).Some?
    ensures TryShape(s, start, len).Some?
    decreases len
  {
    if len > good {
      var p := start + len;
      if !(!FillOnLine(s, p) && FindGt(s, p).Some?) {
        TryShapeFinds(s, start, len - 1, good);
      }
    }
  }

  /** With no newline in the `\s+` run, backtracking does not change the
      outcome: the shape pattern matches with the whole run or not at all. */
  lemma {:induction false} TryShapeWholeRun(s: string, start: nat, len: nat)
    requires start + len <= |s|
    requires forall k :: start <= k < start + len ==> IsSpace(s[k]) && s[k] != '\n'
    ensures TryShape(s, start, len) ==
      var p := start + len;
      if len > 0 && !FillOnLine(s, p) && FindGt(s, p).Some? then Some(Span(p, FindGt(s, p).value)) else None
    decreases len
  {
    var p := start + len;
    if len > 0 && !(!FillOnLine(s, p) && FindGt(s, p).Some?) {
      FillOnLineSkipsSpace(s, p - 1, p);
      FindGtSkips(s, p - 1, p);
      TryShapeWholeRun(s, start, len - 1);
    }
  }

  /** `re.sub(f"<{element}\\s+(?!.*fill=)([^>]*?)>", ...)` at index `i`, when
      the whitespace after the element name holds no newline: it matches
      exactly when `<element` and whitespace start there, `fill=` does not
      occur on the rest of the line after the whitespace, and a `>` follows.
      The match ends at the first `>`; the replacement keeps the attributes
      verbatim and puts `fill="C"` and one space in place of the run. */
  lemma ShapeRewrite(element: string, template: seq<Piece>, s: string, i: nat)
    requires i <= |s|
    requires var start := i + 1 + |element|;
      start <= |s| ==> forall k :: start <= k < start + SpaceRun(s, start) ==> s[k] != '\n'
    ensures var start := i + 1 + |element|;
      var g := start + (if start <= |s| then SpaceRun(s, start) else 0);
      MatchShape(element, template, s, i).Some? <==>
        (OpensTag(element, s, i) && g <= |s| && !FillOnLine(s, g) && FindGt(s, g).Some?)
    ensures MatchShape(element, template, s, i).Some? ==>
      var g := i + 1 + |element| + SpaceRun(s, i + 1 + |element|);
      var q := FindGt(s, g).value;
      && MatchShape(element, template, s, i).value.repl == Expand(template, s[i..q + 1], s[g..q])
      && MatchShape(element, template, s, i).value.len == q + 1 - i
  {
    if OccursAt("<" + element, s, i) {
      ShapeRewriteOpened(element, template, s, i);
    }
  }

  lemma ShapeRewriteOpened(element: string, template: seq<Piece>, s: string, i: nat)
    requires OccursAt("<" + element, s, i)
    requires var start := i + 1 + |element|;
      forall k :: start <= k < start + SpaceRun(s, start) ==> s[k] != '\n'
    ensures var g := i + 1 + |element| + SpaceRun(s, i + 1 + |element|);
      && (MatchShape(element, template, s, i).Some? <==>
           (SpaceRun(s, i + 1 + |element|) > 0 && !FillOnLine(s, g) && FindGt(s, g).Some?))
      && (MatchShape(element, template, s, i).Some? ==>
           var q := FindGt(s, g).value;
           MatchShape(element, template, s, i).value == Hit(Expand(template, s[i..q + 1], s[g..q]), q + 1 - i))
      && (OpensTag(element, s, i) <==> SpaceRun(s, i + 1 + |element|) > 0)
  {
    ShapeOpenedSpan(element, template, s, i);
    ShapeOpenedHit(element, template, s, i);
  }

  /** Where `<element` occurs and its whitespace run has no newline, the
      shape pattern's span is the whole run and the first `>` after it. */
  lemma ShapeOpenedSpan(element: string, template: seq<Piece>, s: string, i: nat)
    requires OccursAt("<" + element, s, i)
    requires var start := i + 1 + |element|;
      forall k :: start <= k < start + SpaceRun(s, start) ==> s[k] != '\n'
    ensures var start := i + 1 + |element|;
      var g := start + SpaceRun(s, start);
      && (MatchShape(element, template, s, i).Some? <==> (SpaceRun(s, start) > 0 && !FillOnLine(s, g) && FindGt(s, g).Some?))
      && (MatchShape(element, template, s, i).Some? ==> TryShape(s, start, SpaceRun(s, start)) == Some(Span(g, FindGt(s, g).value)))
  {
    var start := i + 1 + |element|;
    TryShapeWholeRun(s, start, SpaceRun(s, start));
  }

  lemma ShapeOpenedHit(element: string, template: seq<Piece>, s: string, i: nat)
    requires OccursAt("<" + element, s, i)
    requires var start := i + 1 + |element|;
      var g := start + SpaceRun(s, start);
      MatchShape(element, template, s, i).Some? ==> FindGt(s, g).Some? && TryShape(s, start, SpaceRun(s, start)) == Some(Span(g, FindGt(s, g).value))
    ensures var g := i + 1 + |element| + SpaceRun(s, i + 1 + |element|);
      MatchShape(element, template, s, i).Some? ==>
        && FindGt(s, g).Some?
        && var q := FindGt(s, g).value;
        MatchShape(element, template, s, i).value == Hit(Expand(template, s[i..q + 1], s[g..q]), q + 1 - i)
  {
  }


  /** The lookahead is evaluated after each length of the `\s+` run the
      regular-expression engine tries. When the run holds a newline past
      its first character, the engine can stop the run just before that
      newline, where the rest of the line is blank: the tag gets a fill
      even when `fill=` follows on the next line. */
  lemma ShapeNewlineInRun(element: string, template: seq<Piece>, s: string, i: nat, m: nat)
    requires i + 1 + |element| <= |s|
    requires OccursAt("<" + element, s, i)
    requires var start := i + 1 + |element|;
      start < m < start + SpaceRun(s, start) && s[m] == '\n'
    requires FindGt(s, i + 1 + |element| + SpaceRun(s, i + 1 + |element|)).Some?
    ensures MatchShape(element, template, s, i).Some?
  {
    var start := i + 1 + |element|;
    var w := SpaceRun(s, start);
    assert !FillOnLine(s, m) by {
      assert !OccursAt(FillKey, s, m) by { assert s[m] != FillKey[0]; }
    }
    FindGtSkips(s, m, start + w);
    TryShapeFinds(s, start, w, m - start);
  }

  // ---------------------------------------------------------------------
  // Nothing else changes.

  lemma LiteralWithoutOccurrence(p: string, q: string, s: string)
    requires |p| > 0
    requires !Occurs(p, s)
    ensures NoHitFrom(Literal(p, q), s, 0)
  {
    forall k | 0 <= k < |s| ensures MatchAt(Literal(p, q), s, k).None? {
      assert !OccursAt(p, s, k);
    }
  }

  /** A tag pattern cannot match where its tag is not opened. */
  lemma TagWithoutOpening(pat: Pattern, s: string)
    requires pat.PathFill? || pat.ShapeFill?
    requires var name := if pat.PathFill? then PathTag else pat.element;
      forall k :: 0 <= k < |s| ==> !OpensTag(name, s, k)
    ensures NoHitFrom(pat, s, 0)
  {
  }

  /** Rules none of which matches anywhere leave the markup unchanged. */
  lemma {:induction false} ApplyAllWithoutHits(rules: seq<Pattern>, s: string)
    requires AllValid(rules)
    requires forall k :: 0 <= k < |rules| ==> NoHitFrom(rules[k], s, 0)
    ensures ApplyAll(rules, s) == s
    decreases |rules|
  {
    if |rules| > 0 {
      ApplyAllWithoutHits(rules[1..], s);
    }
  }

  /** `recolor_svg` returns markup unchanged when it holds none of the six
      black spellings, no `<path` followed by whitespace, and no shape tag
      followed by whitespace. */
  lemma RecolorUnchanged(svg: string, color: string)
    requires forall j :: 0 <= j < |BlackFills| ==> !Occurs(BlackFills[j], svg)
    requires forall k :: 0 <= k < |svg| ==> !OpensTag(PathTag, svg, k)
    requires forall e, k :: e in ShapeElements && 0 <= k < |svg| ==> !OpensTag(e, svg, k)
    ensures RecolorSvg(svg, color) == if TemplatesParse(color) then Some(svg) else None
  {
    if !TemplatesParse(color) {
      return;
    }
    var rules := RecolorRules(color);
    forall r | 0 <= r < |rules| ensures NoHitFrom(rules[r], svg, 0) {
      if r < 6 {
        assert rules[r] == LiteralRules(color)[r];
        LiteralWithoutOccurrence(BlackFills[r], BlackFillReplacement(r, color), svg);
      } else if r == 6 {
        TagWithoutOpening(rules[r], svg);
      } else {
        assert rules[r] == ShapeRules(color)[r - 7];
        assert ShapeElements[r - 7] in ShapeElements;
        TagWithoutOpening(rules[r], svg);
      }
    }
    ApplyAllWithoutHits(rules, svg);
  }

  // ---------------------------------------------------------------------
  // The replacement templates.

  /** The template inserts `head`, the group, and `tail`, whatever the
      match. */
  ghost predicate Inserts(template: seq<Piece>, head: string, tail: string)
  {
    forall whole, group :: Expand(template, whole, group) == head + group + tail
  }

  /** For a colour without backslashes, the path template inserts
      `<path fill="C" `, the attributes the group caught, and `d="`; a shape
      template inserts `<element fill="C" `, the group, and `>`. With
      `PathRewrite` and `ShapeRewrite`, which say which span a match
      replaces and what the group holds, this is what the rewrites do to
      the markup. */
  lemma PlainColorInserts(color: string)
    requires '\\' !in color
    ensures Parse(PathTemplate(color)).Some?
    ensures Inserts(Parse(PathTemplate(color)).value, TagHead(PathTag, color), DAttr)
    ensures forall k :: 0 <= k < |ShapeElements| ==>
      var element := ShapeElements[k];
      && Parse(ShapeTemplate(element, color)).Some?
      && Inserts(Parse(ShapeTemplate(element, color)).value, TagHead(element, color), ">")
  {
    PlainTemplates(color);
    PlainInserts(PathTag, color, DAttr);
    forall k | 0 <= k < |ShapeElements|
      ensures Inserts(Parse(ShapeTemplate(ShapeElements[k], color)).value, TagHead(ShapeElements[k], color), ">")
    {
      PlainInserts(ShapeElements[k], color, ">");
    }
  }

  lemma PlainInserts(name: string, color: string, tail: string)
    ensures Inserts(Plain(TagHead(name, color)) + ([GroupRef(1)] + Plain(tail)), TagHead(name, color), tail)
  {
    forall whole, group
      ensures Expand(Plain(TagHead(name, color)) + ([GroupRef(1)] + Plain(tail)), whole, group) == TagHead(name, color) + group + tail
    {
      ExpandHeadGroupTail(TagHead(name, color), tail, whole, group);
    }
  }

  /** A colour holding `\g<0>` is a group reference in the template: the
      path rewrite inserts the whole matched text where `\g<0>` stands. */
  lemma WholeMatchColor(a: string, b: string, whole: string, group: string)
    requires '\\' !in a && '\\' !in b
    ensures Parse(PathTemplate(a + "\\g<0>" + b)).Some?
    ensures Expand(Parse(PathTemplate(a + "\\g<0>" + b)).value, whole, group) ==
      FillOpen(PathTag) + a + whole + b + "\" " + group + DAttr
  {
    var color := a + "\\g<0>" + b;
    var p := FillOpen(PathTag) + a;
    var q := b + "\" ";
    assert PathTemplate(color) == p + ("\\g<0>" + (q + ("\\1" + DAttr))) by {
      TemplateAroundColor(PathTag, color, DAttr);
    }
    WholeThenGroup(p, q, DAttr);
    ExpandWholeThenGroup(p, q, DAttr, whole, group);
  }

  /** A colour that starts with a backslash and a letter with no escape
      meaning (`\q`, say) is a bad escape: `re.sub` raises and the
      recolouring fails, whatever the markup. */
  lemma BadEscapeColor(svg: string, color: string)
    requires |color| >= 2 && color[0] == '\\' && IsAsciiLetter(color[1])
    requires color[1] != 'g' && SimpleEscape(color[1]).None?
    ensures RecolorSvg(svg, color) == None
  {
    var t := color + ("\" " + ("\\1" + DAttr));
    TemplateAroundColor(PathTag, color, DAttr);
    assert t[0] == '\\' && t[1] == color[1];
    BadLetterAfter(FillOpen(PathTag), t);
    assert !TemplatesParse(color);
  }
}
