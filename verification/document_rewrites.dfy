/** What the tag rewrites of `recolor_svg` do to a whole document: each
    leftmost match is replaced by the parsed colour template expanded with
    the matched text and the attributes the lazy group caught, and the scan
    resumes after the matched text. */
module DocumentRewrites {
  import opened Wrappers
  import opened Text
  import opened Template
  import opened Recolor
  import opened RecolorFacts
  import opened ScanFacts

  /** A path match at `i` spans the whole whitespace run and the attributes
      up to the first `d="`; the hit is the template expanded with them. */
  lemma PathHit(template: seq<Piece>, s: string, i: nat, h: Hit)
    requires i <= |s| && MatchAt(PathFill(template), s, i) == Some(h)
    ensures OpensTag(PathTag, s, i)
    ensures var g := i + 1 + |PathTag| + SpaceRun(s, i + 1 + |PathTag|);
      && FindD(s, g).Some?
      && var e := FindD(s, g).value;
      h == Hit(Expand(template, s[i..e + 3], s[g..e]), e + 3 - i)
  {
    assert OccursAt("<" + PathTag, s, i);
    PathOpenedSpan(template, s, i);
  }

  /** The path rewrite over a document, for any template: the text before
      the first match is kept, the match is replaced by the template
      expanded with the matched text and the attributes, and the scan
      resumes right after the first `d="`. */
  lemma PathScan(template: seq<Piece>, s: string, i: nat, f: nat, h: Hit)
    requires i <= f < |s|
    requires MatchAt(PathFill(template), s, f) == Some(h)
    requires NoHitBetween(PathFill(template), s, i, f)
    ensures OpensTag(PathTag, s, f) && f + h.len <= |s|
    ensures FindD(s, f + 1 + |PathTag| + SpaceRun(s, f + 1 + |PathTag|)).Some?
    ensures var g := f + 1 + |PathTag| + SpaceRun(s, f + 1 + |PathTag|);
      var e := FindD(s, g).value;
      h == Hit(Expand(template, s[f..e + 3], s[g..e]), e + 3 - f)
    ensures SubFrom(PathFill(template), s, i) == s[i..f] + h.repl + SubFrom(PathFill(template), s, f + h.len)
  {
    PathHit(template, s, f, h);
    SubFromSplits(PathFill(template), s, i, f, h);
  }

  /** A shape match at `i`, with no newline in the whitespace run, spans the
      whole run and the attributes up to the first `>`; the hit is the
      template expanded with them. */
  lemma ShapeHit(element: string, template: seq<Piece>, s: string, i: nat, h: Hit)
    requires i <= |s| && MatchAt(ShapeFill(element, template), s, i) == Some(h)
    requires var start := i + 1 + |element|;
      start <= |s| ==> forall m :: start <= m < start + SpaceRun(s, start) ==> s[m] != '\n'
    ensures OpensTag(element, s, i)
    ensures var g := i + 1 + |element| + SpaceRun(s, i + 1 + |element|);
      && FindGt(s, g).Some?
      && var q := FindGt(s, g).value;
      h == Hit(Expand(template, s[i..q + 1], s[g..q]), q + 1 - i)
  {
    assert OccursAt("<" + element, s, i);
    ShapeOpenedSpan(element, template, s, i);
  }

  /** A shape rewrite over a document, for any template: the text before
      the first match is kept, the match is replaced by the template
      expanded with the matched text and the attributes, and the scan
      resumes right after the first `>`. */
  lemma ShapeScan(element: string, template: seq<Piece>, s: string, i: nat, f: nat, h: Hit)
    requires i <= f < |s|
    requires MatchAt(ShapeFill(element, template), s, f) == Some(h)
    requires NoHitBetween(ShapeFill(element, template), s, i, f)
    requires var start := f + 1 + |element|;
      start <= |s| ==> forall m :: start <= m < start + SpaceRun(s, start) ==> s[m] != '\n'
    ensures OpensTag(element, s, f) && f + h.len <= |s|
    ensures FindGt(s, f + 1 + |element| + SpaceRun(s, f + 1 + |element|)).Some?
    ensures var g := f + 1 + |element| + SpaceRun(s, f + 1 + |element|);
      var q := FindGt(s, g).value;
      h == Hit(Expand(template, s[f..q + 1], s[g..q]), q + 1 - f)
    ensures SubFrom(ShapeFill(element, template), s, i)
      == s[i..f] + h.repl + SubFrom(ShapeFill(element, template), s, f + h.len)
  {
    ShapeHit(element, template, s, f, h);
    SubFromSplits(ShapeFill(element, template), s, i, f, h);
  }
}
