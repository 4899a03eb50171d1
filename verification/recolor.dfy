/** The SVG recolourer of `MaterialIconGenerator.recolor_svg`: six literal
    replace-all steps, one `re.sub` that injects a fill into `<path ... d="`
    tags, and one `re.sub` per shape element that injects a fill into tags
    whose line carries no `fill=` after the element name.

    Each step is a `Pattern`; `Sub` is the scan shared by `str.replace` and
    `re.sub`: from left to right, at each index either a match is replaced
    and the scan resumes after it, or one character is copied. The three
    regular expressions are modelled by hand-written matchers, including
    the backtracking of the greedy `\s+` run. The replacement strings of
    the two tag rewrites are `re.sub` templates; a colour that makes one of
    them malformed makes `recolor_svg` raise. */
module Recolor {
  import opened Wrappers
  import opened Text
  import opened Template

  /** One rewrite of the markup. */
  datatype Pattern =
    | Literal(find: string, repl: string)         // str.replace(find, repl)
    | PathFill(template: seq<Piece>)                     // r'<path\s+([^>]*?)d="'
    | ShapeFill(element: string, template: seq<Piece>)   // '<element\s+(?!.*fill=)([^>]*?)>'
  {
    /** An empty search string would make `str.replace` insert between
        every character; the recolourer never uses one. */
    predicate Valid()
    {
      Literal? ==> |find| > 0
    }
  }

  /** A match at some index: the text that replaces it and how many
      characters of the input it covers. */
  datatype Hit = Hit(repl: string, len: nat)

  /** The group `(...)` of a regular-expression match: `s[from..to]`. */
  datatype Span = Span(from: nat, to: nat)

  /** Python's `\s` on `str` patterns: ASCII whitespace, the four ASCII
      separators 0x1C-0x1F, and the Unicode spaces and line separators. */
  predicate IsSpace(c: char)
  {
    var n := c as int;
    || 9 <= n <= 13
    || 28 <= n <= 32
    || n == 0x85 || n == 0xA0 || n == 0x1680
    || 0x2000 <= n <= 0x200A
    || n == 0x2028 || n == 0x2029 || n == 0x202F || n == 0x205F || n == 0x3000
  }

  /** The element the path rewrite targets. */
  const PathTag: string := "path"

  const DAttr: string := "d=\""
  const FillKey: string := "fill="

  /** `s[i..]` opens the tag `<name` followed by at least one whitespace
      character: the only places where the tag patterns can match. */
  predicate OpensTag(name: string, s: string, i: nat)
  {
    OccursAt("<" + name, s, i) && i + |name| + 1 < |s| && IsSpace(s[i + |name| + 1])
  }

  /** Length of the maximal whitespace run starting at index `j`. */
  function SpaceRun(s: string, j: nat): (n: nat)
    requires j <= |s|
    ensures j + n <= |s|
    ensures forall k :: j <= k < j + n ==> IsSpace(s[k])
    ensures j + n == |s| || !IsSpace(s[j + n])
    decreases |s| - j
  {
    if j < |s| && IsSpace(s[j]) then 1 + SpaceRun(s, j + 1) else 0
  }

  /** The lazy group `([^>]*?)d="` tried from index `j`: the index of the
      first `d="` that is reached before any `>`. */
  function FindD(s: string, j: nat): (r: Option<nat>)
    requires j <= |s|
    ensures r.Some? ==> j <= r.value && r.value + |DAttr| <= |s|
    decreases |s| - j
  {
    if OccursAt(DAttr, s, j) then Some(j)
    else if j == |s| || s[j] == '>' then None
    else FindD(s, j + 1)
  }

  /** The lazy group `([^>]*?)>` tried from index `p`: the first `>`. */
  function FindGt(s: string, p: nat): (r: Option<nat>)
    requires p <= |s|
    ensures r.Some? ==> p <= r.value < |s|
    decreases |s| - p
  {
    if p == |s| then None
    else if s[p] == '>' then Some(p)
    else FindGt(s, p + 1)
  }

  /** The lookahead `(?=.*fill=)` at index `p`: `fill=` starts on the rest of
      the current line. `.` does not match a newline, so the search stops at
      the first `\n`. The shape pattern uses its negation. */
  predicate FillOnLine(s: string, p: nat)
    requires p <= |s|
    decreases |s| - p
  {
    p < |s| && (OccursAt(FillKey, s, p) || (s[p] != '\n' && FillOnLine(s, p + 1)))
  }

  /** `<path\s+([^>]*?)d="` after the `<path` ending at `start`: the greedy
      `\s+` first takes `len` characters and gives them back one by one
      until the rest of the pattern matches. */
  function TryPath(s: string, start: nat, len: nat): (g: Option<Span>)
    requires start + len <= |s|
    ensures g.Some? ==> start < g.value.from <= start + len
    ensures g.Some? ==> g.value.from <= g.value.to && g.value.to + |DAttr| <= |s|
    ensures g.Some? ==> FindD(s, g.value.from) == Some(g.value.to)
    decreases len
  {
    if len == 0 then None
    else match FindD(s, start + len)
      case Some(e) => Some(Span(start + len, e))
      case None => TryPath(s, start, len - 1)
  }

  /** `<element\s+(?!.*fill=)([^>]*?)>` after the `<element` ending at
      `start`, with the same backtracking of `\s+`. */
  function TryShape(s: string, start: nat, len: nat): (g: Option<Span>)
    requires start + len <= |s|
    ensures g.Some? ==> start < g.value.from <= start + len
    ensures g.Some? ==> !FillOnLine(s, g.value.from)
    ensures g.Some? ==> g.value.from <= g.value.to && FindGt(s, g.value.from) == Some(g.value.to)
    decreases len
  {
    if len == 0 then None
    else
      var p := start + len;
      if !FillOnLine(s, p) && FindGt(s, p).Some? then Some(Span(p, FindGt(s, p).value))
      else TryShape(s, start, len - 1)
  }

  function FillAttr(color: string): string { "fill=\"" + color + "\"" }

  function FillStyle(color: string): string { "style=\"fill:" + color + "\"" }

  /** The start of the replacement for a matched tag: `<name fill="C" `. */
  function TagHead(name: string, color: string): string
  {
    "<" + name + " " + FillAttr(color) + " "
  }

  /** The replacement template of the path rewrite: `<path fill="C" \1d="`. */
  function PathTemplate(color: string): string
  {
    TagHead(PathTag, color) + ("\\1" + DAttr)
  }

  /** The replacement template of a shape rewrite: `<element fill="C" \1>`. */
  function ShapeTemplate(element: string, color: string): string
  {
    TagHead(element, color) + ("\\1" + ">")
  }

  /** A match of `<path\s+([^>]*?)d="` at index `i`, replaced by the parsed
      template expanded with the match and its group. */
  function MatchPath(template: seq<Piece>, s: string, i: nat): (h: Option<Hit>)
    requires i <= |s|
    ensures h.Some? ==> 0 < h.value.len <= |s| - i
    ensures h.Some? ==> OpensTag(PathTag, s, i)
  {
    if !OccursAt("<" + PathTag, s, i) then None
    else
      var start := i + 1 + |PathTag|;
      match TryPath(s, start, SpaceRun(s, start))
      case None => None
      case Some(g) => Some(Hit(Expand(template, s[i..g.to + 3], s[g.from..g.to]), g.to + 3 - i))
  }

  /** A match of `<element\s+(?!.*fill=)([^>]*?)>` at index `i`, replaced by
      the parsed template expanded with the match and its group. */
  function MatchShape(element: string, template: seq<Piece>, s: string, i: nat): (h: Option<Hit>)
    requires i <= |s|
    ensures h.Some? ==> 0 < h.value.len <= |s| - i
    ensures h.Some? ==> OpensTag(element, s, i)
  {
    if !OccursAt("<" + element, s, i) then None
    else
      var start := i + 1 + |element|;
      match TryShape(s, start, SpaceRun(s, start))
      case None => None
      case Some(g) => Some(Hit(Expand(template, s[i..g.to + 1], s[g.from..g.to]), g.to + 1 - i))
  }

  /** The match of `pat` starting exactly at index `i`, if any. */
  function MatchAt(pat: Pattern, s: string, i: nat): (h: Option<Hit>)
    requires pat.Valid() && i <= |s|
    ensures h.Some? ==> 0 < h.value.len <= |s| - i
    ensures pat.Literal? ==> (h.Some? <==> OccursAt(pat.find, s, i))
    ensures pat.PathFill? && h.Some? ==> OpensTag(PathTag, s, i)
    ensures pat.ShapeFill? && h.Some? ==> OpensTag(pat.element, s, i)
  {
    match pat
    case Literal(p, q) => if OccursAt(p, s, i) then Some(Hit(q, |p|)) else None
    case PathFill(t) => MatchPath(t, s, i)
    case ShapeFill(e, t) => MatchShape(e, t, s, i)
  }

  /** No match of `pat` starts at or after index `i`. */
  predicate NoHitFrom(pat: Pattern, s: string, i: nat)
    requires pat.Valid()
  {
    forall k :: i <= k < |s| ==> MatchAt(pat, s, k).None?
  }

  /** The left-to-right, non-overlapping replace-all scan of `s[i..]`
      (`str.replace` for literals, `re.sub` for the tag patterns). */
  function SubFrom(pat: Pattern, s: string, i: nat): (r: string)
    requires pat.Valid() && i <= |s|
    ensures NoHitFrom(pat, s, i) ==> r == s[i..]
    ensures |r| >= (if NoHitFrom(pat, s, i) then |s| - i else 0)
    decreases |s| - i
  {
    if i == |s| then []
    else match MatchAt(pat, s, i)
      case Some(h) => h.repl + SubFrom(pat, s, i + h.len)
      case None =>
        assert s[i..] == [s[i]] + s[i + 1..];
        [s[i]] + SubFrom(pat, s, i + 1)
  }

  function Sub(pat: Pattern, s: string): string
    requires pat.Valid()
  {
    SubFrom(pat, s, 0)
  }

  predicate AllValid(rules: seq<Pattern>)
  {
    forall k :: 0 <= k < |rules| ==> rules[k].Valid()
  }

  /** The rewrites applied one after another, each to the output of the
      previous one. */
  function ApplyAll(rules: seq<Pattern>, s: string): string
    requires AllValid(rules)
    decreases |rules|
  {
    if |rules| == 0 then s else ApplyAll(rules[1..], Sub(rules[0], s))
  }

  const FillHex6: string := "fill=\"#000000\""
  const FillHex3: string := "fill=\"#000\""
  const FillBlack: string := "fill=\"black\""
  const FillCurrentColor: string := "fill=\"currentColor\""
  const StyleHex6: string := "style=\"fill:#000000\""
  const StyleHex3: string := "style=\"fill:#000\""

  /** The six spellings of black fill the literal phase replaces, in order. */
  const BlackFills: seq<string> := [FillHex6, FillHex3, FillBlack, FillCurrentColor, StyleHex6, StyleHex3]

  /** What replaces `BlackFills[k]`: a fill attribute for the first four, an
      inline style for the last two. */
  function BlackFillReplacement(k: nat, color: string): string
  {
    if k < 4 then FillAttr(color) else FillStyle(color)
  }

  function LiteralRules(color: string): (rules: seq<Pattern>)
    ensures |rules| == 6 && AllValid(rules)
  {
    seq(6, k requires 0 <= k < 6 => Literal(BlackFills[k], BlackFillReplacement(k, color)))
  }

  const ShapeElements: seq<string> := ["circle", "rect", "polygon", "polyline", "ellipse"]

  /** `re.sub` accepts the replacement templates of all six tag rewrites. */
  predicate TemplatesParse(color: string)
  {
    && Parse(PathTemplate(color)).Some?
    && forall k :: 0 <= k < |ShapeElements| ==> Parse(ShapeTemplate(ShapeElements[k], color)).Some?
  }

  function ShapeRules(color: string): (rules: seq<Pattern>)
    requires TemplatesParse(color)
    ensures |rules| == 5 && AllValid(rules)
  {
    seq(5, k requires 0 <= k < 5 => ShapeFill(ShapeElements[k], Parse(ShapeTemplate(ShapeElements[k], color)).value))
  }

  /** Every rewrite of `recolor_svg`, in the order the source applies them. */
  function RecolorRules(color: string): (rules: seq<Pattern>)
    requires TemplatesParse(color)
    ensures AllValid(rules)
  {
    LiteralRules(color) + [PathFill(Parse(PathTemplate(color)).value)] + ShapeRules(color)
  }

  /** `recolor_svg(svg_content, new_color)`; `None` when `re.sub` raises on
      a replacement template. Only a backslash in the colour can make it
      raise. */
  function RecolorSvg(svg: string, color: string): (r: Option<string>)
    ensures r.Some? <==> TemplatesParse(color)
    ensures '\\' !in color ==> r.Some?
  {
    if TemplatesParse(color) then Some(ApplyAll(RecolorRules(color), svg))
    else
      PlainTemplates(color);
      None
  }

  /** Neither the tag name nor the colour holds a backslash: no escape. */
  lemma HeadIsPlain(name: string, color: string)
    requires '\\' !in name && '\\' !in color
    ensures '\\' !in TagHead(name, color)
  {
  }

  /** The part of a template before the colour: `<name fill="`. */
  function FillOpen(name: string): string
  {
    "<" + name + " fill=\""
  }

  /** A template is the fill opening, the colour, and `" \1` with the tail. */
  lemma TemplateAroundColor(name: string, color: string, tail: string)
    ensures TagHead(name, color) + ("\\1" + tail) == FillOpen(name) + (color + ("\" " + ("\\1" + tail)))
  {
  }

  /** With a colour free of backslashes, every template parses to its head,
      the group, and its tail. */
  lemma PlainTemplates(color: string)
    ensures '\\' !in color ==>
      Parse(PathTemplate(color)) == Some(Plain(TagHead(PathTag, color)) + ([GroupRef(1)] + Plain(DAttr)))
    ensures '\\' !in color ==> forall k :: 0 <= k < |ShapeElements| ==>
      Parse(ShapeTemplate(ShapeElements[k], color)) == Some(Plain(TagHead(ShapeElements[k], color)) + ([GroupRef(1)] + Plain(">")))
    ensures '\\' !in color ==> TemplatesParse(color)
  {
    if '\\' !in color {
      HeadIsPlain(PathTag, color);
      HeadGroupTail(TagHead(PathTag, color), DAttr);
      forall k | 0 <= k < |ShapeElements|
        ensures Parse(ShapeTemplate(ShapeElements[k], color)) == Some(Plain(TagHead(ShapeElements[k], color)) + ([GroupRef(1)] + Plain(">")))
      {
        HeadIsPlain(ShapeElements[k], color);
        HeadGroupTail(TagHead(ShapeElements[k], color), ">");
      }
    }
  }
}
