/** The replacement templates of `re.sub`. Before it scans anything,
    `re.sub` reads its replacement string as a template: a backslash starts
    an escape, `\1` and `\g<1>` stand for the pattern's group, `\g<0>` for
    the whole match, and a malformed escape raises `re.error` (or
    `IndexError` for an unknown group name). The rules are those of the
    `re` module of Python 3.12. The recolourer's patterns have exactly one
    group. */
module Template {
  import opened Wrappers

  /** A piece of a parsed template: literal text, or a reference to a group
      of the match (0 is the whole match). */
  datatype Piece = Chars(text: string) | GroupRef(index: nat)

  /** How many groups the recolourer's patterns have. */
  const Groups: nat := 1

  predicate IsDigit(c: char) { '0' <= c <= '9' }

  predicate IsOctal(c: char) { '0' <= c <= '7' }

  predicate IsAsciiLetter(c: char) { 'a' <= c <= 'z' || 'A' <= c <= 'Z' }

  function Digit(c: char): nat
    requires IsDigit(c)
  {
    c as int - '0' as int
  }

  predicate AllDigits(s: string)
  {
    forall k :: 0 <= k < |s| ==> IsDigit(s[k])
  }

  /** The decimal value of a string of digits, as `int(name)` reads it. */
  function DecimalValue(s: string): nat
    requires AllDigits(s)
    decreases |s|
  {
    if |s| == 0 then 0 else 10 * DecimalValue(s[..|s| - 1]) + Digit(s[|s| - 1])
  }

  /** The escapes with a fixed meaning: `\a \b \f \n \r \t \v \\`. */
  function SimpleEscape(c: char): Option<char>
  {
    if c == 'a' then Some(7 as char)
    else if c == 'b' then Some(8 as char)
    else if c == 'f' then Some(12 as char)
    else if c == 'n' then Some(10 as char)
    else if c == 'r' then Some(13 as char)
    else if c == 't' then Some(9 as char)
    else if c == 'v' then Some(11 as char)
    else if c == '\\' then Some('\\')
    else None
  }

  /** The first `>` at or after index `j`: the end of a `\g<name>`. */
  function FindClose(t: string, j: nat): (r: Option<nat>)
    requires j <= |t|
    ensures r.Some? ==> j <= r.value < |t| && t[r.value] == '>'
    ensures r.Some? ==> forall k :: j <= k < r.value ==> t[k] != '>'
    ensures r.None? ==> forall k :: j <= k < |t| ==> t[k] != '>'
    decreases |t| - j
  {
    if j == |t| then None
    else if t[j] == '>' then Some(j)
    else FindClose(t, j + 1)
  }

  function Prepend(p: Piece, rest: Option<seq<Piece>>): Option<seq<Piece>>
  {
    match rest
    case None => None
    case Some(ps) => Some([p] + ps)
  }

  /** A template with no escapes: one literal piece per character. */
  function Plain(t: string): seq<Piece>
    decreases |t|
  {
    if |t| == 0 then [] else [Chars([t[0]])] + Plain(t[1..])
  }

  /** Every group a parsed template refers to exists. */
  predicate RefsExist(ps: seq<Piece>)
  {
    forall k :: 0 <= k < |ps| && ps[k].GroupRef? ==> ps[k].index <= Groups
  }

  /** The template `t`, parsed; `None` when `re.sub` raises on it. */
  function Parse(t: string): (r: Option<seq<Piece>>)
    ensures r.Some? ==> RefsExist(r.value)
    decreases |t|, 2
  {
    if |t| == 0 then Some([])
    else if t[0] != '\\' then Prepend(Chars([t[0]]), Parse(t[1..]))
    else ParseEscape(t)
  }

  /** A template that starts with a backslash. A lone trailing backslash,
      an ASCII letter with no escape meaning, and a malformed group
      reference raise; any other character after the backslash is kept
      together with it. */
  function ParseEscape(t: string): (r: Option<seq<Piece>>)
    requires |t| > 0 && t[0] == '\\'
    ensures r.Some? ==> RefsExist(r.value)
    decreases |t|, 1
  {
    if |t| == 1 then None
    else
      var c := t[1];
      if c == 'g' then ParseNamed(t)
      else if IsDigit(c) then ParseNumeric(t)
      else match SimpleEscape(c)
        case Some(e) => Prepend(Chars([e]), Parse(t[2..]))
        case None => if IsAsciiLetter(c) then None else Prepend(Chars(['\\', c]), Parse(t[2..]))
  }

  /** `\g<name>`: the name must be a decimal number naming an existing
      group; the pattern has no named groups. */
  function ParseNamed(t: string): (r: Option<seq<Piece>>)
    requires |t| > 1 && t[0] == '\\' && t[1] == 'g'
    ensures r.Some? ==> RefsExist(r.value)
    decreases |t|, 0
  {
    if |t| == 2 || t[2] != '<' then None
    else match FindClose(t, 3)
      case None => None
      case Some(k) =>
        var name := t[3..k];
        if |name| == 0 || !AllDigits(name) || DecimalValue(name) > Groups then None
        else Prepend(GroupRef(DecimalValue(name)), Parse(t[k + 1..]))
  }

  /** A backslash and a digit: `\0` with up to two more octal digits, a
      three-digit octal escape up to `\377`, or a group reference. */
  function ParseNumeric(t: string): (r: Option<seq<Piece>>)
    requires |t| > 1 && t[0] == '\\' && IsDigit(t[1])
    ensures r.Some? ==> RefsExist(r.value)
    decreases |t|, 0
  {
    var c := t[1];
    if c == '0' then
      if |t| > 2 && IsOctal(t[2]) then
        if |t| > 3 && IsOctal(t[3]) then
          Prepend(Chars([(8 * Digit(t[2]) + Digit(t[3])) as char]), Parse(t[4..]))
        else Prepend(Chars([Digit(t[2]) as char]), Parse(t[3..]))
      else Prepend(Chars([0 as char]), Parse(t[2..]))
    else if |t| > 2 && IsDigit(t[2]) then
      if IsOctal(c) && IsOctal(t[2]) && |t| > 3 && IsOctal(t[3]) then
        var v := 64 * Digit(c) + 8 * Digit(t[2]) + Digit(t[3]);
        if v > 255 then None else Prepend(Chars([v as char]), Parse(t[4..]))
      else None  // a two-digit reference names group 10 or more
    else if Digit(c) <= Groups then Prepend(GroupRef(Digit(c)), Parse(t[2..]))
    else None
  }

  /** The replacement text for one match: `whole` is the matched text,
      `group` the text of group 1. */
  function Expand(ps: seq<Piece>, whole: string, group: string): string
    decreases |ps|
  {
    if |ps| == 0 then []
    else
      var head := match ps[0]
        case Chars(text) => text
        case GroupRef(n) => if n == 0 then whole else group;
      head + Expand(ps[1..], whole, group)
  }

  // ---------------------------------------------------------------------
  // Properties.

  /** Only a backslash can make a template fail. */
  lemma {:induction false} ParseFailsOnEscape(t: string)
    requires Parse(t).None?
    ensures '\\' in t
    decreases |t|
  {
    if |t| > 0 && t[0] != '\\' {
      ParseFailsOnEscape(t[1..]);
      assert '\\' in t[1..];
    }
  }

  /** Text without backslashes is inserted as written, after text whose
      parse does not depend on it. */
  lemma {:induction false} ParsePlainPrefix(a: string, b: string)
    requires '\\' !in a
    ensures Parse(a + b) == (match Parse(b) case None => None case Some(ps) => Some(Plain(a) + ps))
    decreases |a|
  {
    if |a| > 0 {
      assert (a + b)[0] == a[0];
      assert (a + b)[1..] == a[1..] + b;
      assert a[0] in a;
      assert forall k :: 0 <= k < |a[1..]| ==> a[1..][k] == a[k + 1];
      assert '\\' !in a[1..];
      ParsePlainPrefix(a[1..], b);
      match Parse(b)
      case None =>
      case Some(ps) =>
        assert [Chars([a[0]])] + (Plain(a[1..]) + ps) == Plain(a) + ps;
    } else {
      assert a + b == b;
      match Parse(b)
      case None =>
      case Some(ps) =>
        assert Plain(a) + ps == ps;
    }
  }

  /** A template without backslashes is literal text. */
  lemma ParsePlain(t: string)
    requires '\\' !in t
    ensures Parse(t) == Some(Plain(t))
  {
    ParsePlainPrefix(t, []);
    assert t + [] == t;
    assert Plain(t) + [] == Plain(t);
  }

  /** `\1` followed by text without backslashes that does not start with a
      digit: a reference to group 1, then that text. */
  lemma GroupThenPlain(b: string)
    requires '\\' !in b
    requires |b| == 0 || !IsDigit(b[0])
    ensures Parse("\\1" + b) == Some([GroupRef(1)] + Plain(b))
  {
    var t := "\\1" + b;
    assert t[0] == '\\' && t[1] == '1';
    assert t[2..] == b;
    ParsePlain(b);
    assert ParseNumeric(t) == Prepend(GroupRef(1), Parse(b));
    assert Parse(t) == ParseEscape(t) == ParseNumeric(t);
  }

  /** Text without backslashes, `\1`, and text without backslashes that
      does not start with a digit: the head, the group, the tail. */
  lemma HeadGroupTail(head: string, tail: string)
    requires '\\' !in head && '\\' !in tail
    requires |tail| > 0 && !IsDigit(tail[0])
    ensures Parse(head + ("\\1" + tail)) == Some(Plain(head) + ([GroupRef(1)] + Plain(tail)))
  {
    ParsePlainPrefix(head, "\\1" + tail);
    GroupThenPlain(tail);
  }

  /** A backslash and an ASCII letter with no escape meaning make the
      parse fail, whatever plain text precedes it and whatever follows. */
  lemma BadLetterAfter(head: string, t: string)
    requires '\\' !in head
    requires |t| >= 2 && t[0] == '\\' && IsAsciiLetter(t[1])
    requires t[1] != 'g' && SimpleEscape(t[1]).None?
    ensures Parse(head + t) == None
  {
    ParsePlainPrefix(head, t);
    assert Parse(t) == ParseEscape(t);
  }

  /** Plain text, `\g<0>`, plain text, `\1`, plain text: the whole match
      and then the group. */
  lemma WholeThenGroup(p: string, q: string, tail: string)
    requires '\\' !in p && '\\' !in q && '\\' !in tail
    requires |tail| > 0 && !IsDigit(tail[0])
    ensures Parse(p + ("\\g<0>" + (q + ("\\1" + tail)))) ==
      Some(Plain(p) + ([GroupRef(0)] + (Plain(q) + ([GroupRef(1)] + Plain(tail)))))
  {
    var rest := q + ("\\1" + tail);
    ParsePlainPrefix(p, "\\g<0>" + rest);
    assert "\\g<0>" + rest == "\\g<" + ['0'] + ">" + rest;
    NamedGroupThen('0', rest);
    HeadGroupTail(q, tail);
  }

  lemma {:induction false} ExpandConcat(x: seq<Piece>, y: seq<Piece>, whole: string, group: string)
    ensures Expand(x + y, whole, group) == Expand(x, whole, group) + Expand(y, whole, group)
    decreases |x|
  {
    if |x| > 0 {
      assert (x + y)[0] == x[0];
      assert (x + y)[1..] == x[1..] + y;
      ExpandConcat(x[1..], y, whole, group);
    } else {
      assert x + y == y;
    }
  }

  /** Expanding literal text gives the text back, whatever the match. */
  lemma {:induction false} ExpandPlain(t: string, whole: string, group: string)
    ensures Expand(Plain(t), whole, group) == t
    decreases |t|
  {
    if |t| > 0 {
      ExpandPlain(t[1..], whole, group);
      assert [t[0]] + t[1..] == t;
    }
  }

  /** The template of `HeadGroupTail` puts the group between the plain
      texts. */
  lemma ExpandHeadGroupTail(head: string, tail: string, whole: string, group: string)
    ensures Expand(Plain(head) + ([GroupRef(1)] + Plain(tail)), whole, group) == head + group + tail
  {
    ExpandConcat(Plain(head), [GroupRef(1)] + Plain(tail), whole, group);
    ExpandConcat([GroupRef(1)], Plain(tail), whole, group);
    ExpandPlain(head, whole, group);
    ExpandPlain(tail, whole, group);
    assert Expand([GroupRef(1)], whole, group) == group + Expand([], whole, group);
  }

  /** The template of `WholeThenGroup` puts the whole match and then the
      group between the plain texts. */
  lemma ExpandWholeThenGroup(p: string, q: string, tail: string, whole: string, group: string)
    ensures Expand(Plain(p) + ([GroupRef(0)] + (Plain(q) + ([GroupRef(1)] + Plain(tail)))), whole, group) ==
      p + (whole + (q + (group + tail)))
  {
    var inner := Plain(q) + ([GroupRef(1)] + Plain(tail));
    ExpandConcat(Plain(p), [GroupRef(0)] + inner, whole, group);
    ExpandConcat([GroupRef(0)], inner, whole, group);
    ExpandConcat(Plain(q), [GroupRef(1)] + Plain(tail), whole, group);
    ExpandConcat([GroupRef(1)], Plain(tail), whole, group);
    ExpandPlain(p, whole, group);
    ExpandPlain(q, whole, group);
    ExpandPlain(tail, whole, group);
    assert Expand([GroupRef(0)], whole, group) == whole + Expand([], whole, group);
    assert Expand([GroupRef(1)], whole, group) == group + Expand([], whole, group);
  }

  /** `\g<n>` names group `n` (0 is the whole match). */
  lemma NamedGroupThen(d: char, b: string)
    requires d == '0' || d == '1'
    ensures Parse("\\g<" + [d] + ">" + b) == Prepend(GroupRef(Digit(d)), Parse(b))
  {
    var t := "\\g<" + [d] + ">" + b;
    assert t[0] == '\\' && t[1] == 'g' && t[2] == '<' && t[3] == d && t[4] == '>';
    assert FindClose(t, 4) == Some(4);
    assert FindClose(t, 3) == Some(4);
    assert t[3..4] == [d];
    assert AllDigits([d]);
    assert DecimalValue([d]) == Digit(d) by { assert [d][..0] == ""; }
    assert t[5..] == b;
    assert ParseNamed(t) == Prepend(GroupRef(Digit(d)), Parse(b));
    assert Parse(t) == ParseEscape(t) == ParseNamed(t);
  }

  lemma NamedGroup(d: char)
    requires d == '0' || d == '1'
    ensures Parse("\\g<" + [d] + ">") == Some([GroupRef(Digit(d))])
  {
    NamedGroupThen(d, "");
    assert "\\g<" + [d] + ">" + "" == "\\g<" + [d] + ">";
    assert Parse("") == Some([]);
    assert [GroupRef(Digit(d))] + [] == [GroupRef(Digit(d))];
  }

  /** `\\` is one backslash and `\#` stays as written: only ASCII letters
      are refused after a backslash. */
  lemma EscapedText()
    ensures Parse("\\\\") == Some([Chars("\\")])
    ensures Parse("\\#") == Some([Chars("\\#")])
  {
    var t := "\\\\";
    assert t[0] == '\\' && t[1] == '\\' && t[2..] == "";
    assert SimpleEscape(t[1]) == Some('\\');
    assert Parse(t[2..]) == Some([]);
    assert [Chars(['\\'])] + [] == [Chars("\\")];
    var u := "\\#";
    assert u[0] == '\\' && u[1] == '#' && u[2..] == "";
    assert SimpleEscape(u[1]).None? && !IsAsciiLetter(u[1]);
    assert Parse(u[2..]) == Some([]);
    assert [Chars(['\\', '#'])] + [] == [Chars("\\#")];
  }

  /** `\q`, `\2` and a lone trailing backslash make `re.sub` raise. */
  lemma RefusedEscapes()
    ensures Parse("\\q") == None
    ensures Parse("\\2") == None
    ensures Parse("#\\") == None
  {
    assert "\\q"[1] == 'q';
    assert "\\2"[1] == '2' && |"\\2"| == 2;
    assert "#\\"[1..] == "\\";
  }
}
