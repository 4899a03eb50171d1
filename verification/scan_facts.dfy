/** The replace-all scan over a whole document: it copies the text up to
    the leftmost match, puts that match's replacement in its place, and
    carries on after the matched text. This holds for every pattern, so it
    covers `str.replace` and both `re.sub` rewrites alike. */
module ScanFacts {
  import opened Wrappers
  import opened Recolor

  /** Where no match starts, the scan copies one character and moves on. */
  lemma SubFromMiss(pat: Pattern, s: string, i: nat)
    requires pat.Valid() && i < |s|
    requires MatchAt(pat, s, i).None?
    ensures SubFrom(pat, s, i) == [s[i]] + SubFrom(pat, s, i + 1)
  {
  }

  /** Where a match starts, the scan emits its replacement and resumes
      right after it. */
  lemma SubFromHit(pat: Pattern, s: string, i: nat, h: Hit)
    requires pat.Valid() && i < |s|
    requires MatchAt(pat, s, i) == Some(h)
    ensures SubFrom(pat, s, i) == h.repl + SubFrom(pat, s, i + h.len)
  {
  }

  /** No match of `pat` starts at an index in `[i, f)`. */
  predicate NoHitBetween(pat: Pattern, s: string, i: nat, f: nat)
    requires pat.Valid() && f <= |s|
    decreases f - i
  {
    i >= f || (MatchAt(pat, s, i).None? && NoHitBetween(pat, s, i + 1, f))
  }

  /** `NoHitBetween` says the same as the quantified statement. */
  lemma {:induction false} NoHitBetweenMeaning(pat: Pattern, s: string, i: nat, f: nat)
    requires pat.Valid() && i <= f <= |s|
    ensures NoHitBetween(pat, s, i, f) <==> forall k :: i <= k < f ==> MatchAt(pat, s, k).None?
    decreases f - i
  {
    if i < f {
      NoHitBetweenMeaning(pat, s, i + 1, f);
    }
  }

  /** The scan copies the text up to the first match at or after `i`, puts
      that match's replacement in its place, and continues after the
      matched text: `re.sub` and `str.replace` replace the leftmost
      non-overlapping matches. */
  lemma SubFromSplitsAtFirst(pat: Pattern, s: string, i: nat, f: nat, h: Hit)
    requires pat.Valid() && i <= f < |s|
    requires MatchAt(pat, s, f) == Some(h)
    requires forall k :: i <= k < f ==> MatchAt(pat, s, k).None?
    ensures f + h.len <= |s|
    ensures SubFrom(pat, s, i) == s[i..f] + h.repl + SubFrom(pat, s, f + h.len)
  {
    NoHitBetweenMeaning(pat, s, i, f);
    SubFromSplits(pat, s, i, f, h);
  }

  lemma {:induction false} SubFromSplits(pat: Pattern, s: string, i: nat, f: nat, h: Hit)
    requires pat.Valid() && i <= f < |s|
    requires MatchAt(pat, s, f) == Some(h)
    requires NoHitBetween(pat, s, i, f)
    ensures f + h.len <= |s|
    ensures SubFrom(pat, s, i) == s[i..f] + h.repl + SubFrom(pat, s, f + h.len)
    decreases f - i
  {
    var rest := SubFrom(pat, s, f + h.len);
    if i == f {
      assert SubFrom(pat, s, f) == h.repl + rest by {
        SubFromHit(pat, s, f, h);
      }
      EmptyCopied(s, f, h.repl, rest);
    } else {
      var b := SubFrom(pat, s, i + 1);
      assert b == s[i + 1..f] + h.repl + rest by {
        SubFromSplits(pat, s, i + 1, f, h);
      }
      assert SubFrom(pat, s, i) == [s[i]] + b by {
        SubFromMiss(pat, s, i);
      }
      PrependCopied(s, i, f, h.repl, rest, b, SubFrom(pat, s, i));
    }
  }

  /** Nothing copied in front of an output leaves it as it is. */
  lemma EmptyCopied(s: string, f: nat, x: string, y: string)
    requires f <= |s|
    ensures s[f..f] + x + y == x + y
  {
    assert s[f..f] == [];
  }

  /** Copying `s[i]` in front of an output that starts with `s[i + 1..f]`
      gives one that starts with `s[i..f]`. */
  lemma PrependCopied(s: string, i: nat, f: nat, x: string, y: string, b: string, a: string)
    requires i < f <= |s|
    requires a == [s[i]] + b && b == s[i + 1..f] + x + y
    ensures a == s[i..f] + x + y
  {
    assert s[i..f] == [s[i]] + s[i + 1..f];
  }
}

