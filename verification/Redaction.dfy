/**
 * Redaction of instrument codes in texts for callers: every match of the code pattern is
 * replaced by a placeholder, by one scan from left to right.
 */
module Redaction {

  const PLACEHOLDER := "[REDACTED_CODE]"

  predicate IsDigit(c: char) { '0' <= c <= '9' }

  predicate IsLetter(c: char) { 'A' <= c <= 'Z' || 'a' <= c <= 'z' }

  predicate IsAlnum(c: char) { IsDigit(c) || IsLetter(c) }

  /** The lookbehind: no code starts after a letter, a digit, an underscore or a colon. */
  predicate Blocks(c: char) { IsAlnum(c) || c == '_' || c == ':' }

  datatype Before = Nothing | After(c: char)

  predicate Blocked(b: Before) { b.After? && Blocks(b.c) }

  // ---------------------------------------------------------------------------------------
  // The pattern
  // ---------------------------------------------------------------------------------------

  predicate AllDigits(s: string, lo: nat, hi: nat)
    requires hi <= |s|
  {
    forall i :: lo <= i < hi ==> IsDigit(s[i])
  }

  /** The first `n` characters are a code and no letter or digit follows: the pattern as it is written. */
  predicate Matches(s: string, n: nat) {
    && n <= |s| && (n < |s| ==> !IsAlnum(s[n]))
    && (|| (n in {5, 6} && AllDigits(s, 0, n))
        || (n in {8, 9} && IsLetter(s[0]) && IsLetter(s[1]) && s[2] == ':' && AllDigits(s, 3, n)))
  }

  function DigitRun(s: string): (n: nat)
    ensures n <= |s| && AllDigits(s, 0, n)
    ensures n < |s| ==> !IsDigit(s[n])
  {
    if s == "" || !IsDigit(s[0]) then 0
    else
      var n := DigitRun(s[1..]);
      assert forall i :: 1 <= i < n + 1 ==> s[i] == s[1..][i - 1];
      n + 1
  }

  /** Length of a bare code at the start, or 0. */
  function BareLength(s: string): nat {
    var n := DigitRun(s);
    if n in {5, 6} && (n < |s| ==> !IsAlnum(s[n])) then n else 0
  }

  /** Length of the match at the start of `s`, or 0: with the market first, then bare. */
  function MatchLength(b: Before, s: string): nat {
    if Blocked(b) then 0
    else if |s| >= 3 && IsLetter(s[0]) && IsLetter(s[1]) && s[2] == ':' && BareLength(s[3..]) > 0
    then 3 + BareLength(s[3..])
    else BareLength(s)
  }

  lemma {:induction false} DigitRunIs(s: string, n: nat)
    requires n <= |s| && AllDigits(s, 0, n) && (n < |s| ==> !IsDigit(s[n]))
    ensures DigitRun(s) == n
  {
  }

  lemma {:induction false} BareIsPattern(s: string, n: nat)
    ensures n > 0 && BareLength(s) == n <==>
            n in {5, 6} && n <= |s| && (n < |s| ==> !IsAlnum(s[n])) && AllDigits(s, 0, n)
  {
    if n in {5, 6} && n <= |s| && (n < |s| ==> !IsAlnum(s[n])) && AllDigits(s, 0, n) {
      DigitRunIs(s, n);
    }
  }

  lemma {:induction false} TailDigits(s: string, n: nat)
    requires 3 <= n <= |s|
    ensures AllDigits(s, 3, n) <==> AllDigits(s[3..], 0, n - 3)
  {
    if AllDigits(s[3..], 0, n - 3) {
      forall i | 3 <= i < n ensures IsDigit(s[i]) {
        assert s[3..][i - 3] == s[i];
      }
    }
  }

  /** What the scanner finds at a place is exactly what the pattern says, and at most one length. */
  lemma {:induction false} MatchIsPattern(b: Before, s: string, n: nat)
    ensures n > 0 && MatchLength(b, s) == n <==> !Blocked(b) && Matches(s, n)
  {
    hide BareLength, DigitRun;
    BareIsPattern(s, n);
    BareIsPattern(s, BareLength(s));
    if |s| >= 3 {
      BareIsPattern(s[3..], BareLength(s[3..]));
      if 3 <= n <= |s| {
        BareIsPattern(s[3..], n - 3);
        TailDigits(s, n);
      }
    }
  }

  // ---------------------------------------------------------------------------------------
  // The scan
  // ---------------------------------------------------------------------------------------

  lemma {:induction false} MatchFits(b: Before, s: string)
    ensures MatchLength(b, s) <= |s|
    ensures MatchLength(b, s) > 0 ==> IsDigit(s[MatchLength(b, s) - 1]) && IsAlnum(s[0])
    ensures 0 < MatchLength(b, s) < |s| ==> !IsAlnum(s[MatchLength(b, s)])
  {
    hide MatchLength;
    MatchIsPattern(b, s, MatchLength(b, s));
  }

  function Scan(b: Before, s: string): string
    decreases |s|
  {
    if s == "" then ""
    else
      var n := MatchLength(b, s);
      MatchFits(b, s);
      if n > 0 then PLACEHOLDER + Scan(After(s[n - 1]), s[n..])
      else [s[0]] + Scan(After(s[0]), s[1..])
  }

  function Redact(text: string): string { Scan(Nothing, text) }

  // ---------------------------------------------------------------------------------------
  // Nothing is left
  // ---------------------------------------------------------------------------------------

  /** No match anywhere. */
  predicate Clean(b: Before, s: string)
    decreases |s|
  {
    MatchLength(b, s) == 0 && (s != "" ==> Clean(After(s[0]), s[1..]))
  }

  predicate IsPlain(c: char) { IsAlnum(c) || c == ':' }

  lemma {:induction false} PlainIsKept(b: Before, s: string)
    requires Scan(b, s) != "" && IsPlain(Scan(b, s)[0])
    ensures s != "" && Scan(b, s) == [s[0]] + Scan(After(s[0]), s[1..])
  {
    hide MatchLength;
    if MatchLength(b, s) > 0 {
      MatchIsReplaced(b, s);
    }
  }

  lemma {:induction false} MatchIsReplaced(b: Before, s: string)
    requires MatchLength(b, s) > 0
    ensures Scan(b, s) != "" && !IsPlain(Scan(b, s)[0])
  {
    hide MatchLength;
    MatchFits(b, s);
    assert Scan(b, s)[0] == PLACEHOLDER[0];
  }

  lemma {:induction false} JoinHead(c: char, s: string, n: nat, rest: string)
    requires 0 < n <= |s| && s[0] == c
    ensures [c] + (s[1..][..n - 1] + rest) == s[..n] + rest
  {
    assert [c] + s[1..][..n - 1] == s[..n];
    assert [c] + (s[1..][..n - 1] + rest) == [c] + s[1..][..n - 1] + rest;
  }

  /** A run of plain output characters was kept, so it stands in the input as well. */
  lemma {:induction false} PlainRunIsKept(b: Before, s: string, n: nat)
    requires n <= |Scan(b, s)| && forall i :: 0 <= i < n ==> IsPlain(Scan(b, s)[i])
    ensures n <= |s|
    ensures n > 0 ==> Scan(b, s) == s[..n] + Scan(After(s[n - 1]), s[n..])
    decreases n
  {
    hide Scan, IsPlain;
    if n > 0 {
      var out := Scan(b, s);
      PlainIsKept(b, s);
      var rest := Scan(After(s[0]), s[1..]);
      assert forall i :: 0 <= i < n - 1 ==> rest[i] == out[i + 1];
      PlainRunIsKept(After(s[0]), s[1..], n - 1);
      if n > 1 {
        assert s[1..][n - 2] == s[n - 1] && s[1..][n - 1..] == s[n..];
        JoinHead(s[0], s, n, Scan(After(s[n - 1]), s[n..]));
      } else {
        assert s[..1] == [s[0]];
      }
    }
  }

  lemma {:induction false} ShapeIsPlain(s: string, n: nat)
    requires Matches(s, n)
    ensures n >= 5 && (forall i :: 0 <= i < n ==> IsPlain(s[i])) && IsDigit(s[n - 1])
  {
  }

  lemma {:induction false} MatchesAlike(s: string, t: string, n: nat)
    requires Matches(s, n) && n <= |t| && s[..n] == t[..n] && (n < |t| ==> !IsAlnum(t[n]))
    ensures Matches(t, n)
  {
    assert forall i :: 0 <= i < n ==> t[i] == t[..n][i] && s[i] == s[..n][i];
  }

  /** After a digit nothing is replaced at once, so the next character is the input's own. */
  lemma {:induction false} AfterDigit(d: char, s: string)
    requires IsDigit(d)
    ensures s == "" ==> Scan(After(d), s) == ""
    ensures s != "" ==> Scan(After(d), s) == [s[0]] + Scan(After(s[0]), s[1..])
  {
  }

  /** A match at the start of the output was already one at the start of the input. */
  lemma {:induction false} OutputMatchWasInput(b: Before, s: string)
    ensures MatchLength(b, Scan(b, s)) > 0 ==> MatchLength(b, s) > 0
  {
    hide Scan, MatchLength, Matches;
    var out := Scan(b, s);
    var n := MatchLength(b, out);
    MatchIsPattern(b, out, n);
    if n > 0 {
      ShapeIsPlain(out, n);
      assert n <= |out| by { MatchFits(b, out); }
      PlainRunIsKept(b, s, n);
      assert s[n - 1] == s[..n][n - 1] == out[n - 1];
      AfterDigit(s[n - 1], s[n..]);
      SameNext(s, out, n, Scan(After(s[n - 1]), s[n..]));
      MatchFits(b, out);
      MatchesAlike(out, s, n);
      MatchIsPattern(b, s, n);
    }
  }

  lemma {:induction false} SameNext(s: string, out: string, n: nat, rest: string)
    requires n <= |s| && out == s[..n] + rest
    requires s[n..] == "" ==> rest == ""
    requires s[n..] != "" ==> rest != "" && rest[0] == s[n..][0]
    ensures n < |s| <==> n < |out|
    ensures n < |s| ==> s[n] == out[n]
  {
  }

  /** Inside and after the placeholder no match starts. */
  lemma {:induction false} PlaceholderIsClean(b: Before, w: string, rest: string)
    requires forall i :: 0 <= i < |w| ==> !IsDigit(w[i]) && w[i] != ':'
    requires Clean(After(']'), rest)
    ensures Clean(b, w + "]" + rest)
    decreases |w|
  {
    var all := w + "]" + rest;
    if w == "" {
      assert all[0] == ']' && all[1..] == rest;
    } else {
      PlaceholderIsClean(After(w[0]), w[1..], rest);
      assert all[0] == w[0] && all[1..] == w[1..] + "]" + rest;
      assert !IsDigit(all[0]);
      assert |w| == 1 ==> all[1] == ']';
      assert |w| == 2 ==> all[2] == ']';
      assert |w| > 2 ==> all[2] == w[2];
    }
  }

  const WORD := "[REDACTED_CODE"

  lemma {:induction false} WordHasNoCode()
    ensures forall i :: 0 <= i < |WORD| ==> !IsDigit(WORD[i]) && WORD[i] != ':'
    ensures PLACEHOLDER == WORD + "]"
  {
  }

  /** A replaced match leaves a clean output behind, whatever stands before it. */
  lemma {:induction false} ReplacementIsClean(b: Before, s: string, seen: Before)
    requires MatchLength(b, s) > 0 && MatchLength(b, s) <= |s|
    requires var n := MatchLength(b, s); Clean(After(']'), Scan(After(s[n - 1]), s[n..]))
    ensures Clean(seen, Scan(b, s))
  {
    hide MatchLength, Clean;
    var n := MatchLength(b, s);
    var rest := Scan(After(s[n - 1]), s[n..]);
    assert Scan(b, s) == PLACEHOLDER + rest;
    hide Scan;
    WordHasNoCode();
    PlaceholderIsClean(seen, WORD, rest);
    assert WORD + "]" + rest == PLACEHOLDER + rest;
  }

  /** A kept character leaves a clean output behind. */
  lemma {:induction false} KeptIsClean(b: Before, s: string, seen: Before)
    requires s != "" && MatchLength(b, s) == 0
    requires seen == b || !IsAlnum(s[0])
    requires Clean(After(s[0]), Scan(After(s[0]), s[1..]))
    ensures Clean(seen, Scan(b, s))
  {
    hide MatchLength;
    OutputMatchWasInput(b, s);
    var out, rest := Scan(b, s), Scan(After(s[0]), s[1..]);
    assert out == [s[0]] + rest;
    assert out[0] == s[0] && out[1..] == rest;
    hide Scan;
    StartsWithPlain(seen, out);
  }

  /** What the scan writes is clean, after the input's own character or after a placeholder. */
  lemma {:induction false} ScanIsClean(b: Before, s: string, seen: Before)
    requires seen == b || (seen == After(']') && (s != "" ==> !IsAlnum(s[0])))
    ensures Clean(seen, Scan(b, s))
    decreases |s|
  {
    if s == "" {
      NothingIsClean(b, seen);
    } else {
      hide MatchLength, Clean, Scan;
      MatchFits(b, s);
      var n := MatchLength(b, s);
      if n > 0 {
        ScanIsClean(After(s[n - 1]), s[n..], After(']'));
        ReplacementIsClean(b, s, seen);
      } else {
        ScanIsClean(After(s[0]), s[1..], After(s[0]));
        KeptIsClean(b, s, seen);
      }
    }
  }

  lemma {:induction false} NothingIsClean(b: Before, seen: Before)
    ensures Clean(seen, Scan(b, ""))
  {
  }

  lemma {:induction false} StartsWithPlain(b: Before, s: string)
    ensures s != "" && !IsAlnum(s[0]) ==> MatchLength(b, s) == 0
  {
    MatchFits(b, s);
  }

  /** No match of the pattern remains anywhere in the output. */
  lemma {:induction false} NoCodeRemains(text: string)
    ensures Clean(Nothing, Redact(text))
  {
    ScanIsClean(Nothing, text, Nothing);
  }

  lemma {:induction false} CleanIsKept(b: Before, s: string)
    requires Clean(b, s)
    ensures Scan(b, s) == s
    decreases |s|
  {
    if s != "" {
      CleanIsKept(After(s[0]), s[1..]);
      assert s == [s[0]] + s[1..];
    }
  }

  /** A second pass changes nothing; and exactly the texts without a match are unchanged by the first. */
  lemma {:induction false} RedactionIsIdempotent(text: string)
    ensures Redact(Redact(text)) == Redact(text)
    ensures Redact(text) == text <==> Clean(Nothing, text)
  {
    NoCodeRemains(text);
    CleanIsKept(Nothing, Redact(text));
    if Clean(Nothing, text) { CleanIsKept(Nothing, text); }
  }

  // ---------------------------------------------------------------------------------------
  // Everything else is kept
  // ---------------------------------------------------------------------------------------

  function PreviousOf(t: string, i: nat): Before
    requires i <= |t|
  {
    if i == 0 then Nothing else After(t[i - 1])
  }

  /** The pattern matches `n` characters of the text at `i`. */
  predicate MatchAt(t: string, i: nat, n: nat) {
    i <= |t| && !Blocked(PreviousOf(t, i)) && Matches(t[i..], n)
  }

  predicate IsWord(c: char) {
    var u := c as int;
    48 <= u < 58 || 65 <= u < 91 || 97 <= u < 123
  }

  /**
   * The pattern in the text, by code points: five or six digits from `d` to the end, either alone or
   * after two letters and a colon, with no letter, digit, underscore or colon before and no letter or
   * digit after.
   */
  lemma {:induction false} PatternInText(t: string, i: nat, n: nat, d: nat)
    requires i + n <= |t| && (d == i || d == i + 3) && (d == i <==> n < 8)
    ensures MatchAt(t, i, n) <==>
            && d + 5 <= i + n <= d + 6 && (forall k :: d <= k < i + n ==> 48 <= t[k] as int < 58)
            && (d == i + 3 ==>
                  t[i + 2] as int == 58 && forall k :: i <= k < i + 2 ==> IsWord(t[k]) && t[k] as int >= 65)
            && (i > 0 ==> !IsWord(t[i - 1]) && t[i - 1] as int != 95 && t[i - 1] as int != 58)
            && (i + n < |t| ==> !IsWord(t[i + n]))
  {
    hide Matches, IsAlnum, AllDigits, Blocked, IsWord, IsDigit, IsLetter;
    var s := t[i..];
    assert |s| == |t| - i && (n < |s| ==> s[n] == t[i + n]);
    Shape(s, n, d - i);
    SuffixDigits(t, i, d, n);
    ByCodePoint(PreviousOf(t, i));
    if d == i + 3 && n >= 3 { assert s[0] == t[i] && s[1] == t[i + 1] && s[2] == t[i + 2]; }
    forall k | 0 <= k < |t| ensures IsDigit(t[k]) <==> 48 <= t[k] as int < 58 { CodePoint(t[k]); }
    forall k | 0 <= k < |t| ensures IsAlnum(t[k]) <==> IsWord(t[k]) { CodePoint(t[k]); }
    forall k | 0 <= k < |t| ensures IsLetter(t[k]) <==> IsWord(t[k]) && t[k] as int >= 65 { CodePoint(t[k]); }
  }

  lemma {:induction false} CodePoint(c: char)
    ensures IsDigit(c) <==> 48 <= c as int < 58
    ensures IsAlnum(c) <==> IsWord(c)
    ensures IsLetter(c) <==> IsWord(c) && c as int >= 65
  {
  }

  lemma {:induction false} ByCodePoint(b: Before)
    ensures Blocked(b) <==> b.After? && (IsWord(b.c) || b.c as int == 95 || b.c as int == 58)
  {
  }

  /** The pattern with its digits from `d` on. */
  lemma {:induction false} Shape(s: string, n: nat, d: nat)
    requires n <= |s| && (d == 0 || d == 3) && (d == 0 <==> n < 8)
    ensures Matches(s, n) <==>
            && d + 5 <= n <= d + 6 && (n < |s| ==> !IsAlnum(s[n])) && AllDigits(s, d, n)
            && (d == 3 ==> IsLetter(s[0]) && IsLetter(s[1]) && s[2] as int == 58)
  {
  }

  lemma {:induction false} SuffixDigits(t: string, i: nat, d: nat, n: nat)
    requires i <= d && i + n <= |t|
    ensures AllDigits(t[i..], d - i, n) <==> forall k :: d <= k < i + n ==> IsDigit(t[k])
  {
    hide IsDigit;
    var s := t[i..];
    assert forall k :: 0 <= k < |s| ==> s[k] == t[i + k];
    if AllDigits(s, d - i, n) {
      forall k | d <= k < i + n ensures IsDigit(t[k]) {
        assert s[k - i] == t[k];
      }
    }
  }

  ghost predicate StartsAt(t: string, i: nat) { exists n: nat :: MatchAt(t, i, n) }

  /** Position `k` lies in a match but does not start one. */
  ghost predicate Inside(t: string, k: nat) { exists i: nat, n: nat :: i < k < i + n && MatchAt(t, i, n) }

  /** Position by position: a placeholder where a match starts, nothing inside one, the character elsewhere. */
  ghost function Spliced(t: string, k: nat): string
    requires k <= |t|
    decreases |t| - k
  {
    if k == |t| then ""
    else (if StartsAt(t, k) then PLACEHOLDER else if Inside(t, k) then "" else [t[k]]) + Spliced(t, k + 1)
  }

  lemma {:induction false} OneLength(t: string, i: nat, m: nat, n: nat)
    requires MatchAt(t, i, m) && MatchAt(t, i, n)
    ensures m == n
  {
    hide Matches, MatchLength;
    MatchIsPattern(PreviousOf(t, i), t[i..], m);
    MatchIsPattern(PreviousOf(t, i), t[i..], n);
  }

  /** Inside a match every character blocks a start after it, so matches never overlap. */
  lemma {:induction false} MatchesAreDisjoint(t: string, i: nat, n: nat, k: nat)
    requires MatchAt(t, i, n) && i < k < i + n
    ensures !StartsAt(t, k) && k < |t|
  {
    ShapeIsPlain(t[i..], n);
    assert t[k - 1] == t[i..][k - 1 - i];
    assert Blocks(t[k - 1]);
  }

  lemma {:induction false} InsideMatchIsSkipped(t: string, i: nat, n: nat, k: nat)
    requires MatchAt(t, i, n) && i < k <= i + n && i + n <= |t|
    ensures Spliced(t, k) == Spliced(t, i + n)
    decreases i + n - k
  {
    if k < i + n {
      MatchesAreDisjoint(t, i, n, k);
      assert Inside(t, k);
      InsideMatchIsSkipped(t, i, n, k + 1);
    }
  }

  lemma {:induction false} StepStaysOutside(t: string, k: nat)
    requires k < |t| && !Inside(t, k) && !StartsAt(t, k)
    ensures !Inside(t, k + 1)
  {
    hide MatchAt;
    forall i: nat, n: nat | MatchAt(t, i, n) ensures !(i < k + 1 < i + n) {
      assert i == k ==> StartsAt(t, k);
      assert i < k < i + n ==> Inside(t, k);
    }
  }

  lemma {:induction false} MatchEndIsOutside(t: string, i: nat, n: nat)
    requires MatchAt(t, i, n) && !Inside(t, i)
    ensures !Inside(t, i + n)
  {
    forall j: nat, m: nat | MatchAt(t, j, m) ensures !(j < i + n < j + m) {
      if j == i {
        OneLength(t, i, m, n);
      } else if i < j < i + n {
        MatchesAreDisjoint(t, i, n, j);
      } else if j < i {
        assert j < i < j + m ==> Inside(t, i);
      }
    }
  }

  lemma {:induction false} ScanStep(t: string, k: nat)
    requires k < |t|
    ensures var n := MatchLength(PreviousOf(t, k), t[k..]);
      && k + n <= |t|
      && (n > 0 ==>
            && MatchAt(t, k, n)
            && Scan(PreviousOf(t, k), t[k..]) == PLACEHOLDER + Scan(PreviousOf(t, k + n), t[k + n..]))
      && (n == 0 ==>
            && !StartsAt(t, k)
            && Scan(PreviousOf(t, k), t[k..]) == [t[k]] + Scan(PreviousOf(t, k + 1), t[k + 1..]))
  {
    hide MatchLength, Matches;
    var b, s := PreviousOf(t, k), t[k..];
    var n := MatchLength(b, s);
    MatchFits(b, s);
    MatchIsPattern(b, s, n);
    if n > 0 {
      assert s[n - 1] == t[k + n - 1] && s[n..] == t[k + n..];
    } else {
      forall m: nat ensures !MatchAt(t, k, m) {
        MatchIsPattern(b, s, m);
        if Matches(s, m) { ShapeIsPlain(s, m); }
      }
      assert s[0] == t[k] && s[1..] == t[k + 1..];
    }
  }

  lemma {:induction false} SplicedStart(t: string, k: nat, n: nat)
    requires MatchAt(t, k, n) && 0 < n && k + n <= |t|
    ensures Spliced(t, k) == PLACEHOLDER + Spliced(t, k + n)
  {
    hide MatchAt;
    assert StartsAt(t, k);
    InsideMatchIsSkipped(t, k, n, k + 1);
  }

  lemma {:induction false} ScanIsSpliced(t: string, k: nat)
    requires k <= |t| && !Inside(t, k)
    ensures Scan(PreviousOf(t, k), t[k..]) == Spliced(t, k)
    decreases |t| - k
  {
    hide MatchLength, MatchAt, StartsAt, Inside, PreviousOf;
    if k < |t| {
      ScanStep(t, k);
      var n := MatchLength(PreviousOf(t, k), t[k..]);
      if n > 0 {
        MatchEndIsOutside(t, k, n);
        ScanIsSpliced(t, k + n);
        SplicedStart(t, k, n);
      } else {
        StepStaysOutside(t, k);
        ScanIsSpliced(t, k + 1);
      }
    }
  }

  /**
   * The scan agrees with the position-wise reading: each match becomes one placeholder, and
   * every character outside all matches is kept, in order.
   */
  lemma {:induction false} RedactionIsSpliced(text: string)
    ensures Redact(text) == Spliced(text, 0)
  {
    assert text[0..] == text;
    assert !Inside(text, 0);
    ScanIsSpliced(text, 0);
  }
}
