/**
 * Python string primitives the scraper relies on: `str.split()` with no
 * argument, `' '.join(...)`, `''.join(...)`, `str.strip()`, substring tests and
 * the decimal rendering of a counter.  Whitespace is Python's `str.isspace`.
 */
module Strings {

  /** The characters Python's `str.split()` and `str.strip()` treat as whitespace. */
  predicate IsSpace(c: char) {
    || ('\t' <= c <= '\r')
    || ('\U{1C}' <= c <= '\U{1F}')
    || c == ' '
    || c == '\U{85}'
    || c == '\U{A0}'
    || c == '\U{1680}'
    || ('\U{2000}' <= c <= '\U{200A}')
    || c == '\U{2028}'
    || c == '\U{2029}'
    || c == '\U{202F}'
    || c == '\U{205F}'
    || c == '\U{3000}'
  }

  predicate NoSpace(s: string) {
    forall i :: 0 <= i < |s| ==> !IsSpace(s[i])
  }

  /** A token of `str.split()`: non-empty, no whitespace. */
  predicate IsWord(w: string) {
    |w| > 0 && NoSpace(w)
  }

  function Flush(cur: string): seq<string> {
    if cur == [] then [] else [cur]
  }

  /** `str.split()` scanning `s` while the word `cur` is being built. */
  function SplitFrom(s: string, cur: string): seq<string>
    decreases |s|
  {
    if s == [] then Flush(cur)
    else if IsSpace(s[0]) then Flush(cur) + SplitFrom(s[1..], [])
    else SplitFrom(s[1..], cur + [s[0]])
  }

  lemma {:induction false} SplitFromYieldsWords(s: string, cur: string)
    requires NoSpace(cur)
    ensures forall i :: 0 <= i < |SplitFrom(s, cur)| ==> IsWord(SplitFrom(s, cur)[i])
    decreases |s|
  {
    if s != [] {
      if IsSpace(s[0]) {
        SplitFromYieldsWords(s[1..], []);
      } else {
        SplitFromYieldsWords(s[1..], cur + [s[0]]);
      }
    }
  }

  /** `s.split()`: the maximal whitespace-free runs of `s`, in order. */
  function Words(s: string): (ws: seq<string>)
    ensures forall i :: 0 <= i < |ws| ==> IsWord(ws[i])
  {
    SplitFromYieldsWords(s, []);
    SplitFrom(s, [])
  }

  /** `word_count`: the number of whitespace-separated tokens. */
  function WordCount(s: string): nat {
    |Words(s)|
  }

  /** `' '.join(ws)`. */
  function JoinSpace(ws: seq<string>): (r: string)
    ensures |ws| > 0 ==> |ws[0]| <= |r| && r[..|ws[0]|] == ws[0]
  {
    if |ws| == 0 then ""
    else if |ws| == 1 then ws[0]
    else ws[0] + " " + JoinSpace(ws[1..])
  }

  /** `''.join(ss)`. */
  function Concat(ss: seq<string>): string {
    if ss == [] then "" else ss[0] + Concat(ss[1..])
  }

  /** `''.join` over concatenated lists. */
  lemma {:induction false} ConcatAppend(a: seq<string>, b: seq<string>)
    ensures Concat(a + b) == Concat(a) + Concat(b)
  {
    if a == [] {
      assert a + b == b;
    } else {
      assert (a + b)[1..] == a[1..] + b;
      ConcatAppend(a[1..], b);
    }
  }

  /** `' '.join(s.split())`: the whitespace normal form used for extracted text. */
  function Normalize(s: string): string {
    JoinSpace(Words(s))
  }

  /**
   * Whitespace normal form: the only whitespace is a single ' ' with a
   * non-whitespace character on both sides (so no newline, no leading or
   * trailing space, no double space).
   */
  predicate NormalForm(t: string) {
    forall i :: 0 <= i < |t| && IsSpace(t[i]) ==>
      t[i] == ' ' && 0 < i < |t| - 1 && !IsSpace(t[i + 1])
  }

  lemma {:induction false} SplitFromAt(a: string, c: char, b: string, cur: string)
    requires IsSpace(c)
    ensures SplitFrom(a + [c] + b, cur) == SplitFrom(a, cur) + SplitFrom(b, [])
    decreases |a|
  {
    if a == [] {
      assert a + [c] + b == [c] + b;
    } else {
      assert (a + [c] + b)[1..] == a[1..] + [c] + b;
      if IsSpace(a[0]) {
        SplitFromAt(a[1..], c, b, []);
      } else {
        SplitFromAt(a[1..], c, b, cur + [a[0]]);
      }
    }
  }

  /** Splitting at a whitespace character splits the token list. */
  lemma WordsAt(a: string, c: char, b: string)
    requires IsSpace(c)
    ensures Words(a + [c] + b) == Words(a) + Words(b)
  {
    SplitFromAt(a, c, b, []);
  }

  /** Whitespace at either end of a string adds no token. */
  lemma WordsOfPadded(c: char, b: string)
    requires IsSpace(c)
    ensures Words([c] + b) == Words(b)
    ensures Words(b + [c]) == Words(b)
  {
    WordsAt([], c, b);
    assert [] + [c] + b == [c] + b;
    WordsAt(b, c, []);
    assert b + [c] + [] == b + [c];
  }

  lemma {:induction false} SplitFromWord(w: string, cur: string)
    requires NoSpace(cur) && NoSpace(w) && cur + w != []
    ensures SplitFrom(w, cur) == [cur + w]
    decreases |w|
  {
    if w != [] {
      assert !IsSpace(w[0]);
      assert cur + w == (cur + [w[0]]) + w[1..];
      assert NoSpace(w[1..]) by {
        forall j | 0 <= j < |w[1..]| ensures !IsSpace(w[1..][j]) {
          assert w[1..][j] == w[j + 1];
        }
      }
      SplitFromWord(w[1..], cur + [w[0]]);
    } else {
      assert cur + w == cur;
    }
  }

  lemma WordsOfWord(w: string)
    requires IsWord(w)
    ensures Words(w) == [w]
  {
    SplitFromWord(w, []);
    assert [] + w == w;
  }

  /** Splitting a space-joined list of tokens gives the tokens back. */
  lemma {:induction false} WordsOfJoin(ws: seq<string>)
    requires forall i :: 0 <= i < |ws| ==> IsWord(ws[i])
    ensures Words(JoinSpace(ws)) == ws
  {
    if |ws| == 1 {
      WordsOfWord(ws[0]);
    } else if |ws| > 1 {
      WordsAt(ws[0], ' ', JoinSpace(ws[1..]));
      assert JoinSpace(ws) == ws[0] + [' '] + JoinSpace(ws[1..]);
      WordsOfWord(ws[0]);
      WordsOfJoin(ws[1..]);
    }
  }

  /** Normalising twice changes nothing. */
  lemma NormalizeIdempotent(s: string)
    ensures Normalize(Normalize(s)) == Normalize(s)
  {
    WordsOfJoin(Words(s));
  }

  /** Normalising keeps exactly the tokens of the input. */
  lemma NormalizeKeepsWords(s: string)
    ensures Words(Normalize(s)) == Words(s)
  {
    WordsOfJoin(Words(s));
  }

  lemma {:induction false} JoinNormal(ws: seq<string>)
    requires forall i :: 0 <= i < |ws| ==> IsWord(ws[i])
    ensures NormalForm(JoinSpace(ws))
  {
    if |ws| > 1 {
      JoinNormal(ws[1..]);
      var w, t := ws[0], JoinSpace(ws[1..]);
      var r := w + " " + t;
      assert r == JoinSpace(ws);
      assert t[0] == ws[1][0];
      forall i | 0 <= i < |r|
        ensures IsSpace(r[i]) ==> r[i] == ' ' && 0 < i < |r| - 1 && !IsSpace(r[i + 1])
      {
        if i < |w| {
          assert r[i] == w[i];
        } else if i > |w| {
          assert r[i] == t[i - |w| - 1];
          if i + 1 < |r| {
            assert r[i + 1] == t[i - |w|];
          }
        }
      }
    }
  }

  /** The result of `' '.join(s.split())` is in whitespace normal form. */
  lemma NormalizeIsNormal(s: string)
    ensures NormalForm(Normalize(s))
  {
    JoinNormal(Words(s));
  }

  function IndexOfSpace(t: string): (i: nat)
    ensures i <= |t|
    ensures forall j :: 0 <= j < i ==> !IsSpace(t[j])
    ensures i < |t| ==> IsSpace(t[i])
  {
    if t == [] then 0
    else if IsSpace(t[0]) then 0
    else 1 + IndexOfSpace(t[1..])
  }

  /** A string is in normal form exactly when normalising leaves it unchanged. */
  lemma {:induction false} NormalFormIsFixedPoint(t: string)
    ensures NormalForm(t) <==> Normalize(t) == t
    decreases |t|
  {
    if Normalize(t) == t {
      NormalizeIsNormal(t);
    }
    if NormalForm(t) && t != [] {
      var i := IndexOfSpace(t);
      if i == |t| {
        assert NoSpace(t);
        WordsOfWord(t);
      } else {
        var a, rest := t[..i], t[i + 1..];
        assert t == a + [t[i]] + rest;
        assert IsWord(a);
        forall j | 0 <= j < |rest| && IsSpace(rest[j])
          ensures rest[j] == ' ' && 0 < j < |rest| - 1 && !IsSpace(rest[j + 1])
        {
          assert rest[j] == t[i + 1 + j];
          assert t[i + 1 + j + 1] == rest[j + 1];
        }
        NormalFormIsFixedPoint(rest);
        WordsAt(a, t[i], rest);
        WordsOfWord(a);
        assert Words(t) == [a] + Words(rest);
        assert Words(rest) != [];
        assert JoinSpace(Words(t)) == a + " " + JoinSpace(Words(rest));
      }
    }
  }

  function SumWords(xs: seq<string>): nat {
    if xs == [] then 0 else WordCount(xs[0]) + SumWords(xs[1..])
  }

  /** `word_count(' '.join(xs))` is the sum of the word counts of the parts. */
  lemma {:induction false} WordCountOfJoin(xs: seq<string>)
    ensures WordCount(JoinSpace(xs)) == SumWords(xs)
  {
    if |xs| == 1 {
      assert xs[1..] == [];
    } else if |xs| > 1 {
      WordsAt(xs[0], ' ', JoinSpace(xs[1..]));
      assert JoinSpace(xs) == xs[0] + [' '] + JoinSpace(xs[1..]);
      WordCountOfJoin(xs[1..]);
    }
  }

  lemma {:induction false} SumWordsAppend(xs: seq<string>, ys: seq<string>)
    ensures SumWords(xs + ys) == SumWords(xs) + SumWords(ys)
  {
    if xs == [] {
      assert xs + ys == ys;
    } else {
      assert (xs + ys)[1..] == xs[1..] + ys;
      SumWordsAppend(xs[1..], ys);
    }
  }

  /** `s.lstrip()`. */
  function TrimStart(s: string): (r: string)
    ensures |r| <= |s| && r == s[|s| - |r|..]
    ensures forall i :: 0 <= i < |s| - |r| ==> IsSpace(s[i])
    ensures r == [] || !IsSpace(r[0])
  {
    if s != [] && IsSpace(s[0]) then TrimStart(s[1..]) else s
  }

  /** `s.rstrip()`. */
  function TrimEnd(s: string): (r: string)
    ensures |r| <= |s| && r == s[..|r|]
    ensures forall i :: |r| <= i < |s| ==> IsSpace(s[i])
    ensures r == [] || !IsSpace(r[|r| - 1])
  {
    if s != [] && IsSpace(s[|s| - 1]) then TrimEnd(s[..|s| - 1]) else s
  }

  /** `s.strip()`. */
  function Strip(s: string): string {
    TrimEnd(TrimStart(s))
  }

  lemma {:induction false} WordsOfTrimStart(s: string)
    ensures Words(TrimStart(s)) == Words(s)
  {
    if s != [] && IsSpace(s[0]) {
      assert TrimStart(s) == TrimStart(s[1..]);
      WordsOfTrimStart(s[1..]);
      assert SplitFrom(s, []) == Flush([]) + SplitFrom(s[1..], []);
    }
  }

  lemma {:induction false} WordsOfTrimEnd(s: string)
    ensures Words(TrimEnd(s)) == Words(s)
  {
    if s != [] && IsSpace(s[|s| - 1]) {
      WordsOfTrimEnd(s[..|s| - 1]);
      WordsOfPadded(s[|s| - 1], s[..|s| - 1]);
      assert s == s[..|s| - 1] + [s[|s| - 1]];
    }
  }

  /** Stripping removes whitespace only: the tokens are unchanged. */
  lemma WordsOfStrip(s: string)
    ensures Words(Strip(s)) == Words(s)
  {
    WordsOfTrimStart(s);
    WordsOfTrimEnd(TrimStart(s));
  }

  /** `k` occurs in `s` starting at position `i`. */
  predicate OccursAt(s: string, k: string, i: int) {
    0 <= i <= |s| - |k| && s[i..i + |k|] == k
  }

  /** `k in s` for strings: `k` occurs in `s` at some position. */
  predicate Contains(s: string, k: string)
    ensures Contains(s, k) <==> exists i :: OccursAt(s, k, i)
    decreases |s|
  {
    if |k| <= |s| && s[..|k|] == k then
      assert OccursAt(s, k, 0);
      true
    else if s == [] then
      assert forall i :: !OccursAt(s, k, i);
      false
    else
      var r := Contains(s[1..], k);
      assert r ==> exists i :: OccursAt(s, k, i) by {
        if r {
          var i :| OccursAt(s[1..], k, i);
          assert s[i + 1..i + 1 + |k|] == s[1..][i..i + |k|];
          assert OccursAt(s, k, i + 1);
        }
      }
      assert (exists i :: OccursAt(s, k, i)) ==> r by {
        if exists i :: OccursAt(s, k, i) {
          var i :| OccursAt(s, k, i);
          assert i != 0;
          assert s[1..][i - 1..i - 1 + |k|] == s[i..i + |k|];
          assert OccursAt(s[1..], k, i - 1);
        }
      }
      r
  }

  function Digit(d: nat): (c: char)
    requires d < 10
    ensures '0' <= c <= '9'
  {
    "0123456789"[d]
  }

  /** `str(n)` for a natural number: its decimal digits. */
  function NatToString(n: nat): (r: string)
    ensures IsWord(r)
    ensures forall i :: 0 <= i < |r| ==> '0' <= r[i] <= '9'
  {
    if n < 10 then [Digit(n)] else NatToString(n / 10) + [Digit(n % 10)]
  }
}
