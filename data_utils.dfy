/** Text cleaning, financial-number parsing and the cache key string
    (data_ingestion/data_utils.py). */
module DataUtils {
  import opened Wrappers
  import opened PyText
  import opened PyValues

  // ---------------------------------------------------------------------------
  // remove_special_characters: delete every character outside the kept class
  // ---------------------------------------------------------------------------

  /** The character class the substitution leaves in place. */
  predicate IsKept(c: char)
  {
    || 'a' <= c <= 'z' || 'A' <= c <= 'Z' || '0' <= c <= '9'
    || IsSpace(c)
    || c in ".,!?-"
  }

  predicate AllKept(s: string)
  {
    forall c :: c in s ==> IsKept(c)
  }

  /** Keeps every kept character as often as it occurs, and nothing else. */
  function RemoveSpecialCharacters(text: string): (r: string)
    ensures AllKept(r)
    ensures forall c :: IsKept(c) ==> multiset(r)[c] == multiset(text)[c]
  {
    if text == [] then []
    else
      var rest := RemoveSpecialCharacters(text[1..]);
      assert text == [text[0]] + text[1..];
      (if IsKept(text[0]) then [text[0]] else []) + rest
  }

  /** The filter works piece by piece and keeps the order. */
  lemma {:induction false} RemoveSpecialCharactersConcat(a: string, b: string)
    ensures RemoveSpecialCharacters(a + b) == RemoveSpecialCharacters(a) + RemoveSpecialCharacters(b)
  {
    if a == [] {
      assert a + b == b;
    } else {
      assert (a + b)[0] == a[0];
      assert (a + b)[1..] == a[1..] + b;
      RemoveSpecialCharactersConcat(a[1..], b);
      var keep := if IsKept(a[0]) then [a[0]] else [];
      ConcatAssoc3(keep, RemoveSpecialCharacters(a[1..]), RemoveSpecialCharacters(b));
    }
  }

  /** A single character is kept exactly when it is in the class. */
  lemma RemoveSpecialCharactersChar(c: char)
    ensures RemoveSpecialCharacters([c]) == if IsKept(c) then [c] else []
  {
    assert [c][1..] == [];
  }

  /** A string is left unchanged exactly when all its characters are kept. */
  lemma {:induction false} RemoveSpecialCharactersFixedPoints(s: string)
    ensures RemoveSpecialCharacters(s) == s <==> AllKept(s)
  {
    if s != [] {
      RemoveSpecialCharactersFixedPoints(s[1..]);
      if AllKept(s) {
        assert AllKept(s[1..]) by {
          forall c | c in s[1..] ensures IsKept(c) {
            assert c in s;
          }
        }
      }
    }
  }

  // ---------------------------------------------------------------------------
  // normalize_whitespace: each whitespace run becomes one space, then trim
  // ---------------------------------------------------------------------------

  /** The substitution: every maximal run of whitespace becomes one space. */
  function CollapseSpaces(s: string): string
    decreases |s|
  {
    if s == [] then []
    else if IsSpace(s[0]) then " " + CollapseSpaces(StripStart(s[1..]))
    else [s[0]] + CollapseSpaces(s[1..])
  }

  function NormalizeWhitespace(text: string): string
  {
    Strip(CollapseSpaces(text))
  }

  predicate NoSpace(s: string)
  {
    forall i :: 0 <= i < |s| ==> !IsSpace(s[i])
  }

  /** A non-empty run of non-whitespace characters. */
  predicate IsWord(w: string)
  {
    w != [] && NoSpace(w)
  }

  /** The longest prefix of `s` without whitespace. */
  function Word(s: string): (w: string)
    ensures |w| <= |s| && w == s[..|w|]
    ensures NoSpace(w)
    ensures |w| < |s| ==> IsSpace(s[|w|])
    ensures s != [] && !IsSpace(s[0]) ==> w != []
  {
    if s == [] || IsSpace(s[0]) then [] else [s[0]] + Word(s[1..])
  }

  predicate AllWords(ws: seq<string>)
  {
    forall i :: 0 <= i < |ws| ==> IsWord(ws[i])
  }

  lemma AllWordsCons(w: string, ws: seq<string>)
    requires IsWord(w) && AllWords(ws)
    ensures AllWords([w] + ws)
  {
  }

  /** `s.split()`: the maximal runs of non-whitespace characters, in order. */
  function Words(s: string): (ws: seq<string>)
    ensures AllWords(ws)
    decreases |s|
  {
    var t := StripStart(s);
    if t == [] then []
    else
      var w := Word(t);
      assert IsWord(w);
      var rest := Words(t[|w|..]);
      AllWordsCons(w, rest);
      [w] + rest
  }

  /** Single spaces only: every whitespace character is a plain space and is
      followed by a non-whitespace character. */
  predicate SingleSpaced(s: string)
  {
    forall i :: 0 <= i < |s| && IsSpace(s[i]) ==> s[i] == ' ' && i + 1 < |s| && !IsSpace(s[i + 1])
  }

  lemma StripStartOfTrimmedStart(s: string)
    requires s == [] || !IsSpace(s[0])
    ensures StripStart(s) == s
  {
  }

  lemma {:induction false} StripStartSpaces(a: string, s: string)
    requires AllSpace(a)
    ensures StripStart(a + s) == StripStart(s)
  {
    if a != [] {
      assert (a + s)[0] == a[0];
      assert (a + s)[1..] == a[1..] + s;
      StripStartSpaces(a[1..], s);
    } else {
      assert a + s == s;
    }
  }

  lemma {:induction false} WordsSkipLeadingSpace(a: string, s: string)
    requires AllSpace(a)
    ensures Words(a + s) == Words(s)
  {
    StripStartSpaces(a, s);
    StripStartOfTrimmedStart(StripStart(s));
  }

  lemma {:induction false} StripEndSpaces(s: string, b: string)
    requires AllSpace(b)
    ensures StripEnd(s + b) == StripEnd(s)
  {
    if b != [] {
      var n := |b| - 1;
      assert (s + b)[|s + b| - 1] == b[n];
      assert (s + b)[..|s + b| - 1] == s + b[..n];
      StripEndSpaces(s, b[..n]);
    } else {
      assert s + b == s;
    }
  }

  /** Stripping removes whitespace around a trimmed middle and nothing else. */
  lemma StripAround(a: string, m: string, b: string)
    requires AllSpace(a) && AllSpace(b)
    requires Trimmed(m)
    ensures Strip(a + m + b) == m
  {
    ConcatAssoc3(a, m, b);
    StripStartSpaces(a, m + b);
    if m == [] {
      assert m + b == b + [];
      StripStartSpaces(b, []);
    } else {
      assert (m + b)[0] == m[0];
      StripStartOfTrimmedStart(m + b);
      StripEndSpaces(m, b);
    }
  }

  lemma {:induction false} CollapseWord(w: string, rest: string)
    requires NoSpace(w)
    ensures CollapseSpaces(w + rest) == w + CollapseSpaces(rest)
  {
    if w != [] {
      assert (w + rest)[0] == w[0];
      assert (w + rest)[1..] == w[1..] + rest;
      CollapseWord(w[1..], rest);
      assert [w[0]] + (w[1..] + CollapseSpaces(rest)) == w + CollapseSpaces(rest);
    } else {
      assert w + rest == rest;
    }
  }

  lemma {:induction false} WordOfWordThenSpace(w: string, rest: string)
    requires NoSpace(w)
    requires rest == [] || IsSpace(rest[0])
    ensures Word(w + rest) == w
  {
    if w != [] {
      assert (w + rest)[0] == w[0];
      assert (w + rest)[1..] == w[1..] + rest;
      WordOfWordThenSpace(w[1..], rest);
    } else {
      assert w + rest == rest;
    }
  }

  /** Joining words with single spaces gives a trimmed, single-spaced string. */
  lemma {:induction false} JoinWordsShape(ws: seq<string>)
    requires AllWords(ws)
    ensures Trimmed(Join(ws, " ")) && SingleSpaced(Join(ws, " "))
    ensures Join(ws, " ") == [] <==> ws == []
  {
    if |ws| == 1 {
      assert IsWord(ws[0]);
    } else if |ws| > 1 {
      var w := ws[0];
      assert IsWord(w);
      var tail := Join(ws[1..], " ");
      JoinWordsShape(ws[1..]);
      var j := w + " " + tail;
      assert Join(ws, " ") == j;
      assert j[0] == w[0];
      assert j[|j| - 1] == tail[|tail| - 1];
      assert forall i :: 0 <= i < |w| ==> j[i] == w[i];
      forall i | |w| <= i < |j| && IsSpace(j[i])
        ensures j[i] == ' ' && i + 1 < |j| && !IsSpace(j[i + 1])
      {
        if i > |w| {
          assert j[i] == tail[i - |w| - 1];
          if i + 1 < |j| {
            assert j[i + 1] == tail[i - |w|];
          }
        } else {
          assert j[i + 1] == tail[0];
        }
      }
    }
  }

  lemma WordsAfterWord(w: string, rest: string)
    requires IsWord(w)
    requires rest == [] || IsSpace(rest[0])
    ensures Words(w + rest) == [w] + Words(rest)
  {
    var j := w + rest;
    assert j[0] == w[0];
    StripStartOfTrimmedStart(j);
    WordOfWordThenSpace(w, rest);
    assert j[|w|..] == rest;
  }

  /** A word, one space, then anything: the word is split off and the space
      is skipped. */
  lemma WordsOfWordSpace(w: string, tail: string)
    requires IsWord(w)
    ensures Words(w + " " + tail) == [w] + Words(tail)
  {
    ConcatAssoc3(w, " ", tail);
    WordsAfterWord(w, " " + tail);
    assert AllSpace(" ");
    WordsSkipLeadingSpace(" ", tail);
  }

  lemma WordsOfWord(w: string)
    requires IsWord(w)
    ensures Words(w) == [w]
  {
    WordsAfterWord(w, []);
    assert w + [] == w;
  }

  /** `s.split()` undoes `" ".join(ws)` for a list of words. */
  lemma {:induction false} WordsOfJoin(ws: seq<string>)
    requires AllWords(ws)
    ensures Words(Join(ws, " ")) == ws
  {
    if |ws| == 1 {
      WordsOfWord(ws[0]);
    } else if |ws| > 1 {
      var tail := Join(ws[1..], " ");
      assert Join(ws, " ") == ws[0] + " " + tail;
      assert Words(ws[0] + " " + tail) == [ws[0]] + ws[1..] by {
        WordsOfJoin(ws[1..]);
        WordsOfWordSpace(ws[0], tail);
      }
      assert [ws[0]] + ws[1..] == ws;
    }
  }

  /** The single space a trailing whitespace run collapses to. */
  function TrailingSpace(s: string): string
  {
    if s != [] && IsSpace(s[|s| - 1]) then " " else ""
  }

  lemma TrailingSpaceOfSuffix(s: string, u: string)
    requires u != [] && |u| <= |s| && u == s[|s| - |u|..]
    ensures TrailingSpace(s) == TrailingSpace(u)
  {
    assert s[|s| - 1] == u[|u| - 1];
  }

  /** A whitespace run at the front becomes one space, and `split` skips it. */
  lemma CollapseLeadingSpace(r: string)
    requires r != [] && IsSpace(r[0])
    ensures CollapseSpaces(r) == " " + CollapseSpaces(StripStart(r[1..]))
    ensures Words(r) == Words(StripStart(r[1..]))
    ensures StripStart(r) == StripStart(r[1..])
  {
    var u := StripStart(r[1..]);
    assert StripStart(r) == u;
    StripStartOfTrimmedStart(u);
  }

  lemma {:induction false} CollapseTrimmedStart(s: string)
    requires s == [] || !IsSpace(s[0])
    ensures CollapseSpaces(s) == Join(Words(s), " ") + TrailingSpace(s)
    decreases |s|
  {
    if s != [] {
      StripStartOfTrimmedStart(s);
      var w := Word(s);
      var rest := s[|w|..];
      assert s == w + rest;
      CollapseWord(w, rest);
      assert Words(s) == [w] + Words(rest);
      if rest == [] {
        JoinCons(w, [], " ");
        TrailingSpaceOfSuffix(s, w);
      } else {
        CollapseAfterWord(s, w, rest);
      }
    }
  }

  lemma WordsNonEmpty(u: string)
    requires u != [] && !IsSpace(u[0])
    ensures Words(u) != []
  {
    StripStartOfTrimmedStart(u);
  }

  /** The step of `CollapseTrimmedStart` past a word followed by whitespace. */
  lemma {:induction false} CollapseAfterWord(s: string, w: string, rest: string)
    requires s == w + rest && IsWord(w)
    requires rest != [] && IsSpace(rest[0])
    requires CollapseSpaces(s) == w + CollapseSpaces(rest)
    requires Words(s) == [w] + Words(rest)
    ensures CollapseSpaces(s) == Join(Words(s), " ") + TrailingSpace(s)
    decreases |s|, 0
  {
    var u := StripStart(rest[1..]);
    CollapseTrimmedStart(u);
    if u == [] {
      CollapseAfterWordAtEnd(s, w, rest);
    } else {
      CollapseAfterWordThenMore(s, w, rest);
    }
  }

  /** The last word, followed only by whitespace. */
  lemma CollapseAfterWordAtEnd(s: string, w: string, rest: string)
    requires s == w + rest && IsWord(w)
    requires rest != [] && IsSpace(rest[0])
    requires CollapseSpaces(s) == w + CollapseSpaces(rest)
    requires Words(s) == [w] + Words(rest)
    requires StripStart(rest[1..]) == []
    ensures CollapseSpaces(s) == Join(Words(s), " ") + TrailingSpace(s)
  {
    var u := StripStart(rest[1..]);
    CollapseLeadingSpace(rest);
    assert CollapseSpaces(rest) == " " by {
      assert CollapseSpaces(u) == [];
    }
    assert Words(s) == [w] by {
      assert Words(u) == [];
    }
    assert Join([w], " ") == w;
    SpaceRunEnds(rest);
    TrailingSpaceOfSuffix(s, rest);
  }

  /** A run of whitespace ends in whitespace. */
  lemma SpaceRunEnds(rest: string)
    requires rest != [] && IsSpace(rest[0]) && StripStart(rest[1..]) == []
    ensures IsSpace(rest[|rest| - 1])
  {
    StripStartSuffix(rest[1..]);
    assert rest[1..][..|rest| - 1] == rest[1..];
    if |rest| > 1 {
      assert rest[1..][|rest| - 2] == rest[|rest| - 1];
    }
  }

  /** A word, whitespace, then more words. */
  lemma CollapseAfterWordThenMore(s: string, w: string, rest: string)
    requires s == w + rest && IsWord(w)
    requires rest != [] && IsSpace(rest[0])
    requires CollapseSpaces(s) == w + CollapseSpaces(rest)
    requires Words(s) == [w] + Words(rest)
    requires StripStart(rest[1..]) != []
    requires CollapseSpaces(StripStart(rest[1..]))
          == Join(Words(StripStart(rest[1..])), " ") + TrailingSpace(StripStart(rest[1..]))
    ensures CollapseSpaces(s) == Join(Words(s), " ") + TrailingSpace(s)
  {
    var u := StripStart(rest[1..]);
    CollapseLeadingSpace(rest);
    var wu := Words(u);
    var ju := Join(wu, " ");
    var tu := TrailingSpace(u);
    assert CollapseSpaces(rest) == " " + (ju + tu);
    StripStartSuffix(rest[1..]);
    SuffixOfTail(s, w, rest, u);
    TrailingSpaceOfSuffix(s, u);
    WordsNonEmpty(u);
    JoinCons(w, wu, " ");
    assert Join(Words(s), " ") == w + " " + ju;
    ConcatAssoc(w, " ", ju, tu);
  }

  /** `normalize_whitespace(s)` is `" ".join(s.split())`: the words of `s`,
      in order, separated by single spaces. */
  lemma NormalizeWhitespaceJoinsWords(s: string)
    ensures NormalizeWhitespace(s) == Join(Words(s), " ")
  {
    if s != [] && IsSpace(s[0]) {
      var t := StripStart(s[1..]);
      assert CollapseSpaces(s) == " " + CollapseSpaces(t) && Words(s) == Words(t) by {
        CollapseLeadingSpace(s);
      }
      assert Strip(" " + CollapseSpaces(t)) == Join(Words(t), " ") by {
        assert AllSpace(" ");
        NormalizeTrimmedStart(t, " ");
      }
    } else {
      var c := CollapseSpaces(s);
      assert [] + c == c;
      NormalizeTrimmedStart(s, []);
    }
  }

  /** Whitespace in front of a string without leading whitespace disappears
      in the strip. */
  lemma NormalizeTrimmedStart(t: string, lead: string)
    requires t == [] || !IsSpace(t[0])
    requires AllSpace(lead)
    ensures Strip(lead + CollapseSpaces(t)) == Join(Words(t), " ")
  {
    CollapseTrimmedStart(t);
    var j := Join(Words(t), " ");
    JoinWordsShape(Words(t));
    ConcatAssoc3(lead, j, TrailingSpace(t));
    StripAround(lead, j, TrailingSpace(t));
  }

  /** The result has no whitespace at either end, and every whitespace run in
      it is a single space. */
  lemma NormalizeWhitespaceShape(s: string)
    ensures Trimmed(NormalizeWhitespace(s)) && SingleSpaced(NormalizeWhitespace(s))
  {
    NormalizeWhitespaceJoinsWords(s);
    JoinWordsShape(Words(s));
  }

  lemma NormalizeWhitespaceIdempotent(s: string)
    ensures NormalizeWhitespace(NormalizeWhitespace(s)) == NormalizeWhitespace(s)
  {
    NormalizeWhitespaceJoinsWords(s);
    NormalizeWhitespaceJoinsWords(NormalizeWhitespace(s));
    WordsOfJoin(Words(s));
  }

  // ---------------------------------------------------------------------------
  // clean_text_data
  // ---------------------------------------------------------------------------

  /** The cleaning pipeline on a string: special characters out, then
      whitespace normalised. */
  function CleanText(text: string): string
  {
    NormalizeWhitespace(RemoveSpecialCharacters(text))
  }

  /** `clean_text_data(text)`: a non-string comes back as `str(text)`. */
  function CleanTextData(rt: Runtime, text: Json): (r: string)
    ensures text.JStr? ==> r == Join(Words(RemoveSpecialCharacters(text.s)), " ")
    ensures text.JStr? ==> AllKept(r) && Trimmed(r) && SingleSpaced(r)
    ensures !text.JStr? ==> r == rt.repr(text)
  {
    match text
    case JStr(s) =>
      CleanTextShape(s);
      NormalizeWhitespaceJoinsWords(RemoveSpecialCharacters(s));
      CleanText(s)
    case _ => Str(rt, text)
  }

  /** Every character of `r` is a space or occurs in `s`. */
  predicate CharsFrom(r: string, s: string)
  {
    forall i :: 0 <= i < |r| ==> r[i] == ' ' || r[i] in s
  }

  lemma CharsFromCons(c: char, x: string, u: string, s: string)
    requires c == ' ' || c in s
    requires CharsFrom(x, u) && forall d :: d in u ==> d in s
    ensures CharsFrom([c] + x, s)
  {
    forall i | 0 <= i < |[c] + x|
      ensures ([c] + x)[i] == ' ' || ([c] + x)[i] in s
    {
      if i > 0 {
        assert ([c] + x)[i] == x[i - 1];
      }
    }
  }

  lemma SuffixCharsIn(s: string, u: string)
    requires |u| <= |s| && u == s[|s| - |u|..]
    ensures forall d :: d in u ==> d in s
  {
    forall d | d in u
      ensures d in s
    {
      var i :| 0 <= i < |u| && u[i] == d;
      assert s[|s| - |u| + i] == d;
    }
  }

  /** Every character of the collapsed string is a space or comes from `s`. */
  lemma {:induction false} CollapseSpacesChars(s: string)
    ensures CharsFrom(CollapseSpaces(s), s)
    decreases |s|
  {
    if s != [] {
      if IsSpace(s[0]) {
        var u := StripStart(s[1..]);
        CollapseSpacesChars(u);
        StripStartSuffix(s[1..]);
        assert s[1..][|s| - 1 - |u|..] == s[|s| - |u|..];
        SuffixCharsIn(s, u);
        CharsFromCons(' ', CollapseSpaces(u), u, s);
      } else {
        CollapseSpacesChars(s[1..]);
        SuffixCharsIn(s, s[1..]);
        CharsFromCons(s[0], CollapseSpaces(s[1..]), s[1..], s);
      }
    }
  }

  /** Normalising whitespace keeps a string inside the kept class. */
  lemma NormalizeWhitespaceKeepsKept(s: string)
    requires AllKept(s)
    ensures AllKept(NormalizeWhitespace(s))
  {
    var c := CollapseSpaces(s);
    CollapseSpacesChars(s);
    StripCharsIn(c);
    forall ch | ch in NormalizeWhitespace(s)
      ensures IsKept(ch)
    {
      var i :| 0 <= i < |c| && c[i] == ch;
    }
  }

  /** Cleaning an already clean string changes nothing. */
  lemma CleanTextIdempotent(text: string)
    ensures CleanText(CleanText(text)) == CleanText(text)
  {
    var removed := RemoveSpecialCharacters(text);
    var cleaned := NormalizeWhitespace(removed);
    NormalizeWhitespaceKeepsKept(removed);
    RemoveSpecialCharactersFixedPoints(cleaned);
    NormalizeWhitespaceIdempotent(removed);
  }

  /** The result of cleaning holds only kept characters, has no whitespace at
      either end and only single spaces inside. */
  lemma CleanTextShape(text: string)
    ensures AllKept(CleanText(text))
    ensures Trimmed(CleanText(text)) && SingleSpaced(CleanText(text))
  {
    NormalizeWhitespaceKeepsKept(RemoveSpecialCharacters(text));
    NormalizeWhitespaceShape(RemoveSpecialCharacters(text));
  }

  // ---------------------------------------------------------------------------
  // clean_financial_number
  // ---------------------------------------------------------------------------

  predicate IsDigit(c: char)
  {
    '0' <= c <= '9'
  }

  predicate AllDigits(s: string)
  {
    forall i :: 0 <= i < |s| ==> IsDigit(s[i])
  }

  /** The value of one decimal digit. */
  function DigitValue(c: char): real
  {
    if c == '1' then 1.0 else if c == '2' then 2.0 else if c == '3' then 3.0
    else if c == '4' then 4.0 else if c == '5' then 5.0 else if c == '6' then 6.0
    else if c == '7' then 7.0 else if c == '8' then 8.0 else if c == '9' then 9.0
    else 0.0
  }

  /** The value of a run of decimal digits: "250" is 250. */
  function DigitsValue(s: string): real
  {
    if s == [] then 0.0 else DigitsValue(s[..|s| - 1]) * 10.0 + DigitValue(s[|s| - 1])
  }

  /** The value of the digits after a decimal point: "75" is 0.75. */
  function FractionValue(s: string): real
  {
    if s == [] then 0.0 else (DigitValue(s[0]) + FractionValue(s[1..])) / 10.0
  }

  /** An unsigned decimal numeral: digits with at most one point and at least
      one digit ("12", "12.5", "12.", ".5"). */
  function ParseUnsigned(s: string): Option<real>
  {
    NumeralValue(SplitOn(s, '.'))
  }

  /** The value of a numeral from its pieces around the points. */
  function NumeralValue(parts: seq<string>): Option<real>
  {
    if |parts| == 1 then
      if parts[0] != [] && AllDigits(parts[0]) then Some(DigitsValue(parts[0])) else None
    else if |parts| == 2 then
      if AllDigits(parts[0]) && AllDigits(parts[1]) && parts[0] + parts[1] != [] then
        Some(DigitsValue(parts[0]) + FractionValue(parts[1]))
      else None
    else
      None
  }

  /** `float(text)` on plain decimal notation: surrounding whitespace is
      ignored and one sign may lead. */
  function ParseFloat(text: string): Option<real>
  {
    var t := Strip(text);
    if t != [] && (t[0] == '+' || t[0] == '-') then
      match ParseUnsigned(t[1..])
      case Some(v) => Some(if t[0] == '-' then -v else v)
      case None => None
    else
      ParseUnsigned(t)
  }

  /** Removing every `$` and every `,`. */
  function DropCurrencyMarks(t: string): (r: string)
    ensures forall i :: 0 <= i < |r| ==> r[i] != '$' && r[i] != ','
    ensures |r| <= |t|
  {
    if t == [] then []
    else (if t[0] == '$' || t[0] == ',' then [] else [t[0]]) + DropCurrencyMarks(t[1..])
  }

  predicate IsSuffix(c: char)
  {
    c == 'K' || c == 'M' || c == 'B'
  }

  /** The factor a K, M or B suffix stands for. */
  function Scale(x: real, c: char): real
  {
    if c == 'K' then x * 1000.0
    else if c == 'M' then x * 1000000.0
    else if c == 'B' then x * 1000000000.0
    else x
  }

  /** `float(text) * multiplier` after at most one trailing K, M or B is cut
      off, or None when `float` raises `ValueError`. */
  function ParseScaled(t: string): Option<real>
  {
    if t != [] && IsSuffix(t[|t| - 1]) then
      match ParseFloat(t[..|t| - 1])
      case Some(x) => Some(Scale(x, t[|t| - 1]))
      case None => None
    else
      ParseFloat(t)
  }

  function Negate(r: Option<real>): Option<real>
  {
    match r
    case Some(x) => Some(-x)
    case None => None
  }

  /** `text.startswith('(') and text.endswith(')')` */
  predicate IsParenthesised(t: string)
  {
    t != [] && t[0] == '(' && t[|t| - 1] == ')'
  }

  /** `text[1:-1]` */
  function Inner(t: string): string
  {
    if |t| >= 2 then t[1..|t| - 1] else []
  }

  /** The string branch as written: the parenthesis test comes before `$` and
      `,` are removed. */
  function FinancialTextAsWritten(value: string): Option<real>
  {
    var text := Upper(Strip(value));
    if IsParenthesised(text) then Negate(ParseScaled(DropCurrencyMarks(Inner(text))))
    else ParseScaled(DropCurrencyMarks(text))
  }

  /** `clean_financial_number(value)` as written. */
  function CleanFinancialNumberAsWritten(value: Json): (r: Option<real>)
    ensures value.JNum? ==> r == Some(value.n)
    ensures value.JBool? ==> r == Some(if value.b then 1.0 else 0.0)
    ensures !(value.JNum? || value.JBool? || value.JStr?) ==> r == None
  {
    match value
    case JNum(n) => Some(n)
    case JBool(b) => Some(if b then 1.0 else 0.0)
    case JStr(s) => FinancialTextAsWritten(s)
    case _ => None
  }

  /** The string branch with `$` and `,` removed before the parenthesis test,
      so that "$(2.5B)" reads as a negative amount. */
  function FinancialText(value: string): Option<real>
  {
    var text := DropCurrencyMarks(Upper(Strip(value)));
    if IsParenthesised(text) then Negate(ParseScaled(Inner(text)))
    else ParseScaled(text)
  }

  /** `clean_financial_number(value)` with the parenthesis test moved after the
      removal of `$` and `,`. */
  function CleanFinancialNumber(value: Json): (r: Option<real>)
    ensures value.JNum? ==> r == Some(value.n)
    ensures value.JBool? ==> r == Some(if value.b then 1.0 else 0.0)
    ensures !(value.JNum? || value.JBool? || value.JStr?) ==> r == None
  {
    match value
    case JNum(n) => Some(n)
    case JBool(b) => Some(if b then 1.0 else 0.0)
    case JStr(s) => FinancialText(s)
    case _ => None
  }

  // Properties of the pieces.

  lemma {:induction false} DropCurrencyMarksConcat(a: string, b: string)
    ensures DropCurrencyMarks(a + b) == DropCurrencyMarks(a) + DropCurrencyMarks(b)
  {
    if a == [] {
      assert a + b == b;
    } else {
      assert (a + b)[0] == a[0];
      assert (a + b)[1..] == a[1..] + b;
      DropCurrencyMarksConcat(a[1..], b);
      var keep := if a[0] == '$' || a[0] == ',' then [] else [a[0]];
      ConcatAssoc3(keep, DropCurrencyMarks(a[1..]), DropCurrencyMarks(b));
    }
  }

  predicate NoMarks(s: string)
  {
    forall i :: 0 <= i < |s| ==> s[i] != '$' && s[i] != ','
  }

  lemma NoMarksOfChars(t: string, x: string)
    requires NoMarks(x) && forall ch :: ch in t ==> ch in x
    ensures NoMarks(t)
  {
    forall i | 0 <= i < |t|
      ensures t[i] != '$' && t[i] != ','
    {
      assert t[i] in t;
      var j :| 0 <= j < |x| && x[j] == t[i];
    }
  }

  lemma UpperNoMarks(t: string)
    requires NoMarks(t)
    ensures NoMarks(Upper(t))
  {
  }

  lemma InnerNoMarks(u: string)
    requires NoMarks(u)
    ensures NoMarks(Inner(u))
  {
    var n := Inner(u);
    forall i | 0 <= i < |n|
      ensures n[i] != '$' && n[i] != ','
    {
      assert n[i] == u[i + 1];
    }
  }

  /** Removing `$` and `,` changes exactly the strings that contain one. */
  lemma {:induction false} DropCurrencyMarksFixedPoints(s: string)
    ensures DropCurrencyMarks(s) == s <==> NoMarks(s)
  {
    if s != [] {
      DropCurrencyMarksFixedPoints(s[1..]);
      if NoMarks(s) {
        assert NoMarks(s[1..]) by {
          forall i | 0 <= i < |s[1..]| ensures s[1..][i] != '$' && s[1..][i] != ',' {
            assert s[1..][i] == s[i + 1];
          }
        }
      }
    }
  }

  lemma UpperConcat(a: string, b: string)
    ensures Upper(a + b) == Upper(a) + Upper(b)
  {
  }

  /** A numeral's first character: anything but a digit or a point (after an
      optional sign) makes `float` fail. */
  lemma ParseUnsignedBadFirst(s: string)
    requires s != [] && !IsDigit(s[0]) && s[0] != '.'
    ensures ParseUnsigned(s) == None
  {
    var parts := SplitOn(s, '.');
    assert parts[0] != [] && parts[0][0] == s[0];
  }

  /** A numeral's last character: anything but a digit or a point makes
      `float` fail. */
  lemma ParseUnsignedBadLast(s: string)
    requires s != [] && !IsDigit(s[|s| - 1]) && s[|s| - 1] != '.'
    ensures ParseUnsigned(s) == None
  {
    var parts := SplitOn(s, '.');
    JoinSplitOn(s, '.');
    if |parts| == 1 {
      assert parts[0] == s;
    } else if |parts| == 2 {
      JoinCons(parts[0], [parts[1]], ".");
      assert [parts[0]] + [parts[1]] == parts;
      assert s == parts[0] + "." + parts[1];
      assert parts[1] != [] && parts[1][|parts[1]| - 1] == s[|s| - 1];
    }
  }

  /** `float` of a string whose last character is a letter fails. */
  lemma ParseFloatBadLast(s: string)
    requires s != [] && IsSuffix(s[|s| - 1])
    ensures ParseFloat(s) == None
  {
    var t := Strip(s);
    StripKeepsLast(s);
    if t[0] == '+' || t[0] == '-' {
      if t[1..] != [] {
        assert t[1..][|t[1..]| - 1] == t[|t| - 1];
        ParseUnsignedBadLast(t[1..]);
      }
    } else {
      ParseUnsignedBadLast(t);
    }
  }

  /** A run of digits is an unsigned numeral with the digits' value. */
  lemma ParseUnsignedDigits(s: string)
    requires s != [] && AllDigits(s)
    ensures ParseUnsigned(s) == Some(DigitsValue(s))
  {
    assert '.' !in s;
    SplitOnJoin([s], '.');
  }

  /** A leading minus sign negates the numeral after it. */
  lemma ParseFloatNegative(u: string, v: real)
    requires Trimmed("-" + u) && ParseUnsigned(u) == Some(v)
    ensures ParseFloat("-" + u) == Some(-v)
  {
    var t := "-" + u;
    assert t[0] == '-' && t[1..] == u;
    assert Strip(t) == t;
  }

  /** Without a sign, `float` of a trimmed string is the unsigned numeral. */
  lemma ParseFloatUnsigned(t: string)
    requires Trimmed(t) && t != [] && t[0] != '+' && t[0] != '-'
    ensures ParseFloat(t) == ParseUnsigned(t)
  {
  }

  lemma DigitsTrimmed(s: string)
    requires s != [] && AllDigits(s)
    ensures Trimmed(s) && s[0] != '+' && s[0] != '-'
  {
    assert IsDigit(s[0]) && IsDigit(s[|s| - 1]);
  }

  /** `float` reads a run of digits as its decimal value. */
  lemma ParseFloatDigits(s: string)
    requires s != [] && AllDigits(s)
    ensures ParseFloat(s) == Some(DigitsValue(s))
  {
    ParseUnsignedDigits(s);
    DigitsTrimmed(s);
    ParseFloatUnsigned(s);
  }

  /** The digits on either side of a single point. */
  lemma ParseUnsignedPoint(a: string, b: string)
    requires AllDigits(a) && AllDigits(b) && a + b != []
    ensures ParseUnsigned(a + "." + b) == Some(DigitsValue(a) + FractionValue(b))
  {
    DigitsHaveNoPoint(a);
    DigitsHaveNoPoint(b);
    SplitOnTwo(a, b, '.');
    ParseUnsignedTwoParts(a + "." + b, a, b);
  }

  lemma ParseUnsignedTwoParts(s: string, a: string, b: string)
    requires SplitOn(s, '.') == [a, b]
    requires AllDigits(a) && AllDigits(b) && a + b != []
    ensures ParseUnsigned(s) == Some(DigitsValue(a) + FractionValue(b))
  {
    var parts := [a, b];
    assert parts[0] == a && parts[1] == b;
    assert NumeralValue(parts) == Some(DigitsValue(a) + FractionValue(b));
  }

  lemma DigitsHaveNoPoint(s: string)
    requires AllDigits(s)
    ensures '.' !in s
  {
    assert forall i :: 0 <= i < |s| ==> s[i] != '.';
  }

  /** `float` reads "a.b" as a plus b tenths-to-the-|b|. */
  lemma ParseFloatPoint(a: string, b: string)
    requires AllDigits(a) && AllDigits(b) && a + b != []
    ensures ParseFloat(a + "." + b) == Some(DigitsValue(a) + FractionValue(b))
  {
    var s := a + "." + b;
    ParseUnsignedPoint(a, b);
    assert Strip(s) == s by {
      assert s[0] == if a != [] then a[0] else '.';
      assert s[|s| - 1] == if b != [] then b[|b| - 1] else '.';
      assert Trimmed(s);
    }
    assert s[0] != '+' && s[0] != '-' by {
      assert s[0] == if a != [] then a[0] else '.';
    }
  }

  /** A K, M or B suffix multiplies the amount in front of it. */
  lemma MultiplierSuffix(t: string, c: char)
    requires IsSuffix(c)
    ensures ParseScaled(t + [c]) ==
      match ParseFloat(t)
      case Some(x) => Some(Scale(x, c))
      case None => None
  {
    assert (t + [c])[..|t|] == t;
  }

  /** At most one suffix is removed: a second one makes the amount unreadable. */
  lemma AtMostOneSuffix(t: string, c: char, d: char)
    requires IsSuffix(c) && IsSuffix(d)
    ensures ParseScaled(t + [c, d]) == None
  {
    var s := t + [c, d];
    assert s[..|s| - 1] == t + [c];
    ParseFloatBadLast(t + [c]);
  }

  lemma UpperParenthesised(x: string)
    ensures Upper("(" + x + ")") == "(" + Upper(x) + ")"
  {
    UpperConcat("(" + x, ")");
    UpperConcat("(", x);
    assert Upper("(") == "(" && Upper(")") == ")";
  }

  lemma InnerParenthesised(y: string)
    ensures IsParenthesised("(" + y + ")") && Inner("(" + y + ")") == y
  {
    var v := "(" + y + ")";
    assert v[1..|v| - 1] == y;
  }

  /** Parentheses around a trimmed amount negate it. */
  lemma ParenthesesNegate(x: string)
    requires Trimmed(x) && !IsParenthesised(x)
    ensures FinancialTextAsWritten("(" + x + ")") == Negate(FinancialTextAsWritten(x))
  {
    var v := "(" + x + ")";
    assert Strip(v) == v by {
      assert v[0] == '(' && v[|v| - 1] == ')';
      assert Trimmed(v);
    }
    assert Upper(v) == "(" + Upper(x) + ")" by {
      UpperParenthesised(x);
    }
    InnerParenthesised(Upper(x));
    assert !IsParenthesised(Upper(x)) by {
      if x != [] {
        assert Upper(x)[0] == UpperChar(x[0]);
        assert Upper(x)[|x| - 1] == UpperChar(x[|x| - 1]);
      }
    }
  }

  /** Upper-casing a string without lower-case letters changes nothing. */
  lemma UpperNoLower(s: string)
    requires forall i :: 0 <= i < |s| ==> !('a' <= s[i] <= 'z')
    ensures Upper(s) == s
  {
  }

  /** `float` of a trimmed string that starts with anything but a digit, a
      point or a sign fails. */
  lemma ParseFloatBadFirst(s: string)
    requires Trimmed(s) && s != []
    requires !IsDigit(s[0]) && s[0] != '.' && s[0] != '+' && s[0] != '-'
    ensures ParseFloat(s) == None
  {
    ParseUnsignedBadFirst(s);
  }

  // The "$(2.5B)" case.

  /** As written, a `$` in front of the parentheses hides them from the
      parenthesis test, and the parentheses left after `$` is removed make
      `float` fail: the value is lost, not negated. */
  lemma DollarParenthesesAsWritten(x: string)
    ensures FinancialTextAsWritten("$(" + x + ")") == None
  {
    var u := Upper(x);
    DollarParenTrimmed(x);
    UpperDollarParen(x);
    DollarParenNotParenthesised(u);
    DropEnclosed("$(", u);
    assert DropCurrencyMarks("$(") == "(";
    var y := "(" + DropCurrencyMarks(u) + ")";
    ParenTrimmed(DropCurrencyMarks(u));
    ParseFloatBadFirst(y);
  }

  lemma DollarParenTrimmed(x: string)
    ensures Trimmed("$(" + x + ")")
  {
    var v := "$(" + x + ")";
    assert v[0] == '$' && v[|v| - 1] == ')';
  }

  lemma ParenTrimmed(x: string)
    ensures Trimmed("(" + x + ")") && ("(" + x + ")")[0] == '('
  {
    var v := "(" + x + ")";
    assert v[0] == '(' && v[|v| - 1] == ')';
  }

  lemma DollarParenNotParenthesised(u: string)
    ensures !IsParenthesised("$(" + u + ")")
  {
    assert ("$(" + u + ")")[0] == '$';
  }

  lemma UpperDollarParen(x: string)
    ensures Upper("$(" + x + ")") == "$(" + Upper(x) + ")"
  {
    UpperConcat("$(" + x, ")");
    UpperConcat("$(", x);
    assert Upper("$(") == "$(" && Upper(")") == ")";
  }

  /** Removing `$` and `,` from an opening part, a middle and a closing
      parenthesis. */
  lemma DropEnclosed(p: string, u: string)
    ensures DropCurrencyMarks(p + u + ")") == DropCurrencyMarks(p) + DropCurrencyMarks(u) + ")"
  {
    DropCurrencyMarksConcat(p + u, ")");
    DropCurrencyMarksConcat(p, u);
    assert DropCurrencyMarks(")") == ")";
  }

  lemma DollarParenthesesExampleAsWritten()
    ensures CleanFinancialNumberAsWritten(JStr("$(2.5B)")) == None
  {
    DollarParenthesesAsWritten("2.5B");
    assert "$(" + "2.5B" + ")" == "$(2.5B)";
  }

  /** With `$` and `,` removed first, a leading `$` no longer matters. */
  lemma DollarOutside(x: string)
    requires Trimmed(x)
    ensures FinancialText("$" + x) == FinancialText(x)
  {
    var v := "$" + x;
    assert Strip(v) == v by {
      assert v[0] == '$';
      assert v[|v| - 1] == if x == [] then '$' else x[|x| - 1];
      assert Trimmed(v);
    }
    assert Upper(v) == "$" + Upper(x) by {
      UpperConcat("$", x);
      assert Upper("$") == "$";
    }
    assert DropCurrencyMarks("$" + Upper(x)) == DropCurrencyMarks(Upper(x)) by {
      DropCurrencyMarksConcat("$", Upper(x));
      assert DropCurrencyMarks("$") == [];
    }
  }

  /** On strings without `$` or `,`, the corrected reading and the one as
      written agree. */
  lemma CorrectedAgreesWithoutMarks(x: string)
    requires NoMarks(x)
    ensures FinancialText(x) == FinancialTextAsWritten(x)
  {
    var t := Strip(x);
    StripCharsIn(x);
    NoMarksOfChars(t, x);
    var u := Upper(t);
    UpperNoMarks(t);
    DropCurrencyMarksFixedPoints(u);
    if IsParenthesised(u) {
      InnerNoMarks(u);
      DropCurrencyMarksFixedPoints(Inner(u));
    }
  }

  /** The corrected reading of "$(X)" is the negation of X: the case the
      usage notes show with "$(2.5B)". */
  lemma DollarParenthesesNegate(x: string)
    requires Trimmed(x) && !IsParenthesised(DropCurrencyMarks(Upper(x)))
    ensures FinancialText("$(" + x + ")") == Negate(FinancialText(x))
  {
    var p := "(" + x + ")";
    assert "$(" + x + ")" == "$" + p;
    ParenTrimmed(x);
    DollarOutside(p);
    ParenthesesNegateCorrected(x);
  }

  /** Corrected, parentheses around a trimmed amount still negate it. */
  lemma ParenthesesNegateCorrected(x: string)
    requires Trimmed(x) && !IsParenthesised(DropCurrencyMarks(Upper(x)))
    ensures FinancialText("(" + x + ")") == Negate(FinancialText(x))
  {
    var u := Upper(x);
    ParenTrimmed(x);
    UpperParenthesised(x);
    DropEnclosed("(", u);
    assert DropCurrencyMarks("(") == "(";
    InnerParenthesised(DropCurrencyMarks(u));
  }

  // The usage notes' examples, as general statements.

  /** As written, a trimmed amount that is not in parentheses is read after
      upper-casing and removing `$` and `,`: thousands separators are ignored. */
  lemma PlainAmountAsWritten(v: string)
    requires Trimmed(v) && !IsParenthesised(v)
    ensures FinancialTextAsWritten(v) == ParseScaled(DropCurrencyMarks(Upper(v)))
  {
    if v != [] {
      assert Upper(v)[0] == UpperChar(v[0]);
    }
  }

  /** Helper: upper-casing leaves digits, the separator and an upper-case
      rest alone. */
  lemma SeparatedUpper(a: string, r: string)
    requires AllDigits(a) && Upper(r) == r
    ensures Upper(a + "," + r) == a + "," + r
  {
    assert Upper(a) == a by {
      forall i | 0 <= i < |a| ensures !('a' <= a[i] <= 'z') {
      }
      UpperNoLower(a);
    }
    UpperConcat(a, ",");
    UpperConcat(a + ",", r);
  }

  /** Helper: dropping the marks removes just the separator. */
  lemma SeparatedDrop(a: string, r: string)
    requires AllDigits(a) && NoMarks(r)
    ensures DropCurrencyMarks(a + "," + r) == a + r
  {
    DropCurrencyMarksConcat(a + ",", r);
    DropCurrencyMarksConcat(a, ",");
    assert DropCurrencyMarks(",") == [];
    assert NoMarks(a);
    DropCurrencyMarksFixedPoints(a);
    DropCurrencyMarksFixedPoints(r);
    assert a + [] == a;
  }

  /** "1,250.75M" reads as "1250.75M": a thousands separator after leading
      digits is ignored. */
  lemma SeparatorIgnoredAsWritten(a: string, r: string)
    requires a != [] && AllDigits(a)
    requires r != [] && NoMarks(r) && Upper(r) == r
    requires !IsSpace(r[|r| - 1]) && r[|r| - 1] != ')'
    ensures FinancialTextAsWritten(a + "," + r) == ParseScaled(a + r)
  {
    var v := a + "," + r;
    assert Trimmed(v) && !IsParenthesised(v) by {
      assert v[0] == a[0] && v[|v| - 1] == r[|r| - 1];
    }
    PlainAmountAsWritten(v);
    SeparatedUpper(a, r);
    SeparatedDrop(a, r);
  }

  /** "300K" reads as 300,000: digits and a K, M or B suffix. */
  lemma ScaledDigitsAsWritten(a: string, k: char)
    requires a != [] && AllDigits(a) && IsSuffix(k)
    ensures FinancialTextAsWritten(a + [k]) == Some(Scale(DigitsValue(a), k))
  {
    var v := a + [k];
    ScaledDigitsShape(a, k);
    PlainAmountAsWritten(v);
    ScaledDigitsUpper(a, k);
    DropCurrencyMarksFixedPoints(v);
    MultiplierSuffix(a, k);
    ParseFloatDigits(a);
  }

  /** The usage example "300K" reads as 300,000. */
  lemma ScaledDigitsExampleAsWritten()
    ensures FinancialTextAsWritten("300K") == Some(300000.0)
  {
    ThreeHundred();
    ScaledDigitsAsWritten("300", 'K');
    assert "300" + ['K'] == "300K";
  }

  lemma ThreeHundred()
    ensures AllDigits("300") && DigitsValue("300") == 300.0
  {
    assert "300"[..2] == "30" && "30"[..1] == "3" && "3"[..0] == "";
  }

  lemma ScaledDigitsShape(a: string, k: char)
    requires a != [] && AllDigits(a) && IsSuffix(k)
    ensures Trimmed(a + [k]) && !IsParenthesised(a + [k])
  {
    var v := a + [k];
    assert v[0] == a[0] && v[|v| - 1] == k;
    assert IsDigit(a[0]);
  }

  lemma ScaledDigitsUpper(a: string, k: char)
    requires AllDigits(a) && IsSuffix(k)
    ensures Upper(a + [k]) == a + [k] && NoMarks(a + [k])
  {
    var v := a + [k];
    forall i | 0 <= i < |v|
      ensures !('a' <= v[i] <= 'z') && v[i] != '$' && v[i] != ','
    {
      if i < |a| {
        assert v[i] == a[i] && IsDigit(a[i]);
      }
    }
    UpperNoLower(v);
  }

  /** "1,250.75M" reads as 1,250,750,000: digits, a thousands separator,
      digits, a decimal point, digits and a K, M or B suffix; `x` is the
      value of the digits around the point. */
  lemma SeparatedDecimalAsWritten(a: string, b: string, c: string, k: char, x: real)
    requires a != [] && AllDigits(a) && AllDigits(b) && AllDigits(c) && IsSuffix(k)
    requires x == DigitsValue(a + b) + FractionValue(c)
    ensures FinancialTextAsWritten(a + "," + b + "." + c + [k]) == Some(Scale(x, k))
  {
    var r := b + "." + c + [k];
    DecimalScaledShape(b, c, k);
    SeparatorIgnoredAsWritten(a, r);
    SeparatedDecimalJoin(a, b, c, k);
    DecimalScaled(a + b, c, k, x);
  }

  /** The usage example "1,250.75M" reads as 1,250,750,000. */
  lemma SeparatedDecimalExampleAsWritten()
    ensures FinancialTextAsWritten("1,250.75M") == Some(1250750000.0)
  {
    TwelveFifty();
    SeventyFiveHundredths();
    SeparatedDecimalAsWritten("1", "250", "75", 'M', 1250.75);
    SeparatedDecimalLiteral();
  }

  lemma SeparatedDecimalLiteral()
    ensures "1" + "," + "250" + "." + "75" + ['M'] == "1,250.75M"
    ensures Scale(1250.75, 'M') == 1250750000.0
  {
  }

  lemma TwelveFifty()
    ensures AllDigits("1") && AllDigits("250") && DigitsValue("1" + "250") == 1250.0
  {
    assert "1" + "250" == "1250";
    assert "1250"[..3] == "125" && "125"[..2] == "12" && "12"[..1] == "1" && "1"[..0] == "";
  }

  lemma SeventyFiveHundredths()
    ensures AllDigits("75") && FractionValue("75") == 0.75
  {
    assert "75"[1..] == "5" && "5"[1..] == "";
  }

  lemma SeparatedDecimalJoin(a: string, b: string, c: string, k: char)
    requires AllDigits(a) && AllDigits(b)
    ensures a + "," + b + "." + c + [k] == a + "," + (b + "." + c + [k])
    ensures a + (b + "." + c + [k]) == (a + b) + "." + c + [k]
    ensures AllDigits(a + b)
  {
    assert forall i :: 0 <= i < |a + b| ==> (a + b)[i] == if i < |a| then a[i] else b[i - |a|];
  }

  lemma DecimalScaled(d: string, c: string, k: char, x: real)
    requires d != [] && AllDigits(d) && AllDigits(c) && IsSuffix(k)
    requires x == DigitsValue(d) + FractionValue(c)
    ensures ParseScaled(d + "." + c + [k]) == Some(Scale(x, k))
  {
    PointAfterDigits(d, c);
    ScaledOf(d + "." + c, k);
    ScaledValue(ParseScaled(d + "." + c + [k]), ParseFloat(d + "." + c), DigitsValue(d) + FractionValue(c), x, k);
  }

  lemma PointAfterDigits(d: string, c: string)
    requires d != [] && AllDigits(d) && AllDigits(c)
    ensures ParseFloat(d + "." + c) == Some(DigitsValue(d) + FractionValue(c))
  {
    NonEmptyJoin(d, c);
    ParseFloatPoint(d, c);
  }

  lemma NonEmptyJoin(d: string, c: string)
    requires d != []
    ensures d + c != []
  {
    assert |d + c| == |d| + |c|;
  }

  /** Replacing a parsed value by an equal one under the suffix factor. */
  lemma ScaledValue(r: Option<real>, p: Option<real>, y: real, x: real, k: char)
    requires p == Some(y) && x == y && r == Some(Scale(p.value, k))
    ensures r == Some(Scale(x, k))
  {
  }

  lemma ScaledOf(t: string, k: char)
    requires IsSuffix(k) && ParseFloat(t).Some?
    ensures ParseScaled(t + [k]) == Some(Scale(ParseFloat(t).value, k))
  {
    MultiplierSuffix(t, k);
  }

  lemma DecimalScaledShape(b: string, c: string, k: char)
    requires AllDigits(b) && AllDigits(c) && IsSuffix(k)
    ensures var r := b + "." + c + [k];
      r != [] && r[|r| - 1] == k && NoMarks(r) && Upper(r) == r
  {
    var r := b + "." + c + [k];
    forall i | 0 <= i < |r|
      ensures !('a' <= r[i] <= 'z') && r[i] != '$' && r[i] != ','
    {
      if i < |b| {
        assert r[i] == b[i] && IsDigit(b[i]);
      } else if |b| < i < |b| + 1 + |c| {
        assert r[i] == c[i - |b| - 1] && IsDigit(c[i - |b| - 1]);
      }
    }
    UpperNoLower(r);
  }

  /** `float` of a string that starts with a letter fails. */
  lemma ParseFloatLetterFirst(s: string)
    requires s != [] && 'A' <= s[0] <= 'Z'
    ensures ParseFloat(s) == None
  {
    var t := Strip(s);
    assert t != [] && t[0] == s[0] by {
      assert StripStart(s) == s;
      StripEndPrefix(s);
    }
    ParseUnsignedBadFirst(t);
  }

  /** Helper: the empty string is not a number. */
  lemma ParseFloatEmpty()
    ensures ParseFloat([]) == None
  {
    assert Strip([]) == [];
    assert SplitOn([], '.') == [[]];
  }

  /** Helper: a scaled amount that starts with a letter is not a number. */
  lemma ParseScaledLetterFirst(d: string)
    requires d != [] && 'A' <= d[0] <= 'Z'
    ensures ParseScaled(d) == None
  {
    if IsSuffix(d[|d| - 1]) {
      var body := d[..|d| - 1];
      if body == [] {
        ParseFloatEmpty();
      } else {
        ParseFloatLetterFirst(body);
      }
    } else {
      ParseFloatLetterFirst(d);
    }
  }

  /** "InvalidData" gives None: a trimmed string that starts with a letter is
      never a number. */
  lemma LetterFirstAsWritten(v: string)
    requires Trimmed(v) && v != [] && ('a' <= v[0] <= 'z' || 'A' <= v[0] <= 'Z')
    ensures FinancialTextAsWritten(v) == None
  {
    PlainAmountAsWritten(v);
    var u := Upper(v);
    assert u[0] == UpperChar(v[0]);
    DropKeepsFirst(u);
    ParseScaledLetterFirst(DropCurrencyMarks(u));
  }

  /** A first character that is not a mark survives dropping the marks. */
  lemma DropKeepsFirst(u: string)
    requires u != [] && u[0] != '$' && u[0] != ','
    ensures DropCurrencyMarks(u) != [] && DropCurrencyMarks(u)[0] == u[0]
  {
    assert u == [u[0]] + u[1..];
    DropCurrencyMarksConcat([u[0]], u[1..]);
    assert DropCurrencyMarks([u[0]]) == [u[0]];
  }

  // ---------------------------------------------------------------------------
  // generate_cache_key: the string that is hashed
  // ---------------------------------------------------------------------------

  /** Keys strictly increasing in Python's string order, which is what
      `sorted(kwargs.items())` gives for a dict (its keys are distinct). */
  predicate KeySorted<V>(d: Dict<V>)
  {
    forall i, j :: 0 <= i < j < |d| ==> LexLess(d[i].0, d[j].0)
  }

  lemma SortedCons<V>(kv: (string, V), d: Dict<V>)
    requires KeySorted(d)
    requires forall p | p in d :: LexLess(kv.0, p.0)
    ensures KeySorted([kv] + d)
  {
    var r := [kv] + d;
    forall i, j | 0 <= i < j < |r| ensures LexLess(r[i].0, r[j].0) {
      if i == 0 {
        assert r[j] == d[j - 1];
      } else {
        assert r[i] == d[i - 1] && r[j] == d[j - 1];
      }
    }
  }

  /** A key below the first key of a sorted dict is below all of them. */
  lemma BelowSorted<V>(k: string, d: Dict<V>)
    requires KeySorted(d) && d != [] && LexLess(k, d[0].0)
    ensures forall p | p in d :: LexLess(k, p.0)
  {
    forall p | p in d ensures LexLess(k, p.0) {
      var i :| 0 <= i < |d| && d[i] == p;
      if i > 0 {
        LexLessTransitive(k, d[0].0, p.0);
      }
    }
  }

  /** The first key of a sorted dict is below every pair that came from its
      tail or is the inserted pair. */
  lemma AboveHead<V>(kv: (string, V), d: Dict<V>, r: Dict<V>)
    requires KeySorted(d) && d != [] && LexLess(d[0].0, kv.0)
    requires multiset(r) == multiset(d[1..]) + multiset{kv}
    ensures forall p | p in r :: LexLess(d[0].0, p.0)
  {
    forall p | p in r ensures LexLess(d[0].0, p.0) {
      assert p in multiset(r);
      if p != kv {
        assert p in multiset(d[1..]);
        var i :| 0 <= i < |d| - 1 && d[1..][i] == p;
        assert d[i + 1] == p;
      }
    }
  }

  /** A new key that is not below the first key goes into the tail. */
  lemma InsertPastHead<V>(kv: (string, V), d: Dict<V>)
    requires d != [] && !HasKey(d, kv.0) && !LexLess(kv.0, d[0].0)
    ensures LexLess(d[0].0, kv.0) && !HasKey(d[1..], kv.0)
  {
    assert Keys(d)[0] == d[0].0;
    LexLessTotal(kv.0, d[0].0);
    if HasKey(d[1..], kv.0) {
      HasKeyTail(d, kv.0);
    }
  }

  /** One step of sorting: put a pair with a new key at its place. */
  function InsertByKey<V>(kv: (string, V), d: Dict<V>): (r: Dict<V>)
    requires KeySorted(d) && !HasKey(d, kv.0)
    ensures KeySorted(r)
    ensures multiset(r) == multiset(d) + multiset{kv}
  {
    if d == [] then [kv]
    else if LexLess(kv.0, d[0].0) then
      BelowSorted(kv.0, d);
      SortedCons(kv, d);
      [kv] + d
    else
      InsertPastHead(kv, d);
      var rest := InsertByKey(kv, d[1..]);
      HeadThenRest(kv, d, rest);
      [d[0]] + rest
  }

  /** Keeping the smaller head in front of the insertion into the tail keeps
      the dict sorted and adds exactly the new pair. */
  lemma HeadThenRest<V>(kv: (string, V), d: Dict<V>, rest: Dict<V>)
    requires KeySorted(d) && d != [] && LexLess(d[0].0, kv.0)
    requires KeySorted(rest) && multiset(rest) == multiset(d[1..]) + multiset{kv}
    ensures KeySorted([d[0]] + rest)
    ensures multiset([d[0]] + rest) == multiset(d) + multiset{kv}
  {
    AboveHead(kv, d, rest);
    KeySortedTail(d);
    SortedCons(d[0], rest);
    assert d == [d[0]] + d[1..];
  }

  /** `sorted(kwargs.items())`: the pairs of the dict ordered by key. */
  function SortByKey<V>(d: Dict<V>): (r: Dict<V>)
    requires DistinctKeys(d)
    ensures KeySorted(r)
    ensures multiset(r) == multiset(d)
  {
    if d == [] then []
    else
      assert DistinctKeys(d[1..]) by {
        forall i, j | 0 <= i < j < |d| - 1 ensures Keys(d[1..])[i] != Keys(d[1..])[j] {
          assert Keys(d)[i + 1] != Keys(d)[j + 1];
        }
      }
      var sorted := SortByKey(d[1..]);
      assert !HasKey(sorted, d[0].0) by {
        HasKeySamePairs(sorted, d[1..], d[0].0);
      }
      assert d == [d[0]] + d[1..];
      InsertByKey(d[0], sorted)
  }

  lemma KeySortedTail<V>(d: Dict<V>)
    requires KeySorted(d) && d != []
    ensures KeySorted(d[1..])
  {
    forall i, j | 0 <= i < j < |d| - 1 ensures LexLess(d[1..][i].0, d[1..][j].0) {
      assert d[1..][i] == d[i + 1] && d[1..][j] == d[j + 1];
    }
  }

  /** Two key-sorted dicts with the same pairs start with the same pair. */
  lemma KeySortedSameHead<V>(a: Dict<V>, b: Dict<V>)
    requires KeySorted(a) && KeySorted(b) && multiset(a) == multiset(b) && a != []
    ensures b != [] && a[0] == b[0]
  {
    assert a[0] in multiset(b);
    var j :| 0 <= j < |b| && b[j] == a[0];
    assert b[0] in multiset(a);
    var i :| 0 <= i < |a| && a[i] == b[0];
    if i > 0 && j > 0 {
      LexLessAsymmetric(a[0].0, b[0].0);
    }
  }

  /** Removing the same first element from two equal multisets of pairs. */
  lemma SameTails<V>(a: Dict<V>, b: Dict<V>)
    requires a != [] && b != [] && a[0] == b[0] && multiset(a) == multiset(b)
    ensures multiset(a[1..]) == multiset(b[1..])
  {
    assert a == [a[0]] + a[1..] && b == [b[0]] + b[1..];
    assert multiset(a) == multiset{a[0]} + multiset(a[1..]);
    assert multiset(b) == multiset{a[0]} + multiset(b[1..]);
    forall y
      ensures multiset(a[1..])[y] == multiset(b[1..])[y]
    {
      assert multiset(a)[y] == multiset(b)[y];
    }
  }

  /** There is only one key-sorted order of a given set of pairs. */
  lemma {:induction false} KeySortedUnique<V>(a: Dict<V>, b: Dict<V>)
    requires KeySorted(a) && KeySorted(b) && multiset(a) == multiset(b)
    ensures a == b
    decreases |a|
  {
    if a == [] {
      assert |multiset(b)| == 0;
    } else {
      KeySortedSameHead(a, b);
      KeySortedTail(a);
      KeySortedTail(b);
      SameTails(a, b);
      KeySortedUnique(a[1..], b[1..]);
      assert a == [a[0]] + a[1..] && b == [b[0]] + b[1..];
    }
  }

  /** `f"{k}={v}"` */
  function KwargText(rt: Runtime, kv: (string, Json)): string
  {
    kv.0 + "=" + Str(rt, kv.1)
  }

  /** `key_parts`: `str` of each positional argument in order, then `k=v` for
      each keyword argument in key order. */
  function KeyParts(rt: Runtime, args: seq<Json>, kwargs: Dict<Json>): (parts: seq<string>)
    requires DistinctKeys(kwargs)
    ensures |parts| == |args| + |kwargs|
    ensures forall i :: 0 <= i < |args| ==> parts[i] == Str(rt, args[i])
  {
    SortedSize(kwargs);
    PartsOf(rt, args, SortByKey(kwargs))
  }

  /** The positional texts followed by the `k=v` texts of `pairs`. */
  function PartsOf(rt: Runtime, args: seq<Json>, pairs: Dict<Json>): (parts: seq<string>)
    ensures |parts| == |args| + |pairs|
    ensures forall i :: 0 <= i < |args| ==> parts[i] == Str(rt, args[i])
    ensures forall i :: 0 <= i < |pairs| ==> parts[|args|..][i] == KwargText(rt, pairs[i])
  {
    seq(|args|, i requires 0 <= i < |args| => Str(rt, args[i]))
      + seq(|pairs|, i requires 0 <= i < |pairs| => KwargText(rt, pairs[i]))
  }

  lemma SortedSize(kwargs: Dict<Json>)
    requires DistinctKeys(kwargs)
    ensures |SortByKey(kwargs)| == |kwargs|
  {
    assert |multiset(SortByKey(kwargs))| == |multiset(kwargs)|;
  }

  lemma SortedMember(kwargs: Dict<Json>, i: nat)
    requires DistinctKeys(kwargs) && i < |SortByKey(kwargs)|
    ensures SortByKey(kwargs)[i] in kwargs
  {
    var sorted := SortByKey(kwargs);
    assert sorted[i] in multiset(sorted);
  }

  /** Every keyword argument appears as `k=v` after the positional parts. */
  lemma KeyPartsKwargs(rt: Runtime, args: seq<Json>, kwargs: Dict<Json>, p: (string, Json))
    requires DistinctKeys(kwargs) && p in kwargs
    ensures KwargText(rt, p) in KeyParts(rt, args, kwargs)[|args|..]
  {
    var sorted := SortByKey(kwargs);
    assert p in multiset(sorted);
    var i :| 0 <= i < |sorted| && sorted[i] == p;
    assert PartsOf(rt, args, sorted)[|args|..][i] == KwargText(rt, p);
  }

  /** The `k=v` parts come in strictly increasing key order. */
  lemma KeyPartsOrdered(rt: Runtime, args: seq<Json>, kwargs: Dict<Json>, i: nat, j: nat)
    requires DistinctKeys(kwargs) && i < j < |kwargs|
    ensures exists p, q ::
      (p in kwargs && q in kwargs && LexLess(p.0, q.0)
       && KeyParts(rt, args, kwargs)[|args|..][i] == KwargText(rt, p)
       && KeyParts(rt, args, kwargs)[|args|..][j] == KwargText(rt, q))
  {
    var sorted := SortByKey(kwargs);
    SortedSize(kwargs);
    SortedMember(kwargs, i);
    SortedMember(kwargs, j);
    var parts := PartsOf(rt, args, sorted);
    assert parts[|args|..][i] == KwargText(rt, sorted[i]);
    assert parts[|args|..][j] == KwargText(rt, sorted[j]);
  }

  /** `"_".join(key_parts)`, the string `generate_cache_key` hashes. */
  function CacheKeyString(rt: Runtime, args: seq<Json>, kwargs: Dict<Json>): string
    requires DistinctKeys(kwargs)
  {
    Join(KeyParts(rt, args, kwargs), "_")
  }

  /** Passing the same keyword arguments in another order gives the same key. */
  lemma CacheKeyOrderIndependent(rt: Runtime, args: seq<Json>, kw1: Dict<Json>, kw2: Dict<Json>)
    requires DistinctKeys(kw1) && DistinctKeys(kw2) && multiset(kw1) == multiset(kw2)
    ensures CacheKeyString(rt, args, kw1) == CacheKeyString(rt, args, kw2)
  {
    KeySortedUnique(SortByKey(kw1), SortByKey(kw2));
  }

  /** When no argument text contains `_`, the key string splits back into the
      argument texts. */
  lemma CacheKeySplits(rt: Runtime, args: seq<Json>, kwargs: Dict<Json>)
    requires DistinctKeys(kwargs) && |args| + |kwargs| > 0
    requires forall p | p in KeyParts(rt, args, kwargs) :: '_' !in p
    ensures SplitOn(CacheKeyString(rt, args, kwargs), '_') == KeyParts(rt, args, kwargs)
  {
    var parts := KeyParts(rt, args, kwargs);
    assert forall i :: 0 <= i < |parts| ==> '_' !in parts[i] by {
      forall i | 0 <= i < |parts| ensures '_' !in parts[i] {
        assert parts[i] in parts;
      }
    }
    assert "_" == ['_'];
    SplitOnJoin(parts, '_');
  }
}
