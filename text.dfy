/**
 * The handful of Python `str` operations the bot relies on: `isspace`,
 * `strip`, `split()` on whitespace, `split(sep)`, `sep.join`, `lower`,
 * `upper`, `title`, substring search and `replace` of one character.
 * Case mapping covers ASCII and the basic Cyrillic block (U+0400-U+045F),
 * which is every letter of the bot's Russian category names.
 */
module Text {

  /** Python's `str.isspace`: the characters `split()` and `strip()` treat as blanks. */
  predicate IsSpace(c: char)
  {
    c in {' ', '\t', '\n', '\r', '\U{B}', '\U{C}', '\U{1C}', '\U{1D}', '\U{1E}', '\U{1F}',
          '\U{85}', '\U{A0}', '\U{1680}', '\U{2028}', '\U{2029}', '\U{202F}', '\U{205F}', '\U{3000}'}
    || ('\U{2000}' <= c <= '\U{200A}')
  }

  predicate IsDigit(c: char) { '0' <= c <= '9' }

  predicate IsUpperLetter(c: char)
  {
    ('A' <= c <= 'Z') || ('\U{400}' <= c <= '\U{42F}')
  }

  predicate IsLowerLetter(c: char)
  {
    ('a' <= c <= 'z') || ('\U{430}' <= c <= '\U{45F}')
  }

  /** A letter that has an upper and a lower case form. */
  predicate IsCased(c: char) { IsUpperLetter(c) || IsLowerLetter(c) }

  function Lower(c: char): (r: char)
    ensures IsCased(r) == IsCased(c) && IsSpace(r) == IsSpace(c)
    ensures IsCased(c) ==> IsLowerLetter(r)
    ensures !IsCased(c) ==> r == c
  {
    if 'A' <= c <= 'Z' then (c as int + 32) as char
    else if '\U{410}' <= c <= '\U{42F}' then (c as int + 0x20) as char
    else if '\U{400}' <= c <= '\U{40F}' then (c as int + 0x50) as char
    else c
  }

  function Upper(c: char): (r: char)
    ensures IsCased(r) == IsCased(c) && IsSpace(r) == IsSpace(c)
    ensures IsCased(c) ==> IsUpperLetter(r)
    ensures !IsCased(c) ==> r == c
  {
    if 'a' <= c <= 'z' then (c as int - 32) as char
    else if '\U{430}' <= c <= '\U{44F}' then (c as int - 0x20) as char
    else if '\U{450}' <= c <= '\U{45F}' then (c as int - 0x50) as char
    else c
  }

  /**
   * The two case mappings undo each other on the letters they change, and
   * leave alone the letters already in the case they map to.
   */
  lemma CaseInverse(c: char)
    ensures IsUpperLetter(c) ==> Upper(Lower(c)) == c && Upper(c) == c
    ensures IsLowerLetter(c) ==> Lower(Upper(c)) == c && Lower(c) == c
    ensures Lower(Upper(c)) == Lower(c) && Upper(Lower(c)) == Upper(c)
  {
  }

  /** Python's `str.lower()` (and SQL `LOWER`) on the modelled alphabet. */
  function LowerStr(s: string): (r: string)
    ensures |r| == |s|
    ensures forall i :: 0 <= i < |s| ==> r[i] == Lower(s[i])
  {
    if s == [] then [] else [Lower(s[0])] + LowerStr(s[1..])
  }

  predicate HasSpace(s: string) { exists i :: 0 <= i < |s| && IsSpace(s[i]) }

  function LStrip(s: string): (r: string)
    ensures r == [] || !IsSpace(r[0])
    ensures |r| <= |s| && r == s[|s| - |r|..]
    ensures forall i :: 0 <= i < |s| - |r| ==> IsSpace(s[i])
  {
    if s != [] && IsSpace(s[0]) then LStrip(s[1..]) else s
  }

  function RStrip(s: string): (r: string)
    ensures r == [] || !IsSpace(r[|r| - 1])
    ensures |r| <= |s| && r == s[..|r|]
    ensures forall i :: |r| <= i < |s| ==> IsSpace(s[i])
  {
    if s != [] && IsSpace(s[|s| - 1]) then RStrip(s[..|s| - 1]) else s
  }

  /** Python's `str.strip()`: drop leading and trailing whitespace. */
  function Strip(s: string): (r: string)
    ensures r == [] || (!IsSpace(r[0]) && !IsSpace(r[|r| - 1]))
    ensures var k := |s| - |LStrip(s)|;
      && k + |r| <= |s| && r == s[k..k + |r|]
      && (forall i :: 0 <= i < k ==> IsSpace(s[i]))
      && (forall i :: k + |r| <= i < |s| ==> IsSpace(s[i]))
  {
    RStrip(LStrip(s))
  }

  /** The longest prefix of `s` free of whitespace. */
  function Word(s: string): (w: string)
    ensures |w| <= |s| && w == s[..|w|]
    ensures !HasSpace(w)
    ensures |w| < |s| ==> IsSpace(s[|w|])
    ensures s != [] && !IsSpace(s[0]) ==> w != []
  {
    if s == [] || IsSpace(s[0]) then [] else [s[0]] + Word(s[1..])
  }

  /** Python's `str.split()` with no argument: the maximal runs of non-whitespace. */
  function SplitWs(s: string): (r: seq<string>)
    ensures forall k :: 0 <= k < |r| ==> r[k] != [] && !HasSpace(r[k])
    decreases |s|
  {
    var t := LStrip(s);
    if t == [] then []
    else
      var w := Word(t);
      var rest := SplitWs(t[|w|..]);
      WordsCons(w, rest);
      [w] + rest
  }

  lemma WordsCons(w: string, rest: seq<string>)
    requires w != [] && !HasSpace(w)
    requires forall k :: 0 <= k < |rest| ==> rest[k] != [] && !HasSpace(rest[k])
    ensures forall k :: 0 <= k < |[w] + rest| ==> ([w] + rest)[k] != [] && !HasSpace(([w] + rest)[k])
  {
  }

  /** Python's `s.split(sep)` for a one-character separator. */
  function SplitOn(s: string, sep: char): (r: seq<string>)
    ensures |r| >= 1
    ensures forall k :: 0 <= k < |r| ==> sep !in r[k]
  {
    if s == [] then [[]]
    else if s[0] == sep then [[]] + SplitOn(s[1..], sep)
    else
      var rest := SplitOn(s[1..], sep);
      [[s[0]] + rest[0]] + rest[1..]
  }

  /** Python's `sep.join(parts)` for a one-character separator. */
  function Join(sep: char, parts: seq<string>): string
  {
    if parts == [] then []
    else if |parts| == 1 then parts[0]
    else parts[0] + [sep] + Join(sep, parts[1..])
  }

  lemma {:induction false} JoinSplit(s: string, sep: char)
    ensures Join(sep, SplitOn(s, sep)) == s
  {
    if s == [] {
    } else if s[0] == sep {
      JoinSplit(s[1..], sep);
      var rest := SplitOn(s[1..], sep);
      assert SplitOn(s, sep) == [[]] + rest;
      assert SplitOn(s, sep)[1..] == rest;
    } else {
      JoinSplit(s[1..], sep);
      var rest := SplitOn(s[1..], sep);
      if |rest| == 1 {
        assert SplitOn(s, sep) == [[s[0]] + rest[0]];
      } else {
        assert SplitOn(s, sep)[1..] == rest[1..];
        assert Join(sep, rest) == rest[0] + [sep] + Join(sep, rest[1..]);
      }
    }
  }

  /** Splitting at a separator occurrence splits the two sides independently. */
  lemma {:induction false} SplitOnConcat(a: string, b: string, sep: char)
    ensures SplitOn(a + [sep] + b, sep) == SplitOn(a, sep) + SplitOn(b, sep)
    decreases |a|
  {
    if a == [] {
      assert a + [sep] + b == [sep] + b;
      assert ([sep] + b)[1..] == b;
    } else {
      assert a == [a[0]] + a[1..];
      assert a + [sep] + b == [a[0]] + (a[1..] + [sep] + b);
      SplitOnConcat(a[1..], b, sep);
      if a[0] == sep {
        SplitOnConcatSep(a[1..], b, sep);
      } else {
        SplitOnConcatOther(a[0], a[1..], b, sep);
      }
    }
  }

  lemma SplitOnConcatSep(a: string, b: string, sep: char)
    requires SplitOn(a + [sep] + b, sep) == SplitOn(a, sep) + SplitOn(b, sep)
    ensures SplitOn([sep] + (a + [sep] + b), sep) == SplitOn([sep] + a, sep) + SplitOn(b, sep)
  {
    assert ([sep] + (a + [sep] + b))[1..] == a + [sep] + b;
    assert ([sep] + a)[1..] == a;
  }

  lemma SplitOnConcatOther(c: char, a: string, b: string, sep: char)
    requires c != sep
    requires SplitOn(a + [sep] + b, sep) == SplitOn(a, sep) + SplitOn(b, sep)
    ensures SplitOn([c] + (a + [sep] + b), sep) == SplitOn([c] + a, sep) + SplitOn(b, sep)
  {
    SplitOnPrepend(c, a + [sep] + b, sep);
    SplitOnPrepend(c, a, sep);
    PrependToFirst([c], SplitOn(a, sep), SplitOn(b, sep));
  }

  /** One unfolding of `SplitOn` on a string that starts with a non-separator. */
  lemma SplitOnPrepend(c: char, x: string, sep: char)
    requires c != sep
    ensures SplitOn([c] + x, sep) == [[c] + SplitOn(x, sep)[0]] + SplitOn(x, sep)[1..]
  {
    assert ([c] + x)[0] == c && ([c] + x)[1..] == x;
  }

  lemma PrependToFirst(h: string, ra: seq<string>, rb: seq<string>)
    requires |ra| >= 1
    ensures [h + (ra + rb)[0]] + (ra + rb)[1..] == ([h + ra[0]] + ra[1..]) + rb
  {
    assert (ra + rb)[0] == ra[0];
    assert (ra + rb)[1..] == ra[1..] + rb;
  }

  lemma {:induction false} SplitOnNoSep(s: string, sep: char)
    requires sep !in s
    ensures SplitOn(s, sep) == [s]
  {
    if s != [] {
      assert s[0] in s;
      assert forall c :: c in s[1..] ==> c in s;
      SplitOnNoSep(s[1..], sep);
      assert [s[0]] + s[1..] == s;
    }
  }

  /** Splitting `a + sep + b` where neither side holds the separator gives exactly the two sides. */
  lemma SplitOnTwo(a: string, b: string, sep: char)
    requires sep !in a && sep !in b
    ensures SplitOn(a + [sep] + b, sep) == [a, b]
  {
    SplitOnConcat(a, b, sep);
    SplitOnNoSep(a, sep);
    SplitOnNoSep(b, sep);
  }

  /** Joining separator-free parts and splitting again gives the parts back. */
  lemma {:induction false} SplitJoin(parts: seq<string>, sep: char)
    requires |parts| >= 1
    requires forall k :: 0 <= k < |parts| ==> sep !in parts[k]
    ensures SplitOn(Join(sep, parts), sep) == parts
  {
    if |parts| == 1 {
      SplitOnNoSep(parts[0], sep);
    } else {
      SplitJoin(parts[1..], sep);
      SplitOnConcat(parts[0], Join(sep, parts[1..]), sep);
      SplitOnNoSep(parts[0], sep);
      assert [parts[0]] + parts[1..] == parts;
    }
  }

  /** Python's `s.replace(from, to)` for single characters. */
  function ReplaceChar(s: string, from: char, to: char): (r: string)
    ensures |r| == |s|
    ensures forall i :: 0 <= i < |s| ==> r[i] == (if s[i] == from then to else s[i])
  {
    if s == [] then [] else [if s[0] == from then to else s[0]] + ReplaceChar(s[1..], from, to)
  }

  /** `sub in s` for strings. */
  predicate Contains(s: string, sub: string)
    decreases |s|
  {
    sub <= s || (s != [] && Contains(s[1..], sub))
  }

  /** Python's `str.title()`: a cased letter is upper-cased after an uncased character and lower-cased after a cased one. */
  function TitleCase(s: string): (r: string)
    ensures |r| == |s|
    ensures LowerStr(r) == LowerStr(s)
  {
    TitleFrom(s, false)
  }

  function TitleFrom(s: string, prevCased: bool): (r: string)
    ensures |r| == |s|
    ensures forall i :: 0 <= i < |s| ==> IsCased(r[i]) == IsCased(s[i])
    ensures LowerStr(r) == LowerStr(s)
  {
    if s == [] then []
    else
      CaseInverse(s[0]);
      var c := if prevCased then Lower(s[0]) else Upper(s[0]);
      var rest := TitleFrom(s[1..], IsCased(s[0]));
      assert LowerStr([c] + rest) == [Lower(c)] + LowerStr(rest);
      assert LowerStr(s) == [Lower(s[0])] + LowerStr(s[1..]);
      [c] + rest
  }

  /** What `title()` guarantees of its output: every cased letter is upper case exactly when it starts a word. */
  predicate IsTitled(t: string)
  {
    forall i :: 0 <= i < |t| && IsCased(t[i]) ==>
      if i == 0 || !IsCased(t[i - 1]) then IsUpperLetter(t[i]) else IsLowerLetter(t[i])
  }

  lemma {:induction false} TitleFromIsTitled(s: string, prevCased: bool)
    ensures var t := TitleFrom(s, prevCased);
      (t != [] && IsCased(t[0]) ==> (if prevCased then IsLowerLetter(t[0]) else IsUpperLetter(t[0])))
      && forall i :: 1 <= i < |t| && IsCased(t[i]) ==>
           if !IsCased(t[i - 1]) then IsUpperLetter(t[i]) else IsLowerLetter(t[i])
  {
    if s != [] {
      TitleFromIsTitled(s[1..], IsCased(s[0]));
      var t := TitleFrom(s, prevCased);
      var u := TitleFrom(s[1..], IsCased(s[0]));
      assert t == [t[0]] + u;
      forall i | 1 <= i < |t| && IsCased(t[i])
        ensures if !IsCased(t[i - 1]) then IsUpperLetter(t[i]) else IsLowerLetter(t[i])
      {
        assert t[i] == u[i - 1];
        if i == 1 {
          assert IsCased(t[0]) == IsCased(s[0]);
        } else {
          assert t[i - 1] == u[i - 2];
        }
      }
    }
  }

  /** Every result of `title()` is titled. */
  lemma TitleCaseIsTitled(s: string)
    ensures IsTitled(TitleCase(s))
  {
    TitleFromIsTitled(s, false);
  }

  lemma NoSpaceHead(w: string)
    requires w != [] && !HasSpace(w)
    ensures !IsSpace(w[0]) && !HasSpace(w[1..])
  {
  }

  /** A word followed by a blank (or nothing) is what `Word` takes off the front. */
  lemma {:induction false} WordPrefix(w: string, rest: string)
    requires !HasSpace(w) && (rest == [] || IsSpace(rest[0]))
    ensures Word(w + rest) == w
  {
    if w == [] {
      assert w + rest == rest;
    } else {
      NoSpaceHead(w);
      assert (w + rest)[1..] == w[1..] + rest;
      WordPrefix(w[1..], rest);
      assert w == [w[0]] + w[1..];
    }
  }

  lemma SplitWsBlank(s: string)
    ensures SplitWs([' '] + s) == SplitWs(s)
  {
    LStripSpace(' ', s);
    SplitWsSameStrip([' '] + s, s);
  }

  lemma LStripSpace(c: char, s: string)
    requires IsSpace(c)
    ensures LStrip([c] + s) == LStrip(s)
  {
    assert ([c] + s)[1..] == s;
  }

  /** `split()` only sees what is left after the leading whitespace. */
  lemma SplitWsSameStrip(a: string, b: string)
    requires LStrip(a) == LStrip(b)
    ensures SplitWs(a) == SplitWs(b)
  {
  }

  lemma SplitWsCons(w: string, rest: string)
    requires w != [] && !HasSpace(w) && (rest == [] || IsSpace(rest[0]))
    ensures SplitWs(w + rest) == [w] + SplitWs(rest)
  {
    NoSpaceHead(w);
    assert LStrip(w + rest) == w + rest;
    WordPrefix(w, rest);
    assert (w + rest)[|w|..] == rest;
  }

  /** A non-empty run of non-whitespace, as `split()` yields. */
  predicate IsWord(w: string)
  {
    w != [] && !HasSpace(w)
  }

  lemma JoinCons(ws: seq<string>)
    requires |ws| > 1
    ensures Join(' ', ws) == ws[0] + ([' '] + Join(' ', ws[1..]))
  {
  }

  lemma SplitWsWordThenBlank(w: string, tail: string)
    requires w != [] && !HasSpace(w)
    ensures SplitWs(w + ([' '] + tail)) == [w] + SplitWs(tail)
  {
    SplitWsCons(w, [' '] + tail);
    SplitWsBlank(tail);
  }

  /** `" ".join(words).split() == words` when every word is non-empty and blank-free. */
  lemma SplitWsJoinStep(ws: seq<string>)
    requires |ws| > 1 && IsWord(ws[0])
    requires SplitWs(Join(' ', ws[1..])) == ws[1..]
    ensures SplitWs(Join(' ', ws)) == ws
  {
    JoinCons(ws);
    SplitWsOfJoined(ws[0], Join(' ', ws[1..]), ws[1..], Join(' ', ws));
    assert ws == [ws[0]] + ws[1..];
  }

  lemma SplitWsOfJoined(w: string, tail: string, rest: seq<string>, joined: string)
    requires IsWord(w) && SplitWs(tail) == rest && joined == w + ([' '] + tail)
    ensures SplitWs(joined) == [w] + rest
  {
    SplitWsWordThenBlank(w, tail);
  }

  /** Every element of `ws` is a word. */
  predicate AllWords(ws: seq<string>)
  {
    ws == [] || (IsWord(ws[0]) && AllWords(ws[1..]))
  }

  lemma {:induction false} SplitWsJoin(ws: seq<string>)
    requires AllWords(ws)
    ensures SplitWs(Join(' ', ws)) == ws
  {
    if |ws| == 1 {
      SplitWsCons(ws[0], []);
      assert ws[0] + [] == ws[0];
    } else if |ws| > 1 {
      SplitWsJoin(ws[1..]);
      SplitWsJoinStep(ws);
    }
  }


}
