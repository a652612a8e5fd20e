/** String helpers mirroring the Python `str` methods the source relies on:
    whitespace classification, `strip()`, `split()` with no separator,
    `' '.join(...)`, `replace` of a single character, `isalnum()` and
    `title()`.  `isalnum` and `title` are ASCII approximations; the
    whitespace set is Python's own `str.isspace` set. */
module Text {

  /** Python's `str.isspace`: the characters `split()` and `strip()` treat as blanks. */
  predicate IsSpace(c: char) {
    || ('\t' <= c <= '\r')
    || ('\U{1C}' <= c <= ' ')
    || c == '\U{85}' || c == '\U{A0}' || c == '\U{1680}'
    || ('\U{2000}' <= c <= '\U{200A}')
    || c == '\U{2028}' || c == '\U{2029}' || c == '\U{202F}' || c == '\U{205F}' || c == '\U{3000}'
  }

  predicate NoSpace(s: string) {
    forall i :: 0 <= i < |s| ==> !IsSpace(s[i])
  }

  predicate AllSpace(s: string) {
    forall i :: 0 <= i < |s| ==> IsSpace(s[i])
  }

  // ---------------------------------------------------------------- strip

  /** `s.lstrip()`: drops the leading blanks and nothing else. */
  function StripLeft(s: string): (r: string)
    ensures |r| <= |s| && r == s[|s| - |r|..]
    ensures AllSpace(s[..|s| - |r|])
    ensures r != [] ==> !IsSpace(r[0])
    decreases |s|
  {
    if s != [] && IsSpace(s[0]) then
      var r := StripLeft(s[1..]);
      assert s[..|s| - |r|] == [s[0]] + s[1..][..|s| - 1 - |r|];
      r
    else s
  }

  /** `s.rstrip()`: drops the trailing blanks and nothing else. */
  function StripRight(s: string): (r: string)
    ensures |r| <= |s| && r == s[..|r|]
    ensures AllSpace(s[|r|..])
    ensures r != [] ==> !IsSpace(r[|r| - 1])
    decreases |s|
  {
    if s != [] && IsSpace(s[|s| - 1]) then
      var r := StripRight(s[..|s| - 1]);
      assert s[|r|..] == s[..|s| - 1][|r|..] + [s[|s| - 1]];
      r
    else s
  }

  /** `s.strip()`. */
  function Strip(s: string): string {
    StripRight(StripLeft(s))
  }

  // ---------------------------------------------------------- split / join

  /** Length of the run of non-blank characters that starts `s`. */
  function WordLen(s: string): (n: nat)
    ensures n <= |s|
    ensures NoSpace(s[..n])
    ensures n < |s| ==> IsSpace(s[n])
  {
    if s == [] || IsSpace(s[0]) then 0
    else
      var m := WordLen(s[1..]);
      assert s[..m + 1] == [s[0]] + s[1..][..m];
      m + 1
  }

  /** A list of words as `split()` produces them: none empty, none holding a blank. */
  predicate WellFormedWords(ws: seq<string>) {
    forall i :: 0 <= i < |ws| ==> ws[i] != [] && NoSpace(ws[i])
  }

  /** The non-blank characters of `s`, in order. */
  function NonBlank(s: string): string {
    if s == [] then []
    else (if IsSpace(s[0]) then [] else [s[0]]) + NonBlank(s[1..])
  }

  /** The words of `ws` run together with nothing between them. */
  function Concat(ws: seq<string>): string {
    if ws == [] then [] else ws[0] + Concat(ws[1..])
  }

  /** The number of places in `s` where a non-blank character follows a blank
      or the start; `afterBlank` says whether what precedes `s` counts as one. */
  function WordStarts(s: string, afterBlank: bool): nat {
    if s == [] then 0
    else (if afterBlank && !IsSpace(s[0]) then 1 else 0) + WordStarts(s[1..], IsSpace(s[0]))
  }

  /** Peeling a word of length `n` off the front of `s` peels its characters off `NonBlank(s)`. */
  lemma {:induction false} NonBlankWord(s: string, n: nat)
    requires n <= |s| && NoSpace(s[..n])
    ensures NonBlank(s) == s[..n] + NonBlank(s[n..])
    decreases n
  {
    if n > 0 {
      assert s[1..][..n - 1] == s[1..n];
      NonBlankWord(s[1..], n - 1);
      assert s[1..][n - 1..] == s[n..];
      assert s[..n] == [s[0]] + s[1..n];
    }
  }

  /** A maximal run of `n` non-blank characters at the front of `s` starts exactly one word. */
  lemma {:induction false} WordStartsWord(s: string, n: nat, afterBlank: bool)
    requires 0 < n <= |s| && NoSpace(s[..n])
    requires n < |s| ==> IsSpace(s[n])
    ensures WordStarts(s, afterBlank) == (if afterBlank then 1 else 0) + WordStarts(s[n..], true)
    decreases n
  {
    assert !IsSpace(s[0]);
    if n == 1 {
      var t := s[1..];
      if t != [] {
        assert t[0] == s[1];
      }
    } else {
      assert s[1..][..n - 1] == s[1..n];
      WordStartsWord(s[1..], n - 1, false);
      assert s[1..][n - 1..] == s[n..];
    }
  }

  /** `s.split()` with no separator: the maximal runs of non-blank characters.
      Together the words hold every non-blank character of `s`, in order, and
      there is one word per place where a non-blank character follows a blank
      or the start of `s`. */
  function Words(s: string): (ws: seq<string>)
    ensures WellFormedWords(ws)
    ensures Concat(ws) == NonBlank(s)
    ensures |ws| == WordStarts(s, true)
    decreases |s|
  {
    if s == [] then []
    else if IsSpace(s[0]) then
      assert NonBlank(s) == NonBlank(s[1..]);
      assert WordStarts(s, true) == WordStarts(s[1..], true);
      Words(s[1..])
    else
      var n := WordLen(s);
      var rest := Words(s[n..]);
      WordsCons(s, n, rest);
      [s[..n]] + rest
  }

  /** The step of `Words` at a non-blank character: the first word followed by
      the words of the rest has the three properties `Words` promises. */
  lemma WordsCons(s: string, n: nat, rest: seq<string>)
    requires s != [] && !IsSpace(s[0]) && n == WordLen(s)
    requires WellFormedWords(rest) && Concat(rest) == NonBlank(s[n..]) && |rest| == WordStarts(s[n..], true)
    ensures WellFormedWords([s[..n]] + rest)
    ensures Concat([s[..n]] + rest) == NonBlank(s)
    ensures |[s[..n]] + rest| == WordStarts(s, true)
  {
    var ws := [s[..n]] + rest;
    assert ws[0] == s[..n] && ws[1..] == rest;
    NonBlankWord(s, n);
    WordStartsWord(s, n, true);
  }

  /** `' '.join(ws)`. */
  function Join(ws: seq<string>): string {
    if ws == [] then ""
    else if |ws| == 1 then ws[0]
    else ws[0] + " " + Join(ws[1..])
  }

  /** A string with no leading or trailing blank and whose only blanks are
      single spaces between two non-blank characters. */
  predicate SpacesNormalized(r: string) {
    r == [] ||
    (&& !IsSpace(r[0])
     && !IsSpace(r[|r| - 1])
     && forall i :: 0 < i < |r| - 1 && IsSpace(r[i]) ==> r[i] == ' ' && !IsSpace(r[i - 1]) && !IsSpace(r[i + 1]))
  }

  /** Joining well-formed words gives a normalized string that is empty only for no words. */
  lemma {:induction false} JoinNormalized(ws: seq<string>)
    requires WellFormedWords(ws)
    ensures SpacesNormalized(Join(ws))
    ensures Join(ws) == [] <==> ws == []
  {
    if |ws| <= 1 {
    } else {
      var w, rest := ws[0], Join(ws[1..]);
      JoinNormalized(ws[1..]);
      var r := Join(ws);
      assert r == w + " " + rest;
      assert rest != [];
      forall i | 0 < i < |r| - 1 && IsSpace(r[i])
        ensures r[i] == ' ' && !IsSpace(r[i - 1]) && !IsSpace(r[i + 1])
      {
        if i < |w| {
          assert false;
        } else if i == |w| {
          assert r[i - 1] == w[|w| - 1];
          assert r[i + 1] == rest[0];
        } else {
          var k := i - |w| - 1;
          assert r[i] == rest[k];
          if k == 0 {
            assert false;
          } else {
            assert r[i + 1] == rest[k + 1];
            assert r[i - 1] == rest[k - 1];
          }
        }
      }
      assert r[|r| - 1] == rest[|rest| - 1];
    }
  }

  /** The word run at the front of `w + t` is `w` when `t` is empty or starts with a blank. */
  lemma {:induction false} WordLenPrefix(w: string, t: string)
    requires NoSpace(w)
    requires t == [] || IsSpace(t[0])
    ensures WordLen(w + t) == |w|
    decreases |w|
  {
    if w != [] {
      assert (w + t)[1..] == w[1..] + t;
      WordLenPrefix(w[1..], t);
    } else {
      assert w + t == t;
    }
  }

  /** Splitting what `' '.join` produced gives the words back. */
  lemma {:induction false} WordsOfJoin(ws: seq<string>)
    requires WellFormedWords(ws)
    ensures Words(Join(ws)) == ws
  {
    if ws == [] {
    } else if |ws| == 1 {
      var w := ws[0];
      WordLenPrefix(w, []);
      assert w + [] == w;
      assert w[..|w|] == w;
      assert w[|w|..] == [];
    } else {
      var w, rest := ws[0], Join(ws[1..]);
      var s := Join(ws);
      assert s == w + (" " + rest);
      WordLenPrefix(w, " " + rest);
      assert s[..|w|] == w;
      assert s[|w|..] == " " + rest;
      assert (" " + rest)[1..] == rest;
      WordsOfJoin(ws[1..]);
    }
  }

  /** Trailing blanks do not change the words. */
  lemma {:induction false} WordsAppendBlanks(s: string, t: string)
    requires AllSpace(t)
    ensures Words(s + t) == Words(s)
    decreases |s|
  {
    if s == [] {
      assert s + t == t;
      WordsOfBlanks(t);
    } else if IsSpace(s[0]) {
      assert (s + t)[1..] == s[1..] + t;
      WordsAppendBlanks(s[1..], t);
    } else {
      var n := WordLen(s);
      if n == |s| {
        assert s[..n] == s;
        WordLenPrefix(s, t);
        assert (s + t)[..n] == s;
        assert (s + t)[n..] == t;
        assert s[n..] == [];
        WordsOfBlanks(t);
      } else {
        WordLenPrefix(s[..n], s[n..] + t);
        assert s[..n] + (s[n..] + t) == s + t;
        assert (s + t)[..n] == s[..n];
        assert (s + t)[n..] == s[n..] + t;
        WordsAppendBlanks(s[n..], t);
      }
    }
  }

  lemma {:induction false} WordsOfBlanks(t: string)
    requires AllSpace(t)
    ensures Words(t) == []
    decreases |t|
  {
    if t != [] {
      WordsOfBlanks(t[1..]);
    }
  }

  /** `split()` cuts at every blank: the words of `a + [c] + b`, for a blank `c`,
      are the words of `a` followed by the words of `b`. */
  lemma WordsAtBlank(a: string, c: char, b: string)
    requires IsSpace(c)
    ensures Words(a + [c] + b) == Words(a) + Words(b)
  {
    assert a + [c] + b == a + ([c] + b);
    WordsBeforeBlank(a, [c] + b);
    SlicesOfAppend([c], b, 1);
    WordsAtBlankStart([c] + b);
  }

  /** The words of `a + t`, where `t` starts with a blank, are those of `a`
      followed by those of `t`. */
  lemma {:induction false} WordsBeforeBlank(a: string, t: string)
    requires t != [] && IsSpace(t[0])
    ensures Words(a + t) == Words(a) + Words(t)
    decreases |a|
  {
    if a == [] {
      assert a + t == t;
    } else if IsSpace(a[0]) {
      SlicesOfAppend(a, t, 0);
      SlicesOfAppend(a, t, 1);
      WordsAtBlankStart(a + t);
      WordsAtBlankStart(a);
      WordsBeforeBlank(a[1..], t);
    } else {
      var m := WordLen(a);
      WordsBeforeBlank(a[m..], t);
      WordLenBeforeBlank(a, t);
      SlicesOfAppend(a, t, 0);
      SlicesOfAppend(a, t, m);
      WordsAtWordStart(a + t);
      WordsAtWordStart(a);
      ConsAppend(a[..m], Words(a[m..]), Words(t));
    }
  }

  /** A blank after `a` does not lengthen its first run of non-blanks. */
  lemma {:induction false} WordLenBeforeBlank(a: string, t: string)
    requires t != [] && IsSpace(t[0])
    ensures WordLen(a + t) == WordLen(a)
    decreases |a|
  {
    if a == [] {
      assert a + t == t;
    } else {
      SlicesOfAppend(a, t, 0);
      SlicesOfAppend(a, t, 1);
      WordLenBeforeBlank(a[1..], t);
    }
  }

  /** One step of `split()` at a blank: it is skipped. */
  lemma WordsAtBlankStart(s: string)
    requires s != [] && IsSpace(s[0])
    ensures Words(s) == Words(s[1..])
  {
  }

  /** One step of `split()` at a non-blank: the run starting there is the first word. */
  lemma WordsAtWordStart(s: string)
    requires s != [] && !IsSpace(s[0])
    ensures Words(s) == [s[..WordLen(s)]] + Words(s[WordLen(s)..])
  {
  }

  lemma SlicesOfAppend<T>(a: seq<T>, t: seq<T>, m: nat)
    requires m <= |a|
    ensures (a + t)[..m] == a[..m] && (a + t)[m..] == a[m..] + t
    ensures m < |a| ==> (a + t)[m] == a[m]
  {
  }

  lemma ConsAppend<T>(x: T, p: seq<T>, q: seq<T>)
    ensures [x] + (p + q) == ([x] + p) + q
  {
  }

  /** A word followed by a blank, or by nothing, is the first word. */
  lemma WordThenBlank(w: string, t: string)
    requires w != [] && NoSpace(w)
    requires t == [] || IsSpace(t[0])
    ensures Words(w + t) == [w] + Words(t)
  {
    WordLenPrefix(w, t);
    var x := w + t;
    assert x[..|w|] == w && x[|w|..] == t;
  }

  /** A non-empty run of non-blank characters is one word. */
  lemma WordsOfWord(w: string)
    requires w != [] && NoSpace(w)
    ensures Words(w) == [w]
  {
    assert w + [] == w;
    WordThenBlank(w, []);
  }

  /** Leading and trailing blanks do not change the words: `s.strip().split() == s.split()`. */
  lemma {:induction false} WordsOfStrip(s: string)
    ensures Words(Strip(s)) == Words(s)
  {
    WordsStripLeft(s);
    WordsStripRight(StripLeft(s));
  }

  lemma WordsStripRight(s: string)
    ensures Words(StripRight(s)) == Words(s)
  {
    var r := StripRight(s);
    assert s == r + s[|r|..];
    WordsAppendBlanks(r, s[|r|..]);
  }

  lemma {:induction false} WordsStripLeft(s: string)
    ensures Words(StripLeft(s)) == Words(s)
    decreases |s|
  {
    if s != [] && IsSpace(s[0]) {
      WordsStripLeft(s[1..]);
    }
  }

  // ------------------------------------------------------ character classes

  /** ASCII stand-in for Python's `str.isalnum` on one character. */
  predicate IsAlnumChar(c: char) {
    ('a' <= c <= 'z') || ('A' <= c <= 'Z') || ('0' <= c <= '9')
  }

  /** `s.isalnum()`: non-empty and every character alphanumeric. */
  predicate IsAlnum(s: string) {
    s != [] && forall c :: c in s ==> IsAlnumChar(c)
  }

  predicate IsAsciiLetter(c: char) {
    ('a' <= c <= 'z') || ('A' <= c <= 'Z')
  }

  /** `s.replace(c, '')`: every occurrence of `c` removed, every other character
      kept as often as it occurs; `RemoveCharConcat` and `RemoveCharUno` fix the order. */
  function RemoveChar(s: string, c: char): (r: string)
    ensures |r| <= |s|
    ensures forall x :: x in r <==> x in s && x != c
    ensures multiset(r) == multiset(s)[c := 0]
    ensures c !in s ==> r == s
  {
    if s == [] then []
    else
      assert s == [s[0]] + s[1..];
      if s[0] == c then RemoveChar(s[1..], c)
      else [s[0]] + RemoveChar(s[1..], c)
  }

  /** Removing a character works piece by piece: it distributes over concatenation. */
  lemma {:induction false} RemoveCharConcat(a: string, b: string, c: char)
    ensures RemoveChar(a + b, c) == RemoveChar(a, c) + RemoveChar(b, c)
    decreases |a|
  {
    if a == [] {
      assert a + b == b;
    } else {
      SlicesOfAppend(a, b, 1);
      SlicesOfAppend(a, b, 0);
      RemoveCharConcat(a[1..], b, c);
      if a[0] != c {
        ConsAppend(a[0], RemoveChar(a[1..], c), RemoveChar(b, c));
      }
    }
  }

  /** On one character, removal drops exactly that character and keeps any other. */
  lemma RemoveCharUno(x: char, c: char)
    ensures RemoveChar([x], c) == (if x == c then [] else [x])
  {
    assert [x][1..] == [];
  }

  /** `s.replace(a, b)` for single characters. */
  function ReplaceChar(s: string, a: char, b: char): (r: string)
    ensures |r| == |s|
    ensures forall i :: 0 <= i < |s| ==> r[i] == (if s[i] == a then b else s[i])
    ensures a != b ==> a !in r
    ensures forall c :: c in r ==> c == b || (c in s && c != a)
  {
    seq(|s|, i requires 0 <= i < |s| => if s[i] == a then b else s[i])
  }

  predicate IsAsciiUpper(c: char) {
    'A' <= c <= 'Z'
  }

  function ToUpper(c: char): char {
    if 'a' <= c <= 'z' then (c as int - 32) as char else c
  }

  function ToLower(c: char): char {
    if 'A' <= c <= 'Z' then (c as int + 32) as char else c
  }

  /** `s.title()` over ASCII letters: a letter is upper-cased when the character
      before it is not a letter and lower-cased otherwise; everything else is kept. */
  function Title(s: string): (r: string)
    ensures |r| == |s|
    ensures forall i :: 0 <= i < |s| && !IsAsciiLetter(s[i]) ==> r[i] == s[i]
    ensures forall i :: 0 <= i < |s| && IsAsciiLetter(s[i]) ==>
      r[i] == (if i > 0 && IsAsciiLetter(s[i - 1]) then ToLower(s[i]) else ToUpper(s[i]))
    // the same letters, in the same places, up to case
    ensures forall i :: 0 <= i < |s| ==> (IsAsciiLetter(r[i]) <==> IsAsciiLetter(s[i]))
    ensures forall i :: 0 <= i < |s| ==> ToLower(r[i]) == ToLower(s[i])
    // a letter is upper case exactly when it starts a run of letters
    ensures |r| > 0 && IsAsciiLetter(r[0]) ==> IsAsciiUpper(r[0])
    ensures forall i :: 0 < i < |r| && IsAsciiLetter(r[i]) ==>
      (IsAsciiUpper(r[i]) <==> !IsAsciiLetter(r[i - 1]))
  {
    seq(|s|, i requires 0 <= i < |s| =>
      if !IsAsciiLetter(s[i]) then s[i]
      else if i > 0 && IsAsciiLetter(s[i - 1]) then ToLower(s[i])
      else ToUpper(s[i]))
  }

  /** Title-casing a title-cased string changes nothing. */
  lemma TitleIdempotent(s: string)
    ensures Title(Title(s)) == Title(s)
  {
    var r := Title(s);
    assert forall i :: 0 <= i < |r| ==> Title(r)[i] == r[i] by {
      forall i | 0 <= i < |r|
        ensures Title(r)[i] == r[i]
      {
        if IsAsciiLetter(r[i]) && i > 0 {
          assert IsAsciiLetter(r[i - 1]) <==> IsAsciiLetter(s[i - 1]);
        }
      }
    }
  }
}
