/** Character classes and string operations that the collation scripts take
    from Python's `str` type and its regular expressions. */
module Text {

  /** `str.isspace()`, which is also what the regular-expression class `\s`
      matches in a `str` pattern (and what `str.strip()` removes). */
  predicate IsSpace(c: char) {
    c == ' ' || ('\t' <= c <= '\r') || ('\U{1c}' <= c <= '\U{1f}')
    || c == '\U{85}' || c == '\U{a0}' || c == '\U{1680}'
    || ('\U{2000}' <= c <= '\U{200a}') || c == '\U{2028}' || c == '\U{2029}'
    || c == '\U{202f}' || c == '\U{205f}' || c == '\U{3000}'
  }

  /** The punctuation set `.,:;?!&` of the legacy tokenizer's regular expression. */
  predicate IsPunct(c: char) {
    c == '.' || c == ',' || c == ':' || c == ';' || c == '?' || c == '!' || c == '&'
  }

  /** A character of a word run: the class `[^\s.,:;?!&]`. */
  predicate IsWordChar(c: char) {
    !IsSpace(c) && !IsPunct(c)
  }

  /** An upper-case letter of ASCII or Latin-1: `A`..`Z` and `À`..`Þ`
      without the multiplication sign `×`. */
  predicate IsUpper(c: char) {
    ('A' <= c <= 'Z') || ('\U{c0}' <= c <= '\U{de}' && c != '\U{d7}')
  }

  /** `str.lower()` on one character, for ASCII and Latin-1 capitals. */
  function LowerChar(c: char): (r: char)
    ensures 'A' <= c <= 'Z' ==> r as int == c as int + 32
    ensures '\U{c0}' <= c <= '\U{de}' && c != '\U{d7}' ==> r as int == c as int + 32
    ensures !IsUpper(c) ==> r == c
    ensures !IsUpper(r)
  {
    if 'A' <= c <= 'Z' || ('\U{c0}' <= c <= '\U{de}' && c != '\U{d7}')
    then (c as int + 32) as char
    else c
  }

  /** `str.lower()`: character by character. */
  function Lower(s: string): (r: string)
    ensures |r| == |s|
    ensures forall i :: 0 <= i < |s| ==> r[i] == LowerChar(s[i])
    ensures forall i :: 0 <= i < |r| ==> !IsUpper(r[i])
  {
    seq(|s|, i requires 0 <= i < |s| => LowerChar(s[i]))
  }

  /** Lowering twice is lowering once. */
  lemma LowerIdempotent(s: string)
    ensures Lower(Lower(s)) == Lower(s)
  {
    var t := Lower(s);
    forall i | 0 <= i < |t|
      ensures Lower(t)[i] == t[i]
    {
      assert !IsUpper(t[i]);
    }
  }

  /** Lowering a text without capitals changes nothing. */
  lemma LowerKeeps(s: string)
    requires forall i :: 0 <= i < |s| ==> !IsUpper(s[i])
    ensures Lower(s) == s
  {
    forall i | 0 <= i < |s|
      ensures Lower(s)[i] == s[i]
    {
      assert !IsUpper(s[i]);
    }
  }

  /** The Portuguese capitals `É` and `Ç` become `é` and `ç`; `×` is kept. */
  lemma LowerLatin1()
    ensures LowerChar('\U{c9}') == '\U{e9}' && LowerChar('\U{c7}') == '\U{e7}'
    ensures LowerChar('\U{d7}') == '\U{d7}'
  {
  }

  function StripLeft(s: string): (r: string)
    ensures r == [] || !IsSpace(r[0])
    ensures |r| <= |s| && r == s[|s| - |r|..]
    ensures forall k :: 0 <= k < |s| - |r| ==> IsSpace(s[k])
  {
    if s != [] && IsSpace(s[0]) then StripLeft(s[1..]) else s
  }

  function StripRight(s: string): (r: string)
    ensures r == [] || !IsSpace(r[|r| - 1])
    ensures |r| <= |s| && r == s[..|r|]
    ensures forall k :: |r| <= k < |s| ==> IsSpace(s[k])
  {
    if s != [] && IsSpace(s[|s| - 1]) then StripRight(s[..|s| - 1]) else s
  }

  /** `str.strip()` with no argument: what is left between the leading and
      the trailing white space. */
  function Strip(s: string): (r: string)
    ensures r == [] || (!IsSpace(r[0]) && !IsSpace(r[|r| - 1]))
    ensures exists i, j ::
              && 0 <= i <= j <= |s| && r == s[i..j]
              && (forall k :: 0 <= k < i ==> IsSpace(s[k]))
              && (forall k :: j <= k < |s| ==> IsSpace(s[k]))
  {
    var l := StripLeft(s);
    var i := |s| - |l|;
    var r := StripRight(l);
    assert r == s[i..i + |r|];
    assert forall k :: i + |r| <= k < |s| ==> s[k] == l[k - i];
    r
  }

  /** Every character of `s` that is not white space, in order. */
  function RemoveSpaces(s: string): (r: string)
    ensures forall i :: 0 <= i < |r| ==> !IsSpace(r[i])
  {
    if s == [] then []
    else (if IsSpace(s[0]) then [] else [s[0]]) + RemoveSpaces(s[1..])
  }

  /** `s.replace('&amp;', '&')`: non-overlapping occurrences, left to right. */
  function ReplaceAmp(s: string): (r: string)
    ensures |r| <= |s|
  {
    if |s| >= 5 && s[0] == '&' && s[1] == 'a' && s[2] == 'm' && s[3] == 'p' && s[4] == ';'
    then "&" + ReplaceAmp(s[5..])
    else if s == [] then []
    else [s[0]] + ReplaceAmp(s[1..])
  }

  /** A text without `&` is left as it is. */
  lemma {:induction false} ReplaceAmpKeeps(s: string)
    requires '&' !in s
    ensures ReplaceAmp(s) == s
  {
    if s != [] {
      assert s[0] != '&';
      ReplaceAmpKeeps(s[1..]);
    }
  }

  /** A text without `&` in front of any other text is kept as it is. */
  lemma {:induction false} ReplaceAmpPrefix(a: string, t: string)
    requires '&' !in a
    ensures ReplaceAmp(a + t) == a + ReplaceAmp(t)
  {
    if a != [] {
      var s := a + t;
      assert s[0] == a[0] && a[0] != '&';
      assert s[1..] == a[1..] + t;
      ReplaceAmpPrefix(a[1..], t);
    } else {
      assert a + t == t;
    }
  }

  /** An `&amp;` at the front becomes `&`. */
  lemma AmpFront(b: string)
    ensures ReplaceAmp("&amp;" + b) == "&" + ReplaceAmp(b)
  {
    var s := "&amp;" + b;
    assert s[5..] == b;
  }

  /** A `&` that does not start `&amp;` is kept, and the replacement goes
      on after it. */
  lemma AmpKept(s: string)
    requires s != [] && s[0] == '&' && !(|s| >= 5 && s[..5] == "&amp;")
    ensures ReplaceAmp(s) == "&" + ReplaceAmp(s[1..])
  {
  }

  /** The first `&amp;` of a text becomes `&`, and the text before it is
      kept. */
  lemma ReplaceAmpAt(a: string, b: string)
    requires '&' !in a
    ensures ReplaceAmp(a + "&amp;" + b) == a + "&" + ReplaceAmp(b)
  {
    assert a + "&amp;" + b == a + ("&amp;" + b);
    ReplaceAmpPrefix(a, "&amp;" + b);
    AmpFront(b);
  }

  /** `"".join(parts)`. */
  function Concat(parts: seq<string>): string
  {
    if parts == [] then [] else parts[0] + Concat(parts[1..])
  }

  lemma {:induction false} ConcatAppend(a: seq<string>, b: seq<string>)
    ensures Concat(a + b) == Concat(a) + Concat(b)
  {
    if a == [] {
      assert a + b == b;
    } else {
      assert (a + b)[1..] == a[1..] + b;
      ConcatAppend(a[1..], b);
    }
  }

  lemma {:induction false} RemoveSpacesAppend(a: string, b: string)
    ensures RemoveSpaces(a + b) == RemoveSpaces(a) + RemoveSpaces(b)
  {
    if a == [] {
      assert a + b == b;
    } else {
      assert (a + b)[1..] == a[1..] + b;
      RemoveSpacesAppend(a[1..], b);
    }
  }

  /** Text without white space is its own `RemoveSpaces`. */
  lemma {:induction false} RemoveSpacesNone(a: string)
    requires forall i :: 0 <= i < |a| ==> !IsSpace(a[i])
    ensures RemoveSpaces(a) == a
  {
    if a != [] {
      RemoveSpacesNone(a[1..]);
    }
  }

  /** White space only. */
  lemma {:induction false} RemoveSpacesAll(a: string)
    requires forall i :: 0 <= i < |a| ==> IsSpace(a[i])
    ensures RemoveSpaces(a) == []
  {
    if a != [] {
      RemoveSpacesAll(a[1..]);
    }
  }

  /** `strip()` removes only white space. */
  lemma StripKeepsContent(s: string)
    ensures RemoveSpaces(Strip(s)) == RemoveSpaces(s)
  {
    StripLeftKeeps(s);
    StripRightKeeps(StripLeft(s));
  }

  lemma {:induction false} StripLeftKeeps(s: string)
    ensures RemoveSpaces(StripLeft(s)) == RemoveSpaces(s)
  {
    if s != [] && IsSpace(s[0]) {
      StripLeftKeeps(s[1..]);
    }
  }

  lemma {:induction false} StripRightKeeps(s: string)
    ensures RemoveSpaces(StripRight(s)) == RemoveSpaces(s)
  {
    if s != [] && IsSpace(s[|s| - 1]) {
      var init := s[..|s| - 1];
      StripRightKeeps(init);
      assert s == init + [s[|s| - 1]];
      RemoveSpacesAppend(init, [s[|s| - 1]]);
      RemoveSpacesAll([s[|s| - 1]]);
    }
  }

  /** `" ".join(parts)`. */
  function JoinSpace(parts: seq<string>): string
  {
    if parts == [] then []
    else if |parts| == 1 then parts[0]
    else JoinSpace(parts[..|parts| - 1]) + " " + parts[|parts| - 1]
  }

  /** Joining two non-empty lists puts one space between their joins. */
  lemma {:induction false} JoinSpaceAppend(a: seq<string>, b: seq<string>)
    requires a != [] && b != []
    ensures JoinSpace(a + b) == JoinSpace(a) + " " + JoinSpace(b)
    decreases |b|
  {
    var ab := a + b;
    assert ab[|ab| - 1] == b[|b| - 1];
    if |b| == 1 {
      assert ab[..|ab| - 1] == a;
    } else {
      var init, last := b[..|b| - 1], b[|b| - 1];
      assert ab[..|ab| - 1] == a + init;
      assert JoinSpace(ab) == JoinSpace(a + init) + " " + last;
      assert JoinSpace(b) == JoinSpace(init) + " " + last;
      JoinSpaceAppend(a, init);
    }
  }

  /** Lists of parts that join to the same text and are empty together
      still do so when each is extended by such lists. */
  lemma JoinSpaceAgree(x1: seq<string>, y1: seq<string>, x2: seq<string>, y2: seq<string>)
    requires JoinSpace(x1) == JoinSpace(y1) && (x1 == [] <==> y1 == [])
    requires JoinSpace(x2) == JoinSpace(y2) && (x2 == [] <==> y2 == [])
    ensures JoinSpace(x1 + x2) == JoinSpace(y1 + y2) && (x1 + x2 == [] <==> y1 + y2 == [])
  {
    if x1 == [] {
      assert x1 + x2 == x2 && y1 + y2 == y2;
    } else if x2 == [] {
      assert x1 + x2 == x1 && y1 + y2 == y1;
    } else {
      JoinSpaceAppend(x1, x2);
      JoinSpaceAppend(y1, y2);
    }
  }

  /** Python's `<=` on strings: lexicographic by code point. */
  predicate LexLe(a: string, b: string)
  {
    a == [] || (b != [] && (a[0] < b[0] || (a[0] == b[0] && LexLe(a[1..], b[1..]))))
  }

  lemma {:induction false} LexLeTotal(a: string, b: string)
    ensures LexLe(a, b) || LexLe(b, a)
  {
    if a != [] && b != [] && a[0] == b[0] {
      LexLeTotal(a[1..], b[1..]);
    }
  }

  lemma {:induction false} LexLeTransitive(a: string, b: string, c: string)
    requires LexLe(a, b) && LexLe(b, c)
    ensures LexLe(a, c)
  {
    if a != [] && b != [] && c != [] && a[0] == b[0] && b[0] == c[0] {
      LexLeTransitive(a[1..], b[1..], c[1..]);
    }
  }

  lemma {:induction false} LexLeAntisymmetric(a: string, b: string)
    requires LexLe(a, b) && LexLe(b, a)
    ensures a == b
  {
    if a != [] && b != [] {
      LexLeAntisymmetric(a[1..], b[1..]);
      assert a == [a[0]] + a[1..];
      assert b == [b[0]] + b[1..];
    }
  }
}
