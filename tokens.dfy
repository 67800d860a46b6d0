/** What both copies of the collator share before alignment: flattening an
    `<l>` of a historical witness into one line of text, splitting that line
    into words and punctuation as `re.findall` does, and reading the tokens of
    a modernised `<l>`. */
module Tokens {
  import opened Wrappers
  import opened Text
  import opened Xml
  import opened Sorting

  // ---------------------------------------------------------------------
  // Flattening the text of a historical `<l>`

  /** A character of the class `[\s\-.,:;?!&]`. */
  predicate SpacingChar(c: char) {
    IsSpace(c) || c == '-' || IsPunct(c)
  }

  /** `re.match(r'[\s\-.,:;?!&]$', part)`: the match is anchored at the
      start, so it succeeds only for a part that is one such character,
      optionally followed by the newline that `$` may precede. */
  predicate SuppressesSpace(part: string) {
    || (|part| == 1 && SpacingChar(part[0]))
    || (|part| == 2 && SpacingChar(part[0]) && part[1] == '\n')
  }

  /** What the test evidently means, `re.search(r'[\s\-.,:;?!&]$', part)`:
      the part ends with such a character. */
  predicate EndsWithSpacing(part: string) {
    part != [] && SpacingChar(part[|part| - 1])
  }

  /** Every part the anchored test accepts also ends with a spacing
      character, but a word ending in a hyphen is accepted only by the
      intended test, so it is still followed by a space. */
  lemma SuppressesSpaceAnchored()
    ensures forall part :: SuppressesSpace(part) ==> EndsWithSpacing(part)
    ensures EndsWithSpacing("palavra-") && !SuppressesSpace("palavra-")
  {
    var w := "palavra-";
    assert w[|w| - 1] == '-';
  }

  /** `full_text_parts` after the first `n` children of `l`: the element's
      own text, then each child's tail; a tail of a child that does not
      `join` gets a `" "` before it unless nothing came before or the last
      part suppresses the space. The children's own text is never read. */
  function Parts(l: Element, joins: Element -> bool, n: nat): seq<string>
    requires n <= |l.children|
  {
    if n == 0 then (if Truthy(l.text) then [l.text.value] else [])
    else
      var parts := Parts(l, joins, n - 1);
      var c := l.children[n - 1];
      if !Truthy(c.tail) then parts
      else if joins(c) then parts + [c.tail.value]
      else if parts != [] && !SuppressesSpace(parts[|parts| - 1]) then parts + [" ", c.tail.value]
      else parts + [c.tail.value]
  }

  /** The texts the parts are made of: the element's own text and the tails
      of its first `n` children, where present and non-empty. */
  function Sources(l: Element, n: nat): seq<string>
    requires n <= |l.children|
  {
    if n == 0 then (if Truthy(l.text) then [l.text.value] else [])
    else Sources(l, n - 1) + (if Truthy(l.children[n - 1].tail) then [l.children[n - 1].tail.value] else [])
  }

  /** The loop that fills `full_text_parts`. */
  method Flatten(l: Element, joins: Element -> bool) returns (parts: seq<string>)
    ensures parts == Parts(l, joins, |l.children|)
  {
    parts := [];
    if Truthy(l.text) {
      parts := parts + [l.text.value];
    }
    for n := 0 to |l.children|
      invariant parts == Parts(l, joins, n)
    {
      var child := l.children[n];
      if joins(child) {
        if Truthy(child.tail) {
          parts := parts + [child.tail.value];
        }
      } else {
        if Truthy(child.tail) {
          if parts != [] && !SuppressesSpace(parts[|parts| - 1]) {
            parts := parts + [" "];
          }
          parts := parts + [child.tail.value];
        }
      }
    }
  }

  /** `"".join(full_text_parts).strip().replace('&amp;', '&')`. */
  function FullLine(parts: seq<string>): string
  {
    ReplaceAmp(Strip(Concat(parts)))
  }

  /** The element's own text, when present, is the first part. */
  lemma {:induction false} PartsStartWithText(l: Element, joins: Element -> bool, n: nat)
    requires n <= |l.children| && Truthy(l.text)
    ensures Parts(l, joins, n) != [] && Parts(l, joins, n)[0] == l.text.value
  {
    if n > 0 {
      PartsStartWithText(l, joins, n - 1);
    }
  }

  /** The parts hold the sources in order and nothing else but inserted
      spaces: without white space the flattened text is the element's text
      and tails, concatenated. */
  lemma {:induction false} PartsKeepSources(l: Element, joins: Element -> bool, n: nat)
    requires n <= |l.children|
    ensures RemoveSpaces(Concat(Parts(l, joins, n))) == RemoveSpaces(Concat(Sources(l, n)))
  {
    if n > 0 {
      PartsKeepSources(l, joins, n - 1);
      if Truthy(l.children[n - 1].tail) {
        PartsTailSource(l, joins, n);
      } else {
        assert Sources(l, n) == Sources(l, n - 1) + [] == Sources(l, n - 1);
      }
    }
  }

  /** The step of `PartsKeepSources` for a child with a tail. */
  lemma PartsTailSource(l: Element, joins: Element -> bool, n: nat)
    requires 0 < n <= |l.children| && Truthy(l.children[n - 1].tail)
    requires RemoveSpaces(Concat(Parts(l, joins, n - 1))) == RemoveSpaces(Concat(Sources(l, n - 1)))
    ensures RemoveSpaces(Concat(Parts(l, joins, n))) == RemoveSpaces(Concat(Sources(l, n)))
  {
    var parts, src := Parts(l, joins, n - 1), Sources(l, n - 1);
    var c := l.children[n - 1];
    var extra := if !joins(c) && parts != [] && !SuppressesSpace(parts[|parts| - 1]) then [" "] else [];
    assert Parts(l, joins, n) == parts + (extra + [c.tail.value]);
    if extra != [] {
      assert extra[1..] == [];
      assert Concat(extra) == " " + Concat([]);
    }
    AppendSource(parts, src, extra, c.tail.value);
    assert Sources(l, n) == src + [c.tail.value];
  }

  lemma AppendSource(parts: seq<string>, src: seq<string>, extra: seq<string>, t: string)
    requires RemoveSpaces(Concat(parts)) == RemoveSpaces(Concat(src))
    requires Concat(extra) == [] || Concat(extra) == " "
    ensures RemoveSpaces(Concat(parts + (extra + [t]))) == RemoveSpaces(Concat(src + [t]))
  {
    ConcatAppend(parts, extra + [t]);
    ConcatAppend(extra, [t]);
    ConcatAppend(src, [t]);
    assert [t][1..] == [];
    assert Concat([t]) == t;
    RemoveSpacesAll(Concat(extra));
    RemoveSpacesAppend(Concat(extra), t);
    assert RemoveSpaces(Concat(extra + [t])) == RemoveSpaces(t);
    RemoveSpacesAppend(Concat(parts), Concat(extra + [t]));
    RemoveSpacesAppend(Concat(src), t);
  }

  /** Two `<l>` elements that differ only in the text inside their children
      flatten alike, as long as `joins` tells their children apart the same
      way. */
  lemma {:induction false} PartsIgnoreChildText(l: Element, l2: Element, joins: Element -> bool, n: nat)
    requires l.text == l2.text && |l.children| == |l2.children| && n <= |l.children|
    requires forall i :: 0 <= i < |l.children| ==>
               l.children[i].tail == l2.children[i].tail && joins(l.children[i]) == joins(l2.children[i])
    ensures Parts(l, joins, n) == Parts(l2, joins, n)
  {
    if n > 0 {
      PartsIgnoreChildText(l, l2, joins, n - 1);
    }
  }

  // ---------------------------------------------------------------------
  // `re.findall(r"([^\s.,:;?!&]+|[.,:;?!&])", line)`

  /** The longest run of word characters at the start of `s`. */
  function WordRun(s: string): (r: string)
    ensures |r| <= |s| && r == s[..|r|]
    ensures forall i :: 0 <= i < |r| ==> IsWordChar(r[i])
    ensures |r| < |s| ==> !IsWordChar(s[|r|])
  {
    if s != [] && IsWordChar(s[0]) then [s[0]] + WordRun(s[1..]) else []
  }

  /** The matches, left to right: at each position the regular expression
      tries a word run first, then a single punctuation character; white
      space matches neither and is skipped. */
  function Lex(s: string): seq<string>
    decreases |s|
  {
    if s == [] then []
    else if IsPunct(s[0]) then [[s[0]]] + Lex(s[1..])
    else if IsSpace(s[0]) then Lex(s[1..])
    else
      var w := WordRun(s);
      assert w == [s[0]] + WordRun(s[1..]);
      [w] + Lex(s[|w|..])
  }

  /** A match is one punctuation character or a non-empty word run. */
  predicate IsLexeme(t: string) {
    || (|t| == 1 && IsPunct(t[0]))
    || (t != [] && forall i :: 0 <= i < |t| ==> IsWordChar(t[i]))
  }

  lemma {:induction false} LexShape(s: string)
    ensures forall i :: 0 <= i < |Lex(s)| ==> IsLexeme(Lex(s)[i])
    decreases |s|
  {
    if s != [] {
      if IsPunct(s[0]) {
        LexShape(s[1..]);
      } else if IsSpace(s[0]) {
        LexShape(s[1..]);
      } else {
        var w := WordRun(s);
        assert w == [s[0]] + WordRun(s[1..]);
        LexShape(s[|w|..]);
      }
    }
  }

  /** The matches, concatenated, are the line without its white space:
      nothing but white space is skipped or lost. */
  lemma {:induction false} LexCoversLine(s: string)
    ensures Concat(Lex(s)) == RemoveSpaces(s)
    decreases |s|
  {
    if s != [] {
      if IsPunct(s[0]) {
        LexCoversLine(s[1..]);
        assert Lex(s) == [[s[0]]] + Lex(s[1..]);
        assert ([[s[0]]] + Lex(s[1..]))[1..] == Lex(s[1..]);
      } else if IsSpace(s[0]) {
        LexCoversLine(s[1..]);
      } else {
        var w := WordRun(s);
        assert w == [s[0]] + WordRun(s[1..]);
        LexCoversLine(s[|w|..]);
        assert Lex(s) == [w] + Lex(s[|w|..]);
        assert ([w] + Lex(s[|w|..]))[1..] == Lex(s[|w|..]);
        assert s == w + s[|w|..];
        RemoveSpacesAppend(w, s[|w|..]);
        RemoveSpacesNone(w);
      }
    }
  }

  // ---------------------------------------------------------------------
  // The modernised witness

  /** A child that `./tei:w | ./tei:pc` selects. */
  predicate IsModernToken(c: Element) {
    c.tag == TeiTag("w") || c.tag == TeiTag("pc")
  }

  /** A modern token `(tag, original_text, comparable_text, is_punct, attrs)`. */
  datatype ModToken = ModToken(tag: string, orig: string, comp: string, isPunct: bool, attrs: map<string, string>)

  /** Every selected child has text; `None.lower()` would raise. */
  predicate ModernReadable(l: Element) {
    forall i :: 0 <= i < |l.children| && IsModernToken(l.children[i]) ==> l.children[i].text.Some?
  }

  /** The token of one selected child. */
  function ModernToken(c: Element): ModToken
    requires c.text.Some?
  {
    var tag := LocalName(c.tag);
    ModToken(tag, c.text.value, Lower(c.text.value), tag == "pc", c.attrs)
  }

  /** The children `./tei:w | ./tei:pc` selects, in document order. */
  function ModernChildren(l: Element): (r: seq<Element>)
    ensures forall i :: 0 <= i < |r| ==> IsModernToken(r[i])
    ensures forall x :: x in r <==> x in l.children && IsModernToken(x)
  {
    FilterIn(l.children, IsModernToken);
    FilterComplete(l.children, IsModernToken);
    Filter(l.children, IsModernToken)
  }

  /** The selected children keep document order. */
  lemma ModernChildrenInOrder(a: seq<Element>, b: seq<Element>)
    ensures Filter(a + b, IsModernToken) == Filter(a, IsModernToken) + Filter(b, IsModernToken)
  {
    FilterAppend(a, b, IsModernToken);
  }

  lemma {:induction false} FilterMembers<T>(s: seq<T>, p: T -> bool)
    ensures forall i :: 0 <= i < |Filter(s, p)| ==> Filter(s, p)[i] in s
  {
    if s != [] {
      FilterMembers(s[1..], p);
    }
  }

  predicate HaveText(cs: seq<Element>) {
    forall i :: 0 <= i < |cs| ==> cs[i].text.Some?
  }

  /** Every selected child has text. */
  lemma ModernChildrenHaveText(l: Element)
    requires ModernReadable(l)
    ensures HaveText(ModernChildren(l))
  {
    var r := ModernChildren(l);
    FilterMembers(l.children, IsModernToken);
    forall i | 0 <= i < |r| ensures r[i].text.Some? {
      var k :| 0 <= k < |l.children| && l.children[k] == r[i];
    }
  }

  /** The tokens of the first `n` selected children, one each, in order. */
  function ModernTokens(cs: seq<Element>, n: nat): (ts: seq<ModToken>)
    requires HaveText(cs) && n <= |cs|
    ensures |ts| == n
  {
    if n == 0 then [] else ModernTokens(cs, n - 1) + [ModernToken(cs[n - 1])]
  }

  /** Token `k` is the token of child `k`. */
  lemma {:induction false} ModernTokensAt(cs: seq<Element>, n: nat, k: nat)
    requires HaveText(cs) && n <= |cs|
    requires k < n
    ensures ModernTokens(cs, n)[k] == ModernToken(cs[k])
  {
    if k < n - 1 {
      ModernTokensAt(cs, n - 1, k);
    }
  }

  /** `preprocess_modern_l`. */
  method TokenizeModern(l: Element) returns (tokens: seq<ModToken>)
    requires ModernReadable(l)
    ensures HaveText(ModernChildren(l))
    ensures tokens == ModernTokens(ModernChildren(l), |ModernChildren(l)|)
  {
    var selected := ModernChildren(l);
    ModernChildrenHaveText(l);
    tokens := [];
    for i := 0 to |selected|
      invariant tokens == ModernTokens(selected, i)
    {
      tokens := tokens + [ModernToken(selected[i])];
    }
  }

  /** What each modern token says: the tag is the local name `w` or `pc`,
      `is_punct` holds exactly for `pc`, the comparable text is the lower
      case of the original, and the attributes are carried through. */
  lemma ModernTokenShape(c: Element)
    requires IsModernToken(c) && c.text.Some?
    ensures ModernToken(c).tag == "w" || ModernToken(c).tag == "pc"
    ensures ModernToken(c).isPunct <==> c.tag == TeiTag("pc")
    ensures ModernToken(c).orig == c.text.value && ModernToken(c).comp == Lower(c.text.value)
    ensures ModernToken(c).attrs == c.attrs
  {
    LocalNameOfTeiTag("w");
    LocalNameOfTeiTag("pc");
  }
}
