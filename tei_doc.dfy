/** What the two copies of `collate_lus` share: the XPath selections they
    make in the parsed witnesses, the positional padding of stanzas and
    lines, and the TEI tree they assemble around the collated lines. */
module TeiDoc {
  import opened Wrappers
  import opened Sorting
  import opened Xml
  import opened Loops

  const XmlNamespace: string := "http://www.w3.org/XML/1998/namespace"

  /** `xml:id` in Clark notation. */
  const XmlId: string := "{" + XmlNamespace + "}id"

  /** The output tree: elements built with `SubElement`, and the `<l>`
      elements `collate_line` returns, whose children are apparatus nodes. */
  datatype Tree =
    | Tree(tag: string, attrs: map<string, string>, text: Option<string>, kids: seq<Tree>)
    | Line(nodes: seq<Node>)

  // ---------------------------------------------------------------------
  // The XPath selections

  /** `div[@type="canto" and @n="1"]`. */
  predicate IsCantoOne(e: Element) {
    e.tag == TeiTag("div") && Get(e, "type") == Some("canto") && Get(e, "n") == Some("1")
  }

  /** `//tei:div[@type="canto" and @n="1"]`: every such element of the
      document, root included, in document order. */
  function CantosOne(root: Element): (r: seq<Element>)
    ensures forall i :: 0 <= i < |r| ==> IsCantoOne(r[i])
    ensures forall x :: x in r <==> x in Preorder(root) && IsCantoOne(x)
  {
    FilterIn(Preorder(root), IsCantoOne);
    FilterComplete(Preorder(root), IsCantoOne);
    Filter(Preorder(root), IsCantoOne)
  }

  /** `canto1[0]` is the first canto-1 division in document order. */
  lemma FirstCantoOne(root: Element, k: nat)
    requires k < |Preorder(root)| && IsCantoOne(Preorder(root)[k])
    requires forall j :: 0 <= j < k ==> !IsCantoOne(Preorder(root)[j])
    ensures CantosOne(root) != [] && CantosOne(root)[0] == Preorder(root)[k]
  {
    FilterFirst(Preorder(root), IsCantoOne, k);
  }

  /** The selections keep document order: the children selected from two
      runs of children are those of the first run, then those of the second. */
  lemma SelectionsInOrder(a: seq<Element>, b: seq<Element>)
    ensures Filter(a + b, IsHead) == Filter(a, IsHead) + Filter(b, IsHead)
    ensures Filter(a + b, IsStanza) == Filter(a, IsStanza) + Filter(b, IsStanza)
    ensures Filter(a + b, IsVerse) == Filter(a, IsVerse) + Filter(b, IsVerse)
  {
    FilterAppend(a, b, IsHead);
    FilterAppend(a, b, IsStanza);
    FilterAppend(a, b, IsVerse);
  }

  predicate IsHead(e: Element) {
    e.tag == TeiTag("head")
  }

  /** `./tei:head`. */
  function Heads(canto: Element): (r: seq<Element>)
    ensures forall i :: 0 <= i < |r| ==> IsHead(r[i])
    ensures forall x :: x in r <==> x in canto.children && IsHead(x)
  {
    FilterIn(canto.children, IsHead);
    FilterComplete(canto.children, IsHead);
    Filter(canto.children, IsHead)
  }

  predicate IsStanza(e: Element) {
    e.tag == TeiTag("lg") && Get(e, "type") == Some("estrofe")
  }

  /** `./tei:lg[@type="estrofe"]`. */
  function Stanzas(canto: Element): (r: seq<Element>)
    ensures forall i :: 0 <= i < |r| ==> IsStanza(r[i])
    ensures forall x :: x in r <==> x in canto.children && IsStanza(x)
  {
    FilterIn(canto.children, IsStanza);
    FilterComplete(canto.children, IsStanza);
    Filter(canto.children, IsStanza)
  }

  predicate IsVerse(e: Element) {
    e.tag == TeiTag("l")
  }

  /** `./tei:l` of a stanza, or `[]` for a stanza that is missing. */
  function Verses(st: Option<Element>): (r: seq<Element>)
    ensures forall i :: 0 <= i < |r| ==> IsVerse(r[i])
    ensures st.Some? ==> forall x :: x in r <==> x in st.value.children && IsVerse(x)
    ensures st.None? ==> r == []
  {
    if st.Some? then
      FilterIn(st.value.children, IsVerse);
      FilterComplete(st.value.children, IsVerse);
      Filter(st.value.children, IsVerse)
    else []
  }

  // ---------------------------------------------------------------------
  // Positional padding

  /** `xs[i] if i < len(xs) else None`. */
  function At<T>(xs: seq<T>, i: nat): (r: Option<T>)
    ensures r.Some? <==> i < |xs|
    ensures r.Some? ==> r.value == xs[i]
  {
    if i < |xs| then Some(xs[i]) else None
  }

  /** `max(a, b, c)`. */
  function Max3(a: nat, b: nat, c: nat): (r: nat)
    ensures a <= r && b <= r && c <= r
    ensures r == a || r == b || r == c
  {
    if a >= b && a >= c then a else if b >= c then b else c
  }

  /** `estrofe_n`: the `n` of the modern stanza when there is one, even when
      it has none; otherwise that of the left stanza, otherwise that of the
      right stanza. */
  function StanzaN(m: Option<Element>, e: Option<Element>, d: Option<Element>): (r: Option<string>)
    ensures m.Some? ==> r == Get(m.value, "n")
    ensures m.None? && e.Some? ==> r == Get(e.value, "n")
    ensures m.None? && e.None? ==> r == (if d.Some? then Get(d.value, "n") else None)
  {
    if m.Some? then Get(m.value, "n")
    else if e.Some? then Get(e.value, "n")
    else if d.Some? then Get(d.value, "n")
    else None
  }

  const CantoMissing: string := "Não foi possível encontrar o Canto 1 em uma ou mais versões. Verifique os caminhos e o XML."
  const StanzasMissing: string := "Não foi possível encontrar estrofes em uma ou mais versões do Canto 1."

  /** The error `collate_lus` raises for these three documents, if any: no
      canto 1 in one of them, or no stanza in one of their first cantos 1. */
  function LookupError(modRoot: Element, esqRoot: Element, dirRoot: Element): (r: Option<string>)
    ensures r == None <==> && CantosOne(modRoot) != [] && CantosOne(esqRoot) != [] && CantosOne(dirRoot) != []
                           && Stanzas(CantosOne(modRoot)[0]) != []
                           && Stanzas(CantosOne(esqRoot)[0]) != []
                           && Stanzas(CantosOne(dirRoot)[0]) != []
    ensures r == Some(CantoMissing) <==> CantosOne(modRoot) == [] || CantosOne(esqRoot) == [] || CantosOne(dirRoot) == []
  {
    var cm, ce, cd := CantosOne(modRoot), CantosOne(esqRoot), CantosOne(dirRoot);
    if cm == [] || ce == [] || cd == [] then Some(CantoMissing)
    else if Stanzas(cm[0]) == [] || Stanzas(ce[0]) == [] || Stanzas(cd[0]) == [] then Some(StanzasMissing)
    else None
  }

  // ---------------------------------------------------------------------
  // The output tree

  /** The `<head>` of the collated canto: a copy of the text of the last
      `<head>` of the modern canto, when it has one. */
  function HeadPart(canto: Element): (r: seq<Tree>)
    ensures Heads(canto) == [] <==> r == []
    ensures Heads(canto) != [] ==> r == [Tree(TeiTag("head"), map[], Heads(canto)[|Heads(canto)| - 1].text, [])]
  {
    var hs := Heads(canto);
    if hs == [] then [] else [Tree(TeiTag("head"), map[], hs[|hs| - 1].text, [])]
  }

  /** A collated `<lg type="estrofe" n=...>` holding the given lines. */
  function StanzaTree(n: string, lines: seq<seq<Node>>): (r: Tree)
    ensures r.Tree? && r.tag == TeiTag("lg") && r.attrs == map["type" := "estrofe", "n" := n]
    ensures |r.kids| == |lines| && forall j :: 0 <= j < |lines| ==> r.kids[j] == Line(lines[j])
  {
    Tree(TeiTag("lg"), map["type" := "estrofe", "n" := n], None, seq(|lines|, j requires 0 <= j < |lines| => Line(lines[j])))
  }

  /** `str.lstrip(c)`. */
  function LStrip(s: string, c: char): (r: string)
    ensures |r| <= |s| && r == s[|s| - |r|..]
    ensures forall k :: 0 <= k < |s| - |r| ==> s[k] == c
    ensures r == [] || r[0] != c
    ensures c !in s ==> r == s
  {
    if s != [] && s[0] == c then LStrip(s[1..], c) else s
  }

  /** The keys of `wit_ids`, in insertion order. */
  const WitKeys: seq<string> := ["VMod", "VEsq", "VDir"]

  function PersonTree(key: string): Tree {
    var id := LStrip(key, '#');
    Tree(TeiTag("person"), map[XmlId := id], None,
         [Tree(TeiTag("persName"), map[], Some("Versão " + id), [])])
  }

  function Persons(keys: seq<string>): (r: seq<Tree>)
    ensures |r| == |keys| && forall i :: 0 <= i < |keys| ==> r[i] == PersonTree(keys[i])
  {
    seq(|keys|, i requires 0 <= i < |keys| => PersonTree(keys[i]))
  }

  /** The `<teiHeader>`. */
  function Header(): Tree {
    Tree(TeiTag("teiHeader"), map[], None, [
      Tree(TeiTag("fileDesc"), map[], None, [
        Tree(TeiTag("titleStmt"), map[], None, [
          Tree(TeiTag("title"), map[], Some("Os Lusíadas Colacionado (VMod, VEsq, VDir)"), [])]),
        Tree(TeiTag("publicationStmt"), map[], None, [
          Tree(TeiTag("p"), map[], Some("Colação automatizada."), [])])]),
      Tree(TeiTag("profileDesc"), map[], None, [
        Tree(TeiTag("particDesc"), map[], None, Persons(WitKeys))])])
  }

  /** `<TEI><text><body><div type="canto" n="1">` head and stanzas, then the
      header, which is appended after `<text>`. */
  function Document(head: seq<Tree>, stanzas: seq<Tree>): Tree {
    Tree(TeiTag("TEI"), map[], None, [
      Tree(TeiTag("text"), map[], None, [
        Tree(TeiTag("body"), map[], None, [
          Tree(TeiTag("div"), map["type" := "canto", "n" := "1"], None, head + stanzas)])]),
      Header()])
  }

  /** The stanzas of the collated canto. */
  function CantoOf(doc: Tree): seq<Tree>
    requires doc.Tree? && |doc.kids| > 0 && doc.kids[0].Tree? && |doc.kids[0].kids| > 0
    requires doc.kids[0].kids[0].Tree? && |doc.kids[0].kids[0].kids| > 0 && doc.kids[0].kids[0].kids[0].Tree?
  {
    doc.kids[0].kids[0].kids[0].kids
  }

  /** The document holds `<text>` and then `<teiHeader>`, and the canto
      holds the head, then the stanzas. */
  lemma DocumentShape(head: seq<Tree>, stanzas: seq<Tree>)
    ensures Document(head, stanzas).tag == TeiTag("TEI") && |Document(head, stanzas).kids| == 2
    ensures Document(head, stanzas).kids[0].tag == TeiTag("text")
    ensures Document(head, stanzas).kids[1] == Header()
    ensures CantoOf(Document(head, stanzas)) == head + stanzas
  {
  }

  /** A key without `#` is its own id. */
  lemma PersonOfKey(key: string)
    requires '#' !in key
    ensures PersonTree(key) == Tree(TeiTag("person"), map[XmlId := key], None,
                                    [Tree(TeiTag("persName"), map[], Some("Versão " + key), [])])
  {
  }

  /** The header lists the persons `VMod`, `VEsq`, `VDir` in that order,
      each with that `xml:id` and named `Versão ` and its id. */
  lemma HeaderPersons()
    ensures Header().tag == TeiTag("teiHeader") && |Header().kids| == 2
    ensures Header().kids[1].tag == TeiTag("profileDesc") && |Header().kids[1].kids| == 1
    ensures |Header().kids[1].kids[0].kids| == 3
    ensures forall i :: 0 <= i < 3 ==>
              Header().kids[1].kids[0].kids[i] == Tree(TeiTag("person"), map[XmlId := WitKeys[i]], None,
                                                       [Tree(TeiTag("persName"), map[], Some("Versão " + WitKeys[i]), [])])
  {
    forall i | 0 <= i < 3
      ensures Persons(WitKeys)[i] == Tree(TeiTag("person"), map[XmlId := WitKeys[i]], None,
                                          [Tree(TeiTag("persName"), map[], Some("Versão " + WitKeys[i]), [])])
    {
      assert WitKeys[i][0] == 'V';
      assert '#' !in WitKeys[i];
      PersonOfKey(WitKeys[i]);
    }
  }
}
