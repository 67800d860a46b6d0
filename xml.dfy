/** The element trees the collator reads and the apparatus nodes it writes. */
module Xml {
  import opened Wrappers
  import opened Sorting

  const TeiNamespace: string := "http://www.tei-c.org/ns/1.0"

  /** A tag in lxml's Clark notation, `{namespace}local`. */
  function TeiTag(local: string): (r: string)
    ensures r == "{" + TeiNamespace + "}" + local
  {
    "{" + TeiNamespace + "}" + local
  }

  /** An element as lxml presents it: its tag in Clark notation, its
      attributes, the text before its first child, the text after its own end
      tag (`tail`) and its element children in document order. */
  datatype Element = Element(
    tag: string,
    attrs: map<string, string>,
    text: Option<string>,
    tail: Option<string>,
    children: seq<Element>)

  /** Python truthiness of an optional string: present and non-empty. */
  predicate Truthy(s: Option<string>) {
    s.Some? && s.value != []
  }

  /** `element.get(name)`. */
  function Get(e: Element, name: string): (r: Option<string>)
    ensures r.Some? <==> name in e.attrs
    ensures r.Some? ==> r.value == e.attrs[name]
  {
    if name in e.attrs then Some(e.attrs[name]) else None
  }

  /** `tag.split('}')[-1]`: what follows the last `}`, or the whole tag. */
  function LocalName(tag: string): (r: string)
    ensures '}' !in r
    ensures |r| <= |tag| && r == tag[|tag| - |r|..]
    ensures '}' !in tag ==> r == tag
    ensures r != tag ==> tag[|tag| - |r| - 1] == '}'
  {
    if tag == [] then []
    else if tag[|tag| - 1] == '}' then []
    else LocalName(tag[..|tag| - 1]) + [tag[|tag| - 1]]
  }

  lemma LocalNameOfTeiTag(local: string)
    requires '}' !in local
    ensures LocalName(TeiTag(local)) == local
  {
    var p := "{" + TeiNamespace + "}";
    assert TeiTag(local) == p + local;
    LocalNameAfterBrace(p, local);
  }

  lemma {:induction false} LocalNameAfterBrace(p: string, local: string)
    requires p != [] && p[|p| - 1] == '}' && '}' !in local
    ensures LocalName(p + local) == local
  {
    if local == [] {
      assert p + local == p;
    } else {
      var init, last := local[..|local| - 1], local[|local| - 1];
      var q := p + local;
      assert local == init + [last];
      assert q == (p + init) + [last];
      assert q[|q| - 1] == last && last != '}';
      assert q[..|q| - 1] == p + init;
      LocalNameAfterBrace(p, init);
    }
  }

  /** The element and all its descendants in document order: what an XPath
      `//` step searches. */
  function Preorder(e: Element): (r: seq<Element>)
    ensures r != [] && r[0] == e
    decreases e, 1
  {
    [e] + PreorderAll(e.children)
  }

  function PreorderAll(cs: seq<Element>): seq<Element>
    decreases cs, 0
  {
    if cs == [] then [] else Preorder(cs[0]) + PreorderAll(cs[1..])
  }

  lemma {:induction false} ChildInPreorder(root: Element, e: Element, c: Element)
    requires e in Preorder(root) && c in e.children
    ensures c in Preorder(root)
    decreases root, 1
  {
    if e == root {
      ChildInPreorderAll(root.children, c);
    } else {
      ChildInPreorderList(root.children, e, c);
    }
  }

  lemma {:induction false} ChildInPreorderAll(cs: seq<Element>, c: Element)
    requires c in cs
    ensures c in PreorderAll(cs)
    decreases cs
  {
    if cs[0] != c {
      ChildInPreorderAll(cs[1..], c);
    }
  }

  lemma {:induction false} ChildInPreorderList(cs: seq<Element>, e: Element, c: Element)
    requires e in PreorderAll(cs) && c in e.children
    ensures c in PreorderAll(cs)
    decreases cs, 0
  {
    if e in Preorder(cs[0]) {
      ChildInPreorder(cs[0], e, c);
    } else {
      ChildInPreorderList(cs[1..], e, c);
    }
  }

  /** `<w>` or `<pc>` written into the output: a local tag, attributes and text. */
  datatype Leaf = Leaf(tag: string, attrs: map<string, string>, text: string)

  /** An `<rdg>`: the witnesses of its `wit` attribute, further attributes
      set on it, its own text, and its `<w>`/`<pc>` children. */
  datatype Rdg = Rdg(wits: seq<string>, attrs: map<string, string>, text: Option<string>, children: seq<Leaf>)

  /** What a `<l>` of the collation holds: a verbatim token element, or an
      `<app>` of readings. */
  datatype Node = Elem(tag: string, attrs: map<string, string>, text: string) | App(rdgs: seq<Rdg>)

  function WitsOf(r: Rdg): seq<string> { r.wits }

  /** The witnesses of all readings of an `<app>`, reading after reading. */
  function AllWits(rdgs: seq<Rdg>): seq<string>
  {
    FlatMap(WitsOf, rdgs)
  }

  // ---------------------------------------------------------------------
  // What a witness reads

  /** The texts of a reading's `<w>` and `<pc>` children. */
  function LeafTexts(ls: seq<Leaf>): (r: seq<string>)
    ensures |r| == |ls| && forall i :: 0 <= i < |ls| ==> r[i] == ls[i].text
  {
    seq(|ls|, i requires 0 <= i < |ls| => ls[i].text)
  }

  /** An optional text as the words it contributes. */
  function OptText(t: Option<string>): (r: seq<string>)
    ensures t.None? ==> r == []
    ensures t.Some? ==> r == [t.value]
  {
    if t.Some? then [t.value] else []
  }

  /** What a reading says: its own text, if it has one, then the texts of
      its `<w>` and `<pc>` children. */
  function RdgText(r: Rdg): seq<string> {
    OptText(r.text) + LeafTexts(r.children)
  }

  /** What witness `w` reads in an `<app>`: what every reading that lists
      it says. */
  function RdgsText(rs: seq<Rdg>, w: string): seq<string> {
    if rs == [] then []
    else (if w in rs[0].wits then RdgText(rs[0]) else []) + RdgsText(rs[1..], w)
  }

  /** A token copied verbatim is read by every witness. */
  function NodeText(n: Node, w: string): seq<string> {
    match n
    case Elem(_, _, text) => [text]
    case App(rs) => RdgsText(rs, w)
  }

  /** What witness `w` reads along the children of an `<l>`. */
  function LineText(line: seq<Node>, w: string): seq<string> {
    if line == [] then [] else LineText(line[..|line| - 1], w) + NodeText(line[|line| - 1], w)
  }

  lemma LineTextAppend(a: seq<Node>, b: seq<Node>, w: string)
    ensures LineText(a + b, w) == LineText(a, w) + LineText(b, w)
  {
    forall s, n ensures LineText(s + [n], w) == LineText(s, w) + NodeText(n, w) {
      LineTextSnoc(s, n, w);
    }
    SnocFoldAppend((l: seq<Node>) => LineText(l, w), (n: Node) => NodeText(n, w), a, b);
  }

  lemma LineTextSnoc(line: seq<Node>, n: Node, w: string)
    ensures LineText(line + [n], w) == LineText(line, w) + NodeText(n, w)
  {
    assert (line + [n])[..|line|] == line;
  }

  /** A witness listed by no reading reads nothing. */
  lemma {:induction false} RdgsTextAbsent(rs: seq<Rdg>, w: string)
    requires multiset(AllWits(rs))[w] == 0
    ensures RdgsText(rs, w) == []
  {
    if rs != [] {
      assert AllWits(rs) == rs[0].wits + AllWits(rs[1..]);
      RdgsTextAbsent(rs[1..], w);
    }
  }

  /** A witness listed once reads what the reading that lists it says. */
  lemma {:induction false} RdgsTextOnce(rs: seq<Rdg>, w: string, c: seq<string>)
    requires multiset(AllWits(rs))[w] == 1
    requires forall i :: 0 <= i < |rs| && w in rs[i].wits ==> RdgText(rs[i]) == c
    ensures RdgsText(rs, w) == c
  {
    assert rs != [];
    assert AllWits(rs) == rs[0].wits + AllWits(rs[1..]);
    if w in rs[0].wits {
      RdgsTextAbsent(rs[1..], w);
    } else {
      forall i | 0 <= i < |rs[1..]| && w in rs[1..][i].wits ensures RdgText(rs[1..][i]) == c {
        assert rs[1..][i] == rs[i + 1];
      }
      RdgsTextOnce(rs[1..], w, c);
    }
  }

  /** A witness listed once, by the first reading, reads what it says. */
  lemma RdgsTextHead(rs: seq<Rdg>, w: string)
    requires rs != [] && w in rs[0].wits && multiset(AllWits(rs))[w] == 1
    ensures RdgsText(rs, w) == RdgText(rs[0])
  {
    assert AllWits(rs) == rs[0].wits + AllWits(rs[1..]);
    RdgsTextAbsent(rs[1..], w);
  }
}
