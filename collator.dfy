/** The collator of `LusiadasTextos/juntarversoescompleto.py`: legacy tokens
    carry a tag and attributes, a token is copied verbatim only when text and
    tag agree in all three witnesses, insertion blocks are grouped by their
    tokens, and readings are sorted by text. */
module Collator {
  import opened Wrappers
  import opened Text
  import opened Sorting
  import opened Grouping
  import opened Xml
  import opened Aligner
  import opened Tokens
  import opened Apparatus

  // ---------------------------------------------------------------------
  // `preprocess_old_version_l`

  /** `(original_text, comparable_text, is_punct, tag, attrs)`. */
  datatype Token = Token(orig: string, comp: string, isPunct: bool, tag: string, attrs: map<string, string>)

  /** The token of one match: `&` is the conjunction `e`; any other match is
      punctuation exactly when it starts with a punctuation character. */
  function LegacyToken(m: string): Token {
    if m == "&" then Token("&", "e", false, "w", map["lemma" := "e", "pos" := "CCONJ"])
    else
      var p := m != [] && IsPunct(m[0]);
      Token(m, Lower(m), p, if p then "pc" else "w", map[])
  }

  /** A child `lb` with `break="no"`, whatever its namespace. */
  predicate JoinsLocal(c: Element) {
    LocalName(c.tag) == "lb" && Get(c, "break") == Some("no")
  }

  /** `full_line_text`. */
  function LegacyLine(l: Element): string {
    FullLine(Parts(l, JoinsLocal, |l.children|))
  }

  /** The tokens of the first `n` matches; an empty match is skipped. */
  function LegacyTokens(ms: seq<string>, n: nat): (ts: seq<Token>)
    requires n <= |ms|
    ensures |ts| <= n
  {
    if n == 0 then []
    else LegacyTokens(ms, n - 1) + (if ms[n - 1] != [] then [LegacyToken(ms[n - 1])] else [])
  }

  /** What `preprocess_old_version_l` returns for `l`. */
  function LegacyTokensOf(l: Element): seq<Token> {
    LegacyTokens(Lex(LegacyLine(l)), |Lex(LegacyLine(l))|)
  }

  method TokenizeLegacy(l: Element) returns (tokens: seq<Token>)
    ensures tokens == LegacyTokensOf(l)
  {
    var parts := Flatten(l, JoinsLocal);
    var line := FullLine(parts);
    var matches := Lex(line);
    tokens := [];
    for i := 0 to |matches|
      invariant tokens == LegacyTokens(matches, i)
    {
      if matches[i] != [] {
        tokens := tokens + [LegacyToken(matches[i])];
      }
    }
  }

  /** What each token says of its match: the original text is the match;
      `&` becomes the word `e` with the lemma and part of speech of a
      conjunction; any other token is compared in lower case, has no
      attributes, is tagged `pc` exactly when it is punctuation, and is
      punctuation exactly when it is one of `.,:;?!`; a word token holds no
      white space and no punctuation. */
  lemma LegacyTokenShape(m: string)
    requires IsLexeme(m)
    ensures LegacyToken(m).orig == m && m != []
    ensures m == "&" ==> LegacyToken(m) == Token("&", "e", false, "w", map["lemma" := "e", "pos" := "CCONJ"])
    ensures m != "&" ==> && LegacyToken(m).comp == Lower(m)
                         && LegacyToken(m).attrs == map[]
                         && LegacyToken(m).tag == (if LegacyToken(m).isPunct then "pc" else "w")
    ensures LegacyToken(m).isPunct <==> |m| == 1 && IsPunct(m[0]) && m != "&"
    ensures !LegacyToken(m).isPunct && m != "&" ==> forall i :: 0 <= i < |m| ==> IsWordChar(m[i])
  {
    if |m| == 1 && IsPunct(m[0]) {
    } else {
      assert IsWordChar(m[0]);
    }
  }

  lemma {:induction false} LegacyTokensAt(ms: seq<string>, n: nat, k: nat)
    requires n <= |ms| && forall i :: 0 <= i < |ms| ==> ms[i] != []
    requires k < n
    ensures |LegacyTokens(ms, n)| == n && LegacyTokens(ms, n)[k] == LegacyToken(ms[k])
  {
    if n > 0 {
      if k < n - 1 {
        LegacyTokensAt(ms, n - 1, k);
      } else if n > 1 {
        LegacyTokensAt(ms, n - 1, 0);
      }
    }
  }

  function Origs(ts: seq<Token>): seq<string> {
    Map(ts, (t: Token) => t.orig)
  }

  /** One token per match of the line, in order, each shaped as
      `LegacyTokenShape` says; and nothing but white space is lost: the
      original texts of the tokens, concatenated, are the stripped,
      flattened line without its white space. */
  lemma LegacyTokensSpec(l: Element)
    ensures |LegacyTokensOf(l)| == |Lex(LegacyLine(l))|
    ensures forall k :: 0 <= k < |LegacyTokensOf(l)| ==>
              IsLexeme(Lex(LegacyLine(l))[k]) && LegacyTokensOf(l)[k] == LegacyToken(Lex(LegacyLine(l))[k])
    ensures Concat(Origs(LegacyTokensOf(l))) == RemoveSpaces(LegacyLine(l))
  {
    var ms := Lex(LegacyLine(l));
    LexShape(LegacyLine(l));
    var ts := LegacyTokensOf(l);
    if ms != [] {
      LegacyTokensAt(ms, |ms|, 0);
    }
    forall k | 0 <= k < |ts| ensures ts[k] == LegacyToken(ms[k]) {
      LegacyTokensAt(ms, |ms|, k);
    }
    assert Origs(ts) == ms;
    LexCoversLine(LegacyLine(l));
  }

  // ---------------------------------------------------------------------
  // One base position: a verbatim token or an `<app>` of readings

  /** Both aligned tokens are present and agree with the modern token in
      text and tag. */
  predicate Verbatim(m: ModToken, e: Option<Token>, d: Option<Token>) {
    && e.Some? && d.Some?
    && m.orig == e.value.orig && m.orig == d.value.orig
    && m.tag == e.value.tag && m.tag == d.value.tag
  }

  /** The key `(text, tag, attrs)` of a reading with text; `None` stands
      for the key `(None, None, frozenset())` of an absent token. */
  datatype Reading = Reading(text: string, tag: string, attrs: map<string, string>)

  function ModReading(m: ModToken): Reading {
    Reading(m.orig, m.tag, m.attrs)
  }

  /** A legacy word is keyed with the modern attributes, anything else with
      its own. */
  function OldReading(m: ModToken, t: Option<Token>): Option<Reading> {
    if t.None? then None
    else Some(Reading(t.value.orig, t.value.tag, if t.value.tag == "w" then m.attrs else t.value.attrs))
  }

  /** The key the reading of witness `w` is grouped under. */
  function KeyOf(m: ModToken, e: Option<Token>, d: Option<Token>, w: string): Option<Reading> {
    if w == ModId then Some(ModReading(m)) else if w == EsqId then OldReading(m, e) else OldReading(m, d)
  }

  function ReadingPairs(m: ModToken, e: Option<Token>, d: Option<Token>): seq<(Option<Reading>, string)> {
    [(Some(ModReading(m)), ModId), (OldReading(m, e), EsqId), (OldReading(m, d), DirId)]
  }

  /** `grouped_rdgs`. */
  function ReadingGroups(m: ModToken, e: Option<Token>, d: Option<Token>): seq<Group<Option<Reading>, string>> {
    GroupAll(ReadingPairs(m, e, d))
  }

  /** The first part of the sort key: 0 for the modern reading, 2 for the
      absent one, 1 for the rest. */
  function Rank(g: Group<Option<Reading>, string>): nat {
    if g.key.Some? && ModId in g.members then 0 else if g.key.None? then 2 else 1
  }

  /** `k[0] or ''`. */
  function TextKey(g: Group<Option<Reading>, string>): string {
    if g.key.Some? then g.key.value.text else ""
  }

  function ReadingLe(): (Group<Option<Reading>, string>, Group<Option<Reading>, string>) -> bool {
    (g: Group<Option<Reading>, string>, h: Group<Option<Reading>, string>) =>
      Rank(g) < Rank(h) || (Rank(g) == Rank(h) && LexLe(TextKey(g), TextKey(h)))
  }

  lemma ReadingLeTotal()
    ensures TotalPreorder(ReadingLe())
  {
    forall g, h ensures ReadingLe()(g, h) || ReadingLe()(h, g) {
      LexLeTotal(TextKey(g), TextKey(h));
    }
    forall g, h, k | ReadingLe()(g, h) && ReadingLe()(h, k) ensures ReadingLe()(g, k) {
      if Rank(g) == Rank(h) == Rank(k) {
        LexLeTransitive(TextKey(g), TextKey(h), TextKey(k));
      }
    }
  }

  /** `ordered_keys`. */
  function OrderedReadings(m: ModToken, e: Option<Token>, d: Option<Token>): seq<Group<Option<Reading>, string>> {
    SortBy(ReadingLe(), ReadingGroups(m, e, d))
  }

  /** The `<w>` or `<pc>` a reading holds: none for the absent reading. */
  function Content(k: Option<Reading>): seq<Leaf> {
    if k.Some? then [Leaf(k.value.tag, k.value.attrs, k.value.text)] else []
  }

  function ReadingRdg(g: Group<Option<Reading>, string>): Rdg {
    Rdg(SortedWits(g.members), map[], None, Content(g.key))
  }

  /** The `<rdg>` elements of a divergence `<app>`, in order. */
  function DivergenceRdgs(m: ModToken, e: Option<Token>, d: Option<Token>): seq<Rdg> {
    Render(ReadingRdg, OrderedReadings(m, e, d), |OrderedReadings(m, e, d)|)
  }

  /** The node `collate_line` emits for a base position. */
  function PositionNode(m: ModToken, e: Option<Token>, d: Option<Token>): Node {
    if Verbatim(m, e, d) then Elem(m.tag, m.attrs, m.orig) else App(DivergenceRdgs(m, e, d))
  }

  method RenderPosition(m: ModToken, e: Option<Token>, d: Option<Token>) returns (node: Node)
    ensures node == PositionNode(m, e, d)
  {
    if Verbatim(m, e, d) {
      node := Elem(m.tag, m.attrs, m.orig);
    } else {
      var groups := Add([], Some(ModReading(m)), ModId);
      groups := Add(groups, OldReading(m, e), EsqId);
      groups := Add(groups, OldReading(m, d), DirId);
      GroupThree((Some(ModReading(m)), ModId), (OldReading(m, e), EsqId), (OldReading(m, d), DirId));
      var ordered := SortBy(ReadingLe(), groups);
      var rdgs := RenderAll(ReadingRdg, ordered);
      node := App(rdgs);
    }
  }

  // ---------------------------------------------------------------------
  // What a divergence `<app>` says

  predicate IsWitness(w: string) {
    w == ModId || w == EsqId || w == DirId
  }

  /** Group `g` holds exactly the witnesses whose reading is its key. */
  ghost predicate KeyedBy(m: ModToken, e: Option<Token>, d: Option<Token>, g: Group<Option<Reading>, string>) {
    forall w :: w in g.members <==> IsWitness(w) && g.key == KeyOf(m, e, d, w)
  }

  /** `<rdg>` `r` lists exactly the witnesses whose reading is what it holds. */
  ghost predicate ReadsAs(m: ModToken, e: Option<Token>, d: Option<Token>, r: Rdg) {
    forall w :: w in r.wits <==> IsWitness(w) && r.children == Content(KeyOf(m, e, d, w))
  }

  /** The key paired with witness `w` is the key of its reading. */
  lemma PairsOfWitness(m: ModToken, e: Option<Token>, d: Option<Token>, k: Option<Reading>, w: string)
    ensures (k, w) in ReadingPairs(m, e, d) <==> IsWitness(w) && k == KeyOf(m, e, d, w)
  {
    assert ModId[2] != EsqId[2] && ModId[2] != DirId[2] && EsqId[2] != DirId[2];
  }

  /** Every group of `grouped_rdgs` holds exactly the witnesses whose reading
      has its key. */
  lemma GroupMembers(m: ModToken, e: Option<Token>, d: Option<Token>)
    ensures forall x :: 0 <= x < |ReadingGroups(m, e, d)| ==> KeyedBy(m, e, d, ReadingGroups(m, e, d)[x])
  {
    var gs := ReadingGroups(m, e, d);
    GroupAllMembersIff(ReadingPairs(m, e, d));
    forall x | 0 <= x < |gs| ensures KeyedBy(m, e, d, gs[x]) {
      forall w ensures w in gs[x].members <==> IsWitness(w) && gs[x].key == KeyOf(m, e, d, w) {
        PairsOfWitness(m, e, d, gs[x].key, w);
      }
    }
  }

  /** The groups hold each witness once, and one of them is the modern
      reading's. */
  lemma GroupWitnesses(m: ModToken, e: Option<Token>, d: Option<Token>)
    ensures Find(ReadingGroups(m, e, d), Some(ModReading(m))) < |ReadingGroups(m, e, d)|
    ensures multiset(AllMembers(ReadingGroups(m, e, d))) == multiset{ModId, EsqId, DirId}
  {
    GroupAllHasKey(ReadingPairs(m, e, d), 0);
    GroupAllValues(ReadingPairs(m, e, d));
    assert Values(ReadingPairs(m, e, d)) == [ModId, EsqId, DirId];
  }

  /** The group whose key is the modern reading holds `#VMod`. */
  lemma KeyedMod(m: ModToken, e: Option<Token>, d: Option<Token>, g: Group<Option<Reading>, string>)
    requires KeyedBy(m, e, d, g) && g.key == Some(ModReading(m))
    ensures ModId in g.members
  {
    assert IsWitness(ModId) && KeyOf(m, e, d, ModId) == Some(ModReading(m));
  }

  /** What the sorted groups keep of the groups: membership by key and
      the witnesses they hold; they start with the modern reading, and are
      in the order of their sort key. */
  lemma OrderedMembers(m: ModToken, e: Option<Token>, d: Option<Token>)
    ensures forall i :: 0 <= i < |OrderedReadings(m, e, d)| ==> KeyedBy(m, e, d, OrderedReadings(m, e, d)[i])
    ensures multiset(AllMembers(OrderedReadings(m, e, d))) == multiset{ModId, EsqId, DirId}
    ensures InReadingOrder(OrderedReadings(m, e, d))
    ensures |OrderedReadings(m, e, d)| > 0 && ModId in OrderedReadings(m, e, d)[0].members
  {
    var gs := ReadingGroups(m, e, d);
    GroupMembers(m, e, d);
    GroupWitnesses(m, e, d);
    KeyedMod(m, e, d, gs[Find(gs, Some(ModReading(m)))]);
    SortKeyed(gs, m, e, d);
    SortModFirst(gs, Find(gs, Some(ModReading(m))));
  }

  /** Sorting keeps what each group holds and the witnesses overall. */
  lemma SortKeyed(gs: seq<Group<Option<Reading>, string>>, m: ModToken, e: Option<Token>, d: Option<Token>)
    requires forall x :: 0 <= x < |gs| ==> KeyedBy(m, e, d, gs[x])
    ensures forall i :: 0 <= i < |SortBy(ReadingLe(), gs)| ==> KeyedBy(m, e, d, SortBy(ReadingLe(), gs)[i])
    ensures multiset(AllMembers(SortBy(ReadingLe(), gs))) == multiset(AllMembers(gs))
    ensures InReadingOrder(SortBy(ReadingLe(), gs))
  {
    var os := SortBy(ReadingLe(), gs);
    forall i | 0 <= i < |os| ensures KeyedBy(m, e, d, os[i]) {
      assert os[i] in multiset(gs);
      var x :| 0 <= x < |gs| && gs[x] == os[i];
    }
    FlatMapPermutation(MembersOf, os, gs);
    SortedReadings(gs);
  }

  /** Sorted groups come by rank first, then by text. */
  ghost predicate InReadingOrder(os: seq<Group<Option<Reading>, string>>) {
    forall i, j :: 0 <= i < j < |os| ==>
      Rank(os[i]) < Rank(os[j]) || (Rank(os[i]) == Rank(os[j]) && LexLe(TextKey(os[i]), TextKey(os[j])))
  }

  lemma SortedReadings(gs: seq<Group<Option<Reading>, string>>)
    ensures SortedBy(ReadingLe(), SortBy(ReadingLe(), gs))
    ensures InReadingOrder(SortBy(ReadingLe(), gs))
  {
    ReadingLeTotal();
    SortSorted(ReadingLe(), gs);
  }

  /** A group with a reading holding `#VMod` sorts first. */
  lemma SortModFirst(gs: seq<Group<Option<Reading>, string>>, f: nat)
    requires f < |gs| && gs[f].key.Some? && ModId in gs[f].members
    ensures |SortBy(ReadingLe(), gs)| > 0 && ModId in SortBy(ReadingLe(), gs)[0].members
  {
    var os := SortBy(ReadingLe(), gs);
    SortedReadings(gs);
    assert gs[f] in multiset(os);
    var x :| 0 <= x < |os| && os[x] == gs[f];
    assert Rank(os[x]) == 0;
    if x > 0 {
      assert Rank(os[0]) <= Rank(os[x]);
    }
  }

  lemma ContentInjective(a: Option<Reading>, b: Option<Reading>)
    requires Content(a) == Content(b)
    ensures a == b
  {
    if a.Some? && b.Some? {
      assert Content(a)[0] == Content(b)[0];
    }
  }

  /** The `<rdg>` of a group lists its witnesses sorted, and they are
      exactly the witnesses whose reading it holds. */
  lemma RdgOfGroup(m: ModToken, e: Option<Token>, d: Option<Token>, g: Group<Option<Reading>, string>)
    requires KeyedBy(m, e, d, g)
    ensures ReadsAs(m, e, d, ReadingRdg(g))
    ensures multiset(ReadingRdg(g).wits) == multiset(g.members)
    ensures SortedBy(StringLe(), ReadingRdg(g).wits)
  {
    var r := ReadingRdg(g);
    SortedWitsSpec(g.members);
    forall w ensures w in r.wits <==> IsWitness(w) && r.children == Content(KeyOf(m, e, d, w)) {
      assert w in r.wits <==> w in multiset(g.members);
      if r.children == Content(KeyOf(m, e, d, w)) {
        ContentInjective(g.key, KeyOf(m, e, d, w));
      }
    }
  }

  /** A divergence `<app>`: its readings partition the three witnesses;
      each lists its witnesses in sorted order and exactly the witnesses
      whose token it holds (`<w>`/`<pc>`, nothing for an absent token); the
      modern reading comes first. */
  lemma DivergenceSpec(m: ModToken, e: Option<Token>, d: Option<Token>)
    ensures var rs := DivergenceRdgs(m, e, d);
      && multiset(AllWits(rs)) == multiset{ModId, EsqId, DirId}
      && (forall i :: 0 <= i < |rs| ==>
            rs[i].attrs == map[] && rs[i].text == None && SortedBy(StringLe(), rs[i].wits) && ReadsAs(m, e, d, rs[i]))
      && |rs| > 0 && ModId in rs[0].wits
  {
    var os := OrderedReadings(m, e, d);
    OrderedMembers(m, e, d);
    RdgsOfSorted(os, m, e, d);
  }

  /** After the modern reading, the readings with a token follow in
      ascending order of text, and the empty reading comes last. */
  lemma DivergenceOrder(m: ModToken, e: Option<Token>, d: Option<Token>)
    ensures var rs := DivergenceRdgs(m, e, d);
      && (forall i, j :: 0 <= j < i < |rs| ==> rs[j].children == [] ==> rs[i].children == [])
      && (forall i, j :: 0 <= i < j < |rs| && rs[i].children != [] && rs[j].children != [] &&
            ModId !in rs[i].wits && ModId !in rs[j].wits
            ==> LexLe(rs[i].children[0].text, rs[j].children[0].text))
  {
    var os := OrderedReadings(m, e, d);
    OrderedMembers(m, e, d);
    RdgsOfSorted(os, m, e, d);
    EmptyLast(os, DivergenceRdgs(m, e, d));
    TextOrder(os, DivergenceRdgs(m, e, d));
  }

  /** Two witnesses share a `<rdg>` exactly when their readings are the same. */
  lemma SameRdgIff(m: ModToken, e: Option<Token>, d: Option<Token>, r: Rdg, w1: string, w2: string)
    requires ReadsAs(m, e, d, r) && w1 in r.wits && IsWitness(w2)
    ensures w2 in r.wits <==> KeyOf(m, e, d, w1) == KeyOf(m, e, d, w2)
  {
    if w2 in r.wits {
      ContentInjective(KeyOf(m, e, d, w1), KeyOf(m, e, d, w2));
    }
  }

  lemma WitnessKeys(m: ModToken, e: Option<Token>, d: Option<Token>)
    ensures IsWitness(ModId) && IsWitness(EsqId) && IsWitness(DirId)
    ensures KeyOf(m, e, d, ModId) == Some(ModReading(m))
    ensures KeyOf(m, e, d, EsqId) == OldReading(m, e)
    ensures KeyOf(m, e, d, DirId) == OldReading(m, d)
  {
    assert ModId[2] != EsqId[2] && ModId[2] != DirId[2] && EsqId[2] != DirId[2];
  }

  /** The `<rdg>` listing `#VMod` holds the modern token, attributes and all. */
  lemma ModRdgContent(m: ModToken, e: Option<Token>, d: Option<Token>, i: nat)
    requires i < |DivergenceRdgs(m, e, d)| && ModId in DivergenceRdgs(m, e, d)[i].wits
    ensures DivergenceRdgs(m, e, d)[i].children == [Leaf(m.tag, m.attrs, m.orig)]
  {
    DivergenceSpec(m, e, d);
    WitnessKeys(m, e, d);
  }

  /** The `<rdg>` listing a legacy witness holds nothing when that witness
      has no token here, and otherwise its token, which takes the modern
      token's attributes when it is a word (`w`) and keeps its own when not. */
  lemma LegacyRdgContent(m: ModToken, e: Option<Token>, d: Option<Token>, i: nat, w: string)
    requires i < |DivergenceRdgs(m, e, d)| && w in DivergenceRdgs(m, e, d)[i].wits && w != ModId
    ensures var t := if w == EsqId then e else d;
      && (w == EsqId || w == DirId)
      && (t.None? ==> DivergenceRdgs(m, e, d)[i].children == [])
      && (t.Some? && t.value.tag == "w" ==> DivergenceRdgs(m, e, d)[i].children == [Leaf("w", m.attrs, t.value.orig)])
      && (t.Some? && t.value.tag != "w" ==>
            DivergenceRdgs(m, e, d)[i].children == [Leaf(t.value.tag, t.value.attrs, t.value.orig)])
  {
    DivergenceSpec(m, e, d);
    WitnessKeys(m, e, d);
  }

  /** A legacy witness shares the modern `<rdg>` exactly when its token has
      the modern text and tag, and, unless it is a word, the modern
      attributes too. */
  lemma SharesModRdg(m: ModToken, e: Option<Token>, d: Option<Token>, i: nat)
    requires i < |DivergenceRdgs(m, e, d)| && ModId in DivergenceRdgs(m, e, d)[i].wits
    ensures EsqId in DivergenceRdgs(m, e, d)[i].wits <==>
              e.Some? && e.value.orig == m.orig && e.value.tag == m.tag && (e.value.tag == "w" || e.value.attrs == m.attrs)
    ensures DirId in DivergenceRdgs(m, e, d)[i].wits <==>
              d.Some? && d.value.orig == m.orig && d.value.tag == m.tag && (d.value.tag == "w" || d.value.attrs == m.attrs)
  {
    var r := DivergenceRdgs(m, e, d)[i];
    DivergenceSpec(m, e, d);
    WitnessKeys(m, e, d);
    SameRdgIff(m, e, d, r, ModId, EsqId);
    SameRdgIff(m, e, d, r, ModId, DirId);
  }

  /** The two legacy witnesses share a `<rdg>` exactly when both lack a
      token or their keyed readings agree. */
  lemma LegacyShareRdg(m: ModToken, e: Option<Token>, d: Option<Token>, i: nat)
    requires i < |DivergenceRdgs(m, e, d)| && EsqId in DivergenceRdgs(m, e, d)[i].wits
    ensures DirId in DivergenceRdgs(m, e, d)[i].wits <==> OldReading(m, e) == OldReading(m, d)
  {
    DivergenceSpec(m, e, d);
    WitnessKeys(m, e, d);
    SameRdgIff(m, e, d, DivergenceRdgs(m, e, d)[i], EsqId, DirId);
  }

  /** An `<app>` is only emitted for a real divergence: it has at least two
      readings. */
  lemma AppShowsDivergence(m: ModToken, e: Option<Token>, d: Option<Token>)
    requires !Verbatim(m, e, d)
    ensures |DivergenceRdgs(m, e, d)| >= 2
  {
    var rs := DivergenceRdgs(m, e, d);
    DivergenceSpec(m, e, d);
    WitnessKeys(m, e, d);
    if |rs| == 1 {
      OneRdgListsAll(rs);
      SameRdgIff(m, e, d, rs[0], ModId, EsqId);
      SameRdgIff(m, e, d, rs[0], ModId, DirId);
    }
  }

  /** A single reading lists every witness of its `<app>`. */
  lemma OneRdgListsAll(rs: seq<Rdg>)
    requires |rs| == 1 && multiset(AllWits(rs)) == multiset{ModId, EsqId, DirId}
    ensures EsqId in rs[0].wits && DirId in rs[0].wits
  {
    assert AllWits(rs) == rs[0].wits + AllWits(rs[1..]);
    assert AllWits(rs[1..]) == [];
    assert EsqId in multiset(AllWits(rs)) && DirId in multiset(AllWits(rs));
  }

  lemma RdgsOfSorted(os: seq<Group<Option<Reading>, string>>, m: ModToken, e: Option<Token>, d: Option<Token>)
    requires forall i :: 0 <= i < |os| ==> KeyedBy(m, e, d, os[i])
    ensures multiset(AllWits(Render(ReadingRdg, os, |os|))) == multiset(AllMembers(os))
    ensures var rs := Render(ReadingRdg, os, |os|);
      forall i :: 0 <= i < |rs| ==>
        rs[i].attrs == map[] && rs[i].text == None && SortedBy(StringLe(), rs[i].wits) && ReadsAs(m, e, d, rs[i])
    ensures forall i :: 0 <= i < |os| ==>
              && Render(ReadingRdg, os, |os|)[i] == ReadingRdg(os[i])
              && (ModId in Render(ReadingRdg, os, |os|)[i].wits <==> ModId in os[i].members)
  {
    var rs := Render(ReadingRdg, os, |os|);
    forall i | 0 <= i < |os|
      ensures rs[i] == ReadingRdg(os[i])
      ensures multiset(rs[i].wits) == multiset(os[i].members)
      ensures rs[i].attrs == map[] && rs[i].text == None && SortedBy(StringLe(), rs[i].wits) && ReadsAs(m, e, d, rs[i])
      ensures ModId in rs[i].wits <==> ModId in os[i].members
    {
      RenderAt(ReadingRdg, os, |os|, i);
      RdgOfGroup(m, e, d, os[i]);
      assert ModId in rs[i].wits <==> ModId in multiset(os[i].members);
    }
    RenderWits(ReadingRdg, os, |os|);
    assert os[..|os|] == os;
  }

  /** The empty reading sorts after every reading with a token. */
  lemma EmptyLast(os: seq<Group<Option<Reading>, string>>, rs: seq<Rdg>)
    requires InReadingOrder(os) && |rs| == |os|
    requires forall i :: 0 <= i < |os| ==> rs[i] == ReadingRdg(os[i])
    ensures forall i, j :: 0 <= j < i < |rs| ==> rs[j].children == [] ==> rs[i].children == []
  {
    forall i, j | 0 <= j < i < |rs| && rs[j].children == [] ensures rs[i].children == [] {
      assert Rank(os[j]) <= Rank(os[i]);
    }
  }

  /** The readings with a token but without `#VMod` come in ascending order of text. */
  lemma TextOrder(os: seq<Group<Option<Reading>, string>>, rs: seq<Rdg>)
    requires InReadingOrder(os) && |rs| == |os|
    requires forall i :: 0 <= i < |os| ==> rs[i] == ReadingRdg(os[i]) && (ModId in rs[i].wits <==> ModId in os[i].members)
    ensures forall i, j :: 0 <= i < j < |rs| && rs[i].children != [] && rs[j].children != [] &&
              ModId !in rs[i].wits && ModId !in rs[j].wits
              ==> LexLe(rs[i].children[0].text, rs[j].children[0].text)
  {
    forall i, j | 0 <= i < j < |rs| && rs[i].children != [] && rs[j].children != [] &&
                  ModId !in rs[i].wits && ModId !in rs[j].wits
      ensures LexLe(rs[i].children[0].text, rs[j].children[0].text)
    {
      assert os[i].key.Some? && os[j].key.Some?;
      assert Rank(os[i]) == Rank(os[j]) == 1;
    }
  }

  // ---------------------------------------------------------------------
  // The blocks inserted before one base position

  /** `(block, wit_ids[source_wit])` for the entries `lo..hi` of the schedule. */
  function BlockPairs(all: seq<Pending<Token>>, lo: nat, hi: nat): (ps: seq<(seq<Token>, string)>)
    requires lo <= hi <= |all|
    ensures |ps| == hi - lo && forall k :: 0 <= k < hi - lo ==> ps[k] == (all[lo + k].block, WitId(all[lo + k].wit))
  {
    seq(hi - lo, k requires 0 <= k < hi - lo => (all[lo + k].block, WitId(all[lo + k].wit)))
  }

  /** `current_insert_blocks`: the witnesses of the entries `lo..hi`, grouped by block. */
  function BlockGroups(all: seq<Pending<Token>>, lo: nat, hi: nat): seq<Group<seq<Token>, string>>
    requires lo <= hi <= |all|
  {
    GroupAll(BlockPairs(all, lo, hi))
  }

  lemma BlockGroupsStep(all: seq<Pending<Token>>, lo: nat, hi: nat)
    requires lo <= hi < |all|
    ensures BlockGroups(all, lo, hi + 1) == Add(BlockGroups(all, lo, hi), all[hi].block, WitId(all[hi].wit))
  {
    assert BlockPairs(all, lo, hi + 1) == BlockPairs(all, lo, hi) + [(all[hi].block, WitId(all[hi].wit))];
    GroupAllSnoc(BlockPairs(all, lo, hi), (all[hi].block, WitId(all[hi].wit)));
  }

  /** There are groups exactly when there are entries. */
  lemma BlockGroupsEmpty(all: seq<Pending<Token>>, lo: nat, hi: nat)
    requires lo <= hi <= |all|
    ensures BlockGroups(all, lo, hi) == [] <==> lo == hi
  {
    if lo < hi {
      GroupsHoldWits(all, lo, hi);
    }
  }

  /** The entries `lo..hi` are all anchored at `p`. */
  predicate AnchoredAt<T>(all: seq<Pending<T>>, lo: nat, hi: nat, p: nat)
    requires lo <= hi <= |all|
  {
    forall k :: lo <= k < hi ==> all[k].anchor == p
  }

  /** The `while` loop of `collate_line`: it consumes the entries from `ptr0`
      on that are anchored at `p`, and groups them by block. */
  method GatherBlocks(all: seq<Pending<Token>>, ptr0: nat, p: nat) returns (groups: seq<Group<seq<Token>, string>>, ptr: nat)
    requires ptr0 <= |all|
    ensures ptr0 <= ptr <= |all|
    ensures AnchoredAt(all, ptr0, ptr, p)
    ensures ptr < |all| ==> all[ptr].anchor != p
    ensures groups == BlockGroups(all, ptr0, ptr)
  {
    groups := [];
    ptr := ptr0;
    assert BlockPairs(all, ptr0, ptr0) == [];
    while ptr < |all| && all[ptr].anchor == p
      invariant ptr0 <= ptr <= |all|
      invariant AnchoredAt(all, ptr0, ptr, p)
      invariant groups == BlockGroups(all, ptr0, ptr)
      decreases |all| - ptr
    {
      BlockGroupsStep(all, ptr0, ptr);
      groups := Add(groups, all[ptr].block, WitId(all[ptr].wit));
      ptr := ptr + 1;
    }
  }

  /** `0 if k else 1`. */
  function BlockRank(g: Group<seq<Token>, string>): nat {
    if g.key != [] then 0 else 1
  }

  /** The order of `sorted(current_insert_blocks.keys(), key=lambda k: (0 if k
      else 1, str(k)))`, where `blockRepr` stands for `str`. */
  function BlockLe(blockRepr: seq<Token> -> string): (Group<seq<Token>, string>, Group<seq<Token>, string>) -> bool {
    (g: Group<seq<Token>, string>, h: Group<seq<Token>, string>) =>
      BlockRank(g) < BlockRank(h) || (BlockRank(g) == BlockRank(h) && LexLe(blockRepr(g.key), blockRepr(h.key)))
  }

  lemma BlockLeTotal(blockRepr: seq<Token> -> string)
    ensures TotalPreorder(BlockLe(blockRepr))
  {
    var le := BlockLe(blockRepr);
    forall g, h ensures le(g, h) || le(h, g) {
      LexLeTotal(blockRepr(g.key), blockRepr(h.key));
    }
    forall g, h, k | le(g, h) && le(h, k) ensures le(g, k) {
      if BlockRank(g) == BlockRank(h) == BlockRank(k) {
        LexLeTransitive(blockRepr(g.key), blockRepr(h.key), blockRepr(k.key));
      }
    }
  }

  /** The `<w>`/`<pc>` elements rebuilt from the first `n` tokens of a block. */
  function Leaves(block: seq<Token>, n: nat): (r: seq<Leaf>)
    requires n <= |block|
    ensures |r| == n
  {
    if n == 0 then [] else Leaves(block, n - 1) + [Leaf(block[n - 1].tag, block[n - 1].attrs, block[n - 1].orig)]
  }

  /** Each rebuilt element carries the tag, attributes and original text of its token. */
  lemma {:induction false} LeavesAt(block: seq<Token>, n: nat, k: nat)
    requires n <= |block| && k < n
    ensures Leaves(block, n)[k] == Leaf(block[k].tag, block[k].attrs, block[k].orig)
  {
    if k < n - 1 {
      LeavesAt(block, n - 1, k);
    }
  }

  function BlockRdg(g: Group<seq<Token>, string>): Rdg {
    Rdg(SortedWits(g.members), map[], None, Leaves(g.key, |g.key|))
  }

  /** The `<rdg>` elements of the first `n` sorted groups; a group listing
      `#VMod` is skipped. */
  function BlockRdgs(gs: seq<Group<seq<Token>, string>>, n: nat): (r: seq<Rdg>)
    requires n <= |gs|
    ensures |r| <= n
  {
    if n == 0 then []
    else BlockRdgs(gs, n - 1) + (if ModId in gs[n - 1].members then [] else [BlockRdg(gs[n - 1])])
  }

  /** The `<rdg wit="#VMod"/>` that opens every insertion `<app>`. */
  const EmptyModRdg: Rdg := Rdg([ModId], map[], None, [])

  /** The insertion `<app>` for the groups of one base position. */
  function InsertionApp(groups: seq<Group<seq<Token>, string>>, blockRepr: seq<Token> -> string): Node {
    App(InsertionRdgs(SortBy(BlockLe(blockRepr), groups)))
  }

  /** The `<rdg>` elements of an insertion `<app>` whose groups are sorted. */
  function InsertionRdgs(ordered: seq<Group<seq<Token>, string>>): seq<Rdg> {
    [EmptyModRdg] + BlockRdgs(ordered, |ordered|)
  }

  method RenderInsertion(groups: seq<Group<seq<Token>, string>>, blockRepr: seq<Token> -> string) returns (node: Node)
    ensures node == InsertionApp(groups, blockRepr)
  {
    var ordered := SortBy(BlockLe(blockRepr), groups);
    var rdgs := [EmptyModRdg];
    for i := 0 to |ordered|
      invariant rdgs == [EmptyModRdg] + BlockRdgs(ordered, i)
    {
      var g := ordered[i];
      if ModId in g.members {
        continue;
      }
      var children := [];
      for k := 0 to |g.key|
        invariant children == Leaves(g.key, k)
      {
        children := children + [Leaf(g.key[k].tag, g.key[k].attrs, g.key[k].orig)];
      }
      rdgs := rdgs + [Rdg(SortedWits(g.members), map[], None, children)];
    }
    node := App(rdgs);
  }

  // ---------------------------------------------------------------------
  // What an insertion `<app>` says

  /** Group `g` holds exactly the witnesses of the entries `lo..hi` whose block is its key. */
  ghost predicate HoldsWitsOf(all: seq<Pending<Token>>, lo: nat, hi: nat, g: Group<seq<Token>, string>)
    requires lo <= hi <= |all|
  {
    forall w :: w in g.members <==> exists k :: lo <= k < hi && all[k].block == g.key && WitId(all[k].wit) == w
  }

  /** Every entry comes from one of the two legacy witnesses. */
  predicate FromLegacy(all: seq<Pending<Token>>, lo: nat, hi: nat)
    requires lo <= hi <= |all|
  {
    forall k :: lo <= k < hi ==> all[k].wit == "VEsq" || all[k].wit == "VDir"
  }

  lemma GroupHoldsWits(all: seq<Pending<Token>>, lo: nat, hi: nat, x: nat)
    requires lo <= hi <= |all| && x < |BlockGroups(all, lo, hi)|
    ensures HoldsWitsOf(all, lo, hi, BlockGroups(all, lo, hi)[x])
  {
    var ps := BlockPairs(all, lo, hi);
    var g := BlockGroups(all, lo, hi)[x];
    GroupAllMembersIff(ps);
    forall w ensures w in g.members <==> exists k :: lo <= k < hi && all[k].block == g.key && WitId(all[k].wit) == w {
      if (g.key, w) in ps {
        var j :| 0 <= j < |ps| && ps[j] == (g.key, w);
        assert all[lo + j].block == g.key && WitId(all[lo + j].wit) == w;
      }
      if exists k :: lo <= k < hi && all[k].block == g.key && WitId(all[k].wit) == w {
        var k :| lo <= k < hi && all[k].block == g.key && WitId(all[k].wit) == w;
        assert ps[k - lo] == (g.key, w);
      }
    }
  }

  lemma GroupsHoldWits(all: seq<Pending<Token>>, lo: nat, hi: nat)
    requires lo <= hi <= |all|
    ensures forall x :: 0 <= x < |BlockGroups(all, lo, hi)| ==> HoldsWitsOf(all, lo, hi, BlockGroups(all, lo, hi)[x])
    ensures DistinctKeys(BlockGroups(all, lo, hi))
    ensures multiset(AllMembers(BlockGroups(all, lo, hi))) == multiset(Values(BlockPairs(all, lo, hi)))
    ensures forall k :: lo <= k < hi ==> Find(BlockGroups(all, lo, hi), all[k].block) < |BlockGroups(all, lo, hi)|
  {
    var ps := BlockPairs(all, lo, hi);
    var gs := BlockGroups(all, lo, hi);
    forall x | 0 <= x < |gs| ensures HoldsWitsOf(all, lo, hi, gs[x]) {
      GroupHoldsWits(all, lo, hi, x);
    }
    GroupAllShape(ps);
    GroupAllValues(ps);
    forall k | lo <= k < hi ensures Find(gs, all[k].block) < |gs| {
      GroupAllHasKey(ps, k - lo);
    }
  }

  /** Sorting keeps what each group holds, the witnesses overall and the
      distinct keys. */
  lemma SortBlockGroups(all: seq<Pending<Token>>, lo: nat, hi: nat, gs: seq<Group<seq<Token>, string>>, blockRepr: seq<Token> -> string)
    requires lo <= hi <= |all|
    requires forall x :: 0 <= x < |gs| ==> HoldsWitsOf(all, lo, hi, gs[x])
    requires DistinctKeys(gs)
    ensures forall i :: 0 <= i < |SortBy(BlockLe(blockRepr), gs)| ==> HoldsWitsOf(all, lo, hi, SortBy(BlockLe(blockRepr), gs)[i])
    ensures DistinctKeys(SortBy(BlockLe(blockRepr), gs))
    ensures multiset(AllMembers(SortBy(BlockLe(blockRepr), gs))) == multiset(AllMembers(gs))
    ensures forall x :: 0 <= x < |gs| ==> exists i :: 0 <= i < |SortBy(BlockLe(blockRepr), gs)| && SortBy(BlockLe(blockRepr), gs)[i] == gs[x]
  {
    var os := SortBy(BlockLe(blockRepr), gs);
    forall i | 0 <= i < |os| ensures HoldsWitsOf(all, lo, hi, os[i]) {
      assert os[i] in multiset(gs);
      var x :| 0 <= x < |gs| && gs[x] == os[i];
    }
    forall x | 0 <= x < |gs| ensures exists i :: 0 <= i < |os| && os[i] == gs[x] {
      assert gs[x] in multiset(os);
    }
    PermutationKeepsKeys(gs, os);
    FlatMapPermutation(MembersOf, os, gs);
  }

  /** With every entry from a legacy witness no group lists `#VMod`, so
      no group is skipped. */
  lemma {:induction false} BlockRdgsNoSkip(gs: seq<Group<seq<Token>, string>>, n: nat)
    requires n <= |gs| && forall i :: 0 <= i < |gs| ==> ModId !in gs[i].members
    ensures BlockRdgs(gs, n) == Render(BlockRdg, gs, n)
  {
    if n > 0 {
      BlockRdgsNoSkip(gs, n - 1);
    }
  }

  lemma LegacyWitsNotMod(all: seq<Pending<Token>>, lo: nat, hi: nat, g: Group<seq<Token>, string>)
    requires lo <= hi <= |all| && FromLegacy(all, lo, hi) && HoldsWitsOf(all, lo, hi, g)
    ensures ModId !in g.members
  {
  }

  /** The readings of sorted groups none of which lists `#VMod`, after the
      empty `#VMod` reading: one per group, holding its block's tokens and
      listing its witnesses sorted. */
  lemma BlockRdgsOfSorted(os: seq<Group<seq<Token>, string>>)
    requires forall i :: 0 <= i < |os| ==> ModId !in os[i].members
    ensures var rs := InsertionRdgs(os);
      && |rs| == |os| + 1 && rs[0] == EmptyModRdg
      && (forall i :: 0 <= i < |os| ==>
            && rs[i + 1].children == Leaves(os[i].key, |os[i].key|) && rs[i + 1].attrs == map[] && rs[i + 1].text == None
            && SortedBy(StringLe(), rs[i + 1].wits) && multiset(rs[i + 1].wits) == multiset(os[i].members))
      && multiset(AllWits(rs)) == multiset{ModId} + multiset(AllMembers(os))
  {
    BlockRdgsNoSkip(os, |os|);
    var rest := Render(BlockRdg, os, |os|);
    var rs := InsertionRdgs(os);
    forall i | 0 <= i < |os|
      ensures rs[i + 1] == BlockRdg(os[i])
      ensures multiset(rs[i + 1].wits) == multiset(os[i].members)
      ensures SortedBy(StringLe(), rs[i + 1].wits)
    {
      assert rs[i + 1] == rest[i];
      RenderAt(BlockRdg, os, |os|, i);
      SortedWitsSpec(os[i].members);
    }
    RenderWits(BlockRdg, os, |os|);
    assert os[..|os|] == os;
    FlatMapAppend(WitsOf, [EmptyModRdg], rest);
    assert AllWits([EmptyModRdg]) == [ModId] + AllWits([EmptyModRdg][1..]);
  }

  /** The insertion `<app>` for the entries `lo..hi`: the empty `#VMod`
      reading, then one reading per sorted group, holding the group's block
      and listing sorted exactly the witnesses that inserted that block;
      besides `#VMod`, the readings list every inserting witness once per
      entry. */
  lemma InsertionSpec(all: seq<Pending<Token>>, lo: nat, hi: nat, blockRepr: seq<Token> -> string)
    requires lo <= hi <= |all| && FromLegacy(all, lo, hi)
    ensures var os := SortBy(BlockLe(blockRepr), BlockGroups(all, lo, hi));
      var rs := InsertionApp(BlockGroups(all, lo, hi), blockRepr).rdgs;
      && |rs| == |os| + 1 && rs[0] == EmptyModRdg
      && (forall i :: 0 <= i < |os| ==>
            && rs[i + 1].children == Leaves(os[i].key, |os[i].key|) && rs[i + 1].attrs == map[] && rs[i + 1].text == None
            && SortedBy(StringLe(), rs[i + 1].wits) && multiset(rs[i + 1].wits) == multiset(os[i].members))
      && multiset(AllWits(rs)) == multiset{ModId} + multiset(AllMembers(os))
      && (forall i :: 0 <= i < |os| ==> HoldsWitsOf(all, lo, hi, os[i]))
  {
    var os := SortBy(BlockLe(blockRepr), BlockGroups(all, lo, hi));
    assert InsertionApp(BlockGroups(all, lo, hi), blockRepr).rdgs == InsertionRdgs(os);
    SortedLegacyGroups(all, lo, hi, blockRepr);
    BlockRdgsOfSorted(os);
  }

  lemma SortedLegacyGroups(all: seq<Pending<Token>>, lo: nat, hi: nat, blockRepr: seq<Token> -> string)
    requires lo <= hi <= |all| && FromLegacy(all, lo, hi)
    ensures forall i :: 0 <= i < |SortBy(BlockLe(blockRepr), BlockGroups(all, lo, hi))| ==> HoldsWitsOf(all, lo, hi, SortBy(BlockLe(blockRepr), BlockGroups(all, lo, hi))[i])
    ensures forall i :: 0 <= i < |SortBy(BlockLe(blockRepr), BlockGroups(all, lo, hi))| ==> ModId !in SortBy(BlockLe(blockRepr), BlockGroups(all, lo, hi))[i].members
  {
    var gs := BlockGroups(all, lo, hi);
    var os := SortBy(BlockLe(blockRepr), gs);
    GroupsHoldWits(all, lo, hi);
    SortBlockGroups(all, lo, hi, gs, blockRepr);
    forall i | 0 <= i < |os| ensures ModId !in os[i].members {
      LegacyWitsNotMod(all, lo, hi, os[i]);
    }
  }

  /** Every block inserted at this position has exactly one reading, and
      the groups hold every inserting witness once per entry. */
  lemma InsertionCovers(all: seq<Pending<Token>>, lo: nat, hi: nat, blockRepr: seq<Token> -> string)
    requires lo <= hi <= |all|
    ensures var os := SortBy(BlockLe(blockRepr), BlockGroups(all, lo, hi));
      && DistinctKeys(os)
      && (forall k :: lo <= k < hi ==> exists i :: 0 <= i < |os| && os[i].key == all[k].block)
      && multiset(AllMembers(os)) == multiset(Values(BlockPairs(all, lo, hi)))
  {
    var gs := BlockGroups(all, lo, hi);
    var os := SortBy(BlockLe(blockRepr), gs);
    GroupsHoldWits(all, lo, hi);
    SortBlockGroups(all, lo, hi, gs, blockRepr);
    forall k | lo <= k < hi ensures exists i :: 0 <= i < |os| && os[i].key == all[k].block {
      var x := Find(gs, all[k].block);
      var i :| 0 <= i < |os| && os[i] == gs[x];
    }
  }

  /** Insertion blocks are never empty, so the readings come in the order
      of the blocks' representations. */
  lemma InsertionOrder(all: seq<Pending<Token>>, lo: nat, hi: nat, blockRepr: seq<Token> -> string)
    requires lo <= hi <= |all|
    requires forall k :: lo <= k < hi ==> all[k].block != []
    ensures var os := SortBy(BlockLe(blockRepr), BlockGroups(all, lo, hi));
      forall i, j :: 0 <= i < j < |os| ==> LexLe(blockRepr(os[i].key), blockRepr(os[j].key))
  {
    var gs := BlockGroups(all, lo, hi);
    var os := SortBy(BlockLe(blockRepr), gs);
    GroupsHoldWits(all, lo, hi);
    GroupAllShape(BlockPairs(all, lo, hi));
    BlockLeTotal(blockRepr);
    SortSorted(BlockLe(blockRepr), gs);
    forall i | 0 <= i < |os| ensures os[i].key != [] {
      assert os[i] in multiset(gs);
      var x :| 0 <= x < |gs| && gs[x] == os[i];
      GroupKeyIsBlock(all, lo, hi, gs[x]);
    }
    forall i, j | 0 <= i < j < |os| ensures LexLe(blockRepr(os[i].key), blockRepr(os[j].key)) {
      assert BlockLe(blockRepr)(os[i], os[j]);
    }
  }

  /** The key of a non-empty group is the block of one of its entries. */
  lemma GroupKeyIsBlock(all: seq<Pending<Token>>, lo: nat, hi: nat, g: Group<seq<Token>, string>)
    requires lo <= hi <= |all| && HoldsWitsOf(all, lo, hi, g) && g.members != []
    ensures exists k :: lo <= k < hi && all[k].block == g.key
  {
    assert g.members[0] in g.members;
  }
}
