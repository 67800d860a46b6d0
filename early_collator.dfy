/** The collator of the early copy, `juntarversoescompleto.py` at the root
    of the repository: legacy tokens are `(original, comparable, is_punct)`
    triples and `&` is punctuation; a modern token is copied verbatim when
    its text is that of both aligned tokens; the readings of a divergence
    are keyed by text and attributes and carried as the text of the
    `<rdg>`; and the blocks a witness inserts before one base position are
    joined into one text. */
module EarlyCollator {
  import opened Wrappers
  import opened Text
  import opened Sorting
  import opened Grouping
  import opened Xml
  import opened Tokens
  import opened Apparatus
  import opened Collator

  // ---------------------------------------------------------------------
  // `preprocess_old_version_l`

  /** `(original_text, comparable_text, is_punct)`. */
  datatype OldToken = OldToken(orig: string, comp: string, isPunct: bool)

  /** The token of one match: it is punctuation when it starts with one of
      `.,:;?!&`, and compares in lower case, except `&`, which compares as
      `e`. */
  function OldTokenOf(m: string): OldToken {
    OldToken(m, if m == "&" then "e" else Lower(m), m != [] && IsPunct(m[0]))
  }

  /** A child `<lb break="no"/>` in the TEI namespace (an `lb` in another
      namespace does not join). */
  predicate JoinsTei(c: Element) {
    c.tag == TeiTag("lb") && Get(c, "break") == Some("no")
  }

  /** `full_line_text`. */
  function EarlyLine(l: Element): string {
    FullLine(Parts(l, JoinsTei, |l.children|))
  }

  /** The tokens of the first `n` matches; an empty match is skipped. */
  function OldTokens(ms: seq<string>, n: nat): (ts: seq<OldToken>)
    requires n <= |ms|
    ensures |ts| <= n
  {
    if n == 0 then []
    else OldTokens(ms, n - 1) + (if ms[n - 1] != [] then [OldTokenOf(ms[n - 1])] else [])
  }

  /** What `preprocess_old_version_l` returns for `l`. */
  function OldTokensOf(l: Element): seq<OldToken> {
    OldTokens(Lex(EarlyLine(l)), |Lex(EarlyLine(l))|)
  }

  method TokenizeOld(l: Element) returns (tokens: seq<OldToken>)
    ensures tokens == OldTokensOf(l)
  {
    var parts := Flatten(l, JoinsTei);
    var line := FullLine(parts);
    var matches := Lex(line);
    tokens := [];
    for i := 0 to |matches|
      invariant tokens == OldTokens(matches, i)
    {
      if matches[i] != [] {
        tokens := tokens + [OldTokenOf(matches[i])];
      }
    }
  }

  /** What each token says of its match: its original text is the match;
      it is punctuation exactly when the match is one of `.,:;?!&`, and is
      otherwise a run of word characters; it compares in lower case, and
      `&` as `e`. */
  lemma OldTokenShape(m: string)
    requires IsLexeme(m)
    ensures OldTokenOf(m).orig == m && m != []
    ensures OldTokenOf(m).comp == if m == "&" then "e" else Lower(m)
    ensures OldTokenOf(m).isPunct <==> |m| == 1 && IsPunct(m[0])
    ensures !OldTokenOf(m).isPunct ==> forall i :: 0 <= i < |m| ==> IsWordChar(m[i])
  {
    if !(|m| == 1 && IsPunct(m[0])) {
      assert IsWordChar(m[0]);
    }
  }

  lemma {:induction false} OldTokensAt(ms: seq<string>, n: nat, k: nat)
    requires n <= |ms| && forall i :: 0 <= i < |ms| ==> ms[i] != []
    requires k < n
    ensures |OldTokens(ms, n)| == n && OldTokens(ms, n)[k] == OldTokenOf(ms[k])
  {
    if n > 0 {
      if k < n - 1 {
        OldTokensAt(ms, n - 1, k);
      } else if n > 1 {
        OldTokensAt(ms, n - 1, 0);
      }
    }
  }

  function OldOrigs(ts: seq<OldToken>): seq<string> {
    Map(ts, (t: OldToken) => t.orig)
  }

  /** One token per match of the line, in order, each shaped as
      `OldTokenShape` says; and nothing but white space is lost: the
      original texts of the tokens, concatenated, are the stripped,
      flattened line without its white space. */
  lemma OldTokensSpec(l: Element)
    ensures |OldTokensOf(l)| == |Lex(EarlyLine(l))|
    ensures forall k :: 0 <= k < |OldTokensOf(l)| ==>
              IsLexeme(Lex(EarlyLine(l))[k]) && OldTokensOf(l)[k] == OldTokenOf(Lex(EarlyLine(l))[k])
    ensures Concat(OldOrigs(OldTokensOf(l))) == RemoveSpaces(EarlyLine(l))
  {
    var ms := Lex(EarlyLine(l));
    LexShape(EarlyLine(l));
    var ts := OldTokensOf(l);
    if ms != [] {
      OldTokensAt(ms, |ms|, 0);
    }
    forall k | 0 <= k < |ts| ensures ts[k] == OldTokenOf(ms[k]) {
      OldTokensAt(ms, |ms|, k);
    }
    assert OldOrigs(ts) == ms;
    LexCoversLine(EarlyLine(l));
  }

  // ---------------------------------------------------------------------
  // One base position: a verbatim token or an `<app>` of readings

  /** The original text of an aligned token, `None` for no token. */
  function TextOf(t: Option<OldToken>): (r: Option<string>)
    ensures r.Some? <==> t.Some?
    ensures t.Some? ==> r.value == t.value.orig
  {
    if t.Some? then Some(t.value.orig) else None
  }

  /** Both aligned tokens are present and have the modern token's text. */
  predicate EarlyVerbatim(m: ModToken, e: Option<OldToken>, d: Option<OldToken>) {
    TextOf(e) == Some(m.orig) && TextOf(d) == Some(m.orig)
  }

  /** `group_key`: the text of a reading (`None` for an absent token) and
      its attributes, the modern token's for `VMod` and none for the
      legacy witnesses. */
  type ReadingKey = (Option<string>, map<string, string>)

  function EarlyKey(m: ModToken, e: Option<OldToken>, d: Option<OldToken>, w: string): ReadingKey {
    if w == ModId then (Some(m.orig), m.attrs) else if w == EsqId then (TextOf(e), map[]) else (TextOf(d), map[])
  }

  /** `readings_data`, in its insertion order. */
  function EarlyPairs(m: ModToken, e: Option<OldToken>, d: Option<OldToken>): seq<(ReadingKey, string)> {
    [((Some(m.orig), m.attrs), ModId), ((TextOf(e), map[]), EsqId), ((TextOf(d), map[]), DirId)]
  }

  /** `grouped_rdgs`. */
  function EarlyGroups(m: ModToken, e: Option<OldToken>, d: Option<OldToken>): seq<Group<ReadingKey, string>> {
    GroupAll(EarlyPairs(m, e, d))
  }

  /** The sort key `0 if wit_ids['VMod'] in grouped_rdgs[k] else 1`. */
  function ModFirst(g: Group<ReadingKey, string>): nat {
    if ModId in g.members then 0 else 1
  }

  function ModFirstLe(): (Group<ReadingKey, string>, Group<ReadingKey, string>) -> bool {
    (g: Group<ReadingKey, string>, h: Group<ReadingKey, string>) => ModFirst(g) <= ModFirst(h)
  }

  /** `ordered_keys`. */
  function OrderedEarly(m: ModToken, e: Option<OldToken>, d: Option<OldToken>): seq<Group<ReadingKey, string>> {
    SortBy(ModFirstLe(), EarlyGroups(m, e, d))
  }

  /** A `<rdg>` with the sorted witnesses of its group, the group's
      attributes and, when there is one, its text. */
  function EarlyRdg(g: Group<ReadingKey, string>): Rdg {
    Rdg(SortedWits(g.members), g.key.1, g.key.0, [])
  }

  /** The `<rdg>` elements of a divergence `<app>`, in order. */
  function EarlyRdgs(m: ModToken, e: Option<OldToken>, d: Option<OldToken>): seq<Rdg> {
    Render(EarlyRdg, OrderedEarly(m, e, d), |OrderedEarly(m, e, d)|)
  }

  /** The node `collate_line` emits for a base position. */
  function EarlyPositionNode(m: ModToken, e: Option<OldToken>, d: Option<OldToken>): Node {
    if EarlyVerbatim(m, e, d) then Elem(m.tag, m.attrs, m.orig) else App(EarlyRdgs(m, e, d))
  }

  method RenderEarlyPosition(m: ModToken, e: Option<OldToken>, d: Option<OldToken>) returns (node: Node)
    ensures node == EarlyPositionNode(m, e, d)
  {
    if TextOf(e) == Some(m.orig) && TextOf(d) == Some(m.orig) {
      node := Elem(m.tag, m.attrs, m.orig);
    } else {
      var groups := Add([], (Some(m.orig), m.attrs), ModId);
      groups := Add(groups, (TextOf(e), map[]), EsqId);
      groups := Add(groups, (TextOf(d), map[]), DirId);
      GroupThree(((Some(m.orig), m.attrs), ModId), ((TextOf(e), map[]), EsqId), ((TextOf(d), map[]), DirId));
      var ordered := SortBy(ModFirstLe(), groups);
      var rdgs := RenderAll(EarlyRdg, ordered);
      node := App(rdgs);
    }
  }

  // ---------------------------------------------------------------------
  // What a divergence `<app>` says

  /** Group `g` holds exactly the witnesses whose reading is its key. */
  ghost predicate EarlyKeyedBy(m: ModToken, e: Option<OldToken>, d: Option<OldToken>, g: Group<ReadingKey, string>) {
    forall w :: w in g.members <==> IsWitness(w) && g.key == EarlyKey(m, e, d, w)
  }

  /** `<rdg>` `r` lists exactly the witnesses whose text and attributes it
      carries. */
  ghost predicate EarlyReadsAs(m: ModToken, e: Option<OldToken>, d: Option<OldToken>, r: Rdg) {
    forall w :: w in r.wits <==> IsWitness(w) && (r.text, r.attrs) == EarlyKey(m, e, d, w)
  }

  lemma EarlyPairsOfWitness(m: ModToken, e: Option<OldToken>, d: Option<OldToken>, k: ReadingKey, w: string)
    ensures (k, w) in EarlyPairs(m, e, d) <==> IsWitness(w) && k == EarlyKey(m, e, d, w)
  {
    WitnessesDiffer();
  }

  /** Every group of `grouped_rdgs` holds exactly the witnesses whose
      reading has its key, and the group of `#VMod` comes first, under the
      modern text and attributes. */
  lemma EarlyGroupMembers(m: ModToken, e: Option<OldToken>, d: Option<OldToken>)
    ensures forall x :: 0 <= x < |EarlyGroups(m, e, d)| ==> EarlyKeyedBy(m, e, d, EarlyGroups(m, e, d)[x])
    ensures multiset(AllMembers(EarlyGroups(m, e, d))) == multiset{ModId, EsqId, DirId}
    ensures FirstAndOrdered(EarlyGroups(m, e, d), ModId, EsqId, DirId)
    ensures EarlyGroups(m, e, d)[0].key == (Some(m.orig), m.attrs)
  {
    var gs := EarlyGroups(m, e, d);
    forall x | 0 <= x < |gs| ensures EarlyKeyedBy(m, e, d, gs[x]) {
      EarlyGroupKeyed(m, e, d, x);
    }
    GroupAllValues(EarlyPairs(m, e, d));
    EarlyPairValues(m, e, d);
    WitnessesDiffer();
    GroupThreeOrder(((Some(m.orig), m.attrs), ModId), ((TextOf(e), map[]), EsqId), ((TextOf(d), map[]), DirId));
  }

  lemma EarlyGroupKeyed(m: ModToken, e: Option<OldToken>, d: Option<OldToken>, x: nat)
    requires x < |EarlyGroups(m, e, d)|
    ensures EarlyKeyedBy(m, e, d, EarlyGroups(m, e, d)[x])
  {
    var g := EarlyGroups(m, e, d)[x];
    GroupAllMembersIff(EarlyPairs(m, e, d));
    forall w ensures w in g.members <==> IsWitness(w) && g.key == EarlyKey(m, e, d, w) {
      EarlyPairsOfWitness(m, e, d, g.key, w);
    }
  }

  lemma EarlyPairValues(m: ModToken, e: Option<OldToken>, d: Option<OldToken>)
    ensures Values(EarlyPairs(m, e, d)) == [ModId, EsqId, DirId]
  {
  }

  /** The groups are already in the order of their sort key: sorting them,
      which is stable, keeps them as they are. */
  lemma OrderedIsGrouped(m: ModToken, e: Option<OldToken>, d: Option<OldToken>)
    ensures OrderedEarly(m, e, d) == EarlyGroups(m, e, d)
  {
    var gs := EarlyGroups(m, e, d);
    EarlyGroupMembers(m, e, d);
    assert SortedBy(ModFirstLe(), gs) by {
      forall i, j | 0 <= i < j < |gs| ensures ModFirst(gs[i]) <= ModFirst(gs[j]) {
        assert ModId !in gs[j].members;
      }
    }
    SortByIdentity(ModFirstLe(), gs);
  }

  /** The `<rdg>` of a group lists its witnesses sorted, and they are
      exactly the witnesses whose text and attributes it carries. */
  lemma EarlyRdgOfGroup(m: ModToken, e: Option<OldToken>, d: Option<OldToken>, g: Group<ReadingKey, string>)
    requires EarlyKeyedBy(m, e, d, g)
    ensures EarlyReadsAs(m, e, d, EarlyRdg(g))
    ensures multiset(EarlyRdg(g).wits) == multiset(g.members)
    ensures SortedBy(StringLe(), EarlyRdg(g).wits)
  {
    var r := EarlyRdg(g);
    SortedWitsSpec(g.members);
    forall w ensures w in r.wits <==> IsWitness(w) && (r.text, r.attrs) == EarlyKey(m, e, d, w) {
      assert w in r.wits <==> w in multiset(g.members);
    }
  }

  lemma EarlyRdgsOfGroups(m: ModToken, e: Option<OldToken>, d: Option<OldToken>)
    ensures |EarlyRdgs(m, e, d)| == |EarlyGroups(m, e, d)|
    ensures forall i :: 0 <= i < |EarlyRdgs(m, e, d)| ==>
              && EarlyRdgs(m, e, d)[i] == EarlyRdg(EarlyGroups(m, e, d)[i])
              && multiset(EarlyRdgs(m, e, d)[i].wits) == multiset(EarlyGroups(m, e, d)[i].members)
    ensures forall i :: 0 <= i < |EarlyRdgs(m, e, d)| ==>
              && EarlyRdgs(m, e, d)[i].children == []
              && SortedBy(StringLe(), EarlyRdgs(m, e, d)[i].wits)
              && EarlyReadsAs(m, e, d, EarlyRdgs(m, e, d)[i])
    ensures multiset(AllWits(EarlyRdgs(m, e, d))) == multiset{ModId, EsqId, DirId}
  {
    var gs := EarlyGroups(m, e, d);
    OrderedIsGrouped(m, e, d);
    EarlyGroupMembers(m, e, d);
    var rs := EarlyRdgs(m, e, d);
    forall i | 0 <= i < |gs|
      ensures rs[i] == EarlyRdg(gs[i])
      ensures multiset(rs[i].wits) == multiset(gs[i].members)
      ensures rs[i].children == [] && SortedBy(StringLe(), rs[i].wits) && EarlyReadsAs(m, e, d, rs[i])
    {
      RenderAt(EarlyRdg, gs, |gs|, i);
      EarlyRdgOfGroup(m, e, d, gs[i]);
    }
    assert forall i :: 0 <= i < |gs| ==> multiset(EarlyRdg(gs[i]).wits) == multiset(gs[i].members);
    RenderWits(EarlyRdg, gs, |gs|);
    assert gs[..|gs|] == gs;
  }

  /** A divergence `<app>`: its readings partition the three witnesses;
      each lists its witnesses in sorted order, holds no element, and lists
      exactly the witnesses whose text and attributes it carries; the
      modern reading comes first. */
  lemma EarlyDivergenceSpec(m: ModToken, e: Option<OldToken>, d: Option<OldToken>)
    ensures multiset(AllWits(EarlyRdgs(m, e, d))) == multiset{ModId, EsqId, DirId}
    ensures forall i :: 0 <= i < |EarlyRdgs(m, e, d)| ==>
              && EarlyRdgs(m, e, d)[i].children == []
              && SortedBy(StringLe(), EarlyRdgs(m, e, d)[i].wits)
              && EarlyReadsAs(m, e, d, EarlyRdgs(m, e, d)[i])
    ensures |EarlyRdgs(m, e, d)| > 0 && ModId in EarlyRdgs(m, e, d)[0].wits
  {
    EarlyRdgsOfGroups(m, e, d);
    EarlyGroupMembers(m, e, d);
    var gs, rs := EarlyGroups(m, e, d), EarlyRdgs(m, e, d);
    assert ModId in multiset(gs[0].members);
    assert ModId in multiset(rs[0].wits);
  }

  /** The readings keep the order in which their witnesses first appear in
      `readings_data`: the modern reading first, and a reading of `#VEsq`
      before one of `#VDir` unless `#VDir` shares the modern one. */
  lemma EarlyDivergenceOrder(m: ModToken, e: Option<OldToken>, d: Option<OldToken>)
    ensures var rs := EarlyRdgs(m, e, d);
      && (forall i :: 0 < i < |rs| ==> ModId !in rs[i].wits)
      && (forall i, j :: 0 <= i < |rs| && 0 < j < |rs| && EsqId in rs[i].wits && DirId in rs[j].wits ==> i <= j)
  {
    EarlyRdgsOfGroups(m, e, d);
    EarlyGroupMembers(m, e, d);
    var gs := EarlyGroups(m, e, d);
    var rs := EarlyRdgs(m, e, d);
    forall i | 0 <= i < |rs| ensures forall w :: w in rs[i].wits <==> w in gs[i].members {
      forall w ensures w in rs[i].wits <==> w in gs[i].members {
        assert w in rs[i].wits <==> w in multiset(rs[i].wits);
        assert w in gs[i].members <==> w in multiset(gs[i].members);
      }
    }
  }

  lemma EarlyWitnessKeys(m: ModToken, e: Option<OldToken>, d: Option<OldToken>)
    ensures IsWitness(ModId) && IsWitness(EsqId) && IsWitness(DirId)
    ensures EarlyKey(m, e, d, ModId) == (Some(m.orig), m.attrs)
    ensures EarlyKey(m, e, d, EsqId) == (TextOf(e), map[])
    ensures EarlyKey(m, e, d, DirId) == (TextOf(d), map[])
  {
    WitnessesDiffer();
  }

  /** What each `<rdg>` carries: the modern one the modern text and
      attributes; one of a legacy witness that witness's text, or no text
      when it has no token here, and no attributes. */
  lemma EarlyRdgContent(m: ModToken, e: Option<OldToken>, d: Option<OldToken>, i: nat)
    requires i < |EarlyRdgs(m, e, d)|
    ensures ModId in EarlyRdgs(m, e, d)[i].wits ==>
              EarlyRdgs(m, e, d)[i].text == Some(m.orig) && EarlyRdgs(m, e, d)[i].attrs == m.attrs
    ensures EsqId in EarlyRdgs(m, e, d)[i].wits ==>
              EarlyRdgs(m, e, d)[i].text == TextOf(e) && EarlyRdgs(m, e, d)[i].attrs == map[]
    ensures DirId in EarlyRdgs(m, e, d)[i].wits ==>
              EarlyRdgs(m, e, d)[i].text == TextOf(d) && EarlyRdgs(m, e, d)[i].attrs == map[]
  {
    EarlyDivergenceSpec(m, e, d);
    EarlyWitnessKeys(m, e, d);
  }

  /** A legacy witness shares the modern `<rdg>` exactly when it has a
      token with the modern text and the modern token has no attributes;
      the two legacy witnesses share one exactly when their texts agree,
      absent tokens included. */
  lemma EarlySharing(m: ModToken, e: Option<OldToken>, d: Option<OldToken>, i: nat)
    requires i < |EarlyRdgs(m, e, d)|
    ensures ModId in EarlyRdgs(m, e, d)[i].wits ==>
              (EsqId in EarlyRdgs(m, e, d)[i].wits <==> TextOf(e) == Some(m.orig) && m.attrs == map[])
    ensures ModId in EarlyRdgs(m, e, d)[i].wits ==>
              (DirId in EarlyRdgs(m, e, d)[i].wits <==> TextOf(d) == Some(m.orig) && m.attrs == map[])
    ensures EsqId in EarlyRdgs(m, e, d)[i].wits ==>
              (DirId in EarlyRdgs(m, e, d)[i].wits <==> TextOf(e) == TextOf(d))
  {
    EarlyDivergenceSpec(m, e, d);
    EarlyWitnessKeys(m, e, d);
  }

  /** An `<app>` is only emitted for a real divergence: it has at least two
      readings. */
  lemma EarlyAppShowsDivergence(m: ModToken, e: Option<OldToken>, d: Option<OldToken>)
    requires !EarlyVerbatim(m, e, d)
    ensures |EarlyRdgs(m, e, d)| >= 2
  {
    var rs := EarlyRdgs(m, e, d);
    EarlyDivergenceSpec(m, e, d);
    EarlyWitnessKeys(m, e, d);
    if |rs| == 1 {
      assert AllWits(rs) == rs[0].wits + AllWits(rs[1..]);
      assert AllWits(rs[1..]) == [];
      assert EsqId in multiset(AllWits(rs)) && DirId in multiset(AllWits(rs));
      EarlySharing(m, e, d, 0);
    }
  }

  // ---------------------------------------------------------------------
  // The blocks inserted before one base position

  /** What `current_insert_blocks` holds for witness name `wit`. */
  function TextsOf(blocks: map<string, seq<string>>, wit: string): seq<string> {
    if wit in blocks then blocks[wit] else []
  }

  /** `current_insert_blocks` after the entries `lo..hi`: each entry's
      witness name gets the original texts of its block appended. */
  function BlockTexts(all: seq<Pending<OldToken>>, lo: nat, hi: nat): map<string, seq<string>>
    requires lo <= hi <= |all|
    decreases hi - lo
  {
    if hi == lo then map[]
    else
      var b := BlockTexts(all, lo, hi - 1);
      b[all[hi - 1].wit := TextsOf(b, all[hi - 1].wit) + OldOrigs(all[hi - 1].block)]
  }

  function EntryOrigs(x: Pending<OldToken>): seq<string> {
    OldOrigs(x.block)
  }

  function WitIs(wit: string): Pending<OldToken> -> bool {
    (x: Pending<OldToken>) => x.wit == wit
  }

  /** A witness name has an entry in `current_insert_blocks` exactly when
      one of the entries `lo..hi` is its, and then holds the original
      texts of all its blocks among them, in order. */
  lemma {:induction false} BlockTextsSpec(all: seq<Pending<OldToken>>, lo: nat, hi: nat, wit: string)
    requires lo <= hi <= |all|
    ensures wit in BlockTexts(all, lo, hi) <==> exists k :: lo <= k < hi && all[k].wit == wit
    ensures TextsOf(BlockTexts(all, lo, hi), wit) == FlatMap(EntryOrigs, Filter(all[lo..hi], WitIs(wit)))
  {
    BlockTextsHas(all, lo, hi, wit);
    BlockTextsOf(all, lo, hi, wit);
  }

  lemma {:induction false} BlockTextsHas(all: seq<Pending<OldToken>>, lo: nat, hi: nat, wit: string)
    requires lo <= hi <= |all|
    ensures wit in BlockTexts(all, lo, hi) <==> exists k :: lo <= k < hi && all[k].wit == wit
    decreases hi - lo
  {
    if hi > lo {
      BlockTextsHas(all, lo, hi - 1, wit);
      assert BlockTexts(all, lo, hi).Keys == BlockTexts(all, lo, hi - 1).Keys + {all[hi - 1].wit};
      WitnessKeyStep(BlockTexts(all, lo, hi - 1), BlockTexts(all, lo, hi), all, lo, hi, wit);
    }
  }

  lemma WitnessKeyStep(b: map<string, seq<string>>, b2: map<string, seq<string>>,
                       all: seq<Pending<OldToken>>, lo: nat, hi: nat, wit: string)
    requires lo < hi <= |all| && b2.Keys == b.Keys + {all[hi - 1].wit}
    requires wit in b <==> exists k :: lo <= k < hi - 1 && all[k].wit == wit
    ensures wit in b2 <==> exists k :: lo <= k < hi && all[k].wit == wit
  {
    if all[hi - 1].wit != wit && exists k :: lo <= k < hi && all[k].wit == wit {
      var k :| lo <= k < hi && all[k].wit == wit;
      assert k < hi - 1;
    }
  }

  lemma {:induction false} BlockTextsOf(all: seq<Pending<OldToken>>, lo: nat, hi: nat, wit: string)
    requires lo <= hi <= |all|
    ensures TextsOf(BlockTexts(all, lo, hi), wit) == FlatMap(EntryOrigs, Filter(all[lo..hi], WitIs(wit)))
    decreases hi - lo
  {
    if hi == lo {
      assert all[lo..hi] == [];
    } else {
      BlockTextsOf(all, lo, hi - 1, wit);
      SliceSnoc(all, lo, hi);
      FilterSnoc(all[lo..hi - 1], all[hi - 1], WitIs(wit));
      FlatMapSnoc(EntryOrigs, Filter(all[lo..hi - 1], WitIs(wit)), all[hi - 1]);
    }
  }

  /** `if current_insert_blocks:` holds exactly when there are entries. */
  lemma BlockTextsEmpty(all: seq<Pending<OldToken>>, lo: nat, hi: nat)
    requires lo <= hi <= |all|
    ensures BlockTexts(all, lo, hi) == map[] <==> lo == hi
  {
    if lo < hi {
      assert all[hi - 1].wit in BlockTexts(all, lo, hi);
    }
  }

  /** The `while` loop of `collate_line`: it consumes the entries from
      `ptr0` on that are anchored at `p`, and collects their texts by
      witness. */
  method GatherTexts(all: seq<Pending<OldToken>>, ptr0: nat, p: nat) returns (blocks: map<string, seq<string>>, ptr: nat)
    requires ptr0 <= |all|
    ensures ptr0 <= ptr <= |all|
    ensures AnchoredAt(all, ptr0, ptr, p)
    ensures ptr < |all| ==> all[ptr].anchor != p
    ensures blocks == BlockTexts(all, ptr0, ptr)
  {
    blocks := map[];
    ptr := ptr0;
    while ptr < |all| && all[ptr].anchor == p
      invariant ptr0 <= ptr <= |all|
      invariant AnchoredAt(all, ptr0, ptr, p)
      invariant blocks == BlockTexts(all, ptr0, ptr)
      decreases |all| - ptr
    {
      var x := all[ptr];
      var texts := if x.wit in blocks then blocks[x.wit] else [];
      blocks := blocks[x.wit := texts + OldOrigs(x.block)];
      ptr := ptr + 1;
    }
  }

  /** `grouped_insert_rdgs` is filled from `VEsq`, then `VDir`: the joined
      texts of each witness that has blocks here. */
  function TextPairs(blocks: map<string, seq<string>>): seq<(string, string)> {
    (if "VEsq" in blocks then [(JoinSpace(blocks["VEsq"]), EsqId)] else [])
    + (if "VDir" in blocks then [(JoinSpace(blocks["VDir"]), DirId)] else [])
  }

  /** A `<rdg>` of an insertion: its witnesses as they were grouped, and
      the joined text. */
  function TextRdg(g: Group<string, string>): Rdg {
    Rdg(g.members, map[], Some(g.key), [])
  }

  /** The `<rdg>` elements of the insertion `<app>`. */
  function EarlyInsertionRdgs(blocks: map<string, seq<string>>): seq<Rdg> {
    var gs := GroupAll(TextPairs(blocks));
    [EmptyModRdg] + Render(TextRdg, gs, |gs|)
  }

  method RenderEarlyInsertion(blocks: map<string, seq<string>>) returns (node: Node)
    ensures node == App(EarlyInsertionRdgs(blocks))
  {
    var groups := [];
    if "VEsq" in blocks {
      groups := Add(groups, JoinSpace(blocks["VEsq"]), EsqId);
    }
    if "VDir" in blocks {
      groups := Add(groups, JoinSpace(blocks["VDir"]), DirId);
    }
    assert groups == GroupAll(TextPairs(blocks)) by {
      InsertionGroups(blocks);
    }
    var rdgs := RenderAll(TextRdg, groups);
    node := App([EmptyModRdg] + rdgs);
  }

  lemma InsertionGroups(blocks: map<string, seq<string>>)
    ensures var tE, tD := JoinSpace(TextsOf(blocks, "VEsq")), JoinSpace(TextsOf(blocks, "VDir"));
      GroupAll(TextPairs(blocks)) ==
        if "VEsq" in blocks && "VDir" in blocks then Add(Add([], tE, EsqId), tD, DirId)
        else if "VEsq" in blocks then Add([], tE, EsqId)
        else if "VDir" in blocks then Add([], tD, DirId)
        else []
  {
    var tE, tD := JoinSpace(TextsOf(blocks, "VEsq")), JoinSpace(TextsOf(blocks, "VDir"));
    if "VEsq" in blocks && "VDir" in blocks {
      assert TextPairs(blocks) == [(tE, EsqId), (tD, DirId)];
      assert [(tE, EsqId), (tD, DirId)][..1] == [(tE, EsqId)];
      GroupOne((tE, EsqId));
    } else if "VEsq" in blocks {
      assert TextPairs(blocks) == [(tE, EsqId)];
      GroupOne((tE, EsqId));
    } else if "VDir" in blocks {
      assert TextPairs(blocks) == [(tD, DirId)];
      GroupOne((tD, DirId));
    }
  }

  /** The insertion `<app>`: the empty modern reading, then one reading per
      distinct joined text, `#VEsq`'s first; the two legacy witnesses share
      a reading exactly when both have blocks here and their joined texts
      agree, and then it lists `#VEsq` before `#VDir`. */
  lemma EarlyInsertionShape(blocks: map<string, seq<string>>)
    ensures var rs, tE, tD := EarlyInsertionRdgs(blocks), JoinSpace(TextsOf(blocks, "VEsq")), JoinSpace(TextsOf(blocks, "VDir"));
      rs == [EmptyModRdg] +
        if "VEsq" in blocks && "VDir" in blocks then
          if tE == tD then [Rdg([EsqId, DirId], map[], Some(tE), [])]
          else [Rdg([EsqId], map[], Some(tE), []), Rdg([DirId], map[], Some(tD), [])]
        else if "VEsq" in blocks then [Rdg([EsqId], map[], Some(tE), [])]
        else if "VDir" in blocks then [Rdg([DirId], map[], Some(tD), [])]
        else []
  {
    var tE, tD := JoinSpace(TextsOf(blocks, "VEsq")), JoinSpace(TextsOf(blocks, "VDir"));
    if "VEsq" in blocks && "VDir" in blocks {
      assert TextPairs(blocks) == [(tE, EsqId), (tD, DirId)];
      RenderTwoTexts(tE, tD);
    } else if "VEsq" in blocks {
      assert TextPairs(blocks) == [(tE, EsqId)];
      RenderOneText(tE, EsqId);
    } else if "VDir" in blocks {
      assert TextPairs(blocks) == [(tD, DirId)];
      RenderOneText(tD, DirId);
    } else {
      assert TextPairs(blocks) == [];
    }
  }

  /** The readings of one joined text. */
  lemma RenderOneText(t: string, w: string)
    ensures Render(TextRdg, GroupAll([(t, w)]), |GroupAll([(t, w)])|) == [Rdg([w], map[], Some(t), [])]
  {
    GroupOne((t, w));
    RenderSmall(TextRdg, GroupAll([(t, w)]));
  }

  /** The readings of the two joined texts: one when they agree, else one
      each, `#VEsq`'s first. */
  lemma RenderTwoTexts(tE: string, tD: string)
    ensures var gs := GroupAll([(tE, EsqId), (tD, DirId)]);
      Render(TextRdg, gs, |gs|) ==
        if tE == tD then [Rdg([EsqId, DirId], map[], Some(tE), [])]
        else [Rdg([EsqId], map[], Some(tE), []), Rdg([DirId], map[], Some(tD), [])]
  {
    GroupTwoCases((tE, EsqId), (tD, DirId));
    RenderSmall(TextRdg, GroupAll([(tE, EsqId), (tD, DirId)]));
  }
}
