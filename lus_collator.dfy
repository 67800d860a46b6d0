/** `collate_lus` of `LusiadasTextos/juntarversoescompleto.py`: canto 1 of
    each witness is looked up, its stanzas and their lines are walked by
    position up to the longest witness, and each line triple is collated. */
module LusCollator {
  import opened Wrappers
  import opened Xml
  import opened Aligner
  import opened Loops
  import opened Tokens
  import opened Apparatus
  import opened Collator
  import opened LineCollator
  import opened TeiDoc

  /** The diff `SequenceMatcher(None, a, b).get_opcodes()` stands for. */
  type Differ = (seq<string>, seq<string>) -> seq<Opcode>

  ghost predicate Sound(differ: Differ) {
    forall a, b :: ValidOpcodes(differ(a, b), a, b)
  }

  predicate VersesReadable(vs: seq<Element>) {
    forall j :: 0 <= j < |vs| ==> ModernReadable(vs[j])
  }

  /** Every line of every numbered stanza is readable: those are the
      stanzas whose lines `collate_lus` tokenizes. */
  predicate StanzasReadable(ms: seq<Element>) {
    forall i :: 0 <= i < |ms| && Get(ms[i], "n").Some? ==> VersesReadable(Verses(Some(ms[i])))
  }

  /** What `collate_lus` demands of the modern document: once the lookups
      succeed, no `<w>` or `<pc>` of a line it tokenizes lacks text. */
  predicate ModernLinesReadable(modRoot: Element, esqRoot: Element, dirRoot: Element) {
    LookupError(modRoot, esqRoot, dirRoot) == None ==> StanzasReadable(Stanzas(CantosOne(modRoot)[0]))
  }

  // ---------------------------------------------------------------------
  // One line triple

  function ModTokensOf(l: Element): seq<ModToken>
    requires ModernReadable(l)
  {
    ModernChildrenHaveText(l);
    ModernTokens(ModernChildren(l), |ModernChildren(l)|)
  }

  /** `preprocess_modern_l(l_mod) if l_mod is not None else []`. */
  function ModLine(l: Option<Element>): seq<ModToken>
    requires l.None? || ModernReadable(l.value)
  {
    if l.Some? then ModTokensOf(l.value) else []
  }

  /** `preprocess_old_version_l(l) if l is not None else []`. */
  function OldLine(l: Option<Element>): seq<Token> {
    if l.Some? then LegacyTokensOf(l.value) else []
  }

  /** The children of the `<l>` that `collate_line` returns for one line
      triple. */
  function LusLine(differ: Differ, blockRepr: seq<Token> -> string,
                   lm: Option<Element>, le: Option<Element>, ld: Option<Element>): seq<Node>
    requires Sound(differ) && (lm.None? || ModernReadable(lm.value))
  {
    var m, e, d := ModLine(lm), OldLine(le), OldLine(ld);
    CollatedLine(m, e, d, differ(ModComps(m), LegacyComps(e)), differ(ModComps(m), LegacyComps(d)), blockRepr)
  }

  // ---------------------------------------------------------------------
  // Stanzas

  /** The body of the `for j` loop as a step: the line of position `j`. */
  function LineSteps(differ: Differ, blockRepr: seq<Token> -> string,
                     vm: seq<Element>, ve: seq<Element>, vd: seq<Element>): nat -> seq<seq<Node>>
    requires Sound(differ) && VersesReadable(vm)
  {
    (j: nat) => [LusLine(differ, blockRepr, At(vm, j), At(ve, j), At(vd, j))]
  }

  /** The collated lines of the positions `0..n` of three stanzas, a
      missing line standing for no tokens. */
  function LinesUpTo(differ: Differ, blockRepr: seq<Token> -> string,
                     vm: seq<Element>, ve: seq<Element>, vd: seq<Element>, n: nat): seq<seq<Node>>
    requires Sound(differ) && VersesReadable(vm)
  {
    ConcatenationFrom(LineSteps(differ, blockRepr, vm, ve, vd), 0, n)
  }

  /** The lines of one collated stanza: one per position up to the longest
      of the three stanzas. */
  function StanzaLines(differ: Differ, blockRepr: seq<Token> -> string,
                       sm: Option<Element>, se: Option<Element>, sd: Option<Element>): (r: seq<seq<Node>>)
    requires Sound(differ) && VersesReadable(Verses(sm))
  {
    var vm, ve, vd := Verses(sm), Verses(se), Verses(sd);
    LinesUpTo(differ, blockRepr, vm, ve, vd, Max3(|vm|, |ve|, |vd|))
  }

  /** The collated stanza of position `i`, unless it has no number. */
  function StanzaAt(differ: Differ, blockRepr: seq<Token> -> string,
                    ms: seq<Element>, es: seq<Element>, ds: seq<Element>, i: nat): Option<Tree>
    requires Sound(differ) && StanzasReadable(ms)
  {
    var sm, se, sd := At(ms, i), At(es, i), At(ds, i);
    var n := StanzaN(sm, se, sd);
    if n.None? then None else Some(StanzaTree(n.value, StanzaLines(differ, blockRepr, sm, se, sd)))
  }

  /** The body of the `for i` loop as a step: the stanza of position `i`,
      if any. */
  function StanzaOpt(differ: Differ, blockRepr: seq<Token> -> string,
                     ms: seq<Element>, es: seq<Element>, ds: seq<Element>): nat -> Option<Tree>
    requires Sound(differ) && StanzasReadable(ms)
  {
    (i: nat) => StanzaAt(differ, blockRepr, ms, es, ds, i)
  }

  /** The collated stanzas of the positions `0..k`. */
  function StanzasUpTo(differ: Differ, blockRepr: seq<Token> -> string,
                       ms: seq<Element>, es: seq<Element>, ds: seq<Element>, k: nat): seq<Tree>
    requires Sound(differ) && StanzasReadable(ms)
  {
    ConcatenationFrom(Picked(StanzaOpt(differ, blockRepr, ms, es, ds)), 0, k)
  }

  /** What `collate_lus` returns, as a tree, or the error it raises. */
  function CollateLusSpec(modRoot: Element, esqRoot: Element, dirRoot: Element,
                          differ: Differ, blockRepr: seq<Token> -> string): Result<Tree>
    requires Sound(differ) && ModernLinesReadable(modRoot, esqRoot, dirRoot)
  {
    var err := LookupError(modRoot, esqRoot, dirRoot);
    if err.Some? then Failure(err.value)
    else
      var cm, ce, cd := CantosOne(modRoot)[0], CantosOne(esqRoot)[0], CantosOne(dirRoot)[0];
      var ms, es, ds := Stanzas(cm), Stanzas(ce), Stanzas(cd);
      Success(Document(HeadPart(cm), StanzasUpTo(differ, blockRepr, ms, es, ds, Max3(|ms|, |es|, |ds|))))
  }

  // ---------------------------------------------------------------------
  // The loops

  /** The body of the `for j` loop: tokenize the three lines, those that
      exist, and collate them. */
  method CollateTriple(differ: Differ, blockRepr: seq<Token> -> string,
                       lm: Option<Element>, le: Option<Element>, ld: Option<Element>) returns (line: seq<Node>)
    requires Sound(differ) && (lm.None? || ModernReadable(lm.value))
    ensures line == LusLine(differ, blockRepr, lm, le, ld)
  {
    var tm: seq<ModToken> := [];
    if lm.Some? {
      tm := TokenizeModern(lm.value);
    }
    var te: seq<Token> := [];
    if le.Some? {
      te := TokenizeLegacy(le.value);
    }
    var td: seq<Token> := [];
    if ld.Some? {
      td := TokenizeLegacy(ld.value);
    }
    line := CollateLine(tm, te, td, differ(ModComps(tm), LegacyComps(te)), differ(ModComps(tm), LegacyComps(td)), blockRepr);
  }

  /** The `for j in range(max_lines)` loop of one stanza. */
  method CollateStanza(differ: Differ, blockRepr: seq<Token> -> string,
                       sm: Option<Element>, se: Option<Element>, sd: Option<Element>) returns (lines: seq<seq<Node>>)
    requires Sound(differ) && VersesReadable(Verses(sm))
    ensures lines == StanzaLines(differ, blockRepr, sm, se, sd)
  {
    var vm, ve, vd := Verses(sm), Verses(se), Verses(sd);
    var maxLines := Max3(|vm|, |ve|, |vd|);
    lines := [];
    for j := 0 to maxLines
      invariant lines == LinesUpTo(differ, blockRepr, vm, ve, vd, j)
    {
      var line := CollateTriple(differ, blockRepr, At(vm, j), At(ve, j), At(vd, j));
      lines := lines + [line];
    }
  }

  /** A numbered stanza's lines can be read. */
  lemma ReadableAt(ms: seq<Element>, es: seq<Element>, ds: seq<Element>, i: nat)
    requires StanzasReadable(ms)
    ensures StanzaN(At(ms, i), At(es, i), At(ds, i)).Some? ==> VersesReadable(Verses(At(ms, i)))
  {
  }

  /** The body of the `for i` loop: a stanza without a number is skipped,
      any other is collated and appended. */
  method EmitStanza(differ: Differ, blockRepr: seq<Token> -> string,
                    ms: seq<Element>, es: seq<Element>, ds: seq<Element>, i: nat, stanzas0: seq<Tree>)
    returns (stanzas: seq<Tree>)
    requires Sound(differ) && StanzasReadable(ms)
    requires stanzas0 == StanzasUpTo(differ, blockRepr, ms, es, ds, i)
    ensures stanzas == StanzasUpTo(differ, blockRepr, ms, es, ds, i + 1)
  {
    var sm, se, sd := At(ms, i), At(es, i), At(ds, i);
    var n := StanzaN(sm, se, sd);
    if n.None? {
      return stanzas0;
    }
    ReadableAt(ms, es, ds, i);
    var lines := CollateStanza(differ, blockRepr, sm, se, sd);
    stanzas := stanzas0 + [StanzaTree(n.value, lines)];
  }

  /** `collate_lus`, after parsing. */
  method CollateLus(modRoot: Element, esqRoot: Element, dirRoot: Element,
                    differ: Differ, blockRepr: seq<Token> -> string) returns (r: Result<Tree>)
    requires Sound(differ) && ModernLinesReadable(modRoot, esqRoot, dirRoot)
    ensures r == CollateLusSpec(modRoot, esqRoot, dirRoot, differ, blockRepr)
  {
    var cm, ce, cd := CantosOne(modRoot), CantosOne(esqRoot), CantosOne(dirRoot);
    if cm == [] || ce == [] || cd == [] {
      return Failure(CantoMissing);
    }
    var head := HeadPart(cm[0]);
    var ms, es, ds := Stanzas(cm[0]), Stanzas(ce[0]), Stanzas(cd[0]);
    if ms == [] || es == [] || ds == [] {
      return Failure(StanzasMissing);
    }
    var maxStanzas := Max3(|ms|, |es|, |ds|);
    var stanzas: seq<Tree> := [];
    for i := 0 to maxStanzas
      invariant stanzas == StanzasUpTo(differ, blockRepr, ms, es, ds, i)
    {
      stanzas := EmitStanza(differ, blockRepr, ms, es, ds, i, stanzas);
    }
    r := Success(Document(head, stanzas));
  }

  // ---------------------------------------------------------------------
  // What the collated document holds

  /** `collate_lus` fails exactly when a lookup fails, with the message of
      the first lookup that fails. */
  lemma CollateLusErrors(modRoot: Element, esqRoot: Element, dirRoot: Element,
                         differ: Differ, blockRepr: seq<Token> -> string)
    requires Sound(differ) && ModernLinesReadable(modRoot, esqRoot, dirRoot)
    ensures var r := CollateLusSpec(modRoot, esqRoot, dirRoot, differ, blockRepr);
            && (r.Failure? && r.error == CantoMissing <==>
                  CantosOne(modRoot) == [] || CantosOne(esqRoot) == [] || CantosOne(dirRoot) == [])
            && (r.Failure? && r.error == StanzasMissing <==>
                  && CantosOne(modRoot) != [] && CantosOne(esqRoot) != [] && CantosOne(dirRoot) != []
                  && (Stanzas(CantosOne(modRoot)[0]) == [] || Stanzas(CantosOne(esqRoot)[0]) == []
                      || Stanzas(CantosOne(dirRoot)[0]) == []))
            && (r.Success? <==> LookupError(modRoot, esqRoot, dirRoot) == None)
  {
    assert |CantoMissing| != |StanzasMissing|;
  }

  /** The number of the stanza of each position. */
  function NumberOpt(ms: seq<Element>, es: seq<Element>, ds: seq<Element>): nat -> Option<string> {
    (i: nat) => StanzaN(At(ms, i), At(es, i), At(ds, i))
  }

  /** The positions `i < k` whose stanza has a number, in order. */
  function Numbered(ms: seq<Element>, es: seq<Element>, ds: seq<Element>, k: nat): seq<nat> {
    ListedUpTo(NumberOpt(ms, es, ds), k)
  }

  /** The numbered positions below `k`: increasing, each there exactly
      when its stanza has a number, all of them when all have one. */
  lemma NumberedSpec(ms: seq<Element>, es: seq<Element>, ds: seq<Element>, k: nat)
    ensures var ix := Numbered(ms, es, ds, k);
            && (forall t :: 0 <= t < |ix| ==> ix[t] < k)
            && (forall t, u :: 0 <= t < u < |ix| ==> ix[t] < ix[u])
            && (forall i :: 0 <= i < k ==> (i in ix <==> StanzaN(At(ms, i), At(es, i), At(ds, i)).Some?))
            && ((forall i :: 0 <= i < k ==> StanzaN(At(ms, i), At(es, i), At(ds, i)).Some?) ==> |ix| == k)
  {
    ListedIncrease(NumberOpt(ms, es, ds), k);
    ListedMembers(NumberOpt(ms, es, ds), k);
  }

  /** One collated stanza per numbered position below `k`, in order: a
      position whose stanza has no number produces nothing. */
  lemma StanzasEmitted(differ: Differ, blockRepr: seq<Token> -> string,
                       ms: seq<Element>, es: seq<Element>, ds: seq<Element>, k: nat)
    requires Sound(differ) && StanzasReadable(ms)
    ensures var ss, ix := StanzasUpTo(differ, blockRepr, ms, es, ds, k), Numbered(ms, es, ds, k);
            && |ss| == |ix|
            && (forall t :: 0 <= t < |ix| ==>
                  StanzaAt(differ, blockRepr, ms, es, ds, ix[t]).Some?
                  && ss[t] == StanzaAt(differ, blockRepr, ms, es, ds, ix[t]).value)
  {
    PickedAt(StanzaOpt(differ, blockRepr, ms, es, ds), NumberOpt(ms, es, ds), k);
  }

  /** A collated stanza has one line per position up to the longest of the
      three stanzas, line `j` being the collation of the three lines `j`,
      those that exist. */
  lemma StanzaLinesAt(differ: Differ, blockRepr: seq<Token> -> string,
                      sm: Option<Element>, se: Option<Element>, sd: Option<Element>)
    requires Sound(differ) && VersesReadable(Verses(sm))
    ensures var ls, vm, ve, vd := StanzaLines(differ, blockRepr, sm, se, sd), Verses(sm), Verses(se), Verses(sd);
            && |ls| == Max3(|vm|, |ve|, |vd|)
            && forall j :: 0 <= j < |ls| ==> ls[j] == LusLine(differ, blockRepr, At(vm, j), At(ve, j), At(vd, j))
  {
    var vm, ve, vd := Verses(sm), Verses(se), Verses(sd);
    var n := Max3(|vm|, |ve|, |vd|);
    SingletonsAt(LineSteps(differ, blockRepr, vm, ve, vd), n, 0);
    forall j | 0 <= j < n
      ensures LinesUpTo(differ, blockRepr, vm, ve, vd, n)[j] == LusLine(differ, blockRepr, At(vm, j), At(ve, j), At(vd, j))
    {
      SingletonsAt(LineSteps(differ, blockRepr, vm, ve, vd), n, j);
    }
  }

  /** A position yields a collated stanza exactly when its stanza has a
      number; the stanza carries that number and the lines of the three
      stanzas of the position. */
  lemma StanzaShape(differ: Differ, blockRepr: seq<Token> -> string,
                    ms: seq<Element>, es: seq<Element>, ds: seq<Element>, i: nat)
    requires Sound(differ) && StanzasReadable(ms)
    ensures var t, sm, se, sd := StanzaAt(differ, blockRepr, ms, es, ds, i), At(ms, i), At(es, i), At(ds, i);
            && (t.Some? <==> StanzaN(sm, se, sd).Some?)
            && (t.Some? ==> && VersesReadable(Verses(sm))
                            && t.value.Tree? && t.value.tag == TeiTag("lg")
                            && t.value.attrs == map["type" := "estrofe", "n" := StanzaN(sm, se, sd).value]
                            && |t.value.kids| == |StanzaLines(differ, blockRepr, sm, se, sd)|
                            && forall j :: 0 <= j < |t.value.kids| ==>
                                 t.value.kids[j] == Line(StanzaLines(differ, blockRepr, sm, se, sd)[j]))
  {
    ReadableAt(ms, es, ds, i);
  }

  /** Every witness reads its own line back from a collated line: `#VMod`
      always; a legacy witness when its diff places at most one insertion
      block per position; and a witness whose line is missing reads
      nothing. */
  lemma LusLineReadsBack(differ: Differ, blockRepr: seq<Token> -> string,
                         lm: Option<Element>, le: Option<Element>, ld: Option<Element>)
    requires Sound(differ) && (lm.None? || ModernReadable(lm.value))
    ensures LineText(LusLine(differ, blockRepr, lm, le, ld), ModId) == ModOrigs(ModLine(lm))
    ensures var m, e := ModLine(lm), OldLine(le);
            InsertsOnce(differ(ModComps(m), LegacyComps(e)), m, e) ==>
            LineText(LusLine(differ, blockRepr, lm, le, ld), EsqId) == Origs(e)
    ensures var m, d := ModLine(lm), OldLine(ld);
            InsertsOnce(differ(ModComps(m), LegacyComps(d)), m, d) ==>
            LineText(LusLine(differ, blockRepr, lm, le, ld), DirId) == Origs(d)
    ensures le.None? ==> LineText(LusLine(differ, blockRepr, lm, le, ld), EsqId) == []
    ensures ld.None? ==> LineText(LusLine(differ, blockRepr, lm, le, ld), DirId) == []
  {
    var m, e, d := ModLine(lm), OldLine(le), OldLine(ld);
    var opsE, opsD := differ(ModComps(m), LegacyComps(e)), differ(ModComps(m), LegacyComps(d));
    CollationReadsBack(m, e, d, opsE, opsD, blockRepr);
    AlignedLength(opsE, ModComps(m), LegacyComps(e), e);
    AlignedLength(opsD, ModComps(m), LegacyComps(d), d);
    if le.None? {
      NoInsertsForEmpty(opsE, e);
    }
    if ld.None? {
      NoInsertsForEmpty(opsD, d);
    }
  }
}
