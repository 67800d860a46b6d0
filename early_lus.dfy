/** `collate_lus` of the early `juntarversoescompleto.py`: the same walk
    over canto 1, its stanzas and their lines as the newer copy, with the
    early tokenizer for the legacy lines and the early line collator. */
module EarlyLus {
  import opened Wrappers
  import opened Text
  import opened Xml
  import opened Aligner
  import opened Loops
  import opened Tokens
  import opened Apparatus
  import opened Collator
  import opened LineCollator
  import opened LusCollator
  import opened TeiDoc
  import opened EarlyCollator
  import opened EarlyLine

  // ---------------------------------------------------------------------
  // One line triple

  /** `preprocess_old_version_l(l) if l is not None else []`, with the
      early tokenizer. */
  function EarlyOldLine(l: Option<Element>): (r: seq<OldToken>)
    ensures l.None? ==> r == []
    ensures l.Some? ==> Concat(OldOrigs(r)) == RemoveSpaces(EarlyCollator.EarlyLine(l.value))
  {
    if l.Some? then (OldTokensSpec(l.value); OldTokensOf(l.value)) else []
  }

  /** The children of the `<l>` that the early `collate_line` returns for
      one line triple. */
  function EarlyLusLine(differ: Differ, lm: Option<Element>, le: Option<Element>, ld: Option<Element>): seq<Node>
    requires Sound(differ) && (lm.None? || ModernReadable(lm.value))
  {
    var m, e, d := ModLine(lm), EarlyOldLine(le), EarlyOldLine(ld);
    CollatedEarlyLine(m, e, d, differ(ModComps(m), OldComps(e)), differ(ModComps(m), OldComps(d)))
  }

  // ---------------------------------------------------------------------
  // Stanzas

  /** The early `estrofe_n`: the `n` of the modern stanza, else of the
      `#VEsq` one, else of the `#VDir` one, which is not checked for being
      there; it agrees with the newer copy's lookup wherever one of the
      three stanzas exists. */
  function EarlyStanzaN(m: Option<Element>, e: Option<Element>, d: Option<Element>): (r: Option<string>)
    requires m.Some? || e.Some? || d.Some?
    ensures r == StanzaN(m, e, d)
  {
    if m.Some? then Get(m.value, "n")
    else if e.Some? then Get(e.value, "n")
    else Get(d.value, "n")
  }

  /** The body of the `for j` loop as a step: the line of position `j`. */
  function EarlyLineSteps(differ: Differ, vm: seq<Element>, ve: seq<Element>, vd: seq<Element>): nat -> seq<seq<Node>>
    requires Sound(differ) && VersesReadable(vm)
  {
    (j: nat) => [EarlyLusLine(differ, At(vm, j), At(ve, j), At(vd, j))]
  }

  /** The collated lines of the positions `0..n` of three stanzas. */
  function EarlyLinesUpTo(differ: Differ, vm: seq<Element>, ve: seq<Element>, vd: seq<Element>, n: nat): seq<seq<Node>>
    requires Sound(differ) && VersesReadable(vm)
  {
    ConcatenationFrom(EarlyLineSteps(differ, vm, ve, vd), 0, n)
  }

  /** The lines of one collated stanza: one per position up to the longest
      of the three stanzas. */
  function EarlyStanzaLines(differ: Differ, sm: Option<Element>, se: Option<Element>, sd: Option<Element>): seq<seq<Node>>
    requires Sound(differ) && VersesReadable(Verses(sm))
  {
    var vm, ve, vd := Verses(sm), Verses(se), Verses(sd);
    EarlyLinesUpTo(differ, vm, ve, vd, Max3(|vm|, |ve|, |vd|))
  }

  /** The collated stanza of position `i`, unless it has no number. */
  function EarlyStanzaAt(differ: Differ, ms: seq<Element>, es: seq<Element>, ds: seq<Element>, i: nat): Option<Tree>
    requires Sound(differ) && StanzasReadable(ms)
  {
    var sm, se, sd := At(ms, i), At(es, i), At(ds, i);
    var n := StanzaN(sm, se, sd);
    if n.None? then None else Some(StanzaTree(n.value, EarlyStanzaLines(differ, sm, se, sd)))
  }

  function EarlyStanzaOpt(differ: Differ, ms: seq<Element>, es: seq<Element>, ds: seq<Element>): nat -> Option<Tree>
    requires Sound(differ) && StanzasReadable(ms)
  {
    (i: nat) => EarlyStanzaAt(differ, ms, es, ds, i)
  }

  /** The collated stanzas of the positions `0..k`. */
  function EarlyStanzasUpTo(differ: Differ, ms: seq<Element>, es: seq<Element>, ds: seq<Element>, k: nat): seq<Tree>
    requires Sound(differ) && StanzasReadable(ms)
  {
    ConcatenationFrom(Picked(EarlyStanzaOpt(differ, ms, es, ds)), 0, k)
  }

  /** What the early `collate_lus` returns, as a tree, or the error it
      raises. */
  function EarlyCollateLusSpec(modRoot: Element, esqRoot: Element, dirRoot: Element, differ: Differ): Result<Tree>
    requires Sound(differ) && ModernLinesReadable(modRoot, esqRoot, dirRoot)
  {
    var err := LookupError(modRoot, esqRoot, dirRoot);
    if err.Some? then Failure(err.value)
    else
      var cm, ce, cd := CantosOne(modRoot)[0], CantosOne(esqRoot)[0], CantosOne(dirRoot)[0];
      var ms, es, ds := Stanzas(cm), Stanzas(ce), Stanzas(cd);
      Success(Document(HeadPart(cm), EarlyStanzasUpTo(differ, ms, es, ds, Max3(|ms|, |es|, |ds|))))
  }

  // ---------------------------------------------------------------------
  // The loops

  /** The body of the `for j` loop: tokenize the three lines, those that
      exist, and collate them. */
  method CollateEarlyTriple(differ: Differ, lm: Option<Element>, le: Option<Element>, ld: Option<Element>)
    returns (line: seq<Node>)
    requires Sound(differ) && (lm.None? || ModernReadable(lm.value))
    ensures line == EarlyLusLine(differ, lm, le, ld)
  {
    var tm: seq<ModToken> := [];
    if lm.Some? {
      tm := TokenizeModern(lm.value);
    }
    var te: seq<OldToken> := [];
    if le.Some? {
      te := TokenizeOld(le.value);
    }
    var td: seq<OldToken> := [];
    if ld.Some? {
      td := TokenizeOld(ld.value);
    }
    line := CollateEarlyLine(tm, te, td, differ(ModComps(tm), OldComps(te)), differ(ModComps(tm), OldComps(td)));
  }

  /** The `for j in range(max_lines)` loop of one stanza. */
  method CollateEarlyStanza(differ: Differ, sm: Option<Element>, se: Option<Element>, sd: Option<Element>)
    returns (lines: seq<seq<Node>>)
    requires Sound(differ) && VersesReadable(Verses(sm))
    ensures lines == EarlyStanzaLines(differ, sm, se, sd)
  {
    var vm, ve, vd := Verses(sm), Verses(se), Verses(sd);
    var maxLines := Max3(|vm|, |ve|, |vd|);
    lines := [];
    for j := 0 to maxLines
      invariant lines == EarlyLinesUpTo(differ, vm, ve, vd, j)
    {
      var line := CollateEarlyTriple(differ, At(vm, j), At(ve, j), At(vd, j));
      lines := lines + [line];
    }
  }

  /** The body of the `for i` loop: a stanza without a number is skipped,
      any other is collated and appended. Below the longest stanza list one
      of the three stanzas exists, so the unchecked lookup never fails. */
  method EmitEarlyStanza(differ: Differ, ms: seq<Element>, es: seq<Element>, ds: seq<Element>, i: nat,
                         stanzas0: seq<Tree>)
    returns (stanzas: seq<Tree>)
    requires Sound(differ) && StanzasReadable(ms)
    requires i < Max3(|ms|, |es|, |ds|)
    requires stanzas0 == EarlyStanzasUpTo(differ, ms, es, ds, i)
    ensures stanzas == EarlyStanzasUpTo(differ, ms, es, ds, i + 1)
  {
    var sm, se, sd := At(ms, i), At(es, i), At(ds, i);
    var n := EarlyStanzaN(sm, se, sd);
    if n.None? {
      return stanzas0;
    }
    ReadableAt(ms, es, ds, i);
    var lines := CollateEarlyStanza(differ, sm, se, sd);
    stanzas := stanzas0 + [StanzaTree(n.value, lines)];
  }

  /** The early `collate_lus`, after parsing. */
  method CollateEarlyLus(modRoot: Element, esqRoot: Element, dirRoot: Element, differ: Differ)
    returns (r: Result<Tree>)
    requires Sound(differ) && ModernLinesReadable(modRoot, esqRoot, dirRoot)
    ensures r == EarlyCollateLusSpec(modRoot, esqRoot, dirRoot, differ)
  {
    var cm, ce, cd := CantosOne(modRoot), CantosOne(esqRoot), CantosOne(dirRoot);
    if cm == [] || ce == [] || cd == [] {
      return Failure(CantoMissing);
    }
    var head := HeadPart(cm[0]);
    var ms, es, ds := Stanzas(cm[0]), Stanzas(ce[0]), Stanzas(cd[0]);
    if ms == [] || es == [] || ds == [] {
      return Failure(StanzasMissing);
    }
    var maxStanzas := Max3(|ms|, |es|, |ds|);
    var stanzas: seq<Tree> := [];
    for i := 0 to maxStanzas
      invariant stanzas == EarlyStanzasUpTo(differ, ms, es, ds, i)
    {
      stanzas := EmitEarlyStanza(differ, ms, es, ds, i, stanzas);
    }
    r := Success(Document(head, stanzas));
  }

  // ---------------------------------------------------------------------
  // What the collated document holds

  /** The early `collate_lus` fails exactly when a lookup fails, with the
      message of the first lookup that fails. */
  lemma EarlyCollateLusErrors(modRoot: Element, esqRoot: Element, dirRoot: Element, differ: Differ)
    requires Sound(differ) && ModernLinesReadable(modRoot, esqRoot, dirRoot)
    ensures var r := EarlyCollateLusSpec(modRoot, esqRoot, dirRoot, differ);
            && (r.Failure? && r.error == CantoMissing <==>
                  CantosOne(modRoot) == [] || CantosOne(esqRoot) == [] || CantosOne(dirRoot) == [])
            && (r.Failure? && r.error == StanzasMissing <==>
                  && CantosOne(modRoot) != [] && CantosOne(esqRoot) != [] && CantosOne(dirRoot) != []
                  && (Stanzas(CantosOne(modRoot)[0]) == [] || Stanzas(CantosOne(esqRoot)[0]) == []
                      || Stanzas(CantosOne(dirRoot)[0]) == []))
            && (r.Success? <==> LookupError(modRoot, esqRoot, dirRoot) == None)
  {
    assert |CantoMissing| != |StanzasMissing|;
  }

  /** One collated stanza per numbered position below `k`, in order. */
  lemma EarlyStanzasEmitted(differ: Differ, ms: seq<Element>, es: seq<Element>, ds: seq<Element>, k: nat)
    requires Sound(differ) && StanzasReadable(ms)
    ensures var ss, ix := EarlyStanzasUpTo(differ, ms, es, ds, k), Numbered(ms, es, ds, k);
            && |ss| == |ix|
            && (forall t :: 0 <= t < |ix| ==>
                  EarlyStanzaAt(differ, ms, es, ds, ix[t]).Some?
                  && ss[t] == EarlyStanzaAt(differ, ms, es, ds, ix[t]).value)
  {
    PickedAt(EarlyStanzaOpt(differ, ms, es, ds), NumberOpt(ms, es, ds), k);
  }

  /** A collated stanza has one line per position up to the longest of the
      three stanzas, line `j` being the collation of the three lines `j`. */
  lemma EarlyStanzaLinesAt(differ: Differ, sm: Option<Element>, se: Option<Element>, sd: Option<Element>)
    requires Sound(differ) && VersesReadable(Verses(sm))
    ensures var ls, vm, ve, vd := EarlyStanzaLines(differ, sm, se, sd), Verses(sm), Verses(se), Verses(sd);
            && |ls| == Max3(|vm|, |ve|, |vd|)
            && forall j :: 0 <= j < |ls| ==> ls[j] == EarlyLusLine(differ, At(vm, j), At(ve, j), At(vd, j))
  {
    var vm, ve, vd := Verses(sm), Verses(se), Verses(sd);
    var n := Max3(|vm|, |ve|, |vd|);
    SingletonsAt(EarlyLineSteps(differ, vm, ve, vd), n, 0);
    forall j | 0 <= j < n
      ensures EarlyLinesUpTo(differ, vm, ve, vd, n)[j] == EarlyLusLine(differ, At(vm, j), At(ve, j), At(vd, j))
    {
      SingletonsAt(EarlyLineSteps(differ, vm, ve, vd), n, j);
    }
  }

  /** A position yields a collated stanza exactly when its stanza has a
      number; the stanza carries that number and the collated lines. */
  lemma EarlyStanzaShape(differ: Differ, ms: seq<Element>, es: seq<Element>, ds: seq<Element>, i: nat)
    requires Sound(differ) && StanzasReadable(ms)
    ensures var t, sm, se, sd := EarlyStanzaAt(differ, ms, es, ds, i), At(ms, i), At(es, i), At(ds, i);
            && (t.Some? <==> StanzaN(sm, se, sd).Some?)
            && (t.Some? ==> && VersesReadable(Verses(sm))
                            && t.value.Tree? && t.value.tag == TeiTag("lg")
                            && t.value.attrs == map["type" := "estrofe", "n" := StanzaN(sm, se, sd).value]
                            && |t.value.kids| == |EarlyStanzaLines(differ, sm, se, sd)|
                            && forall j :: 0 <= j < |t.value.kids| ==>
                                 t.value.kids[j] == Line(EarlyStanzaLines(differ, sm, se, sd)[j]))
  {
    ReadableAt(ms, es, ds, i);
  }

  /** Every witness reads its own line back from a collated line: `#VMod`
      its tokens; a legacy witness, joined by spaces, its line's tokens
      joined by spaces; and a witness whose line is missing reads
      nothing. */
  lemma EarlyLusLineReadsBack(differ: Differ, lm: Option<Element>, le: Option<Element>, ld: Option<Element>)
    requires Sound(differ) && (lm.None? || ModernReadable(lm.value))
    ensures LineText(EarlyLusLine(differ, lm, le, ld), ModId) == ModOrigs(ModLine(lm))
    ensures JoinSpace(LineText(EarlyLusLine(differ, lm, le, ld), EsqId)) == JoinSpace(OldOrigs(EarlyOldLine(le)))
    ensures JoinSpace(LineText(EarlyLusLine(differ, lm, le, ld), DirId)) == JoinSpace(OldOrigs(EarlyOldLine(ld)))
    ensures le.None? ==> LineText(EarlyLusLine(differ, lm, le, ld), EsqId) == []
    ensures ld.None? ==> LineText(EarlyLusLine(differ, lm, le, ld), DirId) == []
  {
    var m, e, d := ModLine(lm), EarlyOldLine(le), EarlyOldLine(ld);
    EarlyCollationReadsBack(m, e, d, differ(ModComps(m), OldComps(e)), differ(ModComps(m), OldComps(d)));
  }
}
