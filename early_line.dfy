/** `collate_line` of the early copy, `juntarversoescompleto.py` at the root
    of the repository: the schedule of insertion blocks is built as in the
    newer copy, but at each base position the blocks of one witness are
    joined into a single text, and every `<rdg>` carries its reading as
    text. */
module EarlyLine {
  import opened Wrappers
  import opened Text
  import opened Sorting
  import opened Xml
  import opened Aligner
  import opened Loops
  import opened Tokens
  import opened Apparatus
  import opened Collator
  import opened LineCollator
  import opened EarlyCollator

  /** `esq_comparable`, `dir_comparable`: the comparable text of each
      legacy token. */
  function OldComps(ts: seq<OldToken>): seq<string> {
    Map(ts, (t: OldToken) => t.comp)
  }

  // ---------------------------------------------------------------------
  // The line, position by position

  /** The `<app>` of the entries `lo..hi`, when there are any. */
  function EarlyInsertionOf(all: seq<Pending<OldToken>>, lo: nat, hi: nat): seq<Node>
    requires lo <= hi <= |all|
  {
    var blocks := BlockTexts(all, lo, hi);
    if blocks != map[] then [App(EarlyInsertionRdgs(blocks))] else []
  }

  /** The `<app>` of the blocks anchored at `p`, when there are any. */
  function EarlyInsertionPart(all: seq<Pending<OldToken>>, p: nat): seq<Node>
    requires AnchorSorted(all)
  {
    StartRuns(all, p, 0);
    EarlyInsertionOf(all, Start(all, p), Start(all, p + 1))
  }

  /** The node of the modern token at `p`, when there is one. */
  function EarlyPositionPart(mod: seq<ModToken>, esqAl: seq<Option<OldToken>>, dirAl: seq<Option<OldToken>>, p: nat)
    : seq<Node>
    requires |esqAl| == |mod| && |dirAl| == |mod|
  {
    if p < |mod| then [EarlyPositionNode(mod[p], esqAl[p], dirAl[p])] else []
  }

  /** What the loop body emits for base position `p`. */
  function EarlyStep(mod: seq<ModToken>, esqAl: seq<Option<OldToken>>, dirAl: seq<Option<OldToken>>,
                     all: seq<Pending<OldToken>>, p: nat): seq<Node>
    requires |esqAl| == |mod| && |dirAl| == |mod| && AnchorSorted(all)
  {
    EarlyInsertionPart(all, p) + EarlyPositionPart(mod, esqAl, dirAl, p)
  }

  function EarlySteps(mod: seq<ModToken>, esqAl: seq<Option<OldToken>>, dirAl: seq<Option<OldToken>>,
                      all: seq<Pending<OldToken>>): nat -> seq<Node>
    requires |esqAl| == |mod| && |dirAl| == |mod| && AnchorSorted(all)
  {
    (p: nat) => EarlyStep(mod, esqAl, dirAl, all, p)
  }

  /** The children of the line after the positions `0..n`. */
  function EarlyLineUpTo(mod: seq<ModToken>, esqAl: seq<Option<OldToken>>, dirAl: seq<Option<OldToken>>,
                         all: seq<Pending<OldToken>>, n: nat): seq<Node>
    requires |esqAl| == |mod| && |dirAl| == |mod| && AnchorSorted(all)
  {
    ConcatenationFrom(EarlySteps(mod, esqAl, dirAl, all), 0, n)
  }

  /** The children of the collated `<l>`, given the opcodes of the two
      diffs. */
  function CollatedEarlyLine(mod: seq<ModToken>, esq: seq<OldToken>, dir: seq<OldToken>,
                             opsE: seq<Opcode>, opsD: seq<Opcode>): seq<Node>
    requires ValidOpcodes(opsE, ModComps(mod), OldComps(esq))
    requires ValidOpcodes(opsD, ModComps(mod), OldComps(dir))
  {
    AlignedLength(opsE, ModComps(mod), OldComps(esq), esq);
    AlignedLength(opsD, ModComps(mod), OldComps(dir), dir);
    ScheduleSpec(Inserts(opsE, esq), Inserts(opsD, dir), 0);
    EarlyLineUpTo(mod, Slots(opsE, esq), Slots(opsD, dir), Schedule(Inserts(opsE, esq), Inserts(opsD, dir)), |mod| + 1)
  }

  /** One pass of the `for mod_idx` loop. */
  method EmitEarlyPosition(mod: seq<ModToken>, esqAl: seq<Option<OldToken>>, dirAl: seq<Option<OldToken>>,
                           all: seq<Pending<OldToken>>, p: nat, ptr0: nat)
    returns (step: seq<Node>, ptr: nat)
    requires |esqAl| == |mod| && |dirAl| == |mod| && AnchorSorted(all)
    requires ptr0 == Start(all, p)
    ensures ptr == Start(all, p + 1)
    ensures step == EarlyStep(mod, esqAl, dirAl, all, p)
  {
    StartRuns(all, p, 0);
    var blocks;
    blocks, ptr := GatherTexts(all, ptr0, p);
    RunIsStart(all, p, ptr0, ptr);
    var insertion := [];
    if blocks != map[] {
      var app := RenderEarlyInsertion(blocks);
      insertion := [app];
    }
    var position := [];
    if p < |mod| {
      var node := RenderEarlyPosition(mod[p], esqAl[p], dirAl[p]);
      position := [node];
    }
    step := insertion + position;
  }

  /** The `for mod_idx` loop over the aligned witnesses and the schedule. */
  method WalkEarly(mod: seq<ModToken>, esqAl: seq<Option<OldToken>>, dirAl: seq<Option<OldToken>>,
                   all: seq<Pending<OldToken>>)
    returns (line: seq<Node>)
    requires |esqAl| == |mod| && |dirAl| == |mod| && AnchorSorted(all)
    ensures line == EarlyLineUpTo(mod, esqAl, dirAl, all, |mod| + 1)
  {
    StartRuns(all, 0, 0);
    line := [];
    var ptr := 0;
    for p := 0 to |mod| + 1
      invariant ptr == Start(all, p)
      invariant line == EarlyLineUpTo(mod, esqAl, dirAl, all, p)
    {
      var step;
      step, ptr := EmitEarlyPosition(mod, esqAl, dirAl, all, p, ptr);
      line := line + step;
    }
  }

  /** `collate_line`, given the opcodes of the two diffs. */
  method CollateEarlyLine(mod: seq<ModToken>, esq: seq<OldToken>, dir: seq<OldToken>,
                          opsE: seq<Opcode>, opsD: seq<Opcode>)
    returns (line: seq<Node>)
    requires ValidOpcodes(opsE, ModComps(mod), OldComps(esq))
    requires ValidOpcodes(opsD, ModComps(mod), OldComps(dir))
    ensures line == CollatedEarlyLine(mod, esq, dir, opsE, opsD)
  {
    var modComparable := ModComps(mod);
    var esqAl, esqIns := AlignTargetToBase(modComparable, esq, OldComps(esq), opsE);
    var dirAl, dirIns := AlignTargetToBase(modComparable, dir, OldComps(dir), opsD);
    AlignedLength(opsE, modComparable, OldComps(esq), esq);
    AlignedLength(opsD, modComparable, OldComps(dir), dir);
    var all := MergeBlocks(esqIns, dirIns);
    line := WalkEarly(mod, esqAl, dirAl, all);
  }

  // ---------------------------------------------------------------------
  // What each witness reads at one position

  /** In a divergence `<app>` every witness reads the text of its own
      reading, or nothing when it has no token there. */
  lemma EarlyDivergenceText(m: ModToken, e: Option<OldToken>, d: Option<OldToken>, w: string)
    requires IsWitness(w)
    ensures RdgsText(EarlyRdgs(m, e, d), w) == OptText(EarlyKey(m, e, d, w).0)
  {
    var rs := EarlyRdgs(m, e, d);
    EarlyDivergenceSpec(m, e, d);
    WitnessesDiffer();
    assert multiset(AllWits(rs))[w] == 1;
    forall i | 0 <= i < |rs| && w in rs[i].wits ensures RdgText(rs[i]) == OptText(EarlyKey(m, e, d, w).0) {
      assert rs[i].children == [] && rs[i].text == EarlyKey(m, e, d, w).0;
    }
    RdgsTextOnce(rs, w, OptText(EarlyKey(m, e, d, w).0));
  }

  /** The node of a base position gives `#VMod` its token's text and each
      legacy witness the text of its aligned token, or nothing. */
  lemma EarlyPositionText(m: ModToken, e: Option<OldToken>, d: Option<OldToken>)
    ensures NodeText(EarlyPositionNode(m, e, d), ModId) == [m.orig]
    ensures NodeText(EarlyPositionNode(m, e, d), EsqId) == OptText(TextOf(e))
    ensures NodeText(EarlyPositionNode(m, e, d), DirId) == OptText(TextOf(d))
  {
    if !EarlyVerbatim(m, e, d) {
      EarlyWitnessKeys(m, e, d);
      EarlyDivergenceText(m, e, d, ModId);
      EarlyDivergenceText(m, e, d, EsqId);
      EarlyDivergenceText(m, e, d, DirId);
    }
  }

  /** The readings of a witness in an insertion `<app>`: `#VMod` reads its
      empty reading, and a legacy witness the joined text of its blocks, if
      it has any here. */
  lemma EarlyInsertionText(blocks: map<string, seq<string>>)
    ensures RdgsText(EarlyInsertionRdgs(blocks), ModId) == []
    ensures RdgsText(EarlyInsertionRdgs(blocks), EsqId)
         == if "VEsq" in blocks then [JoinSpace(TextsOf(blocks, "VEsq"))] else []
    ensures RdgsText(EarlyInsertionRdgs(blocks), DirId)
         == if "VDir" in blocks then [JoinSpace(TextsOf(blocks, "VDir"))] else []
  {
    var rs := EarlyInsertionRdgs(blocks);
    EarlyInsertionShape(blocks);
    EmptyReadsNothing(rs);
    LegacyInsertionText(blocks);
  }

  /** A first reading that says nothing adds nothing to any witness's
      reading. */
  lemma EmptyReadsNothing(rs: seq<Rdg>)
    requires rs != [] && rs[0] == EmptyModRdg
    ensures forall w :: RdgsText(rs, w) == RdgsText(rs[1..], w)
  {
  }

  /** The readings after the empty modern one. */
  lemma LegacyInsertionText(blocks: map<string, seq<string>>)
    ensures RdgsText(EarlyInsertionRdgs(blocks)[1..], ModId) == []
    ensures RdgsText(EarlyInsertionRdgs(blocks)[1..], EsqId)
         == if "VEsq" in blocks then [JoinSpace(TextsOf(blocks, "VEsq"))] else []
    ensures RdgsText(EarlyInsertionRdgs(blocks)[1..], DirId)
         == if "VDir" in blocks then [JoinSpace(TextsOf(blocks, "VDir"))] else []
  {
    WitnessesDiffer();
    LegacyInsertionTextOf(blocks, ModId);
    LegacyInsertionTextOf(blocks, EsqId);
    LegacyInsertionTextOf(blocks, DirId);
  }

  lemma LegacyInsertionTextOf(blocks: map<string, seq<string>>, w: string)
    ensures RdgsText(EarlyInsertionRdgs(blocks)[1..], w)
         == (if w == EsqId && "VEsq" in blocks then [JoinSpace(TextsOf(blocks, "VEsq"))] else [])
          + (if w == DirId && "VDir" in blocks then [JoinSpace(TextsOf(blocks, "VDir"))] else [])
  {
    EarlyInsertionShape(blocks);
    TailText(EarlyInsertionRdgs(blocks)[1..], "VEsq" in blocks, "VDir" in blocks,
             JoinSpace(TextsOf(blocks, "VEsq")), JoinSpace(TextsOf(blocks, "VDir")));
  }

  /** The readings of the legacy witnesses in an insertion `<app>`, when
      `hasE` and `hasD` say which of them have blocks. */
  lemma TailText(tail: seq<Rdg>, hasE: bool, hasD: bool, tE: string, tD: string)
    requires tail ==
      if hasE && hasD then
        if tE == tD then [Rdg([EsqId, DirId], map[], Some(tE), [])]
        else [Rdg([EsqId], map[], Some(tE), []), Rdg([DirId], map[], Some(tD), [])]
      else if hasE then [Rdg([EsqId], map[], Some(tE), [])]
      else if hasD then [Rdg([DirId], map[], Some(tD), [])]
      else []
    ensures forall w :: RdgsText(tail, w) == (if w == EsqId && hasE then [tE] else []) + (if w == DirId && hasD then [tD] else [])
  {
    WitnessesDiffer();
    if hasE && hasD {
      if tE == tD {
        TextRdgsOne(tail, tE, [EsqId, DirId]);
      } else {
        TextRdgsTwo(tail, tE, tD);
      }
    } else if hasE {
      TextRdgsOne(tail, tE, [EsqId]);
    } else if hasD {
      TextRdgsOne(tail, tD, [DirId]);
    }
  }

  lemma TextRdgsOne(rs: seq<Rdg>, t: string, ws: seq<string>)
    requires rs == [Rdg(ws, map[], Some(t), [])]
    ensures forall w :: RdgsText(rs, w) == if w in ws then [t] else []
  {
    assert rs[1..] == [];
  }

  lemma TextRdgsTwo(rs: seq<Rdg>, tE: string, tD: string)
    requires rs == [Rdg([EsqId], map[], Some(tE), []), Rdg([DirId], map[], Some(tD), [])]
    ensures forall w :: RdgsText(rs, w) == (if w == EsqId then [tE] else []) + (if w == DirId then [tD] else [])
  {
    TextRdgsOne(rs[1..], tD, [DirId]);
  }

  // ---------------------------------------------------------------------
  // The run of one base position

  lemma {:induction false} EntryOrigsFlat(s: seq<Pending<OldToken>>)
    ensures FlatMap(EntryOrigs, s) == OldOrigs(FlatMap(BlockOf, s))
  {
    if s != [] {
      EntryOrigsFlat(s[1..]);
      OldOrigsAppend(s[0].block, FlatMap(BlockOf, s[1..]));
    }
  }

  lemma OldOrigsAppend(a: seq<OldToken>, b: seq<OldToken>)
    ensures OldOrigs(a + b) == OldOrigs(a) + OldOrigs(b)
  {
    assert |OldOrigs(a + b)| == |OldOrigs(a) + OldOrigs(b)|;
    forall i | 0 <= i < |a + b| ensures OldOrigs(a + b)[i] == (OldOrigs(a) + OldOrigs(b))[i] {
      if i >= |a| {
        assert (a + b)[i] == b[i - |a|];
      }
    }
  }

  /** A witness's entries at `p` are non-empty exactly when its blocks
      there hold tokens. */
  lemma TaggedNonEmpty(ins: seq<(nat, seq<OldToken>)>, name: string, p: nat)
    requires BlocksNonEmpty(ins)
    ensures Filter(Tagged(ins, name, |ins|), AnchorIs(p)) != [] <==> BlocksAt(ins, p) != []
  {
    var mine := Filter(Tagged(ins, name, |ins|), AnchorIs(p));
    TaggedBlocksAt(ins, name, p);
    if mine != [] {
      FilterIn(Tagged(ins, name, |ins|), AnchorIs(p));
      assert mine[0] in Tagged(ins, name, |ins|);
      var k :| 0 <= k < |ins| && Tagged(ins, name, |ins|)[k] == mine[0];
      TaggedAt(ins, name, |ins|, k);
      assert FlatMap(BlockOf, mine) == mine[0].block + FlatMap(BlockOf, mine[1..]);
    }
  }

  /** What `current_insert_blocks` holds for witness `name` after the run
      `lo..hi`, made of `name`'s entries at `p` and entries of another
      witness, in either order: an entry exactly when it has blocks there,
      holding their texts in order. */
  lemma RunTexts(all: seq<Pending<OldToken>>, lo: nat, hi: nat, mine: seq<Pending<OldToken>>, other: seq<Pending<OldToken>>,
                 ins: seq<(nat, seq<OldToken>)>, name: string, p: nat)
    requires lo <= hi <= |all|
    requires all[lo..hi] == mine + other || all[lo..hi] == other + mine
    requires mine == Filter(Tagged(ins, name, |ins|), AnchorIs(p)) && BlocksNonEmpty(ins)
    requires forall x :: x in mine ==> x.wit == name
    requires forall x :: x in other ==> x.wit != name
    ensures name in BlockTexts(all, lo, hi) <==> BlocksAt(ins, p) != []
    ensures TextsOf(BlockTexts(all, lo, hi), name) == OldOrigs(BlocksAt(ins, p))
  {
    BlockTextsSpec(all, lo, hi, name);
    RunFilter(all[lo..hi], mine, other, name);
    TaggedBlocksAt(ins, name, p);
    EntryOrigsFlat(mine);
    TaggedNonEmpty(ins, name, p);
    RunHasEntry(all, lo, hi, mine, other, name);
  }

  lemma RunFilter(run: seq<Pending<OldToken>>, mine: seq<Pending<OldToken>>, other: seq<Pending<OldToken>>, name: string)
    requires run == mine + other || run == other + mine
    requires forall x :: x in mine ==> x.wit == name
    requires forall x :: x in other ==> x.wit != name
    ensures Filter(run, WitIs(name)) == mine
  {
    FilterAll(mine, WitIs(name));
    FilterNone(other, WitIs(name));
    FilterAppend(mine, other, WitIs(name));
    FilterAppend(other, mine, WitIs(name));
    assert mine + [] == mine && [] + mine == mine;
  }

  lemma RunHasEntry(all: seq<Pending<OldToken>>, lo: nat, hi: nat, mine: seq<Pending<OldToken>>, other: seq<Pending<OldToken>>,
                    name: string)
    requires lo <= hi <= |all|
    requires all[lo..hi] == mine + other || all[lo..hi] == other + mine
    requires forall x :: x in mine ==> x.wit == name
    requires forall x :: x in other ==> x.wit != name
    ensures (exists k :: lo <= k < hi && all[k].wit == name) <==> mine != []
  {
    if mine != [] {
      var j := if all[lo..hi] == mine + other then 0 else |other|;
      assert all[lo..hi][j] == mine[0];
      assert all[lo + j].wit == name;
    }
    forall k | lo <= k < hi && all[k].wit == name ensures mine != [] {
      assert all[k] == all[lo..hi][k - lo];
      assert all[k] in mine + other || all[k] in other + mine;
    }
  }

  /** What a witness reads before the token at `p`: the joined text of its
      blocks anchored there, if it has any. */
  function JoinedAt(ins: seq<(nat, seq<OldToken>)>, p: nat): (r: seq<string>)
    ensures r == [] <==> BlocksAt(ins, p) == []
  {
    if BlocksAt(ins, p) == [] then [] else [JoinSpace(OldOrigs(BlocksAt(ins, p)))]
  }

  /** What a legacy witness reads at position `p`: its joined blocks, then
      its aligned token. */
  function EarlySegment(slots: seq<Option<OldToken>>, ins: seq<(nat, seq<OldToken>)>): nat -> seq<string> {
    (p: nat) => JoinedAt(ins, p) + OldOrigs(SlotToken(slots, p))
  }

  /** What a legacy witness reads over the positions `0..n`. */
  function EarlyReading(slots: seq<Option<OldToken>>, ins: seq<(nat, seq<OldToken>)>, n: nat): seq<string> {
    ConcatenationFrom(EarlySegment(slots, ins), 0, n)
  }

  /** What a legacy witness, aligned by `ops`, reads over the whole line. */
  function WitnessReading(ops: seq<Opcode>, mod: seq<ModToken>, target: seq<OldToken>): seq<string>
    requires ValidOpcodes(ops, ModComps(mod), OldComps(target))
  {
    AlignedLength(ops, ModComps(mod), OldComps(target), target);
    EarlyReading(Slots(ops, target), Inserts(ops, target), |mod| + 1)
  }

  lemma InsertionPartText(all: seq<Pending<OldToken>>, p: nat, w: string)
    requires AnchorSorted(all)
    ensures var blocks := (StartRuns(all, p, 0); BlockTexts(all, Start(all, p), Start(all, p + 1)));
      LineText(EarlyInsertionPart(all, p), w) == if blocks == map[] then [] else RdgsText(EarlyInsertionRdgs(blocks), w)
  {
    StartRuns(all, p, 0);
    var blocks := BlockTexts(all, Start(all, p), Start(all, p + 1));
    if blocks != map[] {
      var app := App(EarlyInsertionRdgs(blocks));
      assert [app][..0] == [];
    }
  }

  /** `#VEsq` reads, in the insertion `<app>` at `p`, the joined text of its
      blocks anchored there. */
  lemma EarlyInsertionReadsEsq(esq: seq<(nat, seq<OldToken>)>, dir: seq<(nat, seq<OldToken>)>, p: nat)
    requires BlocksNonEmpty(esq)
    ensures AnchorSorted(Schedule(esq, dir))
    ensures LineText(EarlyInsertionPart(Schedule(esq, dir), p), EsqId) == JoinedAt(esq, p)
  {
    var all := Schedule(esq, dir);
    ScheduleRun(esq, dir, p);
    var fe := Filter(Tagged(esq, "VEsq", |esq|), AnchorIs(p));
    var fd := Filter(Tagged(dir, "VDir", |dir|), AnchorIs(p));
    RunTexts(all, Start(all, p), Start(all, p + 1), fe, fd, esq, "VEsq", p);
    InsertionPartText(all, p, EsqId);
    EarlyInsertionText(BlockTexts(all, Start(all, p), Start(all, p + 1)));
  }

  lemma EarlyInsertionReadsDir(esq: seq<(nat, seq<OldToken>)>, dir: seq<(nat, seq<OldToken>)>, p: nat)
    requires BlocksNonEmpty(dir)
    ensures AnchorSorted(Schedule(esq, dir))
    ensures LineText(EarlyInsertionPart(Schedule(esq, dir), p), DirId) == JoinedAt(dir, p)
  {
    var all := Schedule(esq, dir);
    ScheduleRun(esq, dir, p);
    var fe := Filter(Tagged(esq, "VEsq", |esq|), AnchorIs(p));
    var fd := Filter(Tagged(dir, "VDir", |dir|), AnchorIs(p));
    RunTexts(all, Start(all, p), Start(all, p + 1), fd, fe, dir, "VDir", p);
    InsertionPartText(all, p, DirId);
    EarlyInsertionText(BlockTexts(all, Start(all, p), Start(all, p + 1)));
  }

  lemma EarlyInsertionReadsMod(all: seq<Pending<OldToken>>, p: nat)
    requires AnchorSorted(all)
    ensures LineText(EarlyInsertionPart(all, p), ModId) == []
  {
    InsertionPartText(all, p, ModId);
    StartRuns(all, p, 0);
    EarlyInsertionText(BlockTexts(all, Start(all, p), Start(all, p + 1)));
  }

  // ---------------------------------------------------------------------
  // What each witness reads in the whole line

  lemma EarlyStepText(mod: seq<ModToken>, esqAl: seq<Option<OldToken>>, dirAl: seq<Option<OldToken>>,
                      all: seq<Pending<OldToken>>, p: nat, w: string, ti: seq<string>, tp: seq<string>)
    requires |esqAl| == |mod| && |dirAl| == |mod| && AnchorSorted(all)
    requires LineText(EarlyInsertionPart(all, p), w) == ti
    requires p < |mod| ==> NodeText(EarlyPositionNode(mod[p], esqAl[p], dirAl[p]), w) == tp
    requires p >= |mod| ==> tp == []
    ensures LineText(EarlyStep(mod, esqAl, dirAl, all, p), w) == ti + tp
  {
    LineTextAppend(EarlyInsertionPart(all, p), EarlyPositionPart(mod, esqAl, dirAl, p), w);
    if p < |mod| {
      assert [EarlyPositionNode(mod[p], esqAl[p], dirAl[p])][..0] == [];
    }
  }

  lemma SlotOrigs(slots: seq<Option<OldToken>>, p: nat)
    ensures p < |slots| ==> OptText(TextOf(slots[p])) == OldOrigs(SlotToken(slots, p))
    ensures p >= |slots| ==> OldOrigs(SlotToken(slots, p)) == []
  {
  }

  lemma EarlyStepReadsEsq(mod: seq<ModToken>, esqAl: seq<Option<OldToken>>, dirAl: seq<Option<OldToken>>,
                          esq: seq<(nat, seq<OldToken>)>, dir: seq<(nat, seq<OldToken>)>, p: nat)
    requires |esqAl| == |mod| && |dirAl| == |mod| && BlocksNonEmpty(esq)
    ensures AnchorSorted(Schedule(esq, dir))
    ensures LineText(EarlyStep(mod, esqAl, dirAl, Schedule(esq, dir), p), EsqId) == EarlySegment(esqAl, esq)(p)
  {
    EarlyInsertionReadsEsq(esq, dir, p);
    if p < |mod| {
      EarlyPositionText(mod[p], esqAl[p], dirAl[p]);
    }
    SlotOrigs(esqAl, p);
    EarlyStepText(mod, esqAl, dirAl, Schedule(esq, dir), p, EsqId, JoinedAt(esq, p), OldOrigs(SlotToken(esqAl, p)));
  }

  lemma EarlyStepReadsDir(mod: seq<ModToken>, esqAl: seq<Option<OldToken>>, dirAl: seq<Option<OldToken>>,
                          esq: seq<(nat, seq<OldToken>)>, dir: seq<(nat, seq<OldToken>)>, p: nat)
    requires |esqAl| == |mod| && |dirAl| == |mod| && BlocksNonEmpty(dir)
    ensures AnchorSorted(Schedule(esq, dir))
    ensures LineText(EarlyStep(mod, esqAl, dirAl, Schedule(esq, dir), p), DirId) == EarlySegment(dirAl, dir)(p)
  {
    EarlyInsertionReadsDir(esq, dir, p);
    if p < |mod| {
      EarlyPositionText(mod[p], esqAl[p], dirAl[p]);
    }
    SlotOrigs(dirAl, p);
    EarlyStepText(mod, esqAl, dirAl, Schedule(esq, dir), p, DirId, JoinedAt(dir, p), OldOrigs(SlotToken(dirAl, p)));
  }

  lemma EarlyStepReadsMod(mod: seq<ModToken>, esqAl: seq<Option<OldToken>>, dirAl: seq<Option<OldToken>>,
                          all: seq<Pending<OldToken>>, p: nat)
    requires |esqAl| == |mod| && |dirAl| == |mod| && AnchorSorted(all)
    ensures LineText(EarlyStep(mod, esqAl, dirAl, all, p), ModId) == ModSegment(mod)(p)
  {
    EarlyInsertionReadsMod(all, p);
    if p < |mod| {
      EarlyPositionText(mod[p], esqAl[p], dirAl[p]);
    }
    EarlyStepText(mod, esqAl, dirAl, all, p, ModId, [], ModSegment(mod)(p));
  }

  /** `#VEsq` reads, over the positions `0..n`, the segments of its
      alignment. */
  lemma EarlyEsqReads(mod: seq<ModToken>, esqAl: seq<Option<OldToken>>, dirAl: seq<Option<OldToken>>,
                      esq: seq<(nat, seq<OldToken>)>, dir: seq<(nat, seq<OldToken>)>, n: nat)
    requires |esqAl| == |mod| && |dirAl| == |mod| && BlocksNonEmpty(esq)
    ensures AnchorSorted(Schedule(esq, dir))
    ensures LineText(EarlyLineUpTo(mod, esqAl, dirAl, Schedule(esq, dir), n), EsqId) == EarlyReading(esqAl, esq, n)
  {
    EarlyInsertionReadsEsq(esq, dir, 0);
    var steps := EarlySteps(mod, esqAl, dirAl, Schedule(esq, dir));
    forall p | 0 <= p < n ensures StepTexts(steps, EsqId)(p) == EarlySegment(esqAl, esq)(p) {
      EarlyStepReadsEsq(mod, esqAl, dirAl, esq, dir, p);
    }
    LineTextConcatenation(steps, EsqId, n);
    ConcatenationKeep(StepTexts(steps, EsqId), EarlySegment(esqAl, esq), 0, n);
  }

  lemma EarlyDirReads(mod: seq<ModToken>, esqAl: seq<Option<OldToken>>, dirAl: seq<Option<OldToken>>,
                      esq: seq<(nat, seq<OldToken>)>, dir: seq<(nat, seq<OldToken>)>, n: nat)
    requires |esqAl| == |mod| && |dirAl| == |mod| && BlocksNonEmpty(dir)
    ensures AnchorSorted(Schedule(esq, dir))
    ensures LineText(EarlyLineUpTo(mod, esqAl, dirAl, Schedule(esq, dir), n), DirId) == EarlyReading(dirAl, dir, n)
  {
    EarlyInsertionReadsDir(esq, dir, 0);
    var steps := EarlySteps(mod, esqAl, dirAl, Schedule(esq, dir));
    forall p | 0 <= p < n ensures StepTexts(steps, DirId)(p) == EarlySegment(dirAl, dir)(p) {
      EarlyStepReadsDir(mod, esqAl, dirAl, esq, dir, p);
    }
    LineTextConcatenation(steps, DirId, n);
    ConcatenationKeep(StepTexts(steps, DirId), EarlySegment(dirAl, dir), 0, n);
  }

  /** `#VMod` reads, over the whole line, its own tokens and nothing else. */
  lemma EarlyModReads(mod: seq<ModToken>, esqAl: seq<Option<OldToken>>, dirAl: seq<Option<OldToken>>,
                      all: seq<Pending<OldToken>>)
    requires |esqAl| == |mod| && |dirAl| == |mod| && AnchorSorted(all)
    ensures LineText(EarlyLineUpTo(mod, esqAl, dirAl, all, |mod| + 1), ModId) == ModOrigs(mod)
  {
    var n := |mod| + 1;
    var steps := EarlySteps(mod, esqAl, dirAl, all);
    forall p | 0 <= p < n ensures StepTexts(steps, ModId)(p) == ModSegment(mod)(p) {
      EarlyStepReadsMod(mod, esqAl, dirAl, all, p);
    }
    LineTextConcatenation(steps, ModId, n);
    ConcatenationKeep(StepTexts(steps, ModId), ModSegment(mod), 0, n);
    ModConcatenation(mod, |mod|);
    assert mod[..|mod|] == mod;
  }

  /** Read with its blocks joined, a legacy witness's reading joins to the
      same text as its tokens in the order of the alignment. */
  lemma {:induction false} EarlyReadingJoins(slots: seq<Option<OldToken>>, ins: seq<(nat, seq<OldToken>)>, n: nat)
    ensures JoinSpace(EarlyReading(slots, ins, n)) == JoinSpace(OldOrigs(Weave(slots, ins, n)))
    ensures EarlyReading(slots, ins, n) == [] <==> OldOrigs(Weave(slots, ins, n)) == []
  {
    if n > 0 {
      EarlyReadingJoins(slots, ins, n - 1);
      var b, s := BlocksAt(ins, n - 1), SlotToken(slots, n - 1);
      OldOrigsAppend(Weave(slots, ins, n - 1), b + s);
      OldOrigsAppend(b, s);
      assert Weave(slots, ins, n) == Weave(slots, ins, n - 1) + (b + s);
      assert JoinSpace(JoinedAt(ins, n - 1)) == JoinSpace(OldOrigs(b));
      JoinSpaceAgree(JoinedAt(ins, n - 1), OldOrigs(b), OldOrigs(s), OldOrigs(s));
      JoinSpaceAgree(EarlyReading(slots, ins, n - 1), OldOrigs(Weave(slots, ins, n - 1)),
                     EarlySegment(slots, ins)(n - 1), OldOrigs(b) + OldOrigs(s));
    }
  }

  // ---------------------------------------------------------------------
  // The collated line reads back as each witness

  /** Every witness can be read back from the collated line: `#VMod` reads
      its own tokens; each legacy witness reads, position by position, the
      joined text of its blocks anchored there and then its aligned token,
      and that reading, joined by spaces, is its own line joined by
      spaces; it reads nothing exactly when its line has no token. */
  lemma EarlyCollationReadsBack(mod: seq<ModToken>, esq: seq<OldToken>, dir: seq<OldToken>,
                                opsE: seq<Opcode>, opsD: seq<Opcode>)
    requires ValidOpcodes(opsE, ModComps(mod), OldComps(esq))
    requires ValidOpcodes(opsD, ModComps(mod), OldComps(dir))
    ensures LineText(CollatedEarlyLine(mod, esq, dir, opsE, opsD), ModId) == ModOrigs(mod)
    ensures LineText(CollatedEarlyLine(mod, esq, dir, opsE, opsD), EsqId) == WitnessReading(opsE, mod, esq)
    ensures LineText(CollatedEarlyLine(mod, esq, dir, opsE, opsD), DirId) == WitnessReading(opsD, mod, dir)
    ensures JoinSpace(LineText(CollatedEarlyLine(mod, esq, dir, opsE, opsD), EsqId)) == JoinSpace(OldOrigs(esq))
    ensures JoinSpace(LineText(CollatedEarlyLine(mod, esq, dir, opsE, opsD), DirId)) == JoinSpace(OldOrigs(dir))
    ensures LineText(CollatedEarlyLine(mod, esq, dir, opsE, opsD), EsqId) == [] <==> esq == []
    ensures LineText(CollatedEarlyLine(mod, esq, dir, opsE, opsD), DirId) == [] <==> dir == []
  {
    AlignPlacesEveryToken(opsE, ModComps(mod), OldComps(esq), esq);
    AlignPlacesEveryToken(opsD, ModComps(mod), OldComps(dir), dir);
    InsertsAnchored(opsE, esq);
    InsertsAnchored(opsD, dir);
    var esqAl, dirAl := Slots(opsE, esq), Slots(opsD, dir);
    var esqIns, dirIns := Inserts(opsE, esq), Inserts(opsD, dir);
    ScheduleSpec(esqIns, dirIns, 0);
    EarlyModReads(mod, esqAl, dirAl, Schedule(esqIns, dirIns));
    EarlyEsqReads(mod, esqAl, dirAl, esqIns, dirIns, |mod| + 1);
    EarlyDirReads(mod, esqAl, dirAl, esqIns, dirIns, |mod| + 1);
    EarlyReadingJoins(esqAl, esqIns, |mod| + 1);
    EarlyReadingJoins(dirAl, dirIns, |mod| + 1);
  }
}
