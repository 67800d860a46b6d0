/** `collate_line` of `LusiadasTextos/juntarversoescompleto.py`: both legacy
    witnesses are aligned to the modern one, their insertion blocks are
    merged into one schedule sorted by anchor, and for every base position
    the line receives the `<app>` of the blocks anchored there, if any, and
    then the node of the modern token. */
module LineCollator {
  import opened Wrappers
  import opened Sorting
  import opened Grouping
  import opened Xml
  import opened Aligner
  import opened Loops
  import opened Tokens
  import opened Apparatus
  import opened Collator

  /** `mod_comparable`. */
  function ModComps(mod: seq<ModToken>): seq<string> {
    Map(mod, (t: ModToken) => t.comp)
  }

  /** `esq_comparable`, `dir_comparable`. */
  function LegacyComps(ts: seq<Token>): seq<string> {
    Map(ts, (t: Token) => t.comp)
  }

  /** The opcodes of a diff of the modern comparables against a legacy
      witness's: its slots are one per modern token. */
  lemma AlignedLength<T>(ops: seq<Opcode>, a: seq<string>, b: seq<string>, target: seq<T>)
    requires ValidOpcodes(ops, a, b) && |target| == |b|
    ensures Layout(ops, |target|) && |Slots(ops, target)| == |a|
  {
    AlignPlacesEveryToken(ops, a, b, target);
  }

  // ---------------------------------------------------------------------
  // The line, position by position

  /** The `<app>` of the entries `lo..hi`, when there are any. */
  function InsertionOf(all: seq<Pending<Token>>, lo: nat, hi: nat, blockRepr: seq<Token> -> string): seq<Node>
    requires lo <= hi <= |all|
  {
    var groups := BlockGroups(all, lo, hi);
    if groups != [] then [InsertionApp(groups, blockRepr)] else []
  }

  /** The `<app>` of the blocks anchored at `p`, when there are any. */
  function InsertionPart(all: seq<Pending<Token>>, blockRepr: seq<Token> -> string, p: nat): seq<Node>
    requires AnchorSorted(all)
  {
    StartRuns(all, p, 0);
    InsertionOf(all, Start(all, p), Start(all, p + 1), blockRepr)
  }

  /** The node of the modern token at `p`, when there is one. */
  function PositionPart(mod: seq<ModToken>, esqAl: seq<Option<Token>>, dirAl: seq<Option<Token>>, p: nat): seq<Node>
    requires |esqAl| == |mod| && |dirAl| == |mod|
  {
    if p < |mod| then [PositionNode(mod[p], esqAl[p], dirAl[p])] else []
  }

  /** What the loop body emits for base position `p`. */
  function LineStep(mod: seq<ModToken>, esqAl: seq<Option<Token>>, dirAl: seq<Option<Token>>,
                    all: seq<Pending<Token>>, blockRepr: seq<Token> -> string, p: nat): seq<Node>
    requires |esqAl| == |mod| && |dirAl| == |mod| && AnchorSorted(all)
  {
    InsertionPart(all, blockRepr, p) + PositionPart(mod, esqAl, dirAl, p)
  }

  /** The loop body, position by position. */
  function Steps(mod: seq<ModToken>, esqAl: seq<Option<Token>>, dirAl: seq<Option<Token>>,
                 all: seq<Pending<Token>>, blockRepr: seq<Token> -> string): nat -> seq<Node>
    requires |esqAl| == |mod| && |dirAl| == |mod| && AnchorSorted(all)
  {
    (p: nat) => LineStep(mod, esqAl, dirAl, all, blockRepr, p)
  }

  /** The children of the line after the positions `0..n`. */
  function LineUpTo(mod: seq<ModToken>, esqAl: seq<Option<Token>>, dirAl: seq<Option<Token>>,
                    all: seq<Pending<Token>>, blockRepr: seq<Token> -> string, n: nat): seq<Node>
    requires |esqAl| == |mod| && |dirAl| == |mod| && AnchorSorted(all)
  {
    ConcatenationFrom(Steps(mod, esqAl, dirAl, all, blockRepr), 0, n)
  }

  /** The schedule of the two witnesses' insertion blocks. */
  function LineSchedule(mod: seq<ModToken>, esq: seq<Token>, dir: seq<Token>, opsE: seq<Opcode>, opsD: seq<Opcode>)
    : seq<Pending<Token>>
    requires ValidOpcodes(opsE, ModComps(mod), LegacyComps(esq))
    requires ValidOpcodes(opsD, ModComps(mod), LegacyComps(dir))
  {
    AlignedLength(opsE, ModComps(mod), LegacyComps(esq), esq);
    AlignedLength(opsD, ModComps(mod), LegacyComps(dir), dir);
    Schedule(Inserts(opsE, esq), Inserts(opsD, dir))
  }

  lemma LineScheduleSorted(mod: seq<ModToken>, esq: seq<Token>, dir: seq<Token>, opsE: seq<Opcode>, opsD: seq<Opcode>)
    requires ValidOpcodes(opsE, ModComps(mod), LegacyComps(esq))
    requires ValidOpcodes(opsD, ModComps(mod), LegacyComps(dir))
    ensures AnchorSorted(LineSchedule(mod, esq, dir, opsE, opsD))
  {
    AlignedLength(opsE, ModComps(mod), LegacyComps(esq), esq);
    AlignedLength(opsD, ModComps(mod), LegacyComps(dir), dir);
    ScheduleSpec(Inserts(opsE, esq), Inserts(opsD, dir), 0);
  }

  /** The children of the collated `<l>`, given the opcodes of the two
      diffs. */
  function CollatedLine(mod: seq<ModToken>, esq: seq<Token>, dir: seq<Token>,
                        opsE: seq<Opcode>, opsD: seq<Opcode>, blockRepr: seq<Token> -> string): seq<Node>
    requires ValidOpcodes(opsE, ModComps(mod), LegacyComps(esq))
    requires ValidOpcodes(opsD, ModComps(mod), LegacyComps(dir))
  {
    AlignedLength(opsE, ModComps(mod), LegacyComps(esq), esq);
    AlignedLength(opsD, ModComps(mod), LegacyComps(dir), dir);
    LineScheduleSorted(mod, esq, dir, opsE, opsD);
    LineUpTo(mod, Slots(opsE, esq), Slots(opsD, dir), LineSchedule(mod, esq, dir, opsE, opsD), blockRepr, |mod| + 1)
  }

  /** One pass of the `for mod_idx` loop: gather the blocks anchored at
      `p`, emit their `<app>`, then the node of the modern token. */
  method EmitPosition(mod: seq<ModToken>, esqAl: seq<Option<Token>>, dirAl: seq<Option<Token>>,
                      all: seq<Pending<Token>>, blockRepr: seq<Token> -> string, p: nat, ptr0: nat)
    returns (step: seq<Node>, ptr: nat)
    requires |esqAl| == |mod| && |dirAl| == |mod| && AnchorSorted(all)
    requires ptr0 == Start(all, p)
    ensures ptr == Start(all, p + 1)
    ensures step == LineStep(mod, esqAl, dirAl, all, blockRepr, p)
  {
    StartRuns(all, p, 0);
    var groups;
    groups, ptr := GatherBlocks(all, ptr0, p);
    RunIsStart(all, p, ptr0, ptr);
    var insertion := [];
    if groups != [] {
      var app := RenderInsertion(groups, blockRepr);
      insertion := [app];
    }
    var position := [];
    if p < |mod| {
      var node := RenderPosition(mod[p], esqAl[p], dirAl[p]);
      position := [node];
    }
    step := insertion + position;
    assert groups == BlockGroups(all, Start(all, p), Start(all, p + 1));
  }

  /** The `for mod_idx` loop over the aligned witnesses and the schedule. */
  method WalkPositions(mod: seq<ModToken>, esqAl: seq<Option<Token>>, dirAl: seq<Option<Token>>,
                       all: seq<Pending<Token>>, blockRepr: seq<Token> -> string)
    returns (line: seq<Node>)
    requires |esqAl| == |mod| && |dirAl| == |mod| && AnchorSorted(all)
    ensures line == LineUpTo(mod, esqAl, dirAl, all, blockRepr, |mod| + 1)
  {
    StartRuns(all, 0, 0);
    line := [];
    var ptr := 0;
    for p := 0 to |mod| + 1
      invariant ptr == Start(all, p)
      invariant line == LineUpTo(mod, esqAl, dirAl, all, blockRepr, p)
    {
      var step;
      step, ptr := EmitPosition(mod, esqAl, dirAl, all, blockRepr, p, ptr);
      line := line + step;
    }
  }

  /** `collate_line`, given the opcodes of the two diffs. */
  method CollateLine(mod: seq<ModToken>, esq: seq<Token>, dir: seq<Token>,
                     opsE: seq<Opcode>, opsD: seq<Opcode>, blockRepr: seq<Token> -> string)
    returns (line: seq<Node>)
    requires ValidOpcodes(opsE, ModComps(mod), LegacyComps(esq))
    requires ValidOpcodes(opsD, ModComps(mod), LegacyComps(dir))
    ensures line == CollatedLine(mod, esq, dir, opsE, opsD, blockRepr)
  {
    var modComparable := ModComps(mod);
    var esqAl, esqIns := AlignTargetToBase(modComparable, esq, LegacyComps(esq), opsE);
    var dirAl, dirIns := AlignTargetToBase(modComparable, dir, LegacyComps(dir), opsD);
    AlignedLength(opsE, modComparable, LegacyComps(esq), esq);
    AlignedLength(opsD, modComparable, LegacyComps(dir), dir);
    var all := MergeBlocks(esqIns, dirIns);
    line := WalkPositions(mod, esqAl, dirAl, all, blockRepr);
  }

  // ---------------------------------------------------------------------
  // What each witness reads in the line

  function ModOrigs(mod: seq<ModToken>): seq<string> {
    Map(mod, (t: ModToken) => t.orig)
  }

  /** The text of an aligned slot: its token's, or nothing. */
  function SlotText(t: Option<Token>): seq<string> {
    if t.Some? then [t.value.orig] else []
  }

  /** In a divergence `<app>` every witness reads its own reading. */
  lemma DivergenceText(m: ModToken, e: Option<Token>, d: Option<Token>, w: string)
    requires IsWitness(w)
    ensures RdgsText(DivergenceRdgs(m, e, d), w) == LeafTexts(Content(KeyOf(m, e, d, w)))
  {
    DivergenceSpec(m, e, d);
    WitnessesDiffer();
    RdgsTextOnce(DivergenceRdgs(m, e, d), w, LeafTexts(Content(KeyOf(m, e, d, w))));
  }

  /** The node of a base position gives `#VMod` its token's text and each
      legacy witness the text of its aligned token, or nothing. */
  lemma PositionText(m: ModToken, e: Option<Token>, d: Option<Token>)
    ensures NodeText(PositionNode(m, e, d), ModId) == [m.orig]
    ensures NodeText(PositionNode(m, e, d), EsqId) == SlotText(e)
    ensures NodeText(PositionNode(m, e, d), DirId) == SlotText(d)
  {
    if !Verbatim(m, e, d) {
      WitnessKeys(m, e, d);
      DivergentText(m, e, d, ModId);
      DivergentText(m, e, d, EsqId);
      DivergentText(m, e, d, DirId);
    }
  }

  lemma DivergentText(m: ModToken, e: Option<Token>, d: Option<Token>, w: string)
    requires w == ModId || w == EsqId || w == DirId
    requires !Verbatim(m, e, d)
    ensures NodeText(PositionNode(m, e, d), w) == if w == ModId then [m.orig] else if w == EsqId then SlotText(e) else SlotText(d)
  {
    WitnessKeys(m, e, d);
    DivergenceText(m, e, d, w);
  }

  lemma CountOnce<T>(s: seq<T>, i: nat)
    requires i < |s| && forall j :: 0 <= j < |s| && j != i ==> s[j] != s[i]
    ensures multiset(s)[s[i]] == 1
  {
    assert s == s[..i] + [s[i]] + s[i + 1..];
    assert s[i] !in s[..i] && s[i] !in s[i + 1..];
  }

  lemma {:induction false} LeafTextsOfBlock(block: seq<Token>)
    ensures LeafTexts(Leaves(block, |block|)) == Origs(block)
  {
    forall k | 0 <= k < |block| ensures LeafTexts(Leaves(block, |block|))[k] == Origs(block)[k] {
      LeavesAt(block, |block|, k);
    }
  }

  /** A legacy witness with no entry among `lo..hi` reads nothing in their
      `<app>`, and `#VMod` reads its empty reading. */
  lemma InsertionTextNone(all: seq<Pending<Token>>, lo: nat, hi: nat, blockRepr: seq<Token> -> string, w: string)
    requires lo <= hi <= |all| && FromLegacy(all, lo, hi)
    requires forall k :: lo <= k < hi ==> WitId(all[k].wit) != w
    ensures RdgsText(InsertionApp(BlockGroups(all, lo, hi), blockRepr).rdgs, w) == []
  {
    InsertionSpec(all, lo, hi, blockRepr);
    InsertionCovers(all, lo, hi, blockRepr);
    var vs := Values(BlockPairs(all, lo, hi));
    assert w !in vs;
    var rs := InsertionApp(BlockGroups(all, lo, hi), blockRepr).rdgs;
    if w == ModId {
      RdgsTextHead(rs, w);
    } else {
      RdgsTextAbsent(rs, w);
    }
  }

  /** A legacy witness with a single entry among `lo..hi` reads exactly
      that entry's block in their `<app>`. */
  lemma InsertionTextOne(all: seq<Pending<Token>>, lo: nat, hi: nat, blockRepr: seq<Token> -> string, w: string, k: nat)
    requires lo <= k < hi <= |all| && FromLegacy(all, lo, hi) && w != ModId
    requires WitId(all[k].wit) == w
    requires forall j :: lo <= j < hi && j != k ==> WitId(all[j].wit) != w
    ensures RdgsText(InsertionApp(BlockGroups(all, lo, hi), blockRepr).rdgs, w) == Origs(all[k].block)
  {
    var os := SortBy(BlockLe(blockRepr), BlockGroups(all, lo, hi));
    var rs := InsertionApp(BlockGroups(all, lo, hi), blockRepr).rdgs;
    InsertionRenders(all, lo, hi, blockRepr);
    BlockAppText(rs, os, all, lo, hi, w, k);
  }

  lemma InsertionRenders(all: seq<Pending<Token>>, lo: nat, hi: nat, blockRepr: seq<Token> -> string)
    requires lo <= hi <= |all| && FromLegacy(all, lo, hi)
    ensures RendersGroups(InsertionApp(BlockGroups(all, lo, hi), blockRepr).rdgs,
                          SortBy(BlockLe(blockRepr), BlockGroups(all, lo, hi)), all, lo, hi)
  {
    InsertionCovers(all, lo, hi, blockRepr);
    InsertionSpec(all, lo, hi, blockRepr);
  }

  /** The readings `rs` of an insertion `<app>` render the groups `os` of
      the entries `lo..hi`: the empty `#VMod` reading first, then one
      reading per group with its block as children and its members as
      witnesses. */
  ghost predicate RendersGroups(rs: seq<Rdg>, os: seq<Group<seq<Token>, string>>, all: seq<Pending<Token>>, lo: nat, hi: nat)
    requires lo <= hi <= |all|
  {
    && |rs| == |os| + 1 && rs[0] == EmptyModRdg
    && (forall i :: 0 <= i < |os| ==>
          && rs[i + 1].text == None && rs[i + 1].children == Leaves(os[i].key, |os[i].key|)
          && multiset(rs[i + 1].wits) == multiset(os[i].members))
    && (forall i :: 0 <= i < |os| ==> HoldsWitsOf(all, lo, hi, os[i]))
    && multiset(AllWits(rs)) == multiset{ModId} + multiset(AllMembers(os))
    && multiset(AllMembers(os)) == multiset(Values(BlockPairs(all, lo, hi)))
  }

  lemma BlockAppText(rs: seq<Rdg>, os: seq<Group<seq<Token>, string>>, all: seq<Pending<Token>>, lo: nat, hi: nat,
                     w: string, k: nat)
    requires lo <= k < hi <= |all| && w != ModId
    requires WitId(all[k].wit) == w
    requires forall j :: lo <= j < hi && j != k ==> WitId(all[j].wit) != w
    requires RendersGroups(rs, os, all, lo, hi)
    ensures RdgsText(rs, w) == Origs(all[k].block)
  {
    var vs := Values(BlockPairs(all, lo, hi));
    forall j | 0 <= j < |vs| && j != k - lo ensures vs[j] != vs[k - lo] {
      assert vs[j] == WitId(all[lo + j].wit);
    }
    CountOnce(vs, k - lo);
    LeafTextsOfBlock(all[k].block);
    assert w !in rs[0].wits;
    forall i | 0 <= i < |rs| && w in rs[i].wits ensures RdgText(rs[i]) == Origs(all[k].block) {
      if i > 0 {
        var g := os[i - 1];
        assert rs[(i - 1) + 1] == rs[i];
        assert multiset(rs[i].wits) == multiset(g.members);
        assert w in multiset(rs[i].wits);
        assert w in g.members;
        assert HoldsWitsOf(all, lo, hi, g);
        var j :| lo <= j < hi && all[j].block == g.key && WitId(all[j].wit) == w;
        assert j == k;
        assert RdgText(rs[i]) == [] + LeafTexts(Leaves(g.key, |g.key|));
      }
    }
    RdgsTextOnce(rs, w, Origs(all[k].block));
  }

  /** The line text of one insertion `<app>`: a witness with no entry
      among `lo..hi` reads nothing ... */
  lemma InsertionOfNone(all: seq<Pending<Token>>, lo: nat, hi: nat, blockRepr: seq<Token> -> string, w: string)
    requires lo <= hi <= |all| && FromLegacy(all, lo, hi)
    requires forall j :: lo <= j < hi ==> WitId(all[j].wit) != w
    ensures LineText(InsertionOf(all, lo, hi, blockRepr), w) == []
  {
    BlockGroupsEmpty(all, lo, hi);
    if lo < hi {
      var app := InsertionApp(BlockGroups(all, lo, hi), blockRepr);
      assert [app][..0] == [];
      InsertionTextNone(all, lo, hi, blockRepr, w);
    }
  }

  /** ... and one with a single entry reads its block. */
  lemma InsertionOfOne(all: seq<Pending<Token>>, lo: nat, hi: nat, blockRepr: seq<Token> -> string, w: string, k: nat)
    requires lo <= k < hi <= |all| && FromLegacy(all, lo, hi) && w != ModId
    requires WitId(all[k].wit) == w
    requires forall j :: lo <= j < hi && j != k ==> WitId(all[j].wit) != w
    ensures LineText(InsertionOf(all, lo, hi, blockRepr), w) == Origs(all[k].block)
  {
    BlockGroupsEmpty(all, lo, hi);
    var app := InsertionApp(BlockGroups(all, lo, hi), blockRepr);
    assert [app][..0] == [];
    InsertionTextOne(all, lo, hi, blockRepr, w, k);
  }

  /** The run of a schedule at one anchor holds only legacy entries. */
  lemma RunFromLegacy(all: seq<Pending<Token>>, lo: nat, hi: nat, fe: seq<Pending<Token>>, fd: seq<Pending<Token>>)
    requires lo <= hi <= |all| && all[lo..hi] == fe + fd
    requires forall x :: x in fe ==> x.wit == "VEsq"
    requires forall x :: x in fd ==> x.wit == "VDir"
    ensures FromLegacy(all, lo, hi)
  {
    forall j | lo <= j < hi ensures all[j].wit == "VEsq" || all[j].wit == "VDir" {
      assert all[j] == all[lo..hi][j - lo];
      assert all[j] in fe + fd;
    }
  }

  /** Among legacy entries, a different name is a different witness. */
  lemma OthersAreOther(all: seq<Pending<Token>>, lo: nat, hi: nat, k: int, name: string)
    requires lo <= hi <= |all| && FromLegacy(all, lo, hi)
    requires forall j :: lo <= j < hi && j != k ==> all[j].wit != name
    ensures forall j :: lo <= j < hi && j != k ==> WitId(all[j].wit) != WitId(name)
    ensures forall j :: lo <= j < hi ==> WitId(all[j].wit) != ModId
  {
    forall j | lo <= j < hi && j != k ensures WitId(all[j].wit) != WitId(name) {
      assert WitId(all[j].wit)[1..] == all[j].wit;
      assert WitId(name)[1..] == name;
    }
    forall j | lo <= j < hi ensures WitId(all[j].wit) != ModId {
      assert WitId(all[j].wit)[2] != ModId[2];
    }
  }

  /** `#VMod` reads nothing in an insertion `<app>`: its reading is empty. */
  lemma InsertionReadsMod(esq: seq<(nat, seq<Token>)>, dir: seq<(nat, seq<Token>)>,
                          blockRepr: seq<Token> -> string, p: nat)
    ensures AnchorSorted(Schedule(esq, dir))
    ensures LineText(InsertionPart(Schedule(esq, dir), blockRepr, p), ModId) == []
  {
    var all := Schedule(esq, dir);
    RunSplit(esq, dir, p);
    var lo, hi := Start(all, p), Start(all, p + 1);
    var fe := Filter(Tagged(esq, "VEsq", |esq|), AnchorIs(p));
    var fd := Filter(Tagged(dir, "VDir", |dir|), AnchorIs(p));
    RunFromLegacy(all, lo, hi, fe, fd);
    OthersAreOther(all, lo, hi, -1, "VMod");
    InsertionOfNone(all, lo, hi, blockRepr, ModId);
  }

  /** A run made of other witnesses' entries around at most one entry of
      witness `name`, holding block `b`: `name` reads `b` in its `<app>`. */
  lemma RunReads(all: seq<Pending<Token>>, lo: nat, hi: nat, blockRepr: seq<Token> -> string,
                 pre: seq<Pending<Token>>, mine: seq<Pending<Token>>, post: seq<Pending<Token>>,
                 name: string, b: seq<Token>)
    requires lo <= hi <= |all| && all[lo..hi] == pre + mine + post && FromLegacy(all, lo, hi)
    requires name == "VEsq" || name == "VDir"
    requires forall x :: x in pre ==> x.wit != name
    requires forall x :: x in post ==> x.wit != name
    requires |mine| <= 1 && (mine == [] ==> b == [])
    requires mine != [] ==> mine[0].wit == name && mine[0].block == b
    ensures LineText(InsertionOf(all, lo, hi, blockRepr), WitId(name)) == Origs(b)
  {
    RunOfWitness(all, lo, hi, pre, mine, post, name);
    var k := lo + |pre|;
    OthersAreOther(all, lo, hi, k, name);
    WitnessesDiffer();
    if mine == [] {
      InsertionOfNone(all, lo, hi, blockRepr, WitId(name));
    } else {
      InsertionOfOne(all, lo, hi, blockRepr, WitId(name), k);
    }
  }

  lemma RunReadsEsq(all: seq<Pending<Token>>, blockRepr: seq<Token> -> string, p: nat,
                    fe: seq<Pending<Token>>, fd: seq<Pending<Token>>, b: seq<Token>)
    requires RunOfTwo(all, p, fe, fd)
    requires fe == if b == [] then [] else [Pending(p, "VEsq", b)]
    ensures LineText(InsertionPart(all, blockRepr, p), EsqId) == Origs(b)
  {
    var lo, hi := Start(all, p), Start(all, p + 1);
    RunFromLegacy(all, lo, hi, fe, fd);
    assert [] + fe + fd == fe + fd;
    RunReads(all, lo, hi, blockRepr, [], fe, fd, "VEsq", b);
  }

  lemma RunReadsDir(all: seq<Pending<Token>>, blockRepr: seq<Token> -> string, p: nat,
                    fe: seq<Pending<Token>>, fd: seq<Pending<Token>>, b: seq<Token>)
    requires RunOfTwo(all, p, fe, fd)
    requires fd == if b == [] then [] else [Pending(p, "VDir", b)]
    ensures LineText(InsertionPart(all, blockRepr, p), DirId) == Origs(b)
  {
    var lo, hi := Start(all, p), Start(all, p + 1);
    RunFromLegacy(all, lo, hi, fe, fd);
    assert fe + fd + [] == fe + fd;
    RunReads(all, lo, hi, blockRepr, fe, fd, [], "VDir", b);
  }

  /** `#VEsq` reads, in the insertion `<app>` at `p`, exactly its own block
      anchored there, provided it has at most one block per anchor. */
  lemma InsertionReadsEsq(esq: seq<(nat, seq<Token>)>, dir: seq<(nat, seq<Token>)>,
                          blockRepr: seq<Token> -> string, p: nat)
    requires OneBlockPerAnchor(esq) && BlocksNonEmpty(esq)
    ensures AnchorSorted(Schedule(esq, dir))
    ensures LineText(InsertionPart(Schedule(esq, dir), blockRepr, p), EsqId) == Origs(BlocksAt(esq, p))
  {
    ScheduleRun(esq, dir, p);
    TaggedAtAnchor(esq, "VEsq", p);
    RunReadsEsq(Schedule(esq, dir), blockRepr, p, Filter(Tagged(esq, "VEsq", |esq|), AnchorIs(p)),
                Filter(Tagged(dir, "VDir", |dir|), AnchorIs(p)), BlocksAt(esq, p));
  }

  /** The same for `#VDir`, whose entries follow those of `#VEsq`. */
  lemma InsertionReadsDir(esq: seq<(nat, seq<Token>)>, dir: seq<(nat, seq<Token>)>,
                          blockRepr: seq<Token> -> string, p: nat)
    requires OneBlockPerAnchor(dir) && BlocksNonEmpty(dir)
    ensures AnchorSorted(Schedule(esq, dir))
    ensures LineText(InsertionPart(Schedule(esq, dir), blockRepr, p), DirId) == Origs(BlocksAt(dir, p))
  {
    ScheduleRun(esq, dir, p);
    TaggedAtAnchor(dir, "VDir", p);
    RunReadsDir(Schedule(esq, dir), blockRepr, p, Filter(Tagged(esq, "VEsq", |esq|), AnchorIs(p)),
                Filter(Tagged(dir, "VDir", |dir|), AnchorIs(p)), BlocksAt(dir, p));
  }

  // ---------------------------------------------------------------------
  // What each witness reads in the whole line

  /** At one position a witness reads the insertion `<app>`, then the node
      of the modern token. */
  lemma StepText(mod: seq<ModToken>, esqAl: seq<Option<Token>>, dirAl: seq<Option<Token>>,
                 all: seq<Pending<Token>>, blockRepr: seq<Token> -> string, p: nat, w: string,
                 ti: seq<string>, tp: seq<string>)
    requires |esqAl| == |mod| && |dirAl| == |mod| && AnchorSorted(all)
    requires LineText(InsertionPart(all, blockRepr, p), w) == ti
    requires p < |mod| ==> NodeText(PositionNode(mod[p], esqAl[p], dirAl[p]), w) == tp
    requires p >= |mod| ==> tp == []
    ensures LineText(LineStep(mod, esqAl, dirAl, all, blockRepr, p), w) == ti + tp
  {
    LineTextAppend(InsertionPart(all, blockRepr, p), PositionPart(mod, esqAl, dirAl, p), w);
    if p < |mod| {
      assert [PositionNode(mod[p], esqAl[p], dirAl[p])][..0] == [];
    }
  }

  lemma OrigsAppend(a: seq<Token>, b: seq<Token>)
    ensures Origs(a + b) == Origs(a) + Origs(b)
  {
    assert |Origs(a + b)| == |Origs(a) + Origs(b)|;
    forall i | 0 <= i < |a + b| ensures Origs(a + b)[i] == (Origs(a) + Origs(b))[i] {
      if i >= |a| {
        assert (a + b)[i] == b[i - |a|];
      }
    }
  }

  /** The texts of the tokens of each segment. */
  function OrigsOf(seg: nat -> seq<Token>): nat -> seq<string> {
    (p: nat) => Origs(seg(p))
  }

  lemma {:induction false} OrigsConcatenation(seg: nat -> seq<Token>, n: nat)
    ensures Origs(ConcatenationFrom(seg, 0, n)) == ConcatenationFrom(OrigsOf(seg), 0, n)
  {
    if n > 0 {
      OrigsConcatenation(seg, n - 1);
      OrigsAppend(ConcatenationFrom(seg, 0, n - 1), seg(n - 1));
    }
  }

  /** The text of slot `p` is that of its token, if any. */
  lemma SlotTextIs(slots: seq<Option<Token>>, p: nat)
    ensures p < |slots| ==> SlotText(slots[p]) == Origs(SlotToken(slots, p))
    ensures p >= |slots| ==> Origs(SlotToken(slots, p)) == []
  {
  }

  /** At position `p`, `#VEsq` reads its block anchored there, then its token
      in slot `p`. */
  lemma StepReadsEsq(mod: seq<ModToken>, esqAl: seq<Option<Token>>, dirAl: seq<Option<Token>>,
                     esq: seq<(nat, seq<Token>)>, dir: seq<(nat, seq<Token>)>, blockRepr: seq<Token> -> string, p: nat)
    requires |esqAl| == |mod| && |dirAl| == |mod| && OneBlockPerAnchor(esq) && BlocksNonEmpty(esq)
    ensures AnchorSorted(Schedule(esq, dir))
    ensures LineText(LineStep(mod, esqAl, dirAl, Schedule(esq, dir), blockRepr, p), EsqId)
         == Origs(BlocksAt(esq, p) + SlotToken(esqAl, p))
  {
    InsertionReadsEsq(esq, dir, blockRepr, p);
    if p < |mod| {
      PositionText(mod[p], esqAl[p], dirAl[p]);
    }
    SlotTextIs(esqAl, p);
    StepText(mod, esqAl, dirAl, Schedule(esq, dir), blockRepr, p, EsqId,
             Origs(BlocksAt(esq, p)), Origs(SlotToken(esqAl, p)));
    OrigsAppend(BlocksAt(esq, p), SlotToken(esqAl, p));
  }

  /** `#VEsq` reads, in the positions `0..n`, its tokens as the alignment
      `esqAl`, `esq` lays them out. */
  lemma EsqReads(mod: seq<ModToken>, esqAl: seq<Option<Token>>, dirAl: seq<Option<Token>>,
                 esq: seq<(nat, seq<Token>)>, dir: seq<(nat, seq<Token>)>, blockRepr: seq<Token> -> string, n: nat)
    requires |esqAl| == |mod| && |dirAl| == |mod| && OneBlockPerAnchor(esq) && BlocksNonEmpty(esq)
    ensures AnchorSorted(Schedule(esq, dir))
    ensures LineText(LineUpTo(mod, esqAl, dirAl, Schedule(esq, dir), blockRepr, n), EsqId) == Origs(Weave(esqAl, esq, n))
  {
    InsertionReadsEsq(esq, dir, blockRepr, 0);
    var steps := Steps(mod, esqAl, dirAl, Schedule(esq, dir), blockRepr);
    forall p | 0 <= p < n ensures StepTexts(steps, EsqId)(p) == OrigsOf(Segment(esqAl, esq))(p) {
      StepReadsEsq(mod, esqAl, dirAl, esq, dir, blockRepr, p);
    }
    LineTextConcatenation(steps, EsqId, n);
    ConcatenationKeep(StepTexts(steps, EsqId), OrigsOf(Segment(esqAl, esq)), 0, n);
    OrigsConcatenation(Segment(esqAl, esq), n);
  }

  lemma StepReadsDir(mod: seq<ModToken>, esqAl: seq<Option<Token>>, dirAl: seq<Option<Token>>,
                     esq: seq<(nat, seq<Token>)>, dir: seq<(nat, seq<Token>)>, blockRepr: seq<Token> -> string, p: nat)
    requires |esqAl| == |mod| && |dirAl| == |mod| && OneBlockPerAnchor(dir) && BlocksNonEmpty(dir)
    ensures AnchorSorted(Schedule(esq, dir))
    ensures LineText(LineStep(mod, esqAl, dirAl, Schedule(esq, dir), blockRepr, p), DirId)
         == Origs(BlocksAt(dir, p) + SlotToken(dirAl, p))
  {
    InsertionReadsDir(esq, dir, blockRepr, p);
    if p < |mod| {
      PositionText(mod[p], esqAl[p], dirAl[p]);
    }
    SlotTextIs(dirAl, p);
    StepText(mod, esqAl, dirAl, Schedule(esq, dir), blockRepr, p, DirId,
             Origs(BlocksAt(dir, p)), Origs(SlotToken(dirAl, p)));
    OrigsAppend(BlocksAt(dir, p), SlotToken(dirAl, p));
  }

  lemma DirReads(mod: seq<ModToken>, esqAl: seq<Option<Token>>, dirAl: seq<Option<Token>>,
                 esq: seq<(nat, seq<Token>)>, dir: seq<(nat, seq<Token>)>, blockRepr: seq<Token> -> string, n: nat)
    requires |esqAl| == |mod| && |dirAl| == |mod| && OneBlockPerAnchor(dir) && BlocksNonEmpty(dir)
    ensures AnchorSorted(Schedule(esq, dir))
    ensures LineText(LineUpTo(mod, esqAl, dirAl, Schedule(esq, dir), blockRepr, n), DirId) == Origs(Weave(dirAl, dir, n))
  {
    InsertionReadsDir(esq, dir, blockRepr, 0);
    var steps := Steps(mod, esqAl, dirAl, Schedule(esq, dir), blockRepr);
    forall p | 0 <= p < n ensures StepTexts(steps, DirId)(p) == OrigsOf(Segment(dirAl, dir))(p) {
      StepReadsDir(mod, esqAl, dirAl, esq, dir, blockRepr, p);
    }
    LineTextConcatenation(steps, DirId, n);
    ConcatenationKeep(StepTexts(steps, DirId), OrigsOf(Segment(dirAl, dir)), 0, n);
    OrigsConcatenation(Segment(dirAl, dir), n);
  }

  /** What `#VMod` reads at each position: its own token. */
  function ModSegment(mod: seq<ModToken>): nat -> seq<string> {
    (p: nat) => if p < |mod| then [mod[p].orig] else []
  }

  lemma {:induction false} ModConcatenation(mod: seq<ModToken>, n: nat)
    requires n <= |mod|
    ensures ConcatenationFrom(ModSegment(mod), 0, n) == ModOrigs(mod[..n])
  {
    if n > 0 {
      ModConcatenation(mod, n - 1);
      assert ModOrigs(mod[..n]) == ModOrigs(mod[..n - 1]) + [mod[n - 1].orig];
    }
  }

  lemma StepReadsMod(mod: seq<ModToken>, esqAl: seq<Option<Token>>, dirAl: seq<Option<Token>>,
                     esq: seq<(nat, seq<Token>)>, dir: seq<(nat, seq<Token>)>, blockRepr: seq<Token> -> string, p: nat)
    requires |esqAl| == |mod| && |dirAl| == |mod|
    ensures AnchorSorted(Schedule(esq, dir))
    ensures LineText(LineStep(mod, esqAl, dirAl, Schedule(esq, dir), blockRepr, p), ModId) == ModSegment(mod)(p)
  {
    InsertionReadsMod(esq, dir, blockRepr, p);
    if p < |mod| {
      PositionText(mod[p], esqAl[p], dirAl[p]);
    }
    StepText(mod, esqAl, dirAl, Schedule(esq, dir), blockRepr, p, ModId, [], ModSegment(mod)(p));
  }

  /** `#VMod` reads, over the whole line, its own tokens and nothing else:
      no insertion block and no legacy token is attributed to it. */
  lemma ModReads(mod: seq<ModToken>, esqAl: seq<Option<Token>>, dirAl: seq<Option<Token>>,
                 esq: seq<(nat, seq<Token>)>, dir: seq<(nat, seq<Token>)>, blockRepr: seq<Token> -> string)
    requires |esqAl| == |mod| && |dirAl| == |mod|
    ensures AnchorSorted(Schedule(esq, dir))
    ensures LineText(LineUpTo(mod, esqAl, dirAl, Schedule(esq, dir), blockRepr, |mod| + 1), ModId) == ModOrigs(mod)
  {
    InsertionReadsMod(esq, dir, blockRepr, 0);
    var n := |mod| + 1;
    var steps := Steps(mod, esqAl, dirAl, Schedule(esq, dir), blockRepr);
    forall p | 0 <= p < n ensures StepTexts(steps, ModId)(p) == ModSegment(mod)(p) {
      StepReadsMod(mod, esqAl, dirAl, esq, dir, blockRepr, p);
    }
    LineTextConcatenation(steps, ModId, n);
    ConcatenationKeep(StepTexts(steps, ModId), ModSegment(mod), 0, n);
    ModConcatenation(mod, |mod|);
    assert mod[..|mod|] == mod;
  }

  // ---------------------------------------------------------------------
  // The collated line reads back as each witness

  /** The diff against `target` places at most one insertion block at each
      base position (as `difflib` does: it never emits two non-`equal`
      opcodes in a row). */
  predicate InsertsOnce(ops: seq<Opcode>, mod: seq<ModToken>, target: seq<Token>)
    requires ValidOpcodes(ops, ModComps(mod), LegacyComps(target))
  {
    AlignedLength(ops, ModComps(mod), LegacyComps(target), target);
    OneBlockPerAnchor(Inserts(ops, target))
  }

  /** Every witness can be read back from the collated line: `#VMod` reads
      its own tokens, and each legacy witness whose diff places at most one
      block per position reads its own tokens, in order, each once. */
  lemma CollationReadsBack(mod: seq<ModToken>, esq: seq<Token>, dir: seq<Token>,
                           opsE: seq<Opcode>, opsD: seq<Opcode>, blockRepr: seq<Token> -> string)
    requires ValidOpcodes(opsE, ModComps(mod), LegacyComps(esq))
    requires ValidOpcodes(opsD, ModComps(mod), LegacyComps(dir))
    ensures LineText(CollatedLine(mod, esq, dir, opsE, opsD, blockRepr), ModId) == ModOrigs(mod)
    ensures InsertsOnce(opsE, mod, esq) ==> LineText(CollatedLine(mod, esq, dir, opsE, opsD, blockRepr), EsqId) == Origs(esq)
    ensures InsertsOnce(opsD, mod, dir) ==> LineText(CollatedLine(mod, esq, dir, opsE, opsD, blockRepr), DirId) == Origs(dir)
  {
    AlignPlacesEveryToken(opsE, ModComps(mod), LegacyComps(esq), esq);
    AlignPlacesEveryToken(opsD, ModComps(mod), LegacyComps(dir), dir);
    InsertsAnchored(opsE, esq);
    InsertsAnchored(opsD, dir);
    var esqAl, dirAl := Slots(opsE, esq), Slots(opsD, dir);
    var esqIns, dirIns := Inserts(opsE, esq), Inserts(opsD, dir);
    ModReads(mod, esqAl, dirAl, esqIns, dirIns, blockRepr);
    if InsertsOnce(opsE, mod, esq) {
      EsqReads(mod, esqAl, dirAl, esqIns, dirIns, blockRepr, |mod| + 1);
    }
    if InsertsOnce(opsD, mod, dir) {
      DirReads(mod, esqAl, dirAl, esqIns, dirIns, blockRepr, |mod| + 1);
    }
  }
}
