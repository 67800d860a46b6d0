/** What both copies of `collate_line` share around the aligner: the witness
    ids, the sorted list of insertion blocks (`all_inserts_data`) and the
    stretch of it that belongs to one base position, and the order in
    which the `wit` lists of the readings are written. */
module Apparatus {
  import opened Text
  import opened Sorting
  import opened Grouping
  import opened Xml
  import opened Aligner
  import opened Loops

  const ModId: string := "#VMod"
  const EsqId: string := "#VEsq"
  const DirId: string := "#VDir"

  /** `wit_ids[name]` for the witness names `VMod`, `VEsq` and `VDir`. */
  function WitId(name: string): (r: string)
    ensures name == "VMod" ==> r == ModId
    ensures name == "VEsq" ==> r == EsqId
    ensures name == "VDir" ==> r == DirId
  {
    "#" + name
  }

  /** The three witness ids are different. */
  lemma WitnessesDiffer()
    ensures ModId != EsqId && ModId != DirId && EsqId != DirId
  {
    assert ModId[2] != EsqId[2] && ModId[2] != DirId[2] && EsqId[2] != DirId[2];
  }

  // ---------------------------------------------------------------------
  // `sorted(wits_list)`

  function StringLe(): (string, string) -> bool {
    (a: string, b: string) => LexLe(a, b)
  }

  /** The witnesses of a reading as `sorted` lists them. */
  function SortedWits(ws: seq<string>): seq<string> {
    SortBy(StringLe(), ws)
  }

  lemma StringLeTotal()
    ensures TotalPreorder(StringLe())
  {
    forall a, b ensures StringLe()(a, b) || StringLe()(b, a) {
      LexLeTotal(a, b);
    }
    forall a, b, c | StringLe()(a, b) && StringLe()(b, c) ensures StringLe()(a, c) {
      LexLeTransitive(a, b, c);
    }
  }

  /** The sorted list holds the same witnesses, in ascending order. */
  lemma SortedWitsSpec(ws: seq<string>)
    ensures multiset(SortedWits(ws)) == multiset(ws)
    ensures forall i, j :: 0 <= i < j < |SortedWits(ws)| ==> LexLe(SortedWits(ws)[i], SortedWits(ws)[j])
  {
    StringLeTotal();
    SortSorted(StringLe(), ws);
  }

  // ---------------------------------------------------------------------
  // `all_inserts_data`

  /** `(base_idx, source_wit, block)`: a block of target tokens, the name of
      the witness it comes from and the base position it is anchored at. */
  datatype Pending<T> = Pending(anchor: nat, wit: string, block: seq<T>)

  /** The first `n` blocks of an aligner's list, tagged with `wit`. */
  function Tagged<T>(ins: seq<(nat, seq<T>)>, wit: string, n: nat): (r: seq<Pending<T>>)
    requires n <= |ins|
    ensures |r| == n
  {
    if n == 0 then [] else Tagged(ins, wit, n - 1) + [Pending(ins[n - 1].0, wit, ins[n - 1].1)]
  }

  lemma {:induction false} TaggedAt<T>(ins: seq<(nat, seq<T>)>, wit: string, n: nat, k: nat)
    requires n <= |ins| && k < n
    ensures Tagged(ins, wit, n)[k] == Pending(ins[k].0, wit, ins[k].1)
  {
    if k < n - 1 {
      TaggedAt(ins, wit, n - 1, k);
    }
  }

  /** `for base_idx, block in inserts: all_inserts_data.append((base_idx, wit, block))`. */
  method TagBlocks<T>(acc: seq<Pending<T>>, ins: seq<(nat, seq<T>)>, wit: string) returns (r: seq<Pending<T>>)
    ensures r == acc + Tagged(ins, wit, |ins|)
  {
    r := acc;
    for i := 0 to |ins|
      invariant r == acc + Tagged(ins, wit, i)
    {
      r := r + [Pending(ins[i].0, wit, ins[i].1)];
    }
  }

  function AnchorLe<T>(): (Pending<T>, Pending<T>) -> bool {
    (x: Pending<T>, y: Pending<T>) => x.anchor <= y.anchor
  }

  lemma AnchorLeTotal<T(!new)>()
    ensures TotalPreorder(AnchorLe<T>())
  {
  }

  /** `all_inserts_data` after `sort(key=lambda x: x[0])`: the blocks of
      `VEsq`, then those of `VDir`, stably sorted by anchor. */
  function Schedule<T(==)>(esq: seq<(nat, seq<T>)>, dir: seq<(nat, seq<T>)>): seq<Pending<T>> {
    SortBy(AnchorLe(), Tagged(esq, "VEsq", |esq|) + Tagged(dir, "VDir", |dir|))
  }

  function AnchorIs<T>(a: nat): Pending<T> -> bool {
    (x: Pending<T>) => x.anchor == a
  }

  /** The schedule is sorted by anchor, holds every block of both witnesses
      once, and at each anchor lists the blocks of `VEsq` before those of
      `VDir`, each witness's in its own order. */
  lemma ScheduleSpec<T(!new)>(esq: seq<(nat, seq<T>)>, dir: seq<(nat, seq<T>)>, a: nat)
    ensures forall i, j :: 0 <= i < j < |Schedule(esq, dir)| ==> Schedule(esq, dir)[i].anchor <= Schedule(esq, dir)[j].anchor
    ensures multiset(Schedule(esq, dir)) == multiset(Tagged(esq, "VEsq", |esq|) + Tagged(dir, "VDir", |dir|))
    ensures Filter(Schedule(esq, dir), AnchorIs(a))
         == Filter(Tagged(esq, "VEsq", |esq|), AnchorIs(a)) + Filter(Tagged(dir, "VDir", |dir|), AnchorIs(a))
  {
    var s := Tagged(esq, "VEsq", |esq|) + Tagged(dir, "VDir", |dir|);
    AnchorLeTotal<T>();
    SortSorted(AnchorLe(), s);
    var c := Pending(a, "", []);
    SortStable(AnchorLe(), s, c);
    FilterExt(SortBy(AnchorLe(), s), SameKey(AnchorLe(), c), AnchorIs(a));
    FilterExt(s, SameKey(AnchorLe(), c), AnchorIs(a));
    FilterAppend(Tagged(esq, "VEsq", |esq|), Tagged(dir, "VDir", |dir|), AnchorIs(a));
  }

  /** `all_inserts_data`: the blocks of `VEsq`, then those of `VDir`,
      sorted in place by anchor. */
  method MergeBlocks<T(==,!new)>(esqIns: seq<(nat, seq<T>)>, dirIns: seq<(nat, seq<T>)>) returns (all: seq<Pending<T>>)
    ensures all == Schedule(esqIns, dirIns)
    ensures AnchorSorted(all)
  {
    all := TagBlocks([], esqIns, "VEsq");
    all := TagBlocks(all, dirIns, "VDir");
    assert all == Tagged(esqIns, "VEsq", |esqIns|) + Tagged(dirIns, "VDir", |dirIns|);
    all := SortBy(AnchorLe(), all);
    ScheduleSpec(esqIns, dirIns, 0);
  }

  // ---------------------------------------------------------------------
  // The blocks of one base position

  predicate AnchorSorted<T>(all: seq<Pending<T>>) {
    forall i, j :: 0 <= i < j < |all| ==> all[i].anchor <= all[j].anchor
  }

  /** Where the blocks anchored at `p` or later begin: the first index whose
      anchor is at least `p`, or `|all|`. */
  function Start<T>(all: seq<Pending<T>>, p: nat): (i: nat)
    ensures i <= |all|
    ensures forall k :: 0 <= k < i ==> all[k].anchor < p
    ensures i < |all| ==> all[i].anchor >= p
  {
    if all == [] || all[0].anchor >= p then 0
    else 1 + Start(all[1..], p)
  }

  /** `Start` is the only index below which every anchor is less than `p`
      and at which the anchors reach `p`. */
  lemma StartUnique<T>(all: seq<Pending<T>>, p: nat, i: nat)
    requires i <= |all|
    requires forall k :: 0 <= k < i ==> all[k].anchor < p
    requires i < |all| ==> all[i].anchor >= p
    ensures Start(all, p) == i
  {
  }

  /** The `while` loop of `collate_line`: on a sorted list, the run of
      blocks anchored at `p` that starts at `Start(all, p)` ends at
      `Start(all, p + 1)`. */
  lemma RunIsStart<T>(all: seq<Pending<T>>, p: nat, lo: nat, hi: nat)
    requires AnchorSorted(all) && lo == Start(all, p) && lo <= hi <= |all|
    requires forall k :: lo <= k < hi ==> all[k].anchor == p
    requires hi < |all| ==> all[hi].anchor != p
    ensures hi == Start(all, p + 1)
  {
    if hi < |all| && lo < |all| {
      assert all[lo].anchor <= all[hi].anchor;
    }
    StartUnique(all, p + 1, hi);
  }

  /** The runs of the positions `0..n` follow each other without gaps and
      hold exactly the blocks anchored at their position; when no anchor
      lies beyond `n`, the last run ends with the list. */
  lemma StartRuns<T>(all: seq<Pending<T>>, p: nat, n: nat)
    requires AnchorSorted(all)
    ensures Start(all, 0) == 0
    ensures Start(all, p) <= Start(all, p + 1)
    ensures forall k :: Start(all, p) <= k < Start(all, p + 1) ==> all[k].anchor == p
    ensures (forall k :: 0 <= k < |all| ==> all[k].anchor <= n) ==> Start(all, n + 1) == |all|
  {
    StartUnique(all, 0, 0);
    if forall k :: 0 <= k < |all| ==> all[k].anchor <= n {
      StartUnique(all, n + 1, |all|);
    }
  }

  // ---------------------------------------------------------------------
  // `for key in ordered_keys: rdg = etree.SubElement(app, 'rdg', ...)`

  /** The readings of the first `n` groups, one each, in order. */
  function Render<K>(f: Group<K, string> -> Rdg, gs: seq<Group<K, string>>, n: nat): (r: seq<Rdg>)
    requires n <= |gs|
    ensures |r| == n
  {
    if n == 0 then [] else Render(f, gs, n - 1) + [f(gs[n - 1])]
  }

  /** Rendering one or two groups renders each in turn. */
  lemma RenderSmall<K>(f: Group<K, string> -> Rdg, gs: seq<Group<K, string>>)
    requires |gs| <= 2
    ensures |gs| == 1 ==> Render(f, gs, 1) == [f(gs[0])]
    ensures |gs| == 2 ==> Render(f, gs, 2) == [f(gs[0]), f(gs[1])]
  {
    if |gs| == 2 {
      assert Render(f, gs, 1) == [f(gs[0])];
    }
  }

  lemma {:induction false} RenderAt<K>(f: Group<K, string> -> Rdg, gs: seq<Group<K, string>>, n: nat, k: nat)
    requires n <= |gs| && k < n
    ensures Render(f, gs, n)[k] == f(gs[k])
  {
    if k < n - 1 {
      RenderAt(f, gs, n - 1, k);
    }
  }

  method RenderAll<K>(f: Group<K, string> -> Rdg, gs: seq<Group<K, string>>) returns (rdgs: seq<Rdg>)
    ensures rdgs == Render(f, gs, |gs|)
  {
    rdgs := [];
    for i := 0 to |gs|
      invariant rdgs == Render(f, gs, i)
    {
      rdgs := rdgs + [f(gs[i])];
    }
  }

  /** When each reading lists the witnesses of its group, the readings
      together list the witnesses of all the groups. */
  lemma {:induction false} RenderWits<K>(f: Group<K, string> -> Rdg, gs: seq<Group<K, string>>, n: nat)
    requires n <= |gs|
    requires forall i :: 0 <= i < |gs| ==> multiset(f(gs[i]).wits) == multiset(gs[i].members)
    ensures multiset(AllWits(Render(f, gs, n))) == multiset(AllMembers(gs[..n]))
  {
    if n > 0 {
      RenderWits(f, gs, n - 1);
      var r := f(gs[n - 1]);
      FlatMapAppend(WitsOf, Render(f, gs, n - 1), [r]);
      assert gs[..n] == gs[..n - 1] + [gs[n - 1]];
      AllMembersAppend(gs[..n - 1], [gs[n - 1]]);
      assert AllWits([r]) == r.wits + AllWits([r][1..]);
      assert AllMembers([gs[n - 1]]) == gs[n - 1].members + AllMembers([gs[n - 1]][1..]);
    }
  }

  // ---------------------------------------------------------------------
  // The schedule at one anchor

  lemma TaggedFront<T>(ins: seq<(nat, seq<T>)>, wit: string)
    requires ins != []
    ensures Tagged(ins, wit, |ins|) == [Pending(ins[0].0, wit, ins[0].1)] + Tagged(ins[1..], wit, |ins| - 1)
  {
    var t, r := Tagged(ins, wit, |ins|), Tagged(ins[1..], wit, |ins| - 1);
    forall k | 0 <= k < |ins| ensures t[k] == ([Pending(ins[0].0, wit, ins[0].1)] + r)[k] {
      TaggedAt(ins, wit, |ins|, k);
      if k > 0 {
        TaggedAt(ins[1..], wit, |ins| - 1, k - 1);
      }
    }
  }

  lemma TaggedWit<T>(ins: seq<(nat, seq<T>)>, wit: string)
    ensures forall x :: x in Tagged(ins, wit, |ins|) ==> x.wit == wit
  {
    var t := Tagged(ins, wit, |ins|);
    forall x | x in t ensures x.wit == wit {
      var k :| 0 <= k < |t| && t[k] == x;
      TaggedAt(ins, wit, |ins|, k);
    }
  }

  /** No two blocks of a witness share an anchor. */
  predicate OneBlockPerAnchor<T>(ins: seq<(nat, seq<T>)>) {
    forall i, j :: 0 <= i < j < |ins| ==> ins[i].0 < ins[j].0
  }

  predicate BlocksNonEmpty<T>(ins: seq<(nat, seq<T>)>) {
    forall i :: 0 <= i < |ins| ==> ins[i].1 != []
  }

  /** With one block per anchor, a witness's entries at `p` are its block
      there, or none. */
  lemma {:induction false} TaggedAtAnchor<T>(ins: seq<(nat, seq<T>)>, wit: string, p: nat)
    requires OneBlockPerAnchor(ins) && BlocksNonEmpty(ins)
    ensures Filter(Tagged(ins, wit, |ins|), AnchorIs(p))
         == if BlocksAt(ins, p) == [] then [] else [Pending(p, wit, BlocksAt(ins, p))]
  {
    if ins != [] {
      var rest := Tagged(ins[1..], wit, |ins| - 1);
      TaggedFront(ins, wit);
      assert Tagged(ins, wit, |ins|)[1..] == rest;
      if ins[0].0 == p {
        forall k | 0 <= k < |rest| ensures !AnchorIs(p)(rest[k]) {
          TaggedAt(ins[1..], wit, |ins| - 1, k);
          assert ins[0].0 < ins[k + 1].0;
        }
        FilterNone(rest, AnchorIs(p));
        forall n | 0 <= n < |ins[1..]| ensures ins[1..][n].0 != p {
          assert ins[0].0 < ins[n + 1].0;
        }
        BlocksAtNone(ins[1..], p);
        assert BlocksAt(ins, p) == ins[0].1 + BlocksAt(ins[1..], p);
        assert Filter(Tagged(ins, wit, |ins|), AnchorIs(p)) == [Pending(ins[0].0, wit, ins[0].1)] + Filter(rest, AnchorIs(p));
        assert BlocksAt(ins, p) == ins[0].1 != [];
      } else {
        assert OneBlockPerAnchor(ins[1..]) by {
          forall i, j | 0 <= i < j < |ins[1..]| ensures ins[1..][i].0 < ins[1..][j].0 {
            assert ins[i + 1].0 < ins[j + 1].0;
          }
        }
        TaggedAtAnchor(ins[1..], wit, p);
        assert BlocksAt(ins, p) == BlocksAt(ins[1..], p);
        assert Filter(Tagged(ins, wit, |ins|), AnchorIs(p)) == Filter(rest, AnchorIs(p));
      }
    }
  }

  function BlockOf<T>(x: Pending<T>): seq<T> {
    x.block
  }

  /** The entries of a witness anchored at `p` hold, one after the other,
      the tokens of its blocks anchored there. */
  lemma {:induction false} TaggedBlocksAt<T>(ins: seq<(nat, seq<T>)>, wit: string, p: nat)
    ensures FlatMap(BlockOf, Filter(Tagged(ins, wit, |ins|), AnchorIs(p))) == BlocksAt(ins, p)
  {
    if ins != [] {
      var t, rest := Tagged(ins, wit, |ins|), Tagged(ins[1..], wit, |ins| - 1);
      TaggedFront(ins, wit);
      assert t[0] == Pending(ins[0].0, wit, ins[0].1) && t[1..] == rest;
      TaggedBlocksAt(ins[1..], wit, p);
      if ins[0].0 == p {
        assert Filter(t, AnchorIs(p)) == [t[0]] + Filter(rest, AnchorIs(p));
        assert ([t[0]] + Filter(rest, AnchorIs(p)))[1..] == Filter(rest, AnchorIs(p));
      } else {
        assert Filter(t, AnchorIs(p)) == Filter(rest, AnchorIs(p));
      }
    }
  }

  /** The entries of the schedule anchored at `p`: those of `VEsq`, then
      those of `VDir`. */
  lemma RunSplit<T(!new)>(esq: seq<(nat, seq<T>)>, dir: seq<(nat, seq<T>)>, p: nat)
    ensures AnchorSorted(Schedule(esq, dir))
    ensures Start(Schedule(esq, dir), p) <= Start(Schedule(esq, dir), p + 1)
    ensures Schedule(esq, dir)[Start(Schedule(esq, dir), p)..Start(Schedule(esq, dir), p + 1)]
         == Filter(Tagged(esq, "VEsq", |esq|), AnchorIs(p)) + Filter(Tagged(dir, "VDir", |dir|), AnchorIs(p))
    ensures forall x :: x in Filter(Tagged(esq, "VEsq", |esq|), AnchorIs(p)) ==> x.wit == "VEsq"
    ensures forall x :: x in Filter(Tagged(dir, "VDir", |dir|), AnchorIs(p)) ==> x.wit == "VDir"
  {
    ScheduleSpec(esq, dir, p);
    RunIsFilter(Schedule(esq, dir), p);
    FilterIn(Tagged(esq, "VEsq", |esq|), AnchorIs(p));
    FilterIn(Tagged(dir, "VDir", |dir|), AnchorIs(p));
    TaggedWit(esq, "VEsq");
    TaggedWit(dir, "VDir");
  }

  /** The run at `p` of a schedule: the entries of `#VEsq` anchored there,
      then those of `#VDir`. */
  ghost predicate RunOfTwo<T>(all: seq<Pending<T>>, p: nat, fe: seq<Pending<T>>, fd: seq<Pending<T>>)
  {
    && AnchorSorted(all) && Start(all, p) <= Start(all, p + 1)
    && all[Start(all, p)..Start(all, p + 1)] == fe + fd
    && (forall x :: x in fe ==> x.wit == "VEsq")
    && (forall x :: x in fd ==> x.wit == "VDir")
  }

  lemma ScheduleRun<T(!new)>(esq: seq<(nat, seq<T>)>, dir: seq<(nat, seq<T>)>, p: nat)
    ensures RunOfTwo(Schedule(esq, dir), p, Filter(Tagged(esq, "VEsq", |esq|), AnchorIs(p)),
                     Filter(Tagged(dir, "VDir", |dir|), AnchorIs(p)))
  {
    RunSplit(esq, dir, p);
  }

  lemma AnchorSortedTail<T>(all: seq<Pending<T>>)
    requires AnchorSorted(all) && all != []
    ensures AnchorSorted(all[1..])
  {
    forall i, j | 0 <= i < j < |all| - 1 ensures all[1..][i].anchor <= all[1..][j].anchor {
      assert all[i + 1].anchor <= all[j + 1].anchor;
    }
  }

  /** On a sorted list, the run of the entries anchored at `p` is exactly
      the entries anchored at `p`. */
  lemma {:induction false} RunIsFilter<T>(all: seq<Pending<T>>, p: nat)
    requires AnchorSorted(all)
    ensures Start(all, p) <= Start(all, p + 1)
    ensures all[Start(all, p)..Start(all, p + 1)] == Filter(all, AnchorIs(p))
  {
    if all != [] {
      if all[0].anchor <= p {
        AnchorSortedTail(all);
        RunIsFilter(all[1..], p);
        RunFront(all, p);
      } else {
        RunAbove(all, p);
      }
    }
  }

  /** An entry anchored at or before `p` joins the run or precedes it. */
  lemma RunFront<T>(all: seq<Pending<T>>, p: nat)
    requires all != [] && all[0].anchor <= p && AnchorSorted(all)
    requires Start(all[1..], p) <= Start(all[1..], p + 1)
    requires all[1..][Start(all[1..], p)..Start(all[1..], p + 1)] == Filter(all[1..], AnchorIs(p))
    ensures Start(all, p) <= Start(all, p + 1)
    ensures all[Start(all, p)..Start(all, p + 1)] == Filter(all, AnchorIs(p))
  {
    if all[0].anchor < p {
      RunFrontBefore(all, p);
    } else {
      RunFrontAt(all, p);
    }
  }

  lemma RunFrontBefore<T>(all: seq<Pending<T>>, p: nat)
    requires all != [] && all[0].anchor < p
    requires Start(all[1..], p) <= Start(all[1..], p + 1)
    requires all[1..][Start(all[1..], p)..Start(all[1..], p + 1)] == Filter(all[1..], AnchorIs(p))
    ensures Start(all, p) <= Start(all, p + 1)
    ensures all[Start(all, p)..Start(all, p + 1)] == Filter(all, AnchorIs(p))
  {
    var rest := all[1..];
    var a, b := Start(rest, p), Start(rest, p + 1);
    assert Start(all, p) == 1 + a && Start(all, p + 1) == 1 + b;
    assert all[1 + a..1 + b] == rest[a..b];
    assert !AnchorIs(p)(all[0]);
    assert Filter(all, AnchorIs(p)) == Filter(rest, AnchorIs(p));
  }

  lemma RunFrontAt<T>(all: seq<Pending<T>>, p: nat)
    requires all != [] && all[0].anchor == p && AnchorSorted(all)
    requires Start(all[1..], p) <= Start(all[1..], p + 1)
    requires all[1..][Start(all[1..], p)..Start(all[1..], p + 1)] == Filter(all[1..], AnchorIs(p))
    ensures Start(all, p) <= Start(all, p + 1)
    ensures all[Start(all, p)..Start(all, p + 1)] == Filter(all, AnchorIs(p))
  {
    var rest := all[1..];
    var b := Start(rest, p + 1);
    assert Start(rest, p) == 0;
    assert Start(all, p) == 0 && Start(all, p + 1) == 1 + b;
    assert all[0..1 + b] == [all[0]] + rest[0..b];
    assert AnchorIs(p)(all[0]);
    assert Filter(all, AnchorIs(p)) == [all[0]] + Filter(rest, AnchorIs(p));
  }

  /** A list that starts beyond `p` has no run at `p`. */
  lemma RunAbove<T>(all: seq<Pending<T>>, p: nat)
    requires all != [] && all[0].anchor > p && AnchorSorted(all)
    ensures Start(all, p) == Start(all, p + 1) == 0
    ensures Filter(all, AnchorIs(p)) == []
  {
    forall k | 0 <= k < |all| ensures !AnchorIs(p)(all[k]) {
      if k > 0 {
        assert all[0].anchor <= all[k].anchor;
      }
    }
    FilterNone(all, AnchorIs(p));
  }

  /** A run made of the entries of other witnesses, at most one entry of
      witness `wit`, and more entries of other witnesses: where that entry
      lies in the list, and that no other entry of the run is `wit`'s. */
  lemma RunOfWitness<T>(all: seq<Pending<T>>, lo: nat, hi: nat,
                        pre: seq<Pending<T>>, mine: seq<Pending<T>>, post: seq<Pending<T>>, wit: string)
    requires lo <= hi <= |all| && all[lo..hi] == pre + mine + post && |mine| <= 1
    requires forall x :: x in pre ==> x.wit != wit
    requires forall x :: x in post ==> x.wit != wit
    ensures mine != [] ==> lo + |pre| < hi && all[lo + |pre|] == mine[0]
    ensures forall j :: lo <= j < hi && j != lo + |pre| ==> all[j].wit != wit
    ensures mine == [] ==> forall j :: lo <= j < hi ==> all[j].wit != wit
  {
    forall j | lo <= j < hi && (j != lo + |pre| || mine == []) ensures all[j].wit != wit {
      assert all[j] == all[lo..hi][j - lo];
      if j < lo + |pre| {
        assert all[j] == pre[j - lo];
      } else {
        assert all[j] == post[j - lo - |pre| - |mine|];
      }
    }
    if mine != [] {
      assert all[lo + |pre|] == all[lo..hi][|pre|];
    }
  }

  // ---------------------------------------------------------------------
  // Reading a line built position by position

  /** What witness `w` reads in each step. */
  function StepTexts(steps: nat -> seq<Node>, w: string): nat -> seq<string> {
    (p: nat) => LineText(steps(p), w)
  }

  lemma {:induction false} LineTextConcatenation(steps: nat -> seq<Node>, w: string, n: nat)
    ensures LineText(ConcatenationFrom(steps, 0, n), w) == ConcatenationFrom(StepTexts(steps, w), 0, n)
  {
    if n > 0 {
      LineTextConcatenation(steps, w, n - 1);
      LineTextAppend(ConcatenationFrom(steps, 0, n - 1), steps(n - 1), w);
    }
  }
}
