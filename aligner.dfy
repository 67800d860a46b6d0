/** `_align_target_to_base`: lays a target witness over the base (modern)
    witness, given the opcodes of a diff of their comparable forms. The
    diff itself (difflib's `SequenceMatcher`) is not modelled: its opcodes
    are an input, constrained by `ValidOpcodes`. */
module Aligner {
  import opened Wrappers
  import opened Sorting
  import opened Loops

  datatype OpTag = Equal | Replace | Delete | Insert

  /** `(tag, i1, i2, j1, j2)`: base range `[i1, i2)` against target range `[j1, j2)`. */
  datatype Opcode = Opcode(tag: OpTag, i1: nat, i2: nat, j1: nat, j2: nat)

  /** One opcode of a diff of `a` (base) against `b` (target). */
  predicate OpValid(op: Opcode, a: seq<string>, b: seq<string>) {
    && op.i1 <= op.i2 <= |a|
    && op.j1 <= op.j2 <= |b|
    && match op.tag
       case Equal => op.i2 - op.i1 == op.j2 - op.j1 && op.i1 < op.i2 && a[op.i1..op.i2] == b[op.j1..op.j2]
       case Replace => op.i1 < op.i2 && op.j1 < op.j2
       case Delete => op.i1 < op.i2 && op.j1 == op.j2
       case Insert => op.i1 == op.i2 && op.j1 < op.j2
  }

  function EndI(ops: seq<Opcode>): nat {
    if ops == [] then 0 else ops[|ops| - 1].i2
  }

  function EndJ(ops: seq<Opcode>): nat {
    if ops == [] then 0 else ops[|ops| - 1].j2
  }

  /** Valid opcodes, each starting where the previous one ended and the first
      at `(0, 0)`: a diff of a prefix of both sequences. */
  predicate ValidPrefix(ops: seq<Opcode>, a: seq<string>, b: seq<string>)
    decreases |ops|
  {
    ops == [] ||
    var init := ops[..|ops| - 1];
    var op := ops[|ops| - 1];
    ValidPrefix(init, a, b) && OpValid(op, a, b) && op.i1 == EndI(init) && op.j1 == EndJ(init)
  }

  /** What `get_opcodes()` returns: contiguous valid opcodes covering `a` and
      `b` completely (none at all when both are empty). */
  predicate ValidOpcodes(ops: seq<Opcode>, a: seq<string>, b: seq<string>) {
    ValidPrefix(ops, a, b) && EndI(ops) == |a| && EndJ(ops) == |b|
  }

  /** The opcode's ranges fit a target of length `m`. */
  predicate OpFits(op: Opcode, m: nat) {
    && op.i1 <= op.i2 && op.j1 <= op.j2 <= m
    && (op.tag == Equal ==> op.i2 - op.i1 == op.j2 - op.j1)
    && (op.tag == Insert ==> op.i1 == op.i2 && op.j1 < op.j2)
    && (op.tag == Delete ==> op.j1 == op.j2)
  }

  /** Contiguous opcodes that fit a target of length `m`: what the slot
      and insertion functions need of them. */
  predicate Layout(ops: seq<Opcode>, m: nat)
    decreases |ops|
  {
    ops == [] ||
    var init := ops[..|ops| - 1];
    var op := ops[|ops| - 1];
    Layout(init, m) && OpFits(op, m) && op.i1 == EndI(init) && op.j1 == EndJ(init)
  }

  lemma {:induction false} ValidPrefixLayout(ops: seq<Opcode>, a: seq<string>, b: seq<string>)
    requires ValidPrefix(ops, a, b)
    ensures Layout(ops, |b|)
    decreases |ops|
  {
    if ops != [] {
      ValidPrefixLayout(ops[..|ops| - 1], a, b);
    }
  }

  /** Every opcode of a valid list is valid, and the opcodes before it form a
      valid list that ends where it starts. */
  lemma {:induction false} ValidPrefixAt(ops: seq<Opcode>, a: seq<string>, b: seq<string>, k: nat)
    requires ValidPrefix(ops, a, b) && k < |ops|
    ensures OpValid(ops[k], a, b) && ValidPrefix(ops[..k], a, b)
    ensures EndI(ops[..k]) == ops[k].i1 && EndJ(ops[..k]) == ops[k].j1
    decreases |ops|
  {
    var init := ops[..|ops| - 1];
    if k < |ops| - 1 {
      ValidPrefixAt(init, a, b, k);
      assert init[k] == ops[k];
      assert init[..k] == ops[..k];
    } else {
      assert init == ops[..k];
    }
  }

  lemma {:induction false} LayoutTake(ops: seq<Opcode>, m: nat, p: nat)
    requires Layout(ops, m) && p <= |ops|
    ensures Layout(ops[..p], m)
    ensures p < |ops| ==> OpFits(ops[p], m) && EndI(ops[..p]) == ops[p].i1 && EndJ(ops[..p]) == ops[p].j1
    decreases |ops|
  {
    if p == |ops| {
      assert ops[..p] == ops;
    } else {
      var init := ops[..|ops| - 1];
      if p < |ops| - 1 {
        LayoutTake(init, m, p);
        assert init[p] == ops[p];
        assert init[..p] == ops[..p];
      } else {
        assert init == ops[..p];
      }
    }
  }

  /** The slots one opcode fills: `equal` copies its target range, `replace`
      pairs positions while the target range lasts, and the rest stay `None`. */
  function OpSlots<T>(op: Opcode, target: seq<T>): (r: seq<Option<T>>)
    requires OpFits(op, |target|)
    ensures |r| == op.i2 - op.i1
  {
    seq(op.i2 - op.i1, k requires 0 <= k < op.i2 - op.i1 =>
      if op.tag == Equal || (op.tag == Replace && k < op.j2 - op.j1) then Some(target[op.j1 + k]) else None)
  }

  /** The insertion blocks one opcode contributes, each with its anchor. */
  function OpInserts<T>(op: Opcode, target: seq<T>): (r: seq<(nat, seq<T>)>)
    requires OpFits(op, |target|)
    ensures forall n :: 0 <= n < |r| ==> r[n].0 == op.i2 && r[n].1 != []
  {
    if op.tag == Replace && op.j2 - op.j1 > op.i2 - op.i1 then [(op.i2, target[op.j1 + (op.i2 - op.i1)..op.j2])]
    else if op.tag == Insert then [(op.i1, target[op.j1..op.j2])]
    else []
  }

  /** `aligned_target` after the opcode loop. */
  function Slots<T>(ops: seq<Opcode>, target: seq<T>): (r: seq<Option<T>>)
    requires Layout(ops, |target|)
    ensures |r| == EndI(ops)
  {
    if ops == [] then []
    else
      Slots(ops[..|ops| - 1], target) + OpSlots(ops[|ops| - 1], target)
  }

  /** `insertions_before_base_idx` after the opcode loop. */
  function Inserts<T>(ops: seq<Opcode>, target: seq<T>): (r: seq<(nat, seq<T>)>)
    requires Layout(ops, |target|)
  {
    if ops == [] then []
    else
      Inserts(ops[..|ops| - 1], target) + OpInserts(ops[|ops| - 1], target)
  }

  lemma SlotsStep<T>(ops: seq<Opcode>, p: nat, target: seq<T>)
    requires Layout(ops, |target|) && p < |ops|
    ensures Layout(ops[..p], |target|) && Layout(ops[..p + 1], |target|) && OpFits(ops[p], |target|)
    ensures EndI(ops[..p]) == ops[p].i1 && EndJ(ops[..p]) == ops[p].j1
    ensures Slots(ops[..p + 1], target) == Slots(ops[..p], target) + OpSlots(ops[p], target)
    ensures Inserts(ops[..p + 1], target) == Inserts(ops[..p], target) + OpInserts(ops[p], target)
  {
    LayoutTake(ops, |target|, p);
    LayoutTake(ops, |target|, p + 1);
    var pre := ops[..p + 1];
    assert pre[..|pre| - 1] == ops[..p];
  }

  /** The slot assignments of one opcode: `equal` and `replace` assign by
      index, `delete` and `insert` assign nothing. */
  method FillSlots<T>(slots: array<Option<T>>, op: Opcode, target: seq<T>, ghost before: seq<Option<T>>)
    requires OpFits(op, |target|) && op.i2 <= slots.Length && |before| == op.i1
    requires slots[..op.i1] == before
    requires forall x :: op.i1 <= x < slots.Length ==> slots[x] == None
    modifies slots
    ensures slots[..op.i2] == before + OpSlots(op, target)
    ensures forall x :: op.i2 <= x < slots.Length ==> slots[x] == None
  {
    if op.tag == Equal {
      FillEqual(slots, op, target, before);
    } else if op.tag == Replace {
      FillReplace(slots, op, target, before);
    } else {
      assert forall x :: 0 <= x < op.i2 - op.i1 ==> slots[op.i1..op.i2][x] == None == OpSlots(op, target)[x];
      assert slots[op.i1..op.i2] == OpSlots(op, target);
      assert slots[..op.i2] == slots[..op.i1] + slots[op.i1..op.i2];
    }
  }

  /** `equal`: each base index of the range gets the target token at the
      same offset. */
  method FillEqual<T>(slots: array<Option<T>>, op: Opcode, target: seq<T>, ghost before: seq<Option<T>>)
    requires OpFits(op, |target|) && op.tag == Equal && op.i2 <= slots.Length && |before| == op.i1
    requires slots[..op.i1] == before
    requires forall x :: op.i1 <= x < slots.Length ==> slots[x] == None
    modifies slots
    ensures slots[..op.i2] == before + OpSlots(op, target)
    ensures forall x :: op.i2 <= x < slots.Length ==> slots[x] == None
  {
    var k := 0;
    while k < op.i2 - op.i1
      invariant 0 <= k <= op.i2 - op.i1
      invariant slots[..op.i1 + k] == before + OpSlots(op, target)[..k]
      invariant forall x :: op.i1 + k <= x < slots.Length ==> slots[x] == None
    {
      slots[op.i1 + k] := Some(target[op.j1 + k]);
      k := k + 1;
    }
    assert OpSlots(op, target)[..op.i2 - op.i1] == OpSlots(op, target);
  }

  /** `replace`: the base indices that have a target token at the same
      offset get it; the rest of the range stays `None`. */
  method FillReplace<T>(slots: array<Option<T>>, op: Opcode, target: seq<T>, ghost before: seq<Option<T>>)
    requires OpFits(op, |target|) && op.tag == Replace && op.i2 <= slots.Length && |before| == op.i1
    requires slots[..op.i1] == before
    requires forall x :: op.i1 <= x < slots.Length ==> slots[x] == None
    modifies slots
    ensures slots[..op.i2] == before + OpSlots(op, target)
    ensures forall x :: op.i2 <= x < slots.Length ==> slots[x] == None
  {
    var lenBase := op.i2 - op.i1;
    var lenTarget := op.j2 - op.j1;
    var k := 0;
    while k < lenBase
      invariant 0 <= k <= lenBase
      invariant slots[..op.i1 + k] == before + OpSlots(op, target)[..k]
      invariant forall x :: op.i1 + k <= x < slots.Length ==> slots[x] == None
    {
      if k < lenTarget {
        slots[op.i1 + k] := Some(target[op.j1 + k]);
      }
      k := k + 1;
    }
    assert OpSlots(op, target)[..op.i2 - op.i1] == OpSlots(op, target);
  }

  /** The blocks one opcode appends to `insertions_before_base_idx`: the
      surplus of a longer `replace` target, anchored after its base range,
      or the whole range of an `insert`, anchored where it is inserted. */
  method AddBlocks<T>(inserts: seq<(nat, seq<T>)>, op: Opcode, target: seq<T>) returns (r: seq<(nat, seq<T>)>)
    requires OpFits(op, |target|)
    ensures r == inserts + OpInserts(op, target)
  {
    r := inserts;
    if op.tag == Replace {
      var lenBase := op.i2 - op.i1;
      var lenTarget := op.j2 - op.j1;
      if lenTarget > lenBase {
        r := r + [(op.i2, target[op.j1 + lenBase..op.j2])];
      }
    } else if op.tag == Insert {
      r := r + [(op.i1, target[op.j1..op.j2])];
    }
  }

  /** The opcode loop of `_align_target_to_base`: `aligned` starts as
      `[None] * len(base)` and is filled by index, while the blocks of
      target tokens that have no base position are collected with their anchors. */
  method AlignTargetToBase<T>(baseComparable: seq<string>, target: seq<T>, targetComparable: seq<string>,
                              ops: seq<Opcode>)
    returns (aligned: seq<Option<T>>, inserts: seq<(nat, seq<T>)>)
    requires |target| == |targetComparable|
    requires ValidOpcodes(ops, baseComparable, targetComparable)
    ensures Layout(ops, |target|)
    ensures aligned == Slots(ops, target)
    ensures inserts == Inserts(ops, target)
  {
    ValidPrefixLayout(ops, baseComparable, targetComparable);
    assert ops[..0] == [];
    var slots := new Option<T>[|baseComparable|](_ => None);
    inserts := [];
    var p := 0;
    while p < |ops|
      invariant 0 <= p <= |ops|
      invariant Layout(ops[..p], |target|)
      invariant EndI(ops[..p]) <= slots.Length
      invariant slots[..EndI(ops[..p])] == Slots(ops[..p], target)
      invariant forall x :: EndI(ops[..p]) <= x < slots.Length ==> slots[x] == None
      invariant inserts == Inserts(ops[..p], target)
    {
      var op := ops[p];
      SlotsStep(ops, p, target);
      ValidPrefixAt(ops, baseComparable, targetComparable, p);
      FillSlots(slots, op, target, Slots(ops[..p], target));
      inserts := AddBlocks(inserts, op, target);
      p := p + 1;
    }
    assert ops[..p] == ops;
    aligned := slots[..];
  }

  // ---------------------------------------------------------------------
  // What the slots hold

  lemma {:induction false} SlotsAt<T>(ops: seq<Opcode>, target: seq<T>, k: nat, x: nat)
    requires Layout(ops, |target|) && k < |ops| && ops[k].i1 <= x < ops[k].i2
    ensures OpFits(ops[k], |target|) && x < |Slots(ops, target)|
    ensures Slots(ops, target)[x] == OpSlots(ops[k], target)[x - ops[k].i1]
    decreases |ops|
  {
    var init := ops[..|ops| - 1];
    var op := ops[|ops| - 1];
    assert Slots(ops, target) == Slots(init, target) + OpSlots(op, target);
    if k < |ops| - 1 {
      assert init[k] == ops[k];
      OpEndBound(init, |target|, k);
      SlotsAt(init, target, k, x);
    }
  }

  /** Every opcode ends at or before the end of the whole list. */
  lemma {:induction false} OpEndBound(ops: seq<Opcode>, m: nat, k: nat)
    requires Layout(ops, m) && k < |ops|
    ensures ops[k].i2 <= EndI(ops)
    decreases |ops|
  {
    if k < |ops| - 1 {
      var init := ops[..|ops| - 1];
      assert init[k] == ops[k];
      OpEndBound(init, m, k);
    }
  }

  lemma {:induction false} SlotsEnd<T>(pre: seq<Opcode>, ops: seq<Opcode>, target: seq<T>)
    requires Layout(ops, |target|) && pre != [] && |pre| <= |ops| && pre == ops[..|pre|]
    ensures EndI(pre) <= EndI(ops)
    decreases |ops|
  {
    if |pre| < |ops| {
      var init := ops[..|ops| - 1];
      assert init[..|pre|] == pre;
      SlotsEnd(pre, init, target);
    }
  }

  /** The aligned slot of every base position covered by an opcode: an
      `equal` opcode copies the target token whose comparable form equals the
      base's, a `replace` opcode pairs positions while its target range lasts
      and leaves the rest `None`, and a `delete` opcode leaves `None`. */
  lemma AlignedSlot<T>(ops: seq<Opcode>, a: seq<string>, b: seq<string>, target: seq<T>, k: nat, x: nat)
    requires ValidOpcodes(ops, a, b) && |target| == |b|
    requires k < |ops| && ops[k].i1 <= x < ops[k].i2
    ensures Layout(ops, |target|) && |Slots(ops, target)| == |a| && x < |a| && OpValid(ops[k], a, b)
    ensures ops[k].tag == Equal ==>
              && Slots(ops, target)[x] == Some(target[ops[k].j1 + (x - ops[k].i1)])
              && b[ops[k].j1 + (x - ops[k].i1)] == a[x]
    ensures ops[k].tag == Replace ==>
              Slots(ops, target)[x] ==
                if x - ops[k].i1 < ops[k].j2 - ops[k].j1 then Some(target[ops[k].j1 + (x - ops[k].i1)]) else None
    ensures ops[k].tag == Delete ==> Slots(ops, target)[x] == None
  {
    ValidPrefixLayout(ops, a, b);
    ValidPrefixAt(ops, a, b, k);
    SlotsAt(ops, target, k, x);
    OpSlotOf(ops[k], a, b, target, x, Slots(ops, target)[x]);
  }

  lemma OpSlotOf<T>(op: Opcode, a: seq<string>, b: seq<string>, target: seq<T>, x: nat, v: Option<T>)
    requires OpValid(op, a, b) && OpFits(op, |target|) && |target| == |b| && op.i1 <= x < op.i2
    requires v == OpSlots(op, target)[x - op.i1]
    ensures op.tag == Equal ==>
              && v == Some(target[op.j1 + (x - op.i1)])
              && b[op.j1 + (x - op.i1)] == a[x]
    ensures op.tag == Replace ==>
              v == if x - op.i1 < op.j2 - op.j1 then Some(target[op.j1 + (x - op.i1)]) else None
    ensures op.tag == Delete ==> v == None
  {
    OpSlotAt(op, target, x - op.i1);
    if op.tag == Equal {
      EqualOpAgrees(op, a, b, x);
    }
  }

  lemma OpSlotAt<T>(op: Opcode, target: seq<T>, d: nat)
    requires OpFits(op, |target|) && d < op.i2 - op.i1
    ensures OpSlots(op, target)[d] ==
              if op.tag == Equal || (op.tag == Replace && d < op.j2 - op.j1) then Some(target[op.j1 + d]) else None
  {
  }

  /** An `equal` opcode pairs equal tokens. */
  lemma EqualOpAgrees(op: Opcode, a: seq<string>, b: seq<string>, x: nat)
    requires OpValid(op, a, b) && op.tag == Equal && op.i1 <= x < op.i2
    ensures op.j1 + (x - op.i1) < |b| && b[op.j1 + (x - op.i1)] == a[x]
  {
    assert a[op.i1..op.i2][x - op.i1] == b[op.j1..op.j2][x - op.i1];
  }

  // ---------------------------------------------------------------------
  // Where the insertion blocks go

  /** Every block is non-empty and anchored at a base position in
      `0..len(base)`, and the anchors never decrease along the list. */
  lemma {:induction false} InsertsAnchored<T>(ops: seq<Opcode>, target: seq<T>)
    requires Layout(ops, |target|)
    ensures forall n :: 0 <= n < |Inserts(ops, target)| ==>
              Inserts(ops, target)[n].1 != [] && Inserts(ops, target)[n].0 <= EndI(ops)
    ensures forall n, m :: 0 <= n < m < |Inserts(ops, target)| ==>
              Inserts(ops, target)[n].0 <= Inserts(ops, target)[m].0
    decreases |ops|
  {
    if ops != [] {
      var init := ops[..|ops| - 1];
      var op := ops[|ops| - 1];
      InsertsAnchored(init, target);
      if init != [] {
        SlotsEnd(init, init, target);
      }
      var r := Inserts(ops, target);
      var r0 := Inserts(init, target);
      assert r == r0 + OpInserts(op, target);
      forall n | 0 <= n < |r| ensures r[n].1 != [] && r[n].0 <= EndI(ops) {
        if n >= |r0| {
          assert r[n] == OpInserts(op, target)[n - |r0|];
        } else {
          assert r[n] == r0[n];
        }
      }
      forall n, m | 0 <= n < m < |r| ensures r[n].0 <= r[m].0 {
        if m >= |r0| {
          assert r[m] == OpInserts(op, target)[m - |r0|];
          if n < |r0| {
            assert r[n] == r0[n];
          }
        } else {
          assert r[n] == r0[n] && r[m] == r0[m];
        }
      }
    }
  }

  // ---------------------------------------------------------------------
  // Every target token is placed exactly once, in order

  /** The tokens of the blocks anchored at base position `p`, in list order. */
  function BlocksAt<T>(inserts: seq<(nat, seq<T>)>, p: nat): seq<T> {
    if inserts == [] then []
    else (if inserts[0].0 == p then inserts[0].1 else []) + BlocksAt(inserts[1..], p)
  }

  /** The tokens of all blocks, in list order. */
  function AllBlockTokens<T>(inserts: seq<(nat, seq<T>)>): seq<T> {
    if inserts == [] then [] else inserts[0].1 + AllBlockTokens(inserts[1..])
  }

  /** The token in slot `p`, if there is one. */
  function SlotToken<T>(slots: seq<Option<T>>, p: nat): seq<T> {
    if p < |slots| && slots[p].Some? then [slots[p].value] else []
  }

  function SlotSegment<T>(slots: seq<Option<T>>): nat -> seq<T> {
    (p: nat) => SlotToken(slots, p)
  }

  /** What the line collator emits for base position `p`: first the blocks
      anchored there, then the token in the slot. */
  function Segment<T>(slots: seq<Option<T>>, inserts: seq<(nat, seq<T>)>): nat -> seq<T> {
    (p: nat) => BlocksAt(inserts, p) + SlotToken(slots, p)
  }

  /** The target read back from the alignment, base position by base
      position below `n`, in the order in which the line collator emits it. */
  function Weave<T>(slots: seq<Option<T>>, inserts: seq<(nat, seq<T>)>, n: nat): seq<T> {
    ConcatenationFrom(Segment(slots, inserts), 0, n)
  }

  lemma {:induction false} ConcatenationKeep<T>(f: nat -> seq<T>, g: nat -> seq<T>, lo: nat, n: nat)
    requires forall p :: lo <= p < n ==> f(p) == g(p)
    ensures ConcatenationFrom(f, lo, n) == ConcatenationFrom(g, lo, n)
  {
    if n > lo {
      ConcatenationKeep(f, g, lo, n - 1);
    }
  }

  lemma {:induction false} ConcatenationSplit<T>(f: nat -> seq<T>, lo: nat, mid: nat, n: nat)
    requires lo <= mid <= n
    ensures ConcatenationFrom(f, lo, n) == ConcatenationFrom(f, lo, mid) + ConcatenationFrom(f, mid, n)
  {
    if n > mid {
      ConcatenationSplit(f, lo, mid, n - 1);
    }
  }

  /** Segments that are those of `g`, except for a prefix `b` on the first. */
  lemma {:induction false} ConcatenationHead<T>(f: nat -> seq<T>, g: nat -> seq<T>, b: seq<T>, lo: nat, n: nat)
    requires lo < n
    requires f(lo) == b + g(lo)
    requires forall p :: lo < p < n ==> f(p) == g(p)
    ensures ConcatenationFrom(f, lo, n) == b + ConcatenationFrom(g, lo, n)
  {
    if n - 1 > lo {
      ConcatenationHead(f, g, b, lo, n - 1);
      assert f(n - 1) == g(n - 1);
      AppendAssoc(b, ConcatenationFrom(g, lo, n - 1), g(n - 1));
    } else {
      assert ConcatenationFrom(f, lo, n - 1) == [] && ConcatenationFrom(g, lo, n - 1) == [];
    }
  }

  lemma AppendAssoc<T>(x: seq<T>, y: seq<T>, z: seq<T>)
    ensures (x + y) + z == x + (y + z)
  {
  }

  lemma {:induction false} BlocksAtAppend<T>(x: seq<(nat, seq<T>)>, y: seq<(nat, seq<T>)>, p: nat)
    ensures BlocksAt(x + y, p) == BlocksAt(x, p) + BlocksAt(y, p)
  {
    if x == [] {
      assert x + y == y;
    } else {
      assert (x + y)[1..] == x[1..] + y;
      BlocksAtAppend(x[1..], y, p);
    }
  }

  lemma {:induction false} BlocksAtNone<T>(x: seq<(nat, seq<T>)>, p: nat)
    requires forall n :: 0 <= n < |x| ==> x[n].0 != p
    ensures BlocksAt(x, p) == []
  {
    if x != [] {
      BlocksAtNone(x[1..], p);
    }
  }

  lemma {:induction false} BlocksAtAll<T>(x: seq<(nat, seq<T>)>, p: nat)
    requires forall n :: 0 <= n < |x| ==> x[n].0 == p
    ensures BlocksAt(x, p) == AllBlockTokens(x)
  {
    if x != [] {
      BlocksAtAll(x[1..], p);
    }
  }

  /** Appending slots, and blocks anchored at or beyond `n`, leaves the
      weave below `n` as it was. */
  lemma WeaveExtend<T>(s: seq<Option<T>>, os: seq<Option<T>>, ins: seq<(nat, seq<T>)>, oi: seq<(nat, seq<T>)>, n: nat)
    requires n <= |s|
    requires forall k :: 0 <= k < |oi| ==> oi[k].0 >= n
    ensures Weave(s + os, ins + oi, n) == Weave(s, ins, n)
  {
    forall p | 0 <= p < n ensures Segment(s + os, ins + oi)(p) == Segment(s, ins)(p) {
      BlocksAtAppend(ins, oi, p);
      BlocksAtNone(oi, p);
      assert SlotToken(s + os, p) == SlotToken(s, p);
    }
    ConcatenationKeep(Segment(s + os, ins + oi), Segment(s, ins), 0, n);
  }

  /** Inside the base range `|s|..|s| + |os|` of the last opcode only the
      blocks waiting at its start are anchored, at its first position. */
  lemma BlocksInside<T>(s: seq<Option<T>>, os: seq<Option<T>>, ins: seq<(nat, seq<T>)>, oi: seq<(nat, seq<T>)>, p: nat)
    requires |s| <= p < |s| + |os|
    requires forall k :: 0 <= k < |ins| ==> ins[k].0 <= |s|
    requires forall k :: 0 <= k < |oi| ==> oi[k].0 >= |s| + |os|
    ensures BlocksAt(ins + oi, p) == if p == |s| then BlocksAt(ins, |s|) else []
  {
    BlocksAtAppend(ins, oi, p);
    BlocksAtNone(oi, p);
    if p > |s| {
      BlocksAtNone(ins, p);
    }
  }

  /** The segments of a non-empty base range of the last opcode: the blocks
      waiting at its start, then its slot tokens. */
  lemma OpSegments<T>(s: seq<Option<T>>, os: seq<Option<T>>, ins: seq<(nat, seq<T>)>, oi: seq<(nat, seq<T>)>, n: nat)
    requires os != [] && n == |s| + |os|
    requires forall k :: 0 <= k < |ins| ==> ins[k].0 <= |s|
    requires forall k :: 0 <= k < |oi| ==> oi[k].0 >= n
    ensures ConcatenationFrom(Segment(s + os, ins + oi), |s|, n)
            == BlocksAt(ins, |s|) + ConcatenationFrom(SlotSegment(s + os), |s|, n)
  {
    var f, g := Segment(s + os, ins + oi), SlotSegment(s + os);
    forall p | |s| < p < n ensures f(p) == g(p) {
      BlocksInside(s, os, ins, oi, p);
    }
    BlocksInside(s, os, ins, oi, |s|);
    ConcatenationHead(f, g, BlocksAt(ins, |s|), |s|, n);
  }

  /** The tokens of one opcode's slots, read from its first base position up
      to `n`: the first `min(n - i1, available)` tokens of its target range. */
  /** How many target tokens the first `n - i1` slots of an opcode hold. */
  function OpTaken(op: Opcode, n: nat): nat
    requires op.i1 <= n && op.j1 <= op.j2
  {
    var avail := if op.tag == Equal || op.tag == Replace then op.j2 - op.j1 else 0;
    if n - op.i1 < avail then n - op.i1 else avail
  }

  lemma {:induction false} OpSlotValues<T>(op: Opcode, target: seq<T>, slots: seq<Option<T>>, n: nat)
    requires OpFits(op, |target|) && op.i2 <= |slots| && slots[op.i1..op.i2] == OpSlots(op, target)
    requires op.i1 <= n <= op.i2
    ensures op.j1 + OpTaken(op, n) <= op.j2
    ensures ConcatenationFrom(SlotSegment(slots), op.i1, n) == target[op.j1..op.j1 + OpTaken(op, n)]
  {
    if n > op.i1 {
      OpSlotValues(op, target, slots, n - 1);
      OpSlotStep(op, target, slots, n);
    }
  }

  lemma OpSlotStep<T>(op: Opcode, target: seq<T>, slots: seq<Option<T>>, n: nat)
    requires OpFits(op, |target|) && op.i2 <= |slots| && slots[op.i1..op.i2] == OpSlots(op, target)
    requires op.i1 < n <= op.i2
    requires op.j1 + OpTaken(op, n - 1) <= op.j2
    requires ConcatenationFrom(SlotSegment(slots), op.i1, n - 1) == target[op.j1..op.j1 + OpTaken(op, n - 1)]
    ensures op.j1 + OpTaken(op, n) <= op.j2
    ensures ConcatenationFrom(SlotSegment(slots), op.i1, n) == target[op.j1..op.j1 + OpTaken(op, n)]
  {
    OpSlotTokenAt(op, target, slots, n);
    ConcatSlice(SlotSegment(slots), op.i1, n, target, op.j1, OpTaken(op, n - 1), OpTaken(op, n));
  }

  /** A reading that matched a slice of the target and takes nothing, or
      the next target element, still matches a slice of it. */
  lemma ConcatSlice<T>(seg: nat -> seq<T>, lo: nat, n: nat, target: seq<T>, j1: nat, c: nat, c2: nat)
    requires lo < n && c <= c2 && j1 + c2 <= |target|
    requires ConcatenationFrom(seg, lo, n - 1) == target[j1..j1 + c]
    requires (c2 == c && seg(n - 1) == []) || (c2 == c + 1 && seg(n - 1) == [target[j1 + c]])
    ensures ConcatenationFrom(seg, lo, n) == target[j1..j1 + c2]
  {
    if c2 != c {
      SliceSnoc(target, j1, j1 + c2);
    }
  }

  /** The slot of position `n - 1` holds the next target token exactly when
      the opcode takes one more there. */
  lemma OpSlotTokenAt<T>(op: Opcode, target: seq<T>, slots: seq<Option<T>>, n: nat)
    requires OpFits(op, |target|) && op.i2 <= |slots| && slots[op.i1..op.i2] == OpSlots(op, target)
    requires op.i1 < n <= op.i2
    ensures op.j1 + OpTaken(op, n) <= op.j2
    ensures OpTaken(op, n) == OpTaken(op, n - 1) || OpTaken(op, n) == OpTaken(op, n - 1) + 1
    ensures SlotToken(slots, n - 1) ==
              if OpTaken(op, n) == OpTaken(op, n - 1) then [] else [target[op.j1 + OpTaken(op, n - 1)]]
  {
    var d := n - 1 - op.i1;
    assert slots[n - 1] == OpSlots(op, target)[d] by {
      assert slots[op.i1..op.i2][d] == slots[n - 1];
    }
    OpSlotAt(op, target, d);
  }

  /** One opcode accounts for its target range exactly: its slot tokens
      followed by its blocks. */
  lemma OpCovers<T>(op: Opcode, target: seq<T>, slots: seq<Option<T>>)
    requires OpFits(op, |target|) && op.i2 <= |slots| && slots[op.i1..op.i2] == OpSlots(op, target)
    ensures ConcatenationFrom(SlotSegment(slots), op.i1, op.i2) + AllBlockTokens(OpInserts(op, target))
            == target[op.j1..op.j2]
  {
    OpSlotValues(op, target, slots, op.i2);
    var oi := OpInserts(op, target);
    if oi != [] {
      assert AllBlockTokens(oi) == oi[0].1 + AllBlockTokens(oi[1..]);
      if op.tag == Replace {
        assert target[op.j1..op.j2] == target[op.j1..op.j1 + (op.i2 - op.i1)] + target[op.j1 + (op.i2 - op.i1)..op.j2];
      }
    }
  }

  /** The sequence algebra of one opcode's step, kept apart from the
      functions it is applied to. */
  lemma WeaveStepAlgebra<T>(w: seq<T>, bi: seq<T>, w2: seq<T>, mid: seq<T>, b2: seq<T>, sv: seq<T>, fo: seq<T>,
                            t: seq<T>, j1: nat, j2: nat)
    requires j1 <= j2 <= |t|
    requires w + bi == t[..j1]
    requires w2 == w + mid
    requires mid == bi + sv && b2 == fo
    requires sv + fo == t[j1..j2]
    ensures w2 + b2 == t[..j2]
  {
    assert t[..j2] == t[..j1] + t[j1..j2];
  }

  /** One opcode's step of the weave, for an opcode with base positions:
      if the weave so far, with the blocks waiting at its end, is the target
      up to `j1`, then so it is up to `j2` once the opcode's slots and blocks
      are added. */
  lemma WeaveOpStep<T>(s: seq<Option<T>>, os: seq<Option<T>>, ins: seq<(nat, seq<T>)>, oi: seq<(nat, seq<T>)>,
                       t: seq<T>, n: nat, j1: nat, j2: nat)
    requires os != [] && n == |s| + |os|
    requires forall k :: 0 <= k < |ins| ==> ins[k].0 <= |s|
    requires forall k :: 0 <= k < |oi| ==> oi[k].0 == n
    requires j1 <= j2 <= |t|
    requires Weave(s, ins, |s|) + BlocksAt(ins, |s|) == t[..j1]
    requires ConcatenationFrom(SlotSegment(s + os), |s|, n) + AllBlockTokens(oi) == t[j1..j2]
    ensures Weave(s + os, ins + oi, n) + BlocksAt(ins + oi, n) == t[..j2]
  {
    WeaveOpWeave(s, os, ins, oi, n);
    OpSegments(s, os, ins, oi, n);
    BlocksAtEnd(ins, oi, n);
    WeaveStepAlgebra(Weave(s, ins, |s|), BlocksAt(ins, |s|), Weave(s + os, ins + oi, n),
                     ConcatenationFrom(Segment(s + os, ins + oi), |s|, n), BlocksAt(ins + oi, n),
                     ConcatenationFrom(SlotSegment(s + os), |s|, n), AllBlockTokens(oi), t, j1, j2);
  }

  lemma WeaveOpWeave<T>(s: seq<Option<T>>, os: seq<Option<T>>, ins: seq<(nat, seq<T>)>, oi: seq<(nat, seq<T>)>, n: nat)
    requires n == |s| + |os|
    requires forall k :: 0 <= k < |oi| ==> oi[k].0 >= |s|
    ensures Weave(s + os, ins + oi, n) == Weave(s, ins, |s|) + ConcatenationFrom(Segment(s + os, ins + oi), |s|, n)
  {
    WeaveExtend(s, os, ins, oi, |s|);
    ConcatenationSplit(Segment(s + os, ins + oi), 0, |s|, n);
  }

  /** At the end of the base range only the last opcode's blocks wait. */
  lemma BlocksAtEnd<T>(ins: seq<(nat, seq<T>)>, oi: seq<(nat, seq<T>)>, p: nat)
    requires forall k :: 0 <= k < |ins| ==> ins[k].0 < p
    requires forall k :: 0 <= k < |oi| ==> oi[k].0 == p
    ensures BlocksAt(ins + oi, p) == AllBlockTokens(oi)
  {
    BlocksAtAppend(ins, oi, p);
    BlocksAtAll(oi, p);
    BlocksAtNone(ins, p);
    assert BlocksAt(ins, p) + BlocksAt(oi, p) == AllBlockTokens(oi);
  }

  /** The step of an opcode without base positions: its blocks join those
      waiting at the end of the weave. */
  lemma WeaveEmptyStep<T>(s: seq<Option<T>>, os: seq<Option<T>>, ins: seq<(nat, seq<T>)>, oi: seq<(nat, seq<T>)>,
                          t: seq<T>, n: nat, j1: nat, j2: nat)
    requires os == [] && n == |s|
    requires forall k :: 0 <= k < |oi| ==> oi[k].0 == |s|
    requires j1 <= j2 <= |t|
    requires Weave(s, ins, |s|) + BlocksAt(ins, |s|) == t[..j1]
    requires AllBlockTokens(oi) == t[j1..j2]
    ensures Weave(s + os, ins + oi, n) + BlocksAt(ins + oi, n) == t[..j2]
  {
    assert s + os == s;
    WeaveMoreBlocks(s, ins, oi, |s|);
    BlocksAtAppend(ins, oi, |s|);
    BlocksAtAll(oi, |s|);
    EmptyStepAlgebra(Weave(s, ins, |s|), BlocksAt(ins, |s|), AllBlockTokens(oi), t, j1, j2);
  }

  lemma EmptyStepAlgebra<T>(w: seq<T>, bi: seq<T>, fo: seq<T>, t: seq<T>, j1: nat, j2: nat)
    requires j1 <= j2 <= |t|
    requires w + bi == t[..j1] && fo == t[j1..j2]
    ensures w + (bi + fo) == t[..j2]
  {
    assert t[..j2] == t[..j1] + t[j1..j2];
  }

  /** Blocks anchored at or beyond `n` leave the weave below `n` as it was. */
  lemma WeaveMoreBlocks<T>(s: seq<Option<T>>, ins: seq<(nat, seq<T>)>, oi: seq<(nat, seq<T>)>, n: nat)
    requires forall k :: 0 <= k < |oi| ==> oi[k].0 >= n
    ensures Weave(s, ins + oi, n) == Weave(s, ins, n)
  {
    forall p | 0 <= p < n ensures Segment(s, ins + oi)(p) == Segment(s, ins)(p) {
      BlocksAtAppend(ins, oi, p);
      BlocksAtNone(oi, p);
    }
    ConcatenationKeep(Segment(s, ins + oi), Segment(s, ins), 0, n);
  }

  /** One opcode's step of the weave, in the opcode's own terms. */
  lemma WeaveOp<T>(s: seq<Option<T>>, ins: seq<(nat, seq<T>)>, op: Opcode, t: seq<T>)
    requires OpFits(op, |t|) && |s| == op.i1
    requires forall k :: 0 <= k < |ins| ==> ins[k].0 <= |s|
    requires Weave(s, ins, |s|) + BlocksAt(ins, |s|) == t[..op.j1]
    ensures Weave(s + OpSlots(op, t), ins + OpInserts(op, t), op.i2) + BlocksAt(ins + OpInserts(op, t), op.i2)
            == t[..op.j2]
  {
    var os, oi := OpSlots(op, t), OpInserts(op, t);
    assert (s + os)[op.i1..op.i2] == os;
    OpCovers(op, t, s + os);
    if os == [] {
      WeaveEmptyStep(s, os, ins, oi, t, op.i2, op.j1, op.j2);
    } else {
      WeaveOpStep(s, os, ins, oi, t, op.i2, op.j1, op.j2);
    }
  }

  lemma {:induction false} WeavePrefix<T>(ops: seq<Opcode>, target: seq<T>)
    requires Layout(ops, |target|)
    ensures Weave(Slots(ops, target), Inserts(ops, target), EndI(ops)) + BlocksAt(Inserts(ops, target), EndI(ops))
            == target[..EndJ(ops)]
    decreases |ops|
  {
    if ops == [] {
      assert BlocksAt(Inserts(ops, target), 0) == [];
    } else {
      var init := ops[..|ops| - 1];
      var op := ops[|ops| - 1];
      WeavePrefix(init, target);
      InsertsAnchored(init, target);
      WeaveOp(Slots(init, target), Inserts(init, target), op, target);
    }
  }

  lemma WeaveLast<T>(s: seq<Option<T>>, ins: seq<(nat, seq<T>)>, n: nat)
    requires n == |s|
    ensures Weave(s, ins, n + 1) == Weave(s, ins, n) + BlocksAt(ins, n)
  {
    assert Segment(s, ins)(n) == BlocksAt(ins, n) + [];
  }

  /** Each target token appears exactly once, either in a slot or in an
      insertion block, and reading them back position by position (blocks
      before the slot, as the line collator does) gives the target in its
      original order. */
  lemma AlignPlacesEveryToken<T>(ops: seq<Opcode>, a: seq<string>, b: seq<string>, target: seq<T>)
    requires ValidOpcodes(ops, a, b) && |target| == |b|
    ensures Layout(ops, |target|)
    ensures Weave(Slots(ops, target), Inserts(ops, target), |a| + 1) == target
  {
    ValidPrefixLayout(ops, a, b);
    WeavePrefix(ops, target);
    assert target[..|b|] == target;
    WeaveLast(Slots(ops, target), Inserts(ops, target), |a|);
  }

  /** A diff against an empty target inserts nothing. */
  lemma {:induction false} NoInsertsForEmpty<T>(ops: seq<Opcode>, target: seq<T>)
    requires Layout(ops, |target|) && target == []
    ensures Inserts(ops, target) == []
    decreases |ops|
  {
    if ops != [] {
      NoInsertsForEmpty(ops[..|ops| - 1], target);
    }
  }
}
