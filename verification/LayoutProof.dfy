/** Where blocks and labels end up in a function's text. */
module LayoutProof {
  import opened IR
  import opened RiscV
  import opened RegAlloc
  import opened CodeGen
  import D = Dominators

  /** The text has `seg` at position pc. */
  ghost predicate At(code: seq<Instr>, pc: nat, seg: seq<Instr>) {
    pc + |seg| <= |code| && code[pc..pc + |seg|] == seg
  }

  lemma AtSplit(code: seq<Instr>, pc: nat, xs: seq<Instr>, ys: seq<Instr>)
    requires At(code, pc, xs + ys)
    ensures At(code, pc, xs) && At(code, pc + |xs|, ys)
  {
    var all := code[pc..pc + |xs + ys|];
    assert all[..|xs|] == xs && all[|xs|..] == ys;
    assert code[pc..pc + |xs|] == all[..|xs|];
    assert code[pc + |xs|..pc + |xs| + |ys|] == all[|xs|..];
  }

  lemma AtElement(code: seq<Instr>, pc: nat, seg: seq<Instr>, k: nat)
    requires At(code, pc, seg) && k < |seg|
    ensures code[pc + k] == seg[k]
  {
  }

  ghost predicate InRangeOrder(f: Func, order: seq<nat>) {
    forall i | 0 <= i < |order| :: order[i] < |f.blocks|
  }

  function BlockText(fr: Frame, f: Func, order: seq<nat>, k: nat): (r: seq<Instr>)
    requires k < |order| && order[k] < |f.blocks|
    ensures Unlabelled(r)
  {
    EmitBlock(fr, f, f.blocks[order[k]], NextOf(order, k))
  }

  /** The position of the k-th block's label in the layout. */
  ghost function Offset(fr: Frame, f: Func, order: seq<nat>, k: nat): nat
    requires InRangeOrder(f, order) && k <= |order|
  {
    if k == 0 then 0 else Offset(fr, f, order, k - 1) + 1 + |BlockText(fr, f, order, k - 1)|
  }

  lemma {:induction false} LayoutAt(fr: Frame, f: Func, order: seq<nat>, k: nat)
    requires InRangeOrder(f, order) && k <= |order|
    ensures At(Layout(fr, f, order, 0), Offset(fr, f, order, k), Layout(fr, f, order, k))
    ensures |Layout(fr, f, order, 0)| == Offset(fr, f, order, k) + |Layout(fr, f, order, k)|
  {
    hide EmitBlock;
    var all := Layout(fr, f, order, 0);
    if k == 0 {
      assert all[0..|all|] == all;
    } else {
      LayoutAt(fr, f, order, k - 1);
      var head := [Label(order[k - 1])] + BlockText(fr, f, order, k - 1);
      assert Layout(fr, f, order, k - 1) == head + Layout(fr, f, order, k);
      AtSplit(all, Offset(fr, f, order, k - 1), head, Layout(fr, f, order, k));
    }
  }

  /** Every label before position `end` names one of the first k blocks. */
  ghost predicate LabelsBefore(code: seq<Instr>, end: nat, order: seq<nat>, k: nat)
    requires k <= |order|
  {
    forall j | 0 <= j < end && j < |code| && code[j].Label? :: exists i :: 0 <= i < k && order[i] == code[j].block
  }

  /** One more block: its label and nothing else is new. */
  lemma LabelsStep(code: seq<Instr>, start: nat, order: seq<nat>, k: nat, text: seq<Instr>)
    requires 0 < k <= |order| && LabelsBefore(code, start, order, k - 1) && Unlabelled(text)
    requires At(code, start, [Label(order[k - 1])] + text)
    ensures LabelsBefore(code, start + 1 + |text|, order, k)
  {
  }

  lemma NoLabels(pre: seq<Instr>, code: seq<Instr>, order: seq<nat>)
    requires Unlabelled(pre)
    ensures LabelsBefore(pre + code, |pre|, order, 0)
  {
  }

  /** The labels in front of the k-th block are those of the blocks before it. */
  ghost predicate LabelsKnown(pre: seq<Instr>, fr: Frame, f: Func, order: seq<nat>, k: nat)
    requires InRangeOrder(f, order) && k <= |order|
  {
    LabelsBefore(pre + Layout(fr, f, order, 0), |pre| + Offset(fr, f, order, k), order, k)
  }

  lemma {:induction false} LayoutLabels(pre: seq<Instr>, fr: Frame, f: Func, order: seq<nat>, k: nat)
    requires InRangeOrder(f, order) && k <= |order| && Unlabelled(pre)
    ensures LabelsKnown(pre, fr, f, order, k)
  {
    hide EmitBlock, Layout, LabelsBefore, BlockText;
    if k == 0 {
      NoLabels(pre, Layout(fr, f, order, 0), order);
    } else {
      LayoutAt(fr, f, order, k - 1);
      LayoutStep(fr, f, order, k - 1);
      var all, start, text := Layout(fr, f, order, 0), Offset(fr, f, order, k - 1), BlockText(fr, f, order, k - 1);
      var head, rest := [Label(order[k - 1])], Layout(fr, f, order, k);
      LayoutLabels(pre, fr, f, order, k - 1);
      assert head + (text + rest) == (head + text) + rest;
      AtBehind(pre, all, start, (head + text) + rest);
      AtSplit(pre + all, |pre| + start, head + text, rest);
      LabelsStep(pre + all, |pre| + start, order, k, text);
    }
  }

  lemma {:induction false} FindLabelIs(code: seq<Instr>, b: nat, k: nat)
    requires k < |code| && code[k] == Label(b)
    requires forall j | 0 <= j < k :: code[j] != Label(b)
    ensures FindLabel(code, b) == Some(k)
  {
    if k > 0 {
      FindLabelIs(code[1..], b, k - 1);
    }
  }

  /** The label of block b is found at pos, and `text` follows it. */
  ghost predicate FoundAt(code: seq<Instr>, pos: nat, b: nat, text: seq<Instr>) {
    FindLabel(code, b) == Some(pos) && pos < |code| && code[pos] == Label(b) && At(code, pos + 1, text)
  }

  ghost predicate Distinct(xs: seq<nat>) {
    forall i, j | 0 <= i < j < |xs| :: xs[i] != xs[j]
  }

  /** What comes before the block's label names other blocks. */
  lemma NotBefore(code: seq<Instr>, pos: nat, order: seq<nat>, k: nat)
    requires k < |order| && Distinct(order) && LabelsBefore(code, pos, order, k) && pos < |code| && code[pos] == Label(order[k])
    ensures FindLabel(code, order[k]) == Some(pos)
  {
    forall j | 0 <= j < pos ensures code[j] != Label(order[k]) {}
    FindLabelIs(code, order[k], pos);
  }

  /** The k-th block is where its offset says. */
  ghost predicate BlockIsAt(pre: seq<Instr>, fr: Frame, f: Func, order: seq<nat>, k: nat)
    requires InRangeOrder(f, order) && k < |order|
  {
    FoundAt(pre + Layout(fr, f, order, 0), |pre| + Offset(fr, f, order, k), order[k], BlockText(fr, f, order, k))
  }

  /** A label is found where its block was laid out, followed by the block's text. */
  lemma BlockFound(pre: seq<Instr>, fr: Frame, f: Func, order: seq<nat>, k: nat)
    requires InRangeOrder(f, order) && k < |order| && Unlabelled(pre) && Distinct(order)
    ensures BlockIsAt(pre, fr, f, order, k)
  {
    hide EmitBlock, Layout, BlockText, Offset, FindLabel, Distinct, LabelsBefore, Unlabelled, FoundAt;
    LayoutAt(fr, f, order, k);
    LayoutStep(fr, f, order, k);
    var code, pos := pre + Layout(fr, f, order, 0), |pre| + Offset(fr, f, order, k);
    var head, text, rest := [Label(order[k])], BlockText(fr, f, order, k), Layout(fr, f, order, k + 1);
    AtBehind(pre, Layout(fr, f, order, 0), Offset(fr, f, order, k), head + (text + rest));
    LayoutLabels(pre, fr, f, order, k);
    TextFound(code, pos, order, k, text, rest);
  }

  lemma TextFound(code: seq<Instr>, pos: nat, order: seq<nat>, k: nat, text: seq<Instr>, rest: seq<Instr>)
    requires k < |order| && Distinct(order) && LabelsBefore(code, pos, order, k) && At(code, pos, [Label(order[k])] + (text + rest))
    ensures FoundAt(code, pos, order[k], text)
  {
    hide FindLabel, Distinct, LabelsBefore;
    var head := [Label(order[k])];
    AtSplit(code, pos, head, text + rest);
    AtSplit(code, pos + 1, text, rest);
    AtElement(code, pos, head, 0);
    NotBefore(code, pos, order, k);
  }

  lemma LayoutStep(fr: Frame, f: Func, order: seq<nat>, k: nat)
    requires InRangeOrder(f, order) && k < |order|
    ensures Layout(fr, f, order, k) == [Label(order[k])] + (BlockText(fr, f, order, k) + Layout(fr, f, order, k + 1))
  {
    hide EmitBlock;
  }

  /** A position behind a prefix. */
  lemma AtBehind(pre: seq<Instr>, code: seq<Instr>, pc: nat, seg: seq<Instr>)
    requires At(code, pc, seg)
    ensures At(pre + code, |pre| + pc, seg)
  {
  }

  // ---- reachability -----------------------------------------------------------------------

  /** Blocks of `seen` that are not pending have all their successors in `seen`. */
  ghost predicate Explored(f: Func, stack: seq<nat>, seen: set<nat>) {
    forall b | b in seen && b !in stack && b < |f.blocks| ::
      forall s | s in Succs(f.blocks[b].term) && s < |f.blocks| :: s in seen
  }

  lemma {:induction false} ReachClosed(f: Func, stack: seq<nat>, seen: set<nat>)
    requires forall b | b in seen :: b < |f.blocks|
    requires Explored(f, stack, seen)
    ensures var r := Reach(f, stack, seen);
            && seen <= r && (forall b | b in r :: b < |f.blocks|)
            && Explored(f, [], r)
    decreases AllVregs(|f.blocks|) - seen, |stack|
  {
    if stack != [] {
      var b, rest := stack[|stack| - 1], stack[..|stack| - 1];
      assert stack == rest + [b];
      if b < |f.blocks| {
        var more := Fresh(Succs(f.blocks[b].term), |f.blocks|, seen);
        assert forall x | x in more :: x in Elements(more);
        if more == [] {
          ReachClosed(f, rest, seen);
        } else {
          assert more[0] in more;
          assert more[0] in Elements(more);
          forall c, s | c in seen + Elements(more) && c !in rest + more && c < |f.blocks|
                        && s in Succs(f.blocks[c].term) && s < |f.blocks|
            ensures s in seen + Elements(more)
          {
            assert c in more || c in seen;
            if c != b { assert c !in stack; }
          }
          ReachClosed(f, rest + more, seen + Elements(more));
        }
      } else {
        ReachClosed(f, rest, seen);
      }
    }
  }

  lemma ReachableNext(f: Func, b: nat, s: nat)
    requires D.Reachable(f, b) && D.Edge(f, b, s)
    ensures D.Reachable(f, s)
  {
    var p: seq<nat> :| D.WalkTo(f, p, b);
    assert D.WalkTo(f, p + [s], s);
  }

  /** The search meets only blocks that some path from the entry reaches. */
  lemma {:induction false} ReachOnly(f: Func, stack: seq<nat>, seen: set<nat>)
    requires forall b | b in seen :: b < |f.blocks|
    requires forall b | b in seen || b in stack :: D.Reachable(f, b)
    ensures forall b | b in Reach(f, stack, seen) :: D.Reachable(f, b)
    decreases AllVregs(|f.blocks|) - seen, |stack|
  {
    hide D.Reachable;
    if stack != [] {
      var b, rest := stack[|stack| - 1], stack[..|stack| - 1];
      if b < |f.blocks| {
        var more := Fresh(Succs(f.blocks[b].term), |f.blocks|, seen);
        forall s | s in more ensures D.Reachable(f, s) {
          ReachableNext(f, b, s);
        }
        if more == [] {
          ReachOnly(f, rest, seen);
        } else {
          assert more[0] in Elements(more);
          ReachOnly(f, rest + more, seen + Elements(more));
        }
      } else {
        ReachOnly(f, rest, seen);
      }
    }
  }

  /** The search finds exactly the blocks that some path from the entry reaches. */
  lemma ReachIff(f: Func, b: nat)
    requires |f.blocks| > 0
    ensures b in Reach(f, [0], {0}) <==> D.Reachable(f, b)
  {
    ReachClosed(f, [0], {0});
    assert D.WalkTo(f, [0], 0);
    ReachOnly(f, [0], {0});
    if D.Reachable(f, b) {
      var p: seq<nat> :| D.WalkTo(f, p, b);
      WalkStays(f, p, |p| - 1);
    }
  }

  lemma {:induction false} WalkStays(f: Func, p: seq<nat>, i: nat)
    requires D.Walk(f, p) && p[0] == 0 && i < |p|
    requires 0 in Reach(f, [0], {0}) && Explored(f, [], Reach(f, [0], {0}))
    ensures p[i] in Reach(f, [0], {0})
  {
    if i > 0 {
      WalkStays(f, p, i - 1);
      assert D.Edge(f, p[i - 1], p[i - 1 + 1]);
    }
  }

  /** The layout holds the reachable blocks, each once, by increasing number. */
  lemma OrderReachable(f: Func)
    ensures var order := BlockOrder(f);
            && (forall b: nat :: b in order <==> D.Reachable(f, b))
            && forall i, j | 0 <= i < j < |order| :: order[i] < order[j]
  {
    if |f.blocks| > 0 {
      ReachClosed(f, [0], {0});
      OrderInRange(Reach(f, [0], {0}), |f.blocks|);
    }
    forall b: nat ensures b in BlockOrder(f) <==> D.Reachable(f, b) {
      if |f.blocks| > 0 { ReachIff(f, b); }
    }
  }

  /** The layout contains the entry first, and with every block its successors. */
  lemma OrderClosed(f: Func)
    requires |f.blocks| > 0
    ensures var order := BlockOrder(f);
            && InRangeOrder(f, order)
            && (forall i, j | 0 <= i < j < |order| :: order[i] != order[j])
            && |order| > 0 && order[0] == 0
            && forall b, s | b in order && s in Succs(f.blocks[b].term) && s < |f.blocks| :: s in order
  {
    var reach := Reach(f, [0], {0});
    ReachClosed(f, [0], {0});
    OrderInRange(reach, |f.blocks|);
    var order := BlockOrder(f);
    assert 0 in order;
  }
}
