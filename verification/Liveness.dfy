/** Which values are live where: the sets that the register allocator works with. */
module Liveness {
  import opened Graphs
  import opened Ir
  import opened Ssa
  import opened Reading

  type Values = set<Operand>

  /** The code of a block, terminator included, as far as liveness is concerned. */
  datatype Item = Item(dst: Option<nat>, uses: seq<Operand>, isPhi: bool, isCall: bool)

  function PhiItems(phis: seq<Phi>): (r: seq<Item>)
    ensures |r| == |phis|
  {
    seq(|phis|, j requires 0 <= j < |phis| => Item(Some(phis[j].dst), [], true, false))
  }

  function InstItems(insts: seq<Inst>): (r: seq<Item>)
    ensures |r| == |insts|
  {
    seq(|insts|, k requires 0 <= k < |insts| => Item(Dst(insts[k]), Uses(insts[k]), false, insts[k].Call?))
  }

  function Items(b: Block): seq<Item> {
    PhiItems(b.phis) + InstItems(b.insts) + [Item(None, TermUses(b.term), false, false)]
  }

  /** The candidate that an item sets, if it sets one. */
  function Sets(i: Item, cand: Values): Values {
    if i.dst.Some? && Reg(i.dst.value) in cand then {Reg(i.dst.value)} else {}
  }

  /** The candidates that an item uses; what a phi uses counts on the edges. */
  function UsedBy(i: Item, cand: Values): Values {
    if i.isPhi then {} else set v | v in i.uses && v in cand
  }

  /** Set in the first `n` items. */
  function DefsBelow(items: seq<Item>, cand: Values, n: nat): Values
    requires n <= |items|
  {
    if n == 0 then {} else DefsBelow(items, cand, n - 1) + Sets(items[n - 1], cand)
  }

  /** Used in the first `n` items before they are set there. */
  function UsesBelow(items: seq<Item>, cand: Values, n: nat): Values
    requires n <= |items|
  {
    if n == 0 then {} else UsesBelow(items, cand, n - 1) + (UsedBy(items[n - 1], cand) - DefsBelow(items, cand, n - 1))
  }

  /** Along an edge from `pred`, one phi after another: its own value goes, and what it receives comes. */
  function OverPhis(phis: seq<Phi>, pred: nat, cand: Values, live: Values, n: nat): Values
    requires n <= |phis|
  {
    if n == 0 then live
    else
      var before := OverPhis(phis, pred, cand, live, n - 1) - {Reg(phis[n - 1].dst)};
      match Incoming(phis[n - 1].incoming, pred)
      case Some(v) => if v in cand then before + {v} else before
      case None => before
  }

  function EdgeLive(f: Function, cand: Values, liveIn: seq<Values>, pred: nat, to: nat): Values {
    if to < |f.blocks| && to < |liveIn|
      then OverPhis(f.blocks[to].phis, pred, cand, liveIn[to], |f.blocks[to].phis|) else {}
  }

  /** Live at the end of a block: what is live on some edge out of it. */
  function OutOf(f: Function, cand: Values, liveIn: seq<Values>, b: nat, targets: seq<nat>): Values {
    if targets == [] then {}
    else OutOf(f, cand, liveIn, b, targets[..|targets| - 1]) + EdgeLive(f, cand, liveIn, b, targets[|targets| - 1])
  }

  function NewOut(f: Function, cand: Values, liveIn: seq<Values>, b: nat): Values
    requires b < |f.blocks|
  {
    OutOf(f, cand, liveIn, b, Targets(f.blocks[b].term))
  }

  function NewIn(f: Function, cand: Values, out: Values, b: nat): Values
    requires b < |f.blocks|
  {
    var items := Items(f.blocks[b]);
    UsesBelow(items, cand, |items|) + (out - DefsBelow(items, cand, |items|))
  }

  /** The equations of liveness. */
  ghost predicate Solves(f: Function, cand: Values, liveIn: seq<Values>, liveOut: seq<Values>) {
    && |liveIn| == |liveOut| == |f.blocks|
    && forall b: nat :: b < |f.blocks| ==> SolvedAt(f, cand, liveIn, liveOut, b)
  }

  ghost predicate SolvedAt(f: Function, cand: Values, liveIn: seq<Values>, liveOut: seq<Values>, b: nat)
    requires |liveIn| == |liveOut| == |f.blocks| && b < |f.blocks|
  {
    liveOut[b] == NewOut(f, cand, liveIn, b) && liveIn[b] == NewIn(f, cand, liveOut[b], b)
  }

  // ----- what an edge carries -----

  /** Phi `j` receives the candidate, and no later phi of the block sets it. */
  ghost predicate Arrives(phis: seq<Phi>, pred: nat, cand: Values, n: nat, v: Operand)
    requires n <= |phis|
  {
    exists j: nat :: j < n && ReceivesLast(phis, pred, cand, n, v, j)
  }

  ghost predicate ReceivesLast(phis: seq<Phi>, pred: nat, cand: Values, n: nat, v: Operand, j: nat)
    requires j < n <= |phis|
  {
    v in cand && Incoming(phis[j].incoming, pred) == Some(v) && forall m :: j < m < n ==> Reg(phis[m].dst) != v
  }

  predicate SetByPhi(phis: seq<Phi>, n: nat, v: Operand)
    requires n <= |phis|
  {
    exists j: nat :: j < n && Reg(phis[j].dst) == v
  }

  /** Exactly what is live along an edge. A value that a phi receives is lost if a later phi of the block sets it. */
  lemma {:induction false} LiveOverPhis(phis: seq<Phi>, pred: nat, cand: Values, live: Values, n: nat, v: Operand)
    requires n <= |phis|
    ensures v in OverPhis(phis, pred, cand, live, n)
            <==> (v in live && !SetByPhi(phis, n, v)) || Arrives(phis, pred, cand, n, v)
  {
    if n > 0 {
      LiveOverPhis(phis, pred, cand, live, n - 1, v);
      ArrivesNext(phis, pred, cand, n - 1, v);
      assert SetByPhi(phis, n, v) <==> SetByPhi(phis, n - 1, v) || Reg(phis[n - 1].dst) == v;
    }
  }

  lemma ArrivesNext(phis: seq<Phi>, pred: nat, cand: Values, n: nat, v: Operand)
    requires n < |phis|
    ensures Arrives(phis, pred, cand, n + 1, v) <==>
            (v in cand && Incoming(phis[n].incoming, pred) == Some(v))
              || (Arrives(phis, pred, cand, n, v) && Reg(phis[n].dst) != v)
  {
    if v in cand && Incoming(phis[n].incoming, pred) == Some(v) {
      assert ReceivesLast(phis, pred, cand, n + 1, v, n);
    }
    if j: nat :| j < n && ReceivesLast(phis, pred, cand, n, v, j) {
      assert Reg(phis[n].dst) != v ==> ReceivesLast(phis, pred, cand, n + 1, v, j);
    }
    var m := n + 1;
    if j: nat :| j < m && ReceivesLast(phis, pred, cand, m, v, j) {
      assert j < n ==> ReceivesLast(phis, pred, cand, n, v, j);
    }
  }

  // ----- monotonicity -----

  ghost predicate Within(a: seq<Values>, b: seq<Values>) {
    |a| == |b| && forall i :: 0 <= i < |a| ==> a[i] <= b[i]
  }

  lemma {:induction false} OverPhisGrows(phis: seq<Phi>, pred: nat, cand: Values, live: Values, more: Values, n: nat)
    requires n <= |phis| && live <= more
    ensures OverPhis(phis, pred, cand, live, n) <= OverPhis(phis, pred, cand, more, n)
  {
    if n > 0 {
      OverPhisGrows(phis, pred, cand, live, more, n - 1);
    }
  }

  lemma {:induction false} OverPhisStays(phis: seq<Phi>, pred: nat, cand: Values, live: Values, n: nat)
    requires n <= |phis| && live <= cand
    ensures OverPhis(phis, pred, cand, live, n) <= cand
  {
    if n > 0 {
      OverPhisStays(phis, pred, cand, live, n - 1);
    }
  }

  lemma {:induction false} OutGrows(f: Function, cand: Values, a: seq<Values>, b: seq<Values>, from: nat,
                                    targets: seq<nat>)
    requires Within(a, b)
    ensures OutOf(f, cand, a, from, targets) <= OutOf(f, cand, b, from, targets)
  {
    if targets != [] {
      var to := targets[|targets| - 1];
      OutGrows(f, cand, a, b, from, targets[..|targets| - 1]);
      if to < |f.blocks| && to < |a| {
        OverPhisGrows(f.blocks[to].phis, from, cand, a[to], b[to], |f.blocks[to].phis|);
      }
    }
  }

  lemma {:induction false} OutStays(f: Function, cand: Values, a: seq<Values>, from: nat, targets: seq<nat>)
    requires forall i :: 0 <= i < |a| ==> a[i] <= cand
    ensures OutOf(f, cand, a, from, targets) <= cand
  {
    if targets != [] {
      var to := targets[|targets| - 1];
      OutStays(f, cand, a, from, targets[..|targets| - 1]);
      if to < |f.blocks| && to < |a| {
        OverPhisStays(f.blocks[to].phis, from, cand, a[to], |f.blocks[to].phis|);
      }
    }
  }

  lemma {:induction false} UsesStay(items: seq<Item>, cand: Values, n: nat)
    requires n <= |items|
    ensures UsesBelow(items, cand, n) <= cand
  {
    if n > 0 {
      UsesStay(items, cand, n - 1);
    }
  }

  // ----- the live sets inside a block -----

  /** Live after item `n` of a block, where `out` is live at its end. */
  function LiveAfter(items: seq<Item>, cand: Values, out: Values, n: nat): Values
    requires n < |items|
    decreases |items| - n, 0
  {
    if n == |items| - 1 then out else LiveBefore(items, cand, out, n + 1)
  }

  function LiveBefore(items: seq<Item>, cand: Values, out: Values, n: nat): Values
    requires n < |items|
    decreases |items| - n, 1
  {
    (LiveAfter(items, cand, out, n) - Sets(items[n], cand)) + UsedBy(items[n], cand)
  }

  /** The equation of a block, worked from its end to its front. */
  lemma {:induction false} FrontIsBefore(items: seq<Item>, cand: Values, out: Values, n: nat)
    requires n < |items|
    ensures LiveBefore(items, cand, out, 0)
            == UsesBelow(items, cand, n) + (LiveBefore(items, cand, out, n) - DefsBelow(items, cand, n))
    decreases n
  {
    hide UsedBy, Sets;
    if n > 0 {
      FrontIsBefore(items, cand, out, n - 1);
    }
  }

  lemma NewInIsBefore(f: Function, cand: Values, out: Values, b: nat)
    requires hide *; b < |f.blocks|
    ensures |Items(f.blocks[b])| > 0 && NewIn(f, cand, out, b) == LiveBefore(Items(f.blocks[b]), cand, out, 0)
  {
    hide UsedBy, Sets, Items;
    var items := Items(f.blocks[b]);
    ItemsOf(f.blocks[b]);
    FrontIsBefore(items, cand, out, |items| - 1);
  }

  lemma ItemsOf(b: Block)
    ensures var items := Items(b);
      && |items| == |b.phis| + |b.insts| + 1
      && (forall j: nat :: j < |b.phis| ==> items[j] == Item(Some(b.phis[j].dst), [], true, false))
      && (forall k: nat :: k < |b.insts| ==>
            ItemAt(b, k) == Item(Dst(b.insts[k]), Uses(b.insts[k]), false, b.insts[k].Call?))
      && ItemAt(b, |b.insts|) == Item(None, TermUses(b.term), false, false)
  {
  }

  /** The item of instruction `k`, or of the terminator. */
  function ItemAt(b: Block, k: nat): Item
    requires k <= |b.insts|
  {
    Items(b)[|b.phis| + k]
  }

  // ----- what is live is what is needed -----

  lemma ItemReads(b: Block, k: nat, cand: Values, v: Operand)
    requires hide *; k <= |b.insts| && v in cand
    ensures v in UsedBy(ItemAt(b, k), cand) <==> ReadAt(b, k, v)
    ensures v in Sets(ItemAt(b, k), cand) <==> SetAt(b, k, v)
  {
    ItemsOf(b);
    hide ItemAt, Items;
  }

  lemma ReadBelowNext(b: Block, k: nat, v: Operand)
    requires k <= |b.insts|
    ensures ReadBelow(b, k, v) <==> ReadAt(b, k, v) || (k < |b.insts| && !SetAt(b, k, v) && ReadBelow(b, k + 1, v))
  {
    hide SetAt;
    if m: nat :| k <= m && ReadAt(b, m, v) && NotSet(b, k, m, v) {
      assert m > k ==> NotSet(b, k + 1, m, v);
    }
    if ReadAt(b, k, v) {
      assert NotSet(b, k, k, v);
    } else if k < |b.insts| && !SetAt(b, k, v) && ReadBelow(b, k + 1, v) {
      var m: nat :| k + 1 <= m && ReadAt(b, m, v) && NotSet(b, k + 1, m, v);
      assert NotSet(b, k, m, v);
    }
  }

  /** Before an instruction or the terminator: what is read below, and what passes through to the end. */
  lemma {:induction false} LiveInside(b: Block, cand: Values, out: Values, k: nat, v: Operand)
    requires hide InstItems, LiveBefore, NotSet, ReadBelow, TermUses; k <= |b.insts| && v in cand
    ensures |b.phis| + k < |Items(b)|
    ensures v in LiveBefore(Items(b), cand, out, |b.phis| + k)
            <==> ReadBelow(b, k, v) || (NotSet(b, k, |b.insts|, v) && v in out)
    decreases |b.insts| - k
  {
    ItemsOf(b);
    ItemReads(b, k, cand, v);
    ReadBelowNext(b, k, v);
    hide Items, ReadAt, SetAt, ReadBelow, UsedBy, Sets;
    if k < |b.insts| {
      LiveInside(b, cand, out, k + 1, v);
      assert NotSet(b, k, |b.insts|, v) <==> !SetAt(b, k, v) && NotSet(b, k + 1, |b.insts|, v);
    }
  }

  /** Before a phi: what is live behind the phis and set by none from there on. */
  lemma {:induction false} LiveAmongPhis(b: Block, cand: Values, out: Values, j: nat, v: Operand)
    requires hide *; j <= |b.phis| && v in cand
    ensures |b.phis| < |Items(b)|
    ensures v in LiveBefore(Items(b), cand, out, j)
            <==> v in LiveBefore(Items(b), cand, out, |b.phis|) && NoPhiSets(b, j, v)
    decreases |b.phis| - j
  {
    ItemsOf(b);
    hide Items;
    if j < |b.phis| {
      LiveAmongPhis(b, cand, out, j + 1, v);
      assert NoPhiSets(b, j, v) <==> Reg(b.phis[j].dst) != v && NoPhiSets(b, j + 1, v);
    }
  }

  /** The candidates needed in front of a block, before its phis, and behind its end. */
  ghost function AtFront(f: Function, cand: Values, b: nat): Values
    requires b < |f.blocks|
  {
    set v | v in cand && NoPhiSets(f.blocks[b], 0, v) && Needed(f, v, b, 0)
  }

  ghost function AtEnd(f: Function, cand: Values, b: nat): Values {
    set v | v in cand && NeededBehind(f, v, b)
  }

  lemma LiveInFront(f: Function, cand: Values, out: Values, b: nat, v: Operand)
    requires hide *; b < |f.blocks| && v in cand
    ensures v in NewIn(f, cand, out, b)
            <==> NoPhiSets(f.blocks[b], 0, v)
                 && (ReadBelow(f.blocks[b], 0, v) || (NotSet(f.blocks[b], 0, |f.blocks[b].insts|, v) && v in out))
  {
    hide InstItems, LiveBefore, NewIn, NotSet, PhiItems, ReadBelow, TermUses, NoPhiSets;
    NewInIsBefore(f, cand, out, b);
    LiveAmongPhis(f.blocks[b], cand, out, 0, v);
    LiveInside(f.blocks[b], cand, out, 0, v);
  }

  lemma {:induction false} InSomeEdge(f: Function, cand: Values, liveIn: seq<Values>, b: nat, targets: seq<nat>,
                                      v: Operand)
    ensures v in OutOf(f, cand, liveIn, b, targets)
            <==> exists c :: c in targets && v in EdgeLive(f, cand, liveIn, b, c)
  {
    hide EdgeLive;
    if targets != [] {
      var n := |targets| - 1;
      InSomeEdge(f, cand, liveIn, b, targets[..n], v);
      assert targets == targets[..n] + [targets[n]];
    }
  }

  lemma LiveOver(f: Function, cand: Values, liveIn: seq<Values>, p: nat, b: nat, v: Operand)
    requires b < |f.blocks| == |liveIn| && v in cand
    ensures v in EdgeLive(f, cand, liveIn, p, b)
            <==> ReadFrom(f.blocks[b], p, v) || (NoPhiSets(f.blocks[b], 0, v) && v in liveIn[b])
  {
    hide Incoming, OverPhis;
    var phis := f.blocks[b].phis;
    LiveOverPhis(phis, p, cand, liveIn[b], |phis|, v);
    if Arrives(phis, p, cand, |phis|, v) {
      var j: nat :| j < |phis| && ReceivesLast(phis, p, cand, |phis|, v, j);
      assert NoPhiSets(f.blocks[b], j + 1, v);
    }
    if ReadFrom(f.blocks[b], p, v) {
      var j: nat :| j < |phis| && Incoming(phis[j].incoming, p) == Some(v) && NoPhiSets(f.blocks[b], j + 1, v);
      assert ReceivesLast(phis, p, cand, |phis|, v, j);
    }
  }

  lemma LiveBehind(f: Function, cand: Values, liveIn: seq<Values>, b: nat, v: Operand)
    requires hide *; Valid(Cfg(f)) && b < |f.blocks| == |liveIn| && v in cand
    ensures v in NewOut(f, cand, liveIn, b) <==> exists c: nat :: LiveInto(f, liveIn, b, c, v)
  {
    hide EdgeLive, ReadFrom, NoPhiSets;
    var targets := Targets(f.blocks[b].term);
    InSomeEdge(f, cand, liveIn, b, targets, v);
    if c :| c in targets && v in EdgeLive(f, cand, liveIn, b, c) {
      assert Edge(Cfg(f), b, c);
      LiveOver(f, cand, liveIn, b, c, v);
      assert LiveInto(f, liveIn, b, c, v);
    }
    if c: nat :| LiveInto(f, liveIn, b, c, v) {
      assert c in targets;
      LiveOver(f, cand, liveIn, b, c, v);
    }
  }

  ghost predicate LiveInto(f: Function, liveIn: seq<Values>, b: nat, c: nat, v: Operand) {
    && Edge(Cfg(f), b, c) && c < |f.blocks| && c < |liveIn|
    && (ReadFrom(f.blocks[c], b, v) || (NoPhiSets(f.blocks[c], 0, v) && v in liveIn[c]))
  }

  /** The needed values solve the equations. */
  lemma NeededSolves(f: Function, cand: Values, liveIn: seq<Values>, liveOut: seq<Values>)
    requires hide *; Valid(Cfg(f)) && |liveIn| == |liveOut| == |f.blocks|
    requires forall b: nat :: b < |f.blocks| ==> liveIn[b] == AtFront(f, cand, b) && liveOut[b] == AtEnd(f, cand, b)
    ensures Solves(f, cand, liveIn, liveOut)
  {
    hide NewIn, NewOut, AtFront, AtEnd;
    forall b: nat | b < |f.blocks| ensures SolvedAt(f, cand, liveIn, liveOut, b) {
      FrontSolves(f, cand, b);
      EndSolves(f, cand, liveIn, b);
    }
  }

  lemma FrontSolves(f: Function, cand: Values, b: nat)
    requires hide *; b < |f.blocks|
    ensures NewIn(f, cand, AtEnd(f, cand, b), b) == AtFront(f, cand, b)
  {
    hide NewIn, Needed, NeededBehind, NoPhiSets, ReadBelow, NotSet;
    NewInStays(f, cand, AtEnd(f, cand, b), b);
    forall v | v in cand ensures v in NewIn(f, cand, AtEnd(f, cand, b), b) <==> v in AtFront(f, cand, b) {
      LiveInFront(f, cand, AtEnd(f, cand, b), b, v);
      NeededHere(f, v, b, 0);
    }
  }

  lemma NewInStays(f: Function, cand: Values, out: Values, b: nat)
    requires hide *; b < |f.blocks| && out <= cand
    ensures NewIn(f, cand, out, b) <= cand
  {
    hide *;
    InStays(f, cand, out, b);
  }

  lemma EndSolves(f: Function, cand: Values, liveIn: seq<Values>, b: nat)
    requires hide *; Valid(Cfg(f)) && b < |f.blocks| == |liveIn|
    requires forall c: nat :: c < |f.blocks| ==> liveIn[c] == AtFront(f, cand, c)
    ensures NewOut(f, cand, liveIn, b) == AtEnd(f, cand, b)
  {
    hide NewOut, Needed, NeededBehind, NoPhiSets, ReadFrom, Cfg;
    forall c: nat | c < |liveIn| ensures liveIn[c] <= cand {
      FrontStays(f, cand, c);
    }
    NewOutStays(f, cand, liveIn, b);
    forall v | v in cand ensures v in NewOut(f, cand, liveIn, b) <==> v in AtEnd(f, cand, b) {
      LiveBehind(f, cand, liveIn, b, v);
      NeededOnSomeEdge(f, v, b);
      forall c: nat ensures LiveInto(f, liveIn, b, c, v) <==> NeededOver(f, v, b, c) {
        if c < |f.blocks| {
          assert liveIn[c] == AtFront(f, cand, c);
        }
      }
    }
  }

  lemma FrontStays(f: Function, cand: Values, b: nat)
    requires hide *; b < |f.blocks|
    ensures AtFront(f, cand, b) <= cand
  {
    hide Needed, NoPhiSets;
  }

  lemma NewOutStays(f: Function, cand: Values, liveIn: seq<Values>, b: nat)
    requires b < |f.blocks| && forall i :: 0 <= i < |liveIn| ==> liveIn[i] <= cand
    ensures NewOut(f, cand, liveIn, b) <= cand
  {
    OutStays(f, cand, liveIn, b, Targets(f.blocks[b].term));
  }

  /** Every solution has what some path leads to a read of. */
  lemma {:induction false} PathIsLive(f: Function, cand: Values, liveIn: seq<Values>, liveOut: seq<Values>, v: Operand,
                                      path: seq<nat>)
    requires hide Cfg, LeadsOn, NotSet, ReadBelow, SolvedAt;
             Valid(Cfg(f)) && Solves(f, cand, liveIn, liveOut) && v in cand && path != []
    ensures |path| > 1 && LeadsOn(f, v, path) ==> path[0] < |f.blocks| && v in liveOut[path[0]]
    ensures Leads(f, v, path, 0) && NoPhiSets(f.blocks[path[0]], 0, v) ==> v in liveIn[path[0]]
    decreases |path|
  {
    hide NewIn, NewOut, NoPhiSets, ReadFrom, ReadBelow, NotSet;
    if |path| > 1 && LeadsOn(f, v, path) {
      EdgeFrom(f, path[0], path[1]);
      PathIsLive(f, cand, liveIn, liveOut, v, path[1..]);
      assert SolvedAt(f, cand, liveIn, liveOut, path[0]);
      LiveBehind(f, cand, liveIn, path[0], v);
      assert LiveInto(f, liveIn, path[0], path[1], v);
    }
    if Leads(f, v, path, 0) && NoPhiSets(f.blocks[path[0]], 0, v) {
      assert SolvedAt(f, cand, liveIn, liveOut, path[0]);
      LiveInFront(f, cand, liveOut[path[0]], path[0], v);
    }
  }

  lemma EdgeFrom(f: Function, p: nat, b: nat)
    requires Edge(Cfg(f), p, b)
    ensures p < |f.blocks|
  {
  }

  lemma SolutionHasNeeded(f: Function, cand: Values, liveIn: seq<Values>, liveOut: seq<Values>, b: nat)
    requires hide AtEnd, AtFront, Cfg, Leads, SolvedAt;
             Valid(Cfg(f)) && Solves(f, cand, liveIn, liveOut) && b < |f.blocks|
    ensures AtFront(f, cand, b) <= liveIn[b] && AtEnd(f, cand, b) <= liveOut[b]
  {
    hide Cfg, Leads, LeadsOn, Solves, NoPhiSets;
    SolvesSize(f, cand, liveIn, liveOut);
    forall v | v in AtFront(f, cand, b) ensures v in liveIn[b] {
      var path :| path != [] && path[0] == b && Leads(f, v, path, 0);
      PathIsLive(f, cand, liveIn, liveOut, v, path);
    }
    forall v | v in AtEnd(f, cand, b) ensures v in liveOut[b] {
      var path :| |path| > 1 && path[0] == b && LeadsOn(f, v, path);
      PathIsLive(f, cand, liveIn, liveOut, v, path);
    }
  }

  lemma SolvesSize(f: Function, cand: Values, liveIn: seq<Values>, liveOut: seq<Values>)
    requires Solves(f, cand, liveIn, liveOut)
    ensures |liveIn| == |liveOut| == |f.blocks|
  {
    hide SolvedAt;
  }

  /** The least solution is what is needed. */
  lemma LeastIsNeeded(f: Function, cand: Values, liveIn: seq<Values>, liveOut: seq<Values>)
    requires hide *; Valid(Cfg(f)) && Solves(f, cand, liveIn, liveOut) && Least(f, cand, liveIn, liveOut)
    ensures |liveIn| == |liveOut| == |f.blocks|
    ensures forall b: nat :: b < |f.blocks| ==> liveIn[b] == AtFront(f, cand, b) && liveOut[b] == AtEnd(f, cand, b)
  {
    hide AtEnd, AtFront, Cfg, Leads, Solves;
    SolvesSize(f, cand, liveIn, liveOut);
    var i := seq(|f.blocks|, b requires 0 <= b < |f.blocks| => AtFront(f, cand, b));
    var o := seq(|f.blocks|, b requires 0 <= b < |f.blocks| => AtEnd(f, cand, b));
    NeededSolves(f, cand, i, o);
    forall b: nat | b < |f.blocks| ensures liveIn[b] == AtFront(f, cand, b) && liveOut[b] == AtEnd(f, cand, b) {
      assert Within(liveIn, i) && Within(liveOut, o);
      SolutionHasNeeded(f, cand, liveIn, liveOut, b);
    }
  }

  // ----- the search for a solution -----

  /** Every set is at most what the equations would make of it now; so a step can only add. */
  ghost predicate Rising(f: Function, cand: Values, liveIn: seq<Values>, liveOut: seq<Values>) {
    && |liveIn| == |liveOut| == |f.blocks|
    && (forall b: nat :: b < |f.blocks| ==>
          liveOut[b] <= NewOut(f, cand, liveIn, b) && liveIn[b] <= NewIn(f, cand, liveOut[b], b))
    && (forall b: nat :: b < |f.blocks| ==> liveIn[b] <= cand && liveOut[b] <= cand)
  }

  /** No solution says less. */
  ghost predicate Least(f: Function, cand: Values, liveIn: seq<Values>, liveOut: seq<Values>) {
    forall i: seq<Values>, o: seq<Values> :: Solves(f, cand, i, o) ==> Within(liveIn, i) && Within(liveOut, o)
  }

  lemma InGrows(f: Function, cand: Values, out: Values, more: Values, b: nat)
    requires hide *; b < |f.blocks| && out <= more
    ensures NewIn(f, cand, out, b) <= NewIn(f, cand, more, b)
  {
    hide DefsBelow, Items, UsesBelow;
  }

  lemma InStays(f: Function, cand: Values, out: Values, b: nat)
    requires hide *; b < |f.blocks| && out <= cand
    ensures NewIn(f, cand, out, b) <= cand
  {
    hide DefsBelow, InstItems, PhiItems, TermUses, UsesBelow;
    var items := Items(f.blocks[b]);
    UsesStay(items, cand, |items|);
  }

  /** Recomputing one block keeps the sets rising. */
  lemma StepRises(f: Function, cand: Values, liveIn: seq<Values>, liveOut: seq<Values>, b: nat)
    requires hide NewIn, NewOut; Rising(f, cand, liveIn, liveOut) && b < |f.blocks|
    ensures var out := NewOut(f, cand, liveIn, b); var in' := NewIn(f, cand, out, b);
      && liveOut[b] <= out && liveIn[b] <= in'
      && Rising(f, cand, liveIn[b := in'], liveOut[b := out])
  {
    hide NewIn;
    var out := NewOut(f, cand, liveIn, b);
    InGrows(f, cand, liveOut[b], out, b);
    var in' := NewIn(f, cand, out, b);
    var ins, outs := liveIn[b := in'], liveOut[b := out];
    OutStays(f, cand, liveIn, b, Targets(f.blocks[b].term));
    InStays(f, cand, out, b);
    forall c: nat | c < |f.blocks| ensures outs[c] <= NewOut(f, cand, ins, c) && ins[c] <= NewIn(f, cand, outs[c], c) {
      OutGrows(f, cand, liveIn, ins, c, Targets(f.blocks[c].term));
    }
  }

  /** Recomputing one block stays below every solution. */
  lemma StepIsLeast(f: Function, cand: Values, liveIn: seq<Values>, liveOut: seq<Values>, b: nat)
    requires hide *; |liveIn| == |liveOut| == |f.blocks| && Least(f, cand, liveIn, liveOut) && b < |f.blocks|
    ensures var out := NewOut(f, cand, liveIn, b); Least(f, cand, liveIn[b := NewIn(f, cand, out, b)],
                                                         liveOut[b := out])
  {
    hide NewIn, OutOf;
    var out := NewOut(f, cand, liveIn, b);
    forall i: seq<Values>, o: seq<Values> | Solves(f, cand, i, o)
      ensures Within(liveIn[b := NewIn(f, cand, out, b)], i) && Within(liveOut[b := out], o)
    {
      OutGrows(f, cand, liveIn, i, b, Targets(f.blocks[b].term));
      assert SolvedAt(f, cand, i, o, b);
      InGrows(f, cand, out, o[b], b);
    }
  }

  ghost function Total(sets: seq<Values>): nat {
    if sets == [] then 0 else Total(sets[..|sets| - 1]) + |sets[|sets| - 1]|
  }

  lemma {:induction false} TotalBound(sets: seq<Values>, cand: Values)
    requires forall i :: 0 <= i < |sets| ==> sets[i] <= cand
    ensures Total(sets) <= |sets| * |cand|
  {
    if sets != [] {
      var n := |sets| - 1;
      TotalBound(sets[..n], cand);
      SmallerSize(sets[n], cand);
      assert |sets| * |cand| == n * |cand| + |cand|;
    }
  }

  lemma SmallerSize(a: Values, b: Values)
    requires a <= b
    ensures |a| <= |b| && (a != b ==> |a| < |b|)
  {
    if a != b {
      var v :| v in b && v !in a;
      SmallerSize(a, b - {v});
    }
  }

  lemma {:induction false} TotalGrows(sets: seq<Values>, b: nat, more: Values)
    requires b < |sets| && sets[b] <= more
    ensures Total(sets[b := more]) >= Total(sets) && (sets[b] != more ==> Total(sets[b := more]) > Total(sets))
  {
    var n := |sets| - 1;
    SmallerSize(sets[b], more);
    if b < n {
      assert sets[b := more][..n] == sets[..n][b := more];
      TotalGrows(sets[..n], b, more);
    } else {
      assert sets[b := more][..n] == sets[..n];
    }
  }

  method BlockUseDef(b: Block, cand: Values) returns (uses: Values, defs: Values)
    ensures hide DefsBelow, InstItems, PhiItems, TermUses, UsesBelow;
            var items := Items(b); uses == UsesBelow(items, cand, |items|) && defs == DefsBelow(items, cand, |items|)
  {
    hide InstItems, PhiItems, Sets, TermUses, UsedBy;
    uses, defs := {}, {};
    var items, n := Items(b), 0;
    while n < |items|
      invariant 0 <= n <= |items| && uses == UsesBelow(items, cand, n) && defs == DefsBelow(items, cand, n)
    {
      uses := uses + (UsedBy(items[n], cand) - defs);
      defs := defs + Sets(items[n], cand);
      n := n + 1;
    }
  }

  method LiveOnEdge(f: Function, cand: Values, liveIn: seq<Values>, pred: nat, to: nat) returns (live: Values)
    requires to < |f.blocks| == |liveIn|
    ensures live == EdgeLive(f, cand, liveIn, pred, to)
  {
    live := liveIn[to];
    var phis, n := f.blocks[to].phis, 0;
    while n < |phis|
      invariant 0 <= n <= |phis| && live == OverPhis(phis, pred, cand, liveIn[to], n)
    {
      live := live - {Reg(phis[n].dst)};
      var incoming := Incoming(phis[n].incoming, pred);
      if incoming.Some? && incoming.value in cand {
        live := live + {incoming.value};
      }
      n := n + 1;
    }
  }

  method LiveAtEnd(f: Function, cand: Values, liveIn: seq<Values>, b: nat) returns (out: Values)
    requires hide *; Valid(Cfg(f)) && b < |f.blocks| == |liveIn|
    ensures out == NewOut(f, cand, liveIn, b)
  {
    hide EdgeLive;
    out := {};
    var targets, n := Targets(f.blocks[b].term), 0;
    assert targets[..0] == [];
    while n < |targets|
      invariant 0 <= n <= |targets| && out == OutOf(f, cand, liveIn, b, targets[..n])
    {
      assert Edge(Cfg(f), b, targets[n]);
      var live := LiveOnEdge(f, cand, liveIn, b, targets[n]);
      assert targets[..n + 1][..n] == targets[..n];
      out := out + live;
      n := n + 1;
    }
    assert targets[..n] == targets;
  }

  method AllUseDef(f: Function, cand: Values) returns (uses: seq<Values>, defs: seq<Values>)
    ensures hide *; |uses| == |defs| == |f.blocks|
    ensures forall b: nat, out: Values :: b < |f.blocks| ==> NewIn(f, cand, out, b) == uses[b] + (out - defs[b])
  {
    hide Items, UsesBelow, DefsBelow;
    uses, defs := [], [];
    var b := 0;
    while b < |f.blocks|
      invariant 0 <= b <= |f.blocks| && |uses| == |defs| == b
      invariant forall c: nat, out: Values :: c < b ==> NewIn(f, cand, out, c) == uses[c] + (out - defs[c])
    {
      var u, d := BlockUseDef(f.blocks[b], cand);
      uses, defs := uses + [u], defs + [d];
      b := b + 1;
    }
  }

  /** Sweeps over the blocks from the last to the first until a sweep changes nothing: the result is the least
      solution, and holds exactly what some path leads to a read of. */
  method Solve(f: Function, cand: Values) returns (liveIn: seq<Values>, liveOut: seq<Values>)
    requires hide *; Valid(Cfg(f))
    ensures |liveIn| == |liveOut| == |f.blocks| && Solves(f, cand, liveIn, liveOut) && Least(f, cand, liveIn, liveOut)
    ensures forall b: nat :: b < |f.blocks| ==> liveIn[b] <= cand && liveOut[b] <= cand
    ensures forall b: nat :: b < |f.blocks| ==> liveIn[b] == AtFront(f, cand, b) && liveOut[b] == AtEnd(f, cand, b)
  {
    hide AtFront, AtEnd, Rising, Least, NewIn, NewOut, Cfg, Total;
    var uses, defs := AllUseDef(f, cand);
    liveIn, liveOut := seq(|f.blocks|, i => {}), seq(|f.blocks|, i => {});
    NothingRises(f, cand, liveIn, liveOut);
    var changed := true;
    ghost var bound := 2 * |f.blocks| * |cand|;
    while changed
      invariant Rising(f, cand, liveIn, liveOut) && Least(f, cand, liveIn, liveOut)
                && |liveIn| == |liveOut| == |f.blocks|
      invariant !changed ==> Solves(f, cand, liveIn, liveOut)
      decreases bound - Total(liveIn) - Total(liveOut), changed
    {
      changed := false;
      ghost var before := Total(liveIn) + Total(liveOut);
      ghost var in0, out0 := liveIn, liveOut;
      var n := |f.blocks|;
      while n > 0
        invariant 0 <= n <= |f.blocks| == |liveIn| == |liveOut| && Rising(f, cand, liveIn, liveOut)
                  && Least(f, cand, liveIn, liveOut)
        invariant Total(liveIn) + Total(liveOut) >= before && (changed ==> Total(liveIn) + Total(liveOut) > before)
        invariant !changed ==> liveIn == in0 && liveOut == out0 && forall b: nat :: n <= b < |f.blocks| ==>
                                                                     SolvedAt(f, cand, liveIn, liveOut, b)
      {
        n := n - 1;
        var out := LiveAtEnd(f, cand, liveIn, n);
        var in' := uses[n] + (out - defs[n]);
        StepRises(f, cand, liveIn, liveOut, n);
        StepIsLeast(f, cand, liveIn, liveOut, n);
        TotalGrows(liveIn, n, in');
        TotalGrows(liveOut, n, out);
        if out != liveOut[n] || in' != liveIn[n] {
          liveOut, liveIn := liveOut[n := out], liveIn[n := in'];
          changed := true;
        }
      }
      RisingIsBounded(f, cand, liveIn, liveOut);
    }
    RisingIsBounded(f, cand, liveIn, liveOut);
    LeastIsNeeded(f, cand, liveIn, liveOut);
  }

  lemma NothingRises(f: Function, cand: Values, liveIn: seq<Values>, liveOut: seq<Values>)
    requires hide *; |liveIn| == |liveOut| == |f.blocks| && forall b: nat :: b < |f.blocks| ==>
                                                      liveIn[b] == {} && liveOut[b] == {}
    ensures Rising(f, cand, liveIn, liveOut) && Least(f, cand, liveIn, liveOut)
  {
    hide NewIn, NewOut, SolvedAt;
  }

  lemma RisingIsBounded(f: Function, cand: Values, liveIn: seq<Values>, liveOut: seq<Values>)
    requires hide NewIn, NewOut; Rising(f, cand, liveIn, liveOut)
    ensures Total(liveIn) + Total(liveOut) <= 2 * |f.blocks| * |cand|
    ensures forall b: nat :: b < |f.blocks| ==> liveIn[b] <= cand && liveOut[b] <= cand
  {
    hide NewIn, NewOut;
    TotalBound(liveIn, cand);
    TotalBound(liveOut, cand);
    assert 2 * |f.blocks| * |cand| == |liveIn| * |cand| + |liveOut| * |cand|;
  }
}
