/** The interference graph and the registers given to its nodes. */
module Colouring {
  import Graphs
  import opened Ir
  import opened Liveness
  import opened Reading

  type InterferenceGraph = map<Operand, Values>

  datatype Register = A(n: nat) | S(n: nat) | T(n: nat)

  function Neighbours(graph: InterferenceGraph, v: Operand): Values {
    if v in graph then graph[v] else {}
  }

  /** The two values may not share a register. */
  predicate Interfere(graph: InterferenceGraph, a: Operand, b: Operand) {
    b in Neighbours(graph, a) && a in Neighbours(graph, b)
  }

  ghost predicate Symmetric(graph: InterferenceGraph) {
    forall a: Operand, b: Operand :: b in Neighbours(graph, a) ==> a in Neighbours(graph, b) && a != b
  }

  /** Nothing is taken back. */
  ghost predicate Keeps(graph: InterferenceGraph, more: InterferenceGraph) {
    forall a: Operand, b: Operand :: b in Neighbours(graph, a) ==> b in Neighbours(more, a)
  }

  /** Any two values of the set interfere. */
  ghost predicate Clique(graph: InterferenceGraph, values: Values) {
    forall a, b :: a in values && b in values && a != b ==> Interfere(graph, a, b)
  }

  /** New edges are edges between the values. */
  ghost predicate AddsWithin(graph: InterferenceGraph, more: InterferenceGraph, values: Values) {
    forall a: Operand, b: Operand {:trigger b in Neighbours(more, a)} ::
      b in Neighbours(more, a) ==> b in Neighbours(graph, a) || (a in values && b in values)
  }

  method AddInterference(graph: InterferenceGraph, a: Operand, b: Operand) returns (more: InterferenceGraph)
    requires Symmetric(graph)
    ensures Symmetric(more) && Keeps(graph, more) && (a != b ==> Interfere(more, a, b))
    ensures AddsWithin(graph, more, {a, b})
  {
    more := graph;
    if a != b {
      more := more[a := Neighbours(more, a) + {b}];
      more := more[b := Neighbours(more, b) + {a}];
      forall x
        ensures Neighbours(more, x) == Neighbours(graph, x) + (if x == a then {b} else if x == b then {a} else {}) {
      }
    }
  }

  method AddEdges(graph: InterferenceGraph, v: Operand, others: Values) returns (more: InterferenceGraph)
    requires Symmetric(graph)
    ensures Symmetric(more) && Keeps(graph, more) && forall b :: b in others && b != v ==> Interfere(more, v, b)
    ensures AddsWithin(graph, more, others + {v})
  {
    hide Symmetric, Keeps, Interfere, Neighbours, AddsWithin;
    more := graph;
    KeepsSelf(graph);
    AddsNothing(graph, others + {v});
    var rest := others;
    while rest != {}
      invariant rest <= others && Symmetric(more) && Keeps(graph, more)
      invariant forall b :: b in others - rest && b != v ==> Interfere(more, v, b)
      invariant AddsWithin(graph, more, others + {v})
      decreases |rest|
    {
      var b :| b in rest;
      var next := AddInterference(more, v, b);
      AddsOn(graph, more, next, {v, b}, others + {v});
      KeepsInterference(more, next, v);
      KeepsTrans(graph, more, next);
      more, rest := next, rest - {b};
    }
  }

  lemma AddsNothing(graph: InterferenceGraph, values: Values)
    ensures AddsWithin(graph, graph, values)
  {
  }

  lemma AddsOn(a: InterferenceGraph, b: InterferenceGraph, c: InterferenceGraph, some: Values, all: Values)
    requires AddsWithin(a, b, all) && AddsWithin(b, c, some) && some <= all
    ensures AddsWithin(a, c, all)
  {
    forall x: Operand, y: Operand | y in Neighbours(c, x) && y !in Neighbours(a, x) ensures x in all && y in all {
      if y !in Neighbours(b, x) {
        assert x in some && y in some;
      }
    }
  }

  lemma KeepsSelf(graph: InterferenceGraph)
    ensures Keeps(graph, graph)
  {
  }

  lemma KeepsTrans(a: InterferenceGraph, b: InterferenceGraph, c: InterferenceGraph)
    requires Keeps(a, b) && Keeps(b, c)
    ensures Keeps(a, c)
  {
  }

  lemma KeepsInterference(graph: InterferenceGraph, more: InterferenceGraph, a: Operand)
    requires Keeps(graph, more)
    ensures forall b :: Interfere(graph, a, b) ==> Interfere(more, a, b)
  {
  }

  lemma KeepsClique(graph: InterferenceGraph, more: InterferenceGraph, values: Values)
    requires Keeps(graph, more) && Clique(graph, values)
    ensures Clique(more, values)
  {
  }

  method AddClique(graph: InterferenceGraph, values: Values) returns (more: InterferenceGraph)
    requires Symmetric(graph)
    ensures Symmetric(more) && Keeps(graph, more) && Clique(more, values) && AddsWithin(graph, more, values)
  {
    hide Symmetric, Keeps, Interfere, AddsWithin, Neighbours;
    more := graph;
    KeepsSelf(graph);
    AddsNothing(graph, values);
    var rest := values;
    while rest != {}
      invariant rest <= values && Symmetric(more) && Keeps(graph, more)
      invariant forall a, b :: a in values - rest && b in values && a != b ==> Interfere(more, a, b)
      invariant AddsWithin(graph, more, values)
      decreases |rest|
    {
      var first :| first in rest;
      var next := AddEdges(more, first, values);
      AddsOn(graph, more, next, values + {first}, values);
      forall a, b | a in values - rest && b in values && a != b ensures Interfere(next, a, b) {
        KeepsInterference(more, next, a);
      }
      KeepsTrans(graph, more, next);
      more, rest := next, rest - {first};
    }
  }

  // ----- the live sets of a block -----

  /** The sets computed for one block, from item `n` on. */
  ghost predicate Interferes(graph: InterferenceGraph, items: seq<Item>, cand: Values, out: Values, n: nat) {
    forall k: nat :: n <= k < |items| ==> ItemInterferes(graph, items, cand, out, k)
  }

  /** What is live before an item, what is live after it, and what the item sets together with what is live after it. */
  ghost predicate ItemInterferes(graph: InterferenceGraph, items: seq<Item>, cand: Values, out: Values, k: nat)
    requires k < |items|
  {
    Clique(graph, LiveBefore(items, cand, out, k))
      && Clique(graph, LiveAfter(items, cand, out, k) + Sets(items[k], cand))
  }

  /** A value that is live after a call, and not its result, is known to cross a call. */
  ghost predicate CallsCrossed(crosses: Values, items: seq<Item>, cand: Values, out: Values, n: nat) {
    forall k: nat :: n <= k < |items| && items[k].isCall ==>
      LiveAfter(items, cand, out, k) - Sets(items[k], cand) <= crosses
  }

  /** The two values are live together before or after item `k`. */
  predicate MeetAt(items: seq<Item>, cand: Values, out: Values, k: nat, a: Operand, b: Operand)
    requires k < |items|
  {
    && a != b
    && ({a, b} <= LiveBefore(items, cand, out, k) || {a, b} <= LiveAfter(items, cand, out, k) + Sets(items[k], cand))
  }

  ghost predicate Meet(items: seq<Item>, cand: Values, out: Values, a: Operand, b: Operand) {
    exists k: nat :: k < |items| && MeetAt(items, cand, out, k, a, b)
  }

  /** The value is live after a call, and not its result. */
  ghost predicate Crosses(items: seq<Item>, cand: Values, out: Values, v: Operand) {
    exists k: nat :: k < |items| && items[k].isCall && v in LiveAfter(items, cand, out, k) - Sets(items[k], cand)
  }

  /** The new edges join values that are live together. */
  ghost predicate JoinsMeeting(before: InterferenceGraph, graph: InterferenceGraph, items: seq<Item>, cand: Values,
                               out: Values)
  {
    forall a: Operand, b: Operand ::
      b in Neighbours(graph, a) ==> b in Neighbours(before, a) || Meet(items, cand, out, a, b)
  }

  lemma JoinsOn(before: InterferenceGraph, graph: InterferenceGraph, next: InterferenceGraph, items: seq<Item>,
                cand: Values, out: Values, k: nat, values: Values)
    requires JoinsMeeting(before, graph, items, cand, out) && AddsWithin(graph, next, values) && Symmetric(next)
    requires k < |items|
    requires values <= LiveBefore(items, cand, out, k)
             || values <= LiveAfter(items, cand, out, k) + Sets(items[k], cand)
    ensures JoinsMeeting(before, next, items, cand, out)
  {
    hide LiveBefore, LiveAfter, Sets;
    forall a: Operand, b: Operand | b in Neighbours(next, a) && b !in Neighbours(before, a)
      ensures Meet(items, cand, out, a, b)
    {
      if b !in Neighbours(graph, a) {
        assert {a, b} <= values && a != b;
        assert MeetAt(items, cand, out, k, a, b);
      }
    }
  }

  lemma JoinsNothing(graph: InterferenceGraph, items: seq<Item>, cand: Values, out: Values)
    ensures JoinsMeeting(graph, graph, items, cand, out)
  {
  }

  lemma InterferesMore(graph: InterferenceGraph, more: InterferenceGraph, items: seq<Item>, cand: Values,
                       out: Values, n: nat)
    requires Keeps(graph, more) && Interferes(graph, items, cand, out, n)
    ensures Interferes(more, items, cand, out, n)
  {
    hide Keeps, Clique, LiveBefore, LiveAfter;
    forall k: nat | n <= k < |items| ensures ItemInterferes(more, items, cand, out, k) {
      assert ItemInterferes(graph, items, cand, out, k);
      KeepsClique(graph, more, LiveBefore(items, cand, out, k));
      KeepsClique(graph, more, LiveAfter(items, cand, out, k) + Sets(items[k], cand));
    }
  }

  lemma ItemDone(graph: InterferenceGraph, items: seq<Item>, cand: Values, out: Values, k: nat, live: Values)
    requires k < |items| && live == LiveAfter(items, cand, out, k) && Clique(graph, live)
    requires forall v, b :: v in Sets(items[k], cand) && b in live - Sets(items[k], cand) ==> Interfere(graph, v, b)
    requires Clique(graph, LiveBefore(items, cand, out, k))
    ensures ItemInterferes(graph, items, cand, out, k)
  {
    hide LiveAfter, LiveBefore;
    forall a, b | a in live + Sets(items[k], cand) && b in live + Sets(items[k], cand) && a != b
      ensures Interfere(graph, a, b) {
      if a in live && b in live {
      } else if a in Sets(items[k], cand) {
        assert b in live - Sets(items[k], cand);
      } else {
        assert Interfere(graph, b, a);
      }
    }
  }

  /** One block, from its end to its front. */
  method BlockInterference(before: InterferenceGraph, crossed: Values, items: seq<Item>, cand: Values, out: Values)
    returns (graph: InterferenceGraph, crosses: Values)
    requires hide *; Symmetric(before) && items != []
    ensures Symmetric(graph) && Keeps(before, graph) && crossed <= crosses
    ensures Interferes(graph, items, cand, out, 0) && CallsCrossed(crosses, items, cand, out, 0)
    ensures JoinsMeeting(before, graph, items, cand, out)
    ensures forall v :: v in crosses ==> v in crossed || Crosses(items, cand, out, v)
  {
    hide Symmetric, Keeps, Clique, Interfere, Sets, UsedBy, AddsWithin, JoinsMeeting;
    var live := out;
    graph := AddClique(before, live);
    JoinsNothing(before, items, cand, out);
    JoinsOn(before, before, graph, items, cand, out, |items| - 1, live);
    crosses := crossed;
    var n := |items|;
    while n > 0
      invariant 0 <= n <= |items| && Symmetric(graph) && Keeps(before, graph) && crossed <= crosses
      invariant live == (if n == |items| then out else LiveBefore(items, cand, out, n)) && Clique(graph, live)
      invariant Interferes(graph, items, cand, out, n) && CallsCrossed(crosses, items, cand, out, n)
      invariant JoinsMeeting(before, graph, items, cand, out)
      invariant forall v :: v in crosses ==> v in crossed || Crosses(items, cand, out, v)
    {
      n := n - 1;
      var item := items[n];
      ghost var after := live;
      assert after == LiveAfter(items, cand, out, n);
      var defined := Sets(item, cand);
      live := live - defined;
      var next := AddDefined(graph, item, cand, live);
      JoinsOn(before, graph, next, items, cand, out, n, live + defined);
      KeepsClique(graph, next, after);
      InterferesMore(graph, next, items, cand, out, n + 1);
      KeepsTrans(before, graph, next);
      graph := next;
      if item.isCall {
        forall v | v in live ensures Crosses(items, cand, out, v) {
          assert v in LiveAfter(items, cand, out, n) - Sets(items[n], cand);
        }
        crosses := crosses + live;
      }
      live := live + UsedBy(item, cand);
      next := AddClique(graph, live);
      JoinsOn(before, graph, next, items, cand, out, n, live);
      KeepsClique(graph, next, after);
      InterferesMore(graph, next, items, cand, out, n + 1);
      forall v, b | v in defined && b in after - defined ensures Interfere(next, v, b) {
        KeepsInterference(graph, next, v);
      }
      KeepsTrans(before, graph, next);
      graph := next;
      ItemDone(graph, items, cand, out, n, after);
    }
  }

  method AddDefined(graph: InterferenceGraph, item: Item, cand: Values, live: Values) returns (more: InterferenceGraph)
    requires Symmetric(graph)
    ensures Symmetric(more) && Keeps(graph, more) && AddsWithin(graph, more, live + Sets(item, cand))
    ensures forall v, b :: v in Sets(item, cand) && b in live - Sets(item, cand) ==> Interfere(more, v, b)
  {
    hide Symmetric, Keeps, Interfere, AddsWithin;
    more := graph;
    KeepsSelf(graph);
    AddsNothing(graph, live + Sets(item, cand));
    if item.dst.Some? && Reg(item.dst.value) in cand {
      more := AddEdges(graph, Reg(item.dst.value), live);
    }
  }

  /** The two values are live together somewhere in the function. */
  ghost predicate LiveTogether(f: Function, cand: Values, liveOut: seq<Values>, a: Operand, b: Operand)
    requires |liveOut| == |f.blocks|
  {
    exists c: nat :: c < |f.blocks| && Meet(Items(f.blocks[c]), cand, liveOut[c], a, b)
  }

  ghost predicate LivesAcross(f: Function, cand: Values, liveOut: seq<Values>, v: Operand)
    requires |liveOut| == |f.blocks|
  {
    exists c: nat :: c < |f.blocks| && Crosses(Items(f.blocks[c]), cand, liveOut[c], v)
  }

  /** Two values have an edge exactly if they are live together, and cross a call exactly if they live across one. */
  ghost predicate Exact(graph: InterferenceGraph, crosses: Values, f: Function, cand: Values, liveOut: seq<Values>)
    requires hide *; |liveOut| == |f.blocks|
  {
    && (forall a: Operand, b: Operand :: b in Neighbours(graph, a) <==> LiveTogether(f, cand, liveOut, a, b))
    && (forall v: Operand :: v in crosses <==> LivesAcross(f, cand, liveOut, v))
  }

  /** Nothing else has. */
  ghost predicate NoMore(graph: InterferenceGraph, crosses: Values, f: Function, cand: Values, liveOut: seq<Values>)
    requires hide *; |liveOut| == |f.blocks|
  {
    && (forall a: Operand, b: Operand :: b in Neighbours(graph, a) ==> LiveTogether(f, cand, liveOut, a, b))
    && (forall v: Operand :: v in crosses ==> LivesAcross(f, cand, liveOut, v))
  }

  lemma StillNoMore(graph: InterferenceGraph, crosses: Values, next: InterferenceGraph, more: Values, f: Function,
                    cand: Values, liveOut: seq<Values>, c: nat)
    requires hide *; |liveOut| == |f.blocks| && c < |f.blocks| && NoMore(graph, crosses, f, cand, liveOut)
    requires JoinsMeeting(graph, next, Items(f.blocks[c]), cand, liveOut[c])
    requires forall v :: v in more ==> v in crosses || Crosses(Items(f.blocks[c]), cand, liveOut[c], v)
    ensures NoMore(next, more, f, cand, liveOut)
  {
    hide Meet, Crosses, Items;
  }

  lemma NothingYet(f: Function, cand: Values, liveOut: seq<Values>)
    requires hide *; |liveOut| == |f.blocks|
    ensures NoMore(map[], {}, f, cand, liveOut)
  {
    hide Items, LiveTogether, LivesAcross;
  }

  lemma MeetingInterfere(graph: InterferenceGraph, items: seq<Item>, cand: Values, out: Values, a: Operand, b: Operand)
    requires Interferes(graph, items, cand, out, 0) && Meet(items, cand, out, a, b)
    ensures b in Neighbours(graph, a)
  {
    hide LiveBefore, LiveAfter, Sets;
    var k: nat :| k < |items| && MeetAt(items, cand, out, k, a, b);
    assert ItemInterferes(graph, items, cand, out, k);
    assert a in {a, b} && b in {a, b};
    assert Interfere(graph, a, b);
  }

  lemma BuiltIsExact(graph: InterferenceGraph, crosses: Values, f: Function, cand: Values, liveOut: seq<Values>)
    requires hide BlockBuilt, Exact, Items, LiveTogether, LivesAcross;
             Built(graph, crosses, f, cand, liveOut) && NoMore(graph, crosses, f, cand, liveOut)
    ensures Exact(graph, crosses, f, cand, liveOut)
  {
    hide Items, LiveBefore, LiveAfter, Sets, Interferes, Meet, MeetAt;
    forall a: Operand, b: Operand | LiveTogether(f, cand, liveOut, a, b) ensures b in Neighbours(graph, a) {
      var c: nat :| c < |f.blocks| && Meet(Items(f.blocks[c]), cand, liveOut[c], a, b);
      assert BlockBuilt(graph, crosses, f, cand, liveOut, c);
      MeetingInterfere(graph, Items(f.blocks[c]), cand, liveOut[c], a, b);
    }
    forall v: Operand | LivesAcross(f, cand, liveOut, v) ensures v in crosses {
      var c: nat :| c < |f.blocks| && Crosses(Items(f.blocks[c]), cand, liveOut[c], v);
      assert BlockBuilt(graph, crosses, f, cand, liveOut, c);
    }
  }

  /** All live sets of the function are cliques, and all calls are accounted for. */
  ghost predicate Built(graph: InterferenceGraph, crosses: Values, f: Function, cand: Values, liveOut: seq<Values>) {
    && Symmetric(graph) && |liveOut| == |f.blocks|
    && forall b: nat :: b < |f.blocks| ==> BlockBuilt(graph, crosses, f, cand, liveOut, b)
  }

  ghost predicate BlockBuilt(graph: InterferenceGraph, crosses: Values, f: Function, cand: Values,
                             liveOut: seq<Values>, b: nat)
    requires b < |f.blocks| == |liveOut|
  {
    var items := Items(f.blocks[b]);
    Interferes(graph, items, cand, liveOut[b], 0) && CallsCrossed(crosses, items, cand, liveOut[b], 0)
  }

  // ----- edges and crossings are those of the paths -----

  lemma {:induction false} LiveStays(items: seq<Item>, cand: Values, out: Values, n: nat)
    requires n < |items| && out <= cand
    ensures LiveBefore(items, cand, out, n) <= cand && LiveAfter(items, cand, out, n) <= cand
    decreases |items| - n
  {
    if n < |items| - 1 {
      LiveStays(items, cand, out, n + 1);
    }
  }

  lemma EndStays(f: Function, cand: Values, b: nat)
    ensures AtEnd(f, cand, b) <= cand
  {
    hide NeededBehind;
  }

  /** Live before an instruction or the terminator is what is needed there. */
  lemma LiveIsNeeded(f: Function, cand: Values, b: nat, k: nat, v: Operand)
    requires hide *; b < |f.blocks| && k <= |f.blocks[b].insts|
    ensures |f.blocks[b].phis| + k < |Items(f.blocks[b])|
    ensures v in LiveBefore(Items(f.blocks[b]), cand, AtEnd(f, cand, b), |f.blocks[b].phis| + k)
            <==> v in cand && Needed(f, v, b, k)
  {
    hide LiveBefore, Items, Needed, NeededBehind, ReadBelow, NotSet;
    var blk := f.blocks[b];
    ItemsOf(blk);
    EndStays(f, cand, b);
    LiveStays(Items(blk), cand, AtEnd(f, cand, b), |blk.phis| + k);
    if v in cand {
      LiveInside(blk, cand, AtEnd(f, cand, b), k, v);
      NeededHere(f, v, b, k);
    }
  }

  lemma LiveIsNeededAmongPhis(f: Function, cand: Values, b: nat, j: nat, v: Operand)
    requires hide *; b < |f.blocks| && j <= |f.blocks[b].phis|
    ensures j < |Items(f.blocks[b])|
    ensures v in LiveBefore(Items(f.blocks[b]), cand, AtEnd(f, cand, b), j)
            <==> v in cand && Needed(f, v, b, 0) && NoPhiSets(f.blocks[b], j, v)
  {
    hide LiveBefore, Items, Needed, NoPhiSets, AtEnd;
    var blk := f.blocks[b];
    ItemsOf(blk);
    EndStays(f, cand, b);
    LiveStays(Items(blk), cand, AtEnd(f, cand, b), j);
    if v in cand {
      LiveAmongPhis(blk, cand, AtEnd(f, cand, b), j, v);
      LiveIsNeeded(f, cand, b, 0, v);
    }
  }

  /** What a phi or an instruction sets, with what is live after it. */
  lemma AfterPhi(f: Function, cand: Values, b: nat, j: nat, v: Operand)
    requires hide *; b < |f.blocks| && j < |f.blocks[b].phis|
    ensures j < |Items(f.blocks[b])|
    ensures v in LiveAfter(Items(f.blocks[b]), cand, AtEnd(f, cand, b), j)
            <==> v in cand && Needed(f, v, b, 0) && NoPhiSets(f.blocks[b], j + 1, v)
    ensures v in Sets(Items(f.blocks[b])[j], cand) <==> v in cand && v == Reg(f.blocks[b].phis[j].dst)
  {
    hide AtEnd, Items, LeadsOn, LiveBefore, Needed;
    ItemsOf(f.blocks[b]);
    hide Items, LiveBefore, AtEnd, Needed, NoPhiSets;
    LiveIsNeededAmongPhis(f, cand, b, j + 1, v);
  }

  lemma AfterInst(f: Function, cand: Values, b: nat, k: nat, v: Operand)
    requires hide *; b < |f.blocks| && k < |f.blocks[b].insts|
    ensures var n := |f.blocks[b].phis| + k;
      && n < |Items(f.blocks[b])|
      && (v in LiveAfter(Items(f.blocks[b]), cand, AtEnd(f, cand, b), n) <==> v in cand && Needed(f, v, b, k + 1))
      && (v in Sets(Items(f.blocks[b])[n], cand) <==> v in cand && SetAt(f.blocks[b], k, v))
      && Items(f.blocks[b])[n].isCall == f.blocks[b].insts[k].Call?
  {
    hide AtEnd, LeadsOn, LiveBefore, Needed;
    var blk := f.blocks[b];
    ItemsOf(blk);
    assert Items(blk)[|blk.phis| + k] == ItemAt(blk, k);
    hide Items, LiveBefore, AtEnd, Needed, ItemAt;
    LiveIsNeeded(f, cand, b, k + 1, v);
  }

  lemma AfterTerm(f: Function, cand: Values, b: nat, v: Operand)
    requires hide *; b < |f.blocks|
    ensures var n := |f.blocks[b].phis| + |f.blocks[b].insts|;
      && n == |Items(f.blocks[b])| - 1
      && (v in LiveAfter(Items(f.blocks[b]), cand, AtEnd(f, cand, b), n) <==> v in cand && NeededBehind(f, v, b))
      && Sets(Items(f.blocks[b])[n], cand) == {} && !Items(f.blocks[b])[n].isCall
  {
    hide InstItems, LiveBefore, NeededBehind, PhiItems;
    var blk := f.blocks[b];
    ItemsOf(blk);
    assert Items(blk)[|blk.phis| + |blk.insts|] == ItemAt(blk, |blk.insts|);
    hide Items, LiveBefore, NeededBehind, ItemAt;
  }

  lemma MeetAtPhi(f: Function, cand: Values, b: nat, j: nat, x: Operand, y: Operand)
    requires hide AtEnd, LeadsOn, MeetAt, Needed, SetBeside; b < |f.blocks| && j < |f.blocks[b].phis| && x != y
    ensures j < |Items(f.blocks[b])|
    ensures MeetAt(Items(f.blocks[b]), cand, AtEnd(f, cand, b), j, x, y) ==>
              x in cand && y in cand
              && ((Needed(f, x, b, 0) && Needed(f, y, b, 0)) || SetBeside(f, b, x, y) || SetBeside(f, b, y, x))
    ensures x in cand && y in cand && Reg(f.blocks[b].phis[j].dst) == x && Needed(f, y, b, 0)
              && NoPhiSets(f.blocks[b], j + 1, y) ==>
              MeetAt(Items(f.blocks[b]), cand, AtEnd(f, cand, b), j, x, y)
  {
    hide AtEnd, InstItems, LeadsOn, LiveAfter, Needed, SetAt;
    AfterPhi(f, cand, b, j, x);
    AfterPhi(f, cand, b, j, y);
    LiveIsNeededAmongPhis(f, cand, b, j, x);
    LiveIsNeededAmongPhis(f, cand, b, j, y);
    hide Items, LiveBefore, LiveAfter, Sets, Needed, AtEnd, SetAt, NoPhiSets;
    assert x in {x, y} && y in {x, y};
  }

  lemma MeetAtInst(f: Function, cand: Values, b: nat, k: nat, x: Operand, y: Operand)
    requires hide *; b < |f.blocks| && k < |f.blocks[b].insts| && x != y
    ensures var n := |f.blocks[b].phis| + k;
      && n < |Items(f.blocks[b])|
      && (MeetAt(Items(f.blocks[b]), cand, AtEnd(f, cand, b), n, x, y) ==>
            x in cand && y in cand
            && ((Needed(f, x, b, k) && Needed(f, y, b, k)) || (Needed(f, x, b, k + 1) && Needed(f, y, b, k + 1))
                || SetBeside(f, b, x, y) || SetBeside(f, b, y, x)))
      && (x in cand && y in cand
          && ((Needed(f, x, b, k) && Needed(f, y, b, k)) || (SetAt(f.blocks[b], k, x) && Needed(f, y, b, k + 1))) ==>
            MeetAt(Items(f.blocks[b]), cand, AtEnd(f, cand, b), n, x, y))
  {
    hide AtEnd, Items, LeadsOn, LiveAfter, Needed, SetAt;
    AfterInst(f, cand, b, k, x);
    AfterInst(f, cand, b, k, y);
    LiveIsNeeded(f, cand, b, k, x);
    LiveIsNeeded(f, cand, b, k, y);
    OneSets(f.blocks[b], k, x, y);
    hide Items, LiveBefore, LiveAfter, Sets, Needed, AtEnd, SetAt, NoPhiSets;
    assert x in {x, y} && y in {x, y};
  }

  lemma OneSets(b: Block, k: nat, x: Operand, y: Operand)
    ensures SetAt(b, k, x) && SetAt(b, k, y) ==> x == y
  {
  }

  lemma MeetAtTerm(f: Function, cand: Values, b: nat, x: Operand, y: Operand)
    requires hide *; b < |f.blocks| && x != y
    ensures var k := |f.blocks[b].insts|; var n := |f.blocks[b].phis| + k;
      && n == |Items(f.blocks[b])| - 1
      && (MeetAt(Items(f.blocks[b]), cand, AtEnd(f, cand, b), n, x, y) <==>
            x in cand && y in cand && ((Needed(f, x, b, k) && Needed(f, y, b, k))
                                       || (NeededBehind(f, x, b) && NeededBehind(f, y, b))))
  {
    hide InstItems, LeadsOn, Needed;
    var k := |f.blocks[b].insts|;
    AfterTerm(f, cand, b, x);
    AfterTerm(f, cand, b, y);
    LiveIsNeeded(f, cand, b, k, x);
    LiveIsNeeded(f, cand, b, k, y);
    hide Items, LiveBefore, LiveAfter, Sets, Needed, NeededBehind, AtEnd;
    assert x in {x, y} && y in {x, y};
  }

  lemma MeetSymmetric(items: seq<Item>, cand: Values, out: Values, x: Operand, y: Operand)
    requires Meet(items, cand, out, x, y)
    ensures Meet(items, cand, out, y, x)
  {
    hide LiveBefore, LiveAfter, Sets;
    var k: nat :| k < |items| && MeetAt(items, cand, out, k, x, y);
    assert {x, y} == {y, x};
    assert MeetAt(items, cand, out, k, y, x);
  }

  lemma MeetingConflicts(f: Function, cand: Values, b: nat, x: Operand, y: Operand)
    requires hide *; b < |f.blocks| && Meet(Items(f.blocks[b]), cand, AtEnd(f, cand, b), x, y)
    ensures x in cand && y in cand && x != y && ConflictIn(f, b, x, y)
  {
    hide Items, LiveBefore, LiveAfter, Sets, Needed, NeededBehind, AtEnd, SetBeside, ItemAt;
    var blk := f.blocks[b];
    ItemsOf(blk);
    var p, items := |blk.phis|, Items(blk);
    var n: nat :| n < |items| && MeetAt(items, cand, AtEnd(f, cand, b), n, x, y);
    assert x != y;
    hide MeetAt;
    if n < p {
      MeetAtPhi(f, cand, b, n, x, y);
    } else if n < p + |blk.insts| {
      MeetAtInst(f, cand, b, n - p, x, y);
    } else {
      MeetAtTerm(f, cand, b, x, y);
    }
  }

  lemma BesideMeet(f: Function, cand: Values, b: nat, x: Operand, y: Operand)
    requires hide *; b < |f.blocks| && x in cand && y in cand && x != y && SetBeside(f, b, x, y)
    ensures Meet(Items(f.blocks[b]), cand, AtEnd(f, cand, b), x, y)
  {
    hide Items, MeetAt, Needed, SetAt, NoPhiSets, AtEnd;
    var blk := f.blocks[b];
    if k: nat :| k < |blk.insts| && SetAt(blk, k, x) && Needed(f, y, b, k + 1) {
      MeetAtInst(f, cand, b, k, x, y);
    } else {
      var j: nat :| j < |blk.phis| && Reg(blk.phis[j].dst) == x && NoPhiSets(blk, j + 1, y);
      MeetAtPhi(f, cand, b, j, x, y);
    }
  }

  lemma ConflictingMeet(f: Function, cand: Values, b: nat, x: Operand, y: Operand)
    requires hide *; b < |f.blocks| && x in cand && y in cand && x != y && ConflictIn(f, b, x, y)
    ensures Meet(Items(f.blocks[b]), cand, AtEnd(f, cand, b), x, y)
  {
    hide Items, MeetAt, Needed, NeededBehind, SetBeside, AtEnd;
    if SetBeside(f, b, x, y) {
      BesideMeet(f, cand, b, x, y);
    } else if SetBeside(f, b, y, x) {
      BesideMeet(f, cand, b, y, x);
      MeetSymmetric(Items(f.blocks[b]), cand, AtEnd(f, cand, b), y, x);
    } else {
      MeetAtTerm(f, cand, b, x, y);
      if k: nat :| k < |f.blocks[b].insts| && Needed(f, x, b, k) && Needed(f, y, b, k) {
        MeetAtInst(f, cand, b, k, x, y);
      }
    }
  }

  lemma CrossingIsAcross(f: Function, cand: Values, b: nat, v: Operand)
    requires hide *; b < |f.blocks|
    ensures Crosses(Items(f.blocks[b]), cand, AtEnd(f, cand, b), v) <==> v in cand && AcrossCallIn(f, b, v)
  {
    hide InstItems, Leads, LeadsOn, LiveBefore, Items, LiveAfter, Sets, Needed, AtEnd, SetAt, ItemAt;
    var blk := f.blocks[b];
    ItemsOf(blk);
    var p, items := |blk.phis|, Items(blk);
    if n: nat :| n < |items| && items[n].isCall
                 && v in LiveAfter(items, cand, AtEnd(f, cand, b), n) - Sets(items[n], cand)
    {
      AfterTerm(f, cand, b, v);
      AfterInst(f, cand, b, n - p, v);
    }
    if v in cand && AcrossCallIn(f, b, v) {
      var k: nat :| k < |blk.insts| && blk.insts[k].Call? && !SetAt(blk, k, v) && Needed(f, v, b, k + 1);
      AfterInst(f, cand, b, k, v);
    }
  }

  ghost predicate IsLiveOut(f: Function, cand: Values, liveOut: seq<Values>) {
    |liveOut| == |f.blocks| && forall b: nat :: b < |f.blocks| ==> liveOut[b] == AtEnd(f, cand, b)
  }

  /** Edges join exactly the candidates in conflict, and exactly those needed across a call cross one. */
  ghost predicate ExactByPaths(graph: InterferenceGraph, crosses: Values, f: Function, cand: Values) {
    && (forall x: Operand, y: Operand :: y in Neighbours(graph, x) <==> x in cand && y in cand && Conflict(f, x, y))
    && (forall v: Operand :: v in crosses <==> v in cand && AcrossCall(f, v))
  }

  lemma TogetherIsConflict(f: Function, cand: Values, liveOut: seq<Values>, x: Operand, y: Operand)
    requires hide AtEnd, Conflict, Leads, LiveTogether; IsLiveOut(f, cand, liveOut)
    ensures LiveTogether(f, cand, liveOut, x, y) <==> x in cand && y in cand && Conflict(f, x, y)
  {
    hide Items, Meet, ConflictIn, AtEnd;
    if LiveTogether(f, cand, liveOut, x, y) {
      var b: nat :| b < |f.blocks| && Meet(Items(f.blocks[b]), cand, liveOut[b], x, y);
      MeetingConflicts(f, cand, b, x, y);
    }
    if x in cand && y in cand && Conflict(f, x, y) {
      var b: nat :| b < |f.blocks| && ConflictIn(f, b, x, y);
      ConflictingMeet(f, cand, b, x, y);
    }
  }

  lemma AcrossIsCrossing(f: Function, cand: Values, liveOut: seq<Values>, v: Operand)
    requires hide AcrossCall, AtEnd, LeadsOn, LivesAcross; IsLiveOut(f, cand, liveOut)
    ensures LivesAcross(f, cand, liveOut, v) <==> v in cand && AcrossCall(f, v)
  {
    hide Items, Crosses, AcrossCallIn, AtEnd;
    forall b: nat | b < |f.blocks|
      ensures Crosses(Items(f.blocks[b]), cand, liveOut[b], v) <==> v in cand && AcrossCallIn(f, b, v)
    {
      CrossingIsAcross(f, cand, b, v);
    }
  }

  lemma ExactIsExactByPaths(graph: InterferenceGraph, crosses: Values, f: Function, cand: Values, liveOut: seq<Values>)
    requires hide AtEnd, Exact, ExactByPaths; IsLiveOut(f, cand, liveOut) && Exact(graph, crosses, f, cand, liveOut)
    ensures ExactByPaths(graph, crosses, f, cand)
  {
    hide AcrossCall, Conflict, IsLiveOut, Items, LeadsOn, LiveTogether, LivesAcross, Neighbours;
    SizeOf(f, cand, liveOut);
    forall x: Operand, y: Operand
      ensures y in Neighbours(graph, x) <==> x in cand && y in cand && Conflict(f, x, y)
    {
      TogetherIsConflict(f, cand, liveOut, x, y);
    }
    forall v: Operand ensures v in crosses <==> v in cand && AcrossCall(f, v) {
      AcrossIsCrossing(f, cand, liveOut, v);
    }
  }

  lemma SizeOf(f: Function, cand: Values, liveOut: seq<Values>)
    requires IsLiveOut(f, cand, liveOut)
    ensures |liveOut| == |f.blocks|
  {
    hide AtEnd;
  }

  method BuildGraph(f: Function, cand: Values, liveOut: seq<Values>) returns (graph: InterferenceGraph, crosses: Values)
    requires hide *; |liveOut| == |f.blocks|
    ensures Built(graph, crosses, f, cand, liveOut) && Exact(graph, crosses, f, cand, liveOut)
    ensures IsLiveOut(f, cand, liveOut) ==> ExactByPaths(graph, crosses, f, cand)
  {
    hide Symmetric, Keeps, Interferes, CallsCrossed, Items, JoinsMeeting, Crosses, Exact, NoMore, IsLiveOut,
         ExactByPaths;
    graph := map[];
    crosses := {};
    NothingYet(f, cand, liveOut);
    assert Symmetric(graph) by { EmptySymmetric(); }
    var b := 0;
    while b < |f.blocks|
      invariant 0 <= b <= |f.blocks| && Symmetric(graph) && NoMore(graph, crosses, f, cand, liveOut)
      invariant forall c: nat :: c < b ==> BlockBuilt(graph, crosses, f, cand, liveOut, c)
    {
      SomeItems(f.blocks[b]);
      var next, more := BlockInterference(graph, crosses, Items(f.blocks[b]), cand, liveOut[b]);
      forall c: nat | c < b ensures BlockBuilt(next, more, f, cand, liveOut, c) {
        assert BlockBuilt(graph, crosses, f, cand, liveOut, c);
        InterferesMore(graph, next, Items(f.blocks[c]), cand, liveOut[c], 0);
        CrossedMore(crosses, more, Items(f.blocks[c]), cand, liveOut[c]);
      }
      StillNoMore(graph, crosses, next, more, f, cand, liveOut, b);
      graph, crosses := next, more;
      b := b + 1;
    }
    BuiltIsExact(graph, crosses, f, cand, liveOut);
    if IsLiveOut(f, cand, liveOut) {
      ExactIsExactByPaths(graph, crosses, f, cand, liveOut);
    }
  }

  lemma EmptySymmetric()
    ensures Symmetric(map[])
  {
  }

  lemma SomeItems(b: Block)
    ensures Items(b) != []
  {
  }

  lemma CrossedMore(crosses: Values, more: Values, items: seq<Item>, cand: Values, out: Values)
    requires crosses <= more && CallsCrossed(crosses, items, cand, out, 0)
    ensures CallsCrossed(more, items, cand, out, 0)
  {
  }

  // ----- registers -----

  function Temporaries(): (r: seq<Register>)
    ensures |r| == 4 && forall k: nat :: k < 4 ==> r[k] == T(k + 3)
  {
    [T(3), T(4), T(5), T(6)]
  }

  function Arguments(): (r: seq<Register>)
    ensures |r| == 8 && forall k: nat :: k < 8 ==> r[k] == A(k)
  {
    [A(0), A(1), A(2), A(3), A(4), A(5), A(6), A(7)]
  }

  function SavedOnes(): (r: seq<Register>)
    ensures |r| == 11 && forall k: nat :: k < 11 ==> r[k] == S(k + 1)
  {
    [S(1), S(2), S(3), S(4), S(5), S(6), S(7), S(8), S(9), S(10), S(11)]
  }

  /** The registers that a value may get, in the order in which they are tried. */
  function Preferred(v: Operand, crosses: Values): seq<Register> {
    if v in crosses then SavedOnes()
    else (if v.Param? && v.index < 8 then [A(v.index)] else []) + Temporaries() + Arguments() + SavedOnes()
  }

  /** The registers that a value may have: a saved one if it crosses a call, otherwise also a temporary or that of an
      argument. */
  predicate Allowed(r: Register, crosses: bool) {
    || (r.S? && 1 <= r.n <= 11)
    || (!crosses && ((r.T? && 3 <= r.n <= 6) || (r.A? && r.n <= 7)))
  }

  /** The lower, the earlier it is tried: the register in which a parameter comes, temporaries, the registers of
      arguments, saved ones. */
  function Rank(v: Operand, r: Register): nat {
    match r
    case A(n) => if v == Param(n) then 0 else n + 10
    case T(n) => n
    case S(n) => n + 20
  }

  /** Where a register first is in the list. */
  function Position(v: Operand, crosses: bool, r: Register): nat
    requires Allowed(r, crosses)
  {
    var own := if v.Param? && v.index < 8 then 1 else 0;
    if crosses then r.n - 1
    else
      match r
      case A(n) => if v == Param(n) then 0 else own + 4 + n
      case T(n) => own + n - 3
      case S(n) => own + 11 + n
  }

  lemma PositionIsFirst(v: Operand, crosses: Values, r: Register)
    requires Allowed(r, v in crosses)
    ensures var k := Position(v, v in crosses, r); k < |Preferred(v, crosses)| && Preferred(v, crosses)[k] == r
  {
    hide Temporaries, Arguments, SavedOnes;
  }

  lemma PreferredIsAllowed(v: Operand, crosses: Values, k: nat)
    requires k < |Preferred(v, crosses)|
    ensures Allowed(Preferred(v, crosses)[k], v in crosses)
  {
    hide Temporaries, Arguments, SavedOnes;
  }

  /** What is tried before place `k` of the list is everything of lower rank. */
  lemma LowerIsEarlier(v: Operand, crosses: Values, k: nat, r: Register)
    requires k < |Preferred(v, crosses)| && Allowed(r, v in crosses)
    requires Rank(v, r) < Rank(v, Preferred(v, crosses)[k])
    ensures Position(v, v in crosses, r) < k
  {
    hide Temporaries, Arguments, SavedOnes;
  }

  type Allocation = map<Operand, Register>

  predicate Taken(graph: InterferenceGraph, given: Allocation, v: Operand, r: Register) {
    exists u :: u in Neighbours(graph, v) && u in given && given[u] == r
  }

  /** The first register of the list that no neighbour has; none if all are taken. */
  ghost predicate IsChoice(graph: InterferenceGraph, given: Allocation, v: Operand, crosses: Values,
                           choice: Option<Register>) {
    var regs := Preferred(v, crosses);
    match choice
    case None => forall r :: r in regs ==> Taken(graph, given, v, r)
    case Some(r) => !Taken(graph, given, v, r) && exists k: nat :: FirstFree(graph, given, v, regs, k) && regs[k] == r
  }

  ghost predicate FirstFree(graph: InterferenceGraph, given: Allocation, v: Operand, regs: seq<Register>, k: nat) {
    k < |regs| && forall j :: 0 <= j < k ==> Taken(graph, given, v, regs[j])
  }

  method Unavailable(graph: InterferenceGraph, given: Allocation, v: Operand) returns (regs: set<Register>)
    ensures forall r :: r in regs <==> Taken(graph, given, v, r)
  {
    regs := {};
    var rest := Neighbours(graph, v);
    while rest != {}
      invariant rest <= Neighbours(graph, v)
      invariant forall r :: r in regs <==> exists u :: u in Neighbours(graph, v) - rest && u in given && given[u] == r
      decreases |rest|
    {
      var u :| u in rest;
      if u in given {
        regs := regs + {given[u]};
      }
      rest := rest - {u};
    }
  }

  method Choose(graph: InterferenceGraph, given: Allocation, v: Operand,
                crosses: Values) returns (choice: Option<Register>)
    ensures IsChoice(graph, given, v, crosses, choice)
  {
    hide Preferred;
    var taken := Unavailable(graph, given, v);
    var regs, k := Preferred(v, crosses), 0;
    while k < |regs|
      invariant 0 <= k <= |regs| && forall j :: 0 <= j < k ==> Taken(graph, given, v, regs[j])
    {
      if regs[k] !in taken {
        assert FirstFree(graph, given, v, regs, k);
        return Some(regs[k]);
      }
      k := k + 1;
    }
    return None;
  }

  /** Neighbours have different registers, and what crosses a call has a saved one. */
  ghost predicate Proper(graph: InterferenceGraph, crosses: Values, given: Allocation) {
    && (forall a, b :: a in given && b in given && Interfere(graph, a, b) ==> given[a] != given[b])
    && (forall a :: a in given && a in crosses ==> given[a].S? && 1 <= given[a].n <= 11)
  }

  lemma ChoiceIsProper(graph: InterferenceGraph, crosses: Values, given: Allocation, v: Operand, r: Register)
    requires Symmetric(graph) && Proper(graph, crosses, given) && v !in given
             && IsChoice(graph, given, v, crosses, Some(r))
    ensures Proper(graph, crosses, given[v := r])
  {
    hide Preferred;
    SavedOnly(v, crosses);
    var more := given[v := r];
    forall a, b | a in more && b in more && Interfere(graph, a, b) ensures more[a] != more[b] {
      assert a != b;
      if a == v {
        assert given[b] == r ==> Taken(graph, given, v, r);
      } else if b == v {
        assert given[a] == r ==> Taken(graph, given, v, r);
      }
    }
  }

  lemma SavedOnly(v: Operand, crosses: Values)
    ensures v in crosses ==> forall k :: 0 <= k < |Preferred(v, crosses)| ==>
                               Preferred(v, crosses)[k].S? && 1 <= Preferred(v, crosses)[k].n <= 11
  {
    hide Temporaries, Arguments, SavedOnes;
  }

  /** One value after another, in whatever order they come. */
  method Allocate(graph: InterferenceGraph, crosses: Values, order: seq<Operand>) returns (given: Allocation)
    requires Symmetric(graph)
    ensures Proper(graph, crosses, given) && forall v :: v in given ==> v in order
    ensures forall v :: v in order && v !in given ==> forall r :: r in Preferred(v, crosses) ==>
                                                        Taken(graph, given, v, r)
    ensures forall v :: v in given ==> GivenFirst(graph, given, v, crosses)
  {
    hide Symmetric, Proper, IsChoice, Preferred, GivenFirst;
    given := map[];
    assert Proper(graph, crosses, given) by { NothingGiven(graph, crosses); }
    var n := 0;
    while n < |order|
      invariant 0 <= n <= |order| && Proper(graph, crosses, given) && forall v :: v in given ==> v in order
      invariant forall v :: v in order[..n] && v !in given ==> forall r :: r in Preferred(v, crosses) ==>
                                                                 Taken(graph, given, v, r)
      invariant forall v :: v in given ==> GivenFirst(graph, given, v, crosses)
    {
      var v := order[n];
      assert order[..n + 1] == order[..n] + [v];
      if v !in given {
        var choice := Choose(graph, given, v, crosses);
        if choice.Some? {
          ChoiceIsProper(graph, crosses, given, v, choice.value);
          TakenStays(graph, given, v, choice.value);
          FirstStays(graph, given, v, choice.value, crosses);
          given := given[v := choice.value];
        } else {
          NoChoice(graph, given, v, crosses);
        }
      }
      n := n + 1;
    }
    assert order[..n] == order;
  }

  lemma NothingGiven(graph: InterferenceGraph, crosses: Values)
    ensures Proper(graph, crosses, map[])
  {
  }

  lemma TakenStays(graph: InterferenceGraph, given: Allocation, v: Operand, r: Register)
    requires v !in given
    ensures forall u, x :: Taken(graph, given, u, x) ==> Taken(graph, given[v := r], u, x)
  {
    forall u, x | Taken(graph, given, u, x) ensures Taken(graph, given[v := r], u, x) {
      var w :| w in Neighbours(graph, u) && w in given && given[w] == x;
      assert w in given[v := r] && given[v := r][w] == x;
    }
  }

  /** The register is the first of the list, or all those before it are taken. */
  ghost predicate GivenFirst(graph: InterferenceGraph, given: Allocation, v: Operand, crosses: Values) {
    v in given
    && exists k: nat :: FirstFree(graph, given, v, Preferred(v, crosses), k) && Preferred(v, crosses)[k] == given[v]
  }

  lemma FirstStays(graph: InterferenceGraph, given: Allocation, v: Operand, r: Register, crosses: Values)
    requires v !in given && IsChoice(graph, given, v, crosses, Some(r))
    requires forall u :: u in given ==> GivenFirst(graph, given, u, crosses)
    ensures var more := given[v := r]; forall u :: u in more ==> GivenFirst(graph, more, u, crosses)
  {
    hide Preferred, Taken;
    TakenStays(graph, given, v, r);
    var more := given[v := r];
    forall u | u in more ensures GivenFirst(graph, more, u, crosses) {
      var regs := Preferred(u, crosses);
      if u != v {
        assert GivenFirst(graph, given, u, crosses);
      }
      var k: nat :| FirstFree(graph, given, u, regs, k) && regs[k] == more[u];
      assert FirstFree(graph, more, u, regs, k);
    }
  }

  lemma NoChoice(graph: InterferenceGraph, given: Allocation, v: Operand, crosses: Values)
    requires IsChoice(graph, given, v, crosses, None)
    ensures forall r :: r in Preferred(v, crosses) ==> Taken(graph, given, v, r)
  {
  }

  // ----- the guarantee -----

  /** A value in conflict has the register. */
  ghost predicate HeldBeside(f: Function, given: Allocation, v: Operand, r: Register) {
    exists u :: u in given && given[u] == r && Conflict(f, v, u)
  }

  /** Values in conflict have different registers; every register is allowed; and every allowed register that would
      have come before it, or every allowed one if the value has none, is with a value in conflict. */
  ghost predicate WellGiven(f: Function, cand: Values, given: Allocation) {
    && (forall v :: v in given ==> v in cand && Allowed(given[v], AcrossCall(f, v)))
    && (forall u, v :: u in given && v in given && Conflict(f, u, v) ==> given[u] != given[v])
    && (forall v, r :: v in cand && Allowed(r, AcrossCall(f, v)) && (v in given ==> Rank(v, r) < Rank(v, given[v])) ==>
          HeldBeside(f, given, v, r))
  }

  lemma TakenIsHeld(graph: InterferenceGraph, crosses: Values, given: Allocation, f: Function, cand: Values, v: Operand,
                    r: Register)
    requires ExactByPaths(graph, crosses, f, cand) && Taken(graph, given, v, r)
    ensures HeldBeside(f, given, v, r)
  {
    hide Conflict, AcrossCall;
    var u :| u in Neighbours(graph, v) && u in given && given[u] == r;
  }

  lemma LowerIsHeld(graph: InterferenceGraph, crosses: Values, given: Allocation, f: Function, cand: Values, v: Operand,
                    r: Register)
    requires hide *; ExactByPaths(graph, crosses, f, cand) && v in cand && Allowed(r, v in crosses)
    requires v in given ==> GivenFirst(graph, given, v, crosses) && Rank(v, r) < Rank(v, given[v])
    requires v !in given ==> forall r :: r in Preferred(v, crosses) ==> Taken(graph, given, v, r)
    ensures HeldBeside(f, given, v, r)
  {
    hide Preferred, Taken, ExactByPaths, Allowed, Rank, HeldBeside, Position;
    PositionIsFirst(v, crosses, r);
    if v in given {
      var k: nat :| FirstFree(graph, given, v, Preferred(v, crosses), k) && Preferred(v, crosses)[k] == given[v];
      LowerIsEarlier(v, crosses, k, r);
    }
    TakenIsHeld(graph, crosses, given, f, cand, v, r);
  }

  lemma GivenIsAllowed(graph: InterferenceGraph, given: Allocation, v: Operand, crosses: Values)
    requires GivenFirst(graph, given, v, crosses)
    ensures v in given && Allowed(given[v], v in crosses)
  {
    hide Preferred, Taken, Allowed;
    var k: nat :| FirstFree(graph, given, v, Preferred(v, crosses), k) && Preferred(v, crosses)[k] == given[v];
    PreferredIsAllowed(v, crosses, k);
  }

  lemma ConflictsApart(graph: InterferenceGraph, crosses: Values, given: Allocation, f: Function, cand: Values,
                       u: Operand, v: Operand)
    requires hide *; ExactByPaths(graph, crosses, f, cand) && Symmetric(graph) && Proper(graph, crosses, given)
    requires u in given && v in given && u in cand && v in cand && Conflict(f, u, v)
    ensures given[u] != given[v]
  {
    hide Conflict, AcrossCall, Neighbours;
    assert Interfere(graph, u, v);
  }

  lemma CrossesIsAcross(graph: InterferenceGraph, crosses: Values, f: Function, cand: Values, v: Operand)
    requires ExactByPaths(graph, crosses, f, cand) && v in cand
    ensures v in crosses <==> AcrossCall(f, v)
  {
    hide Conflict, AcrossCall, Neighbours;
  }

  lemma AllWellGiven(graph: InterferenceGraph, crosses: Values, given: Allocation, f: Function, cand: Values)
    requires ExactByPaths(graph, crosses, f, cand) && Symmetric(graph) && Proper(graph, crosses, given)
    requires forall v :: v in given ==> v in cand && GivenFirst(graph, given, v, crosses)
    requires forall v :: v in cand && v !in given ==>
               forall r :: r in Preferred(v, crosses) ==> Taken(graph, given, v, r)
    ensures WellGiven(f, cand, given)
  {
    hide *;
    forall v | v in given ensures v in cand && Allowed(given[v], AcrossCall(f, v)) {
      GivenIsAllowed(graph, given, v, crosses);
      CrossesIsAcross(graph, crosses, f, cand, v);
    }
    forall u, v | u in given && v in given && Conflict(f, u, v) ensures given[u] != given[v] {
      ConflictsApart(graph, crosses, given, f, cand, u, v);
    }
    forall v, r | v in cand && Allowed(r, AcrossCall(f, v)) && (v in given ==> Rank(v, r) < Rank(v, given[v]))
      ensures HeldBeside(f, given, v, r)
    {
      CrossesIsAcross(graph, crosses, f, cand, v);
      LowerIsHeld(graph, crosses, given, f, cand, v, r);
    }
    WellGivenIf(f, cand, given);
  }

  lemma WellGivenIf(f: Function, cand: Values, given: Allocation)
    requires hide *; forall v :: v in given ==> v in cand && Allowed(given[v], AcrossCall(f, v))
    requires forall u, v :: u in given && v in given && Conflict(f, u, v) ==> given[u] != given[v]
    requires forall v, r ::
               v in cand && Allowed(r, AcrossCall(f, v)) && (v in given ==> Rank(v, r) < Rank(v, given[v])) ==>
                 HeldBeside(f, given, v, r)
    ensures WellGiven(f, cand, given)
  {
    hide Allowed, AcrossCall, Conflict, Rank, HeldBeside;
  }

  /** The allocation as a whole: solve the equations, build the graph, give out the registers. Values of which one is
      set or needed where a run may still read the other have different registers; values needed behind a call have
      saved ones; and a value goes without a register, or a better one, only if values in conflict have them. */
  method PlanRegisters(f: Function, cand: Values, order: seq<Operand>)
    returns (given: Allocation, crosses: Values, liveOut: seq<Values>)
    requires hide *; Graphs.Valid(Cfg(f)) && forall v :: v in order <==> v in cand
    ensures WellGiven(f, cand, given)
    ensures forall v :: v in crosses <==> v in cand && AcrossCall(f, v)
    ensures |liveOut| == |f.blocks|
    ensures forall b: nat, v :: b < |f.blocks| ==> (v in liveOut[b] <==> v in cand && NeededBehind(f, v, b))
  {
    hide *;
    var liveIn;
    liveIn, liveOut := Solve(f, cand);
    IsLiveOutIf(f, cand, liveOut);
    var graph;
    graph, crosses := BuildGraph(f, cand, liveOut);
    BuiltIsSymmetric(graph, crosses, f, cand, liveOut);
    given := Allocate(graph, crosses, order);
    AllWellGiven(graph, crosses, given, f, cand);
    forall v ensures v in crosses <==> v in cand && AcrossCall(f, v) {
      CrossesAre(graph, crosses, f, cand);
    }
    forall b: nat, v | b < |f.blocks| ensures v in liveOut[b] <==> v in cand && NeededBehind(f, v, b) {
      AtEndHas(f, cand, b, v);
    }
  }

  lemma IsLiveOutIf(f: Function, cand: Values, liveOut: seq<Values>)
    requires hide *; |liveOut| == |f.blocks| && forall b: nat :: b < |f.blocks| ==> liveOut[b] == AtEnd(f, cand, b)
    ensures IsLiveOut(f, cand, liveOut)
  {
    hide AtEnd;
  }

  lemma CrossesAre(graph: InterferenceGraph, crosses: Values, f: Function, cand: Values)
    requires ExactByPaths(graph, crosses, f, cand)
    ensures forall v :: v in crosses <==> v in cand && AcrossCall(f, v)
  {
    hide Conflict, AcrossCall, Neighbours;
  }

  lemma AtEndHas(f: Function, cand: Values, b: nat, v: Operand)
    ensures v in AtEnd(f, cand, b) <==> v in cand && NeededBehind(f, v, b)
  {
    hide NeededBehind;
  }

  lemma BuiltIsSymmetric(graph: InterferenceGraph, crosses: Values, f: Function, cand: Values, liveOut: seq<Values>)
    requires Built(graph, crosses, f, cand, liveOut)
    ensures Symmetric(graph)
  {
    hide BlockBuilt;
  }
}
