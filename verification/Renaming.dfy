/** What promoting stack slots to registers means: the value every promoted slot holds at every
    place, and the function in which loads, stores and allocas of promoted slots are gone. */
module Renaming {
  import opened Graphs
  import opened Idoms
  import opened Ir
  import opened Ssa

  /** A function, the slots to promote, its dominator tree, and the phis that were placed:
      `slots[b]` lists the promoted slots with a phi in block `b`, and `phis` names the registers. */
  datatype Setting = Setting(f: Function, promoted: set<nat>, preds: seq<seq<nat>>, idom: map<nat, nat>,
                             po: seq<nat>, slots: seq<seq<nat>>, phis: map<(nat, nat), nat>)

  function Code(s: Setting, b: nat): seq<Inst>
    requires b < |s.f.blocks|
  {
    s.f.blocks[b].insts
  }

  ghost predicate Stores(f: Function, b: nat, a: nat) {
    b < |f.blocks| && exists k, v :: 0 <= k < |f.blocks[b].insts| && f.blocks[b].insts[k] == Store(Slot(a), v)
  }

  /** `b` is where the dominance of `x` ends, seen along the edge from `p`. */
  ghost predicate Boundary(s: Setting, x: nat, p: nat, b: nat)
    requires IsTree(s.idom, s.po)
  {
    && Edge(Cfg(s.f), p, b) && b != 0 && p in s.idom && b in s.idom && s.idom[b] in s.idom
    && x in Chain(s.idom, s.po, p) && x !in Chain(s.idom, s.po, s.idom[b])
  }

  /** Phis are placed at the whole frontier of every block that stores to the slot or has a phi for it. */
  ghost predicate Placed(s: Setting)
    requires IsTree(s.idom, s.po)
  {
    forall x: nat, p: nat, b: nat, a: nat {:trigger Boundary(s, x, p, b), (b, a) in s.phis} ::
      a in s.promoted && (Stores(s.f, x, a) || (x, a) in s.phis) && Boundary(s, x, p, b) ==> (b, a) in s.phis
  }

  /** The registers of the phis are new, and different from each other. */
  ghost predicate FreshPhis(s: Setting) {
    && (forall b, a :: (b, a) in s.phis ==> 0 < b < |s.f.blocks| && a in s.promoted && Site(s.f, s.phis[(b, a)]).None?)
    && (forall x, y :: x in s.phis && y in s.phis && s.phis[x] == s.phis[y] ==> x == y)
    && |s.slots| == |s.f.blocks|
    && (forall b: nat, a: nat :: b < |s.slots| ==> (a in s.slots[b] <==> (b, a) in s.phis))
    && (forall b: nat :: b < |s.slots| ==> Distinct(s.slots[b]))
  }

  ghost predicate Sound(s: Setting) {
    && WellFormed(s.f)
    && ArePreds(Cfg(s.f), s.preds)
    && Exact(Cfg(s.f), s.idom, s.po)
    && Placed(s)
    && FreshPhis(s)
  }

  /** The place of the load that defines `r`, if it loads a promoted slot. */
  ghost function LoadSite(s: Setting, r: nat): (l: Option<(nat, nat, nat)>)
    ensures l.Some? ==>
              && Site(s.f, r) == Some((l.value.0, l.value.1)) && l.value.2 in s.promoted
              && l.value.0 < |s.f.blocks| && l.value.1 < |Code(s, l.value.0)|
              && Code(s, l.value.0)[l.value.1] == Load(r, Slot(l.value.2))
    ensures l.None? && Site(s.f, r).Some? ==>
              var (b, k) := Site(s.f, r).value;
              !(Code(s, b)[k].Load? && Code(s, b)[k].ptr.Slot? && Code(s, b)[k].ptr.slot in s.promoted)
  {
    match Site(s.f, r)
    case None => None
    case Some((b, k)) =>
      match Code(s, b)[k]
      case Load(_, Slot(a)) => if a in s.promoted then Some((b, k, a)) else None
      case _ => None
  }

  /** The value of slot `a` before instruction `k` of block `b`, in terms of the registers that remain. */
  ghost function Current(s: Setting, b: nat, k: nat, a: nat): Operand
    requires Sound(s) && b < |s.f.blocks| && k <= |Code(s, b)|
    decreases s.po[0] - s.po[b], k, 0
  {
    if k > 0 then
      match Code(s, b)[k - 1]
      case Store(Slot(x), v) =>
        if x == a then
          ScopeOfUse(s, b, k - 1, v);
          Resolve(s, v)
        else Current(s, b, k - 1, a)
      case _ => Current(s, b, k - 1, a)
    else if (b, a) in s.phis then Reg(s.phis[(b, a)])
    else if b == 0 then Const(0)
    else
      assert Parented(s.idom, s.po, b);
      Current(s, s.idom[b], |Code(s, s.idom[b])|, a)
  }

  ghost function Depth(s: Setting, v: Operand): (d: (nat, nat))
    requires Sound(s)
    ensures v.Reg? && LoadSite(s, v.id).Some? ==>
              s.po[LoadSite(s, v.id).value.0] <= s.po[0] &&
              d == (s.po[0] - s.po[LoadSite(s, v.id).value.0], LoadSite(s, v.id).value.1)
    ensures !(v.Reg? && LoadSite(s, v.id).Some?) ==> d == (0, 0)
  {
    if v.Reg? && LoadSite(s, v.id).Some?
    then (s.po[0] - s.po[LoadSite(s, v.id).value.0], LoadSite(s, v.id).value.1)
    else (0, 0)
  }

  /** What is left of an operand: the value of the slot if it was loaded from a promoted slot. */
  ghost function Resolve(s: Setting, v: Operand): Operand
    requires Sound(s)
    decreases Depth(s, v).0, Depth(s, v).1, 1
  {
    if v.Reg? && LoadSite(s, v.id).Some? then
      var (b, k, a) := LoadSite(s, v.id).value;
      Current(s, b, k, a)
    else v
  }

  /** A use lies below its definition in the tree. */
  lemma ScopeOfUse(s: Setting, b: nat, k: nat, v: Operand)
    requires hide FreshPhis, LoadSite, Placed, Site, WellFormed;
             Sound(s) && b < |s.f.blocks| && k < |Code(s, b)| && v in Uses(Code(s, b)[k])
    ensures v.Reg? ==> Available(s, b, k, v.id)
    ensures v.Reg? && LoadSite(s, v.id).Some? ==>
              var l := LoadSite(s, v.id).value;
              s.po[l.0] >= s.po[b] && (s.po[l.0] == s.po[b] ==> l.1 < k)
  {
    hide ArePreds, Chain, Defines, FreshPhis, IsTree, LoadSite, Placed, Site;
    assert AllDefined(s.f, b, k, Uses(s.f.blocks[b].insts[k]));
  }

  /** The definition of `r` is above place `k` of block `b`. */
  ghost predicate Available(s: Setting, b: nat, k: nat, r: nat)
    requires IsTree(s.idom, s.po) && b in s.idom
  {
    var d := Site(s.f, r);
    d.Some? && d.value.0 in Chain(s.idom, s.po, b) && (d.value.0 == b ==> d.value.1 < k)
  }

  // ----- the promoted function -----

  predicate Removed(promoted: set<nat>, i: Inst) {
    match i
    case Alloca(a) => a in promoted
    case Load(_, Slot(a)) => a in promoted
    case Store(Slot(a), _) => a in promoted
    case _ => false
  }

  /** The registers that hold a value loaded from a promoted slot. */
  ghost function Loaded(s: Setting): (rs: set<nat>)
    requires Sound(s)
    ensures forall r :: r in rs <==> LoadSite(s, r).Some?
  {
    var rs := set b: nat, k: nat | b < |s.f.blocks| && k < |Code(s, b)| && LoadsPromoted(s, b, k) ::
                Code(s, b)[k].dst;
    assert forall r :: LoadSite(s, r).Some? ==> LoadsPromoted(s, LoadSite(s, r).value.0, LoadSite(s, r).value.1);
    assert forall r :: r in rs ==> LoadSite(s, r).Some? by {
      forall r | r in rs
        ensures LoadSite(s, r).Some?
      {
        var b: nat, k: nat :| b < |s.f.blocks| && k < |Code(s, b)| && LoadsPromoted(s, b, k) && Code(s, b)[k].dst == r;
        assert Defines(s.f, b, k, r);
      }
    }
    rs
  }

  predicate LoadsPromoted(s: Setting, b: nat, k: nat)
    requires b < |s.f.blocks| && k < |Code(s, b)|
  {
    Code(s, b)[k].Load? && Code(s, b)[k].ptr.Slot? && Code(s, b)[k].ptr.slot in s.promoted
  }

  ghost function Replacement(s: Setting): (m: map<nat, Operand>)
    requires Sound(s)
    ensures forall v :: Apply(m, v) == Resolve(s, v)
  {
    map r | r in Loaded(s) :: Resolve(s, Reg(r))
  }

  /** Instructions with the promoted accesses gone and the loaded registers replaced. */
  function Clean(promoted: set<nat>, m: map<nat, Operand>, insts: seq<Inst>): seq<Inst> {
    if insts == [] then []
    else
      var last := insts[|insts| - 1];
      Clean(promoted, m, insts[..|insts| - 1]) + (if Removed(promoted, last) then [] else [SubstInst(m, last)])
  }

  /** The value slot `a` has when block `b` ends. */
  ghost function Outgoing(s: Setting, b: nat, a: nat): Operand
    requires hide *; Sound(s) && b < |s.f.blocks|
  {
    Current(s, b, |Code(s, b)|, a)
  }

  /** What flows along each edge from `ps` into a phi for slot `a`. */
  ghost function Inflow(s: Setting, ps: seq<nat>, a: nat): (r: seq<(Operand, nat)>)
    requires Sound(s) && forall i :: 0 <= i < |ps| ==> ps[i] < |s.f.blocks|
    ensures |r| == |ps|
    ensures forall i :: 0 <= i < |ps| ==> r[i] == (Outgoing(s, ps[i], a), ps[i])
  {
    seq(|ps|, i requires 0 <= i < |ps| => (Outgoing(s, ps[i], a), ps[i]))
  }

  lemma PredsInRange(s: Setting, b: nat)
    requires hide Exact, FreshPhis, Placed, PredList, WellFormed; Sound(s) && b < |s.f.blocks|
    ensures forall p: nat :: p in s.preds[b] <==> Edge(Cfg(s.f), p, b)
    ensures forall i :: 0 <= i < |s.preds[b]| ==> s.preds[b][i] < |s.f.blocks|
  {
    hide Exact, FreshPhis, Placed, PredList, WellFormed;
    PredsAreEdges(Cfg(s.f), s.preds);
    forall i | 0 <= i < |s.preds[b]|
      ensures s.preds[b][i] < |s.f.blocks|
    {
      assert s.preds[b][i] in s.preds[b];
    }
  }

  ghost function PhiAt(s: Setting, b: nat, a: nat): Phi
    requires Sound(s) && b < |s.f.blocks| && (b, a) in s.phis
  {
    PredsInRange(s, b);
    Phi(s.phis[(b, a)], Inflow(s, s.preds[b], a))
  }

  ghost function PhisAt(s: Setting, b: nat, xs: seq<nat>): (r: seq<Phi>)
    requires Sound(s) && b < |s.f.blocks| && forall i :: 0 <= i < |xs| ==> (b, xs[i]) in s.phis
    ensures |r| == |xs| && forall i :: 0 <= i < |xs| ==> r[i] == PhiAt(s, b, xs[i])
  {
    seq(|xs|, i requires 0 <= i < |xs| => PhiAt(s, b, xs[i]))
  }

  ghost function PromotedBlock(s: Setting, b: nat): Block
    requires Sound(s) && b < |s.f.blocks|
  {
    var m := Replacement(s);
    Block(PhisAt(s, b, s.slots[b]), Clean(s.promoted, m, Code(s, b)), SubstTerm(m, s.f.blocks[b].term))
  }

  ghost function PromotedFunction(s: Setting): (g: Function)
    requires Sound(s)
    ensures |g.blocks| == |s.f.blocks|
    ensures forall b: nat :: b < |g.blocks| ==> g.blocks[b] == PromotedBlock(s, b)
  {
    Function(seq(|s.f.blocks|, b requires 0 <= b < |s.f.blocks| => PromotedBlock(s, b)))
  }
}
