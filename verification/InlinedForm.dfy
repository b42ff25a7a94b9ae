/** What a function with an inlined call keeps: it can itself be copied, so it may be inlined into other functions. */
module InlinedForm {
  import opened Ir
  import opened Ssa
  import opened Inlining
  import opened Inliner
  import L = Numbers

  /** What the pass relies on in a function with `params` parameters, before the construction of SSA form. */
  ghost predicate Plain(f: Function, params: nat) {
    && ParamsBelow(f, params) && UniqueDefs(f) && TargetsWithin(f) && DeclaresItsSlots(f) && CanBeCloned(f)
  }

  // ----- where the instructions of the result come from -----

  ghost predicate InCode(f: Function, i: Inst) {
    exists b: nat, k: nat :: InCodeAt(f, i, b, k)
  }

  ghost predicate InCodeAt(f: Function, i: Inst, b: nat, k: nat) {
    b < |f.blocks| && k < |f.blocks[b].insts| && f.blocks[b].insts[k] == i
  }

  ghost predicate FromCaller(z: Plan, i: Inst)
    requires HasCall(z)
  {
    exists x :: InCode(z.caller, x) && i == SubstInst(Redirected(z), x)
  }

  ghost predicate FromCallee(z: Plan, i: Inst)
    requires HasCall(z)
  {
    exists x :: InCode(z.callee, x) && !x.Alloca? && i == CloneInst(z, x)
  }

  /** The return value of some block of the callee. */
  ghost predicate Returned(z: Plan, v: Operand) {
    exists b: nat :: b < |z.callee.blocks| && v in TermUses(z.callee.blocks[b].term)
  }

  ghost predicate Added(z: Plan, i: Inst)
    requires HasCall(z)
  {
    || i.Alloca? || i == Load(z.result, Slot(z.resultSlot))
    || exists v :: Returned(z, v) && i == Store(Slot(z.resultSlot), CloneOperand(z, v))
  }

  ghost predicate HasOrigin(z: Plan, i: Inst)
    requires HasCall(z)
  {
    FromCaller(z, i) || FromCallee(z, i) || Added(z, i)
  }

  lemma {:induction false} CloneOrigin(z: Plan, insts: seq<Inst>, i: Inst) returns (x: Inst)
    requires HasCall(z) && i in CloneInsts(z, insts)
    ensures x in insts && !x.Alloca? && i == CloneInst(z, x)
  {
    hide CloneInst;
    var n := |insts| - 1;
    if i in CloneInsts(z, insts[..n]) {
      x := CloneOrigin(z, insts[..n], i);
    } else {
      x := insts[n];
    }
  }

  lemma SubstOrigin(z: Plan, b: nat, part: seq<Inst>, i: Inst)
    requires HasCall(z) && b < |z.caller.blocks| && (forall x :: x in part ==> x in z.caller.blocks[b].insts)
    requires i in SubstInsts(Redirected(z), part)
    ensures FromCaller(z, i)
  {
    var j :| 0 <= j < |part| && SubstInsts(Redirected(z), part)[j] == i;
    assert part[j] in z.caller.blocks[b].insts;
    var k :| 0 <= k < |z.caller.blocks[b].insts| && z.caller.blocks[b].insts[k] == part[j];
    assert InCodeAt(z.caller, part[j], b, k);
    assert InCode(z.caller, part[j]);
  }

  lemma CallerOrigin(z: Plan, b: nat, i: Inst)
    requires hide *; HasCall(z) && b < |z.caller.blocks| && i in CallerBlock(z, b).insts
    ensures HasOrigin(z, i)
  {
    hide Redirected, Declarations, FromCaller, FromCallee;
    var insts := z.caller.blocks[b].insts;
    var part := if b == z.b then insts[..z.k] else insts;
    if i in SubstInsts(Redirected(z), part) {
      SubstOrigin(z, b, part, i);
    }
  }

  lemma CalleeOrigin(z: Plan, b: nat, i: Inst)
    requires hide *; HasCall(z) && b < |z.callee.blocks| && i in CloneBlock(z, b).insts
    ensures HasOrigin(z, i)
  {
    hide CloneOperand, CloneInst, FromCaller;
    var blk := z.callee.blocks[b];
    if i in CloneInsts(z, blk.insts) {
      var x := CloneOrigin(z, blk.insts, i);
      var k :| 0 <= k < |blk.insts| && blk.insts[k] == x;
      assert InCodeAt(z.callee, x, b, k);
      assert InCode(z.callee, x);
    } else {
      var v := blk.term.result.value;
      assert v in TermUses(blk.term);
      assert Returned(z, v);
    }
  }

  lemma ContinuationOrigin(z: Plan, i: Inst)
    requires hide *; HasCall(z) && i in ContinuationBlock(z).insts
    ensures HasOrigin(z, i)
  {
    hide Redirected, FromCaller, FromCallee;
    var rest := z.caller.blocks[z.b].insts[z.k + 1..];
    if i in SubstInsts(Redirected(z), rest) {
      SubstOrigin(z, z.b, rest, i);
    }
  }

  lemma Origin(z: Plan, b: nat, i: Inst)
    requires hide *; HasCall(z) && b < |Inlined(z).blocks| && i in Inlined(z).blocks[b].insts
    ensures HasOrigin(z, i)
  {
    hide CallerBlock, CloneBlock, ContinuationBlock, HasOrigin, Inlined;
    ContinuationIs(z);
    if b < |z.caller.blocks| {
      CallerBlockIs(z, b);
      CallerOrigin(z, b, i);
    } else if b < Continuation(z) {
      InlinedBlock(z, b - BodyStart(z));
      CalleeOrigin(z, b - BodyStart(z), i);
    } else {
      ContinuationOrigin(z, i);
    }
  }

  // ----- operands -----

  lemma ApplyParam(z: Plan, v: Operand, n: nat)
    requires HasCall(z) && ParamBelow(v, n)
    ensures ParamBelow(Apply(Redirected(z), v), n)
  {
  }

  lemma CallArgs(z: Plan, n: nat)
    requires HasCall(z) && ParamsBelow(z.caller, n)
    ensures forall j :: 0 <= j < |TheCall(z).args| ==> ParamBelow(TheCall(z).args[j], n)
  {
    assert Uses(z.caller.blocks[z.b].insts[z.k]) == TheCall(z).args;
  }

  /** The copy uses the parameters of the caller only. */
  lemma CloneParam(z: Plan, v: Operand, n: nat)
    requires HasCall(z) && ParamsBelow(z.caller, n) && ParamBelow(v, |TheCall(z).args|)
    ensures ParamBelow(CloneOperand(z, v), n)
  {
    CallArgs(z, n);
    hide ParamsBelow;
    if v.Param? {
      ApplyParam(z, TheCall(z).args[v.index], n);
    }
  }

  lemma LocalParams(z: Plan, i: Inst, v: Operand)
    requires hide *; HasCall(z) && SafeToInline(z.callee, |TheCall(z).args|) && InCode(z.callee, i) && v in Uses(i)
    ensures ParamBelow(v, |TheCall(z).args|) && !i.Call?
  {
    var b: nat, k: nat :| InCodeAt(z.callee, i, b, k);
    hide DefinedBefore, Uses;
    assert AllLocal(z.callee.blocks[b].insts, k, |TheCall(z).args|, Uses(z.callee.blocks[b].insts[k]));
  }

  lemma LocalResult(z: Plan, b: nat, v: Operand)
    requires hide *; HasCall(z) && SafeToInline(z.callee, |TheCall(z).args|)
    requires b < |z.callee.blocks| && v in TermUses(z.callee.blocks[b].term)
    ensures ParamBelow(v, |TheCall(z).args|)
  {
    hide DefinedBefore, TermUses;
    var blk := z.callee.blocks[b];
    assert AllLocal(blk.insts, |blk.insts|, |TheCall(z).args|, TermUses(blk.term));
  }

  lemma SubstUses(z: Plan, x: Inst, v: Operand) returns (u: Operand)
    requires HasCall(z) && v in Uses(SubstInst(Redirected(z), x))
    ensures u in Uses(x) && v == Apply(Redirected(z), u)
  {
    hide ApplyAll, Dst, HasCall, Redirected;
    match x
    case Binary(_, _, a, b) => u := if v == Apply(Redirected(z), a) then a else b;
    case Unary(_, _, a) => u := a;
    case Store(_, a) => u := a;
    case Call(_, _, args) =>
      var j :| 0 <= j < |args| && ApplyAll(Redirected(z), args)[j] == v;
      u := args[j];
  }

  lemma CloneUses(z: Plan, x: Inst, v: Operand) returns (u: Operand)
    requires HasCall(z) && v in Uses(CloneInst(z, x)) && !x.Call?
    ensures u in Uses(x) && v == CloneOperand(z, u)
  {
    hide CloneOperand;
    match x
    case Binary(_, _, a, b) => u := if v == CloneOperand(z, a) then a else b;
    case Unary(_, _, a) => u := a;
    case Store(_, a) => u := a;
  }

  lemma OriginParams(z: Plan, n: nat, i: Inst, v: Operand)
    requires hide *; HasCall(z) && ParamsBelow(z.caller, n) && SafeToInline(z.callee, |TheCall(z).args|)
    requires HasOrigin(z, i) && v in Uses(i)
    ensures ParamBelow(v, n)
  {
    hide SafeToInline, Redirected, CloneOperand;
    if FromCaller(z, i) {
      var x :| InCode(z.caller, x) && i == SubstInst(Redirected(z), x);
      var u := SubstUses(z, x, v);
      var b: nat, k: nat :| InCodeAt(z.caller, x, b, k);
      assert u in Uses(z.caller.blocks[b].insts[k]);
      ApplyParam(z, u, n);
    } else if FromCallee(z, i) {
      var x :| InCode(z.callee, x) && !x.Alloca? && i == CloneInst(z, x);
      CalleeParams(z, n, x, v);
    } else if i.Store? {
      var r :| Returned(z, r) && i == Store(Slot(z.resultSlot), CloneOperand(z, r));
      var b: nat :| b < |z.callee.blocks| && r in TermUses(z.callee.blocks[b].term);
      LocalResult(z, b, r);
      CloneParam(z, r, n);
    }
  }

  lemma CalleeParams(z: Plan, n: nat, x: Inst, v: Operand)
    requires hide *; HasCall(z) && ParamsBelow(z.caller, n) && SafeToInline(z.callee, |TheCall(z).args|)
    requires InCode(z.callee, x) && v in Uses(CloneInst(z, x))
    ensures ParamBelow(v, n)
  {
    hide SafeToInline, CloneOperand, ParamsBelow;
    NoCalls(z, x);
    var u := CloneUses(z, x, v);
    LocalParams(z, x, u);
    CloneParam(z, u, n);
  }

  lemma NoCalls(z: Plan, i: Inst)
    requires hide *; HasCall(z) && SafeToInline(z.callee, |TheCall(z).args|) && InCode(z.callee, i)
    ensures !i.Call?
  {
    var b: nat, k: nat :| InCodeAt(z.callee, i, b, k);
    hide AllLocal;
  }

  lemma TermParams(z: Plan, n: nat, b: nat, v: Operand)
    requires hide *; HasCall(z) && ParamsBelow(z.caller, n) && SafeToInline(z.callee, |TheCall(z).args|)
    requires b < |Inlined(z).blocks| && v in TermUses(Inlined(z).blocks[b].term)
    ensures ParamBelow(v, n)
  {
    hide *;
    var c, u := TermUseFrom(z, b, v);
    if b < |z.caller.blocks| || b == Continuation(z) {
      TermParam(z.caller, n, c, u);
      ApplyParam(z, u, n);
    } else {
      LocalResult(z, c, u);
      CloneParam(z, u, n);
    }
  }

  /** What a terminator uses afterwards comes from a use of the caller or of the callee. */
  lemma TermUseFrom(z: Plan, b: nat, v: Operand) returns (c: nat, u: Operand)
    requires hide *; HasCall(z) && b < |Inlined(z).blocks| && v in TermUses(Inlined(z).blocks[b].term)
    ensures if b < |z.caller.blocks| || b == Continuation(z)
            then c < |z.caller.blocks| && u in TermUses(z.caller.blocks[c].term) && v == Apply(Redirected(z), u)
            else c < |z.callee.blocks| && u in TermUses(z.callee.blocks[c].term) && v == CloneOperand(z, u)
  {
    hide CloneInsts, CloneOperand, SubstInsts, Redirected, Declarations;
    if b < |z.caller.blocks| || b == Continuation(z) {
      ContinuationIs(z);
      c := if b == Continuation(z) then z.b else b;
      u :| u in TermUses(z.caller.blocks[c].term) && v == Apply(Redirected(z), u);
    } else {
      c := b - BodyStart(z);
      InlinedBlock(z, c);
      u :| u in TermUses(z.callee.blocks[c].term) && v == CloneOperand(z, u);
    }
  }

  lemma TermParam(f: Function, n: nat, b: nat, v: Operand)
    requires hide *; ParamsBelow(f, n) && b < |f.blocks| && v in TermUses(f.blocks[b].term)
    ensures ParamBelow(v, n)
  {
    hide TermUses;
  }

  lemma ParamsStayBelow(z: Plan, n: nat)
    requires hide *; HasCall(z) && ParamsBelow(z.caller, n) && SafeToInline(z.callee, |TheCall(z).args|)
    ensures ParamsBelow(Inlined(z), n)
  {
    hide SafeToInline, Inlined, HasOrigin, ParamBelow;
    var g := Inlined(z);
    forall b: nat, k: nat, v | b < |g.blocks| && k < |g.blocks[b].insts| && v in Uses(g.blocks[b].insts[k])
      ensures ParamBelow(v, n)
    {
      hide ParamsBelow;
      Origin(z, b, g.blocks[b].insts[k]);
      OriginParams(z, n, g.blocks[b].insts[k], v);
    }
    forall b: nat, v | b < |g.blocks| && v in TermUses(g.blocks[b].term) ensures ParamBelow(v, n) {
      hide ParamsBelow;
      TermParams(z, n, b, v);
    }
  }

  // ----- what can be copied -----

  lemma OriginCanBeCloned(z: Plan, i: Inst)
    requires hide *; HasCall(z) && CanBeCloned(z.caller) && CanBeCloned(z.callee) && HasOrigin(z, i)
    requires SafeToInline(z.callee, |TheCall(z).args|)
    ensures ClonedOrDeclared(i)
  {
    hide SafeToInline, CloneOperand, Redirected;
    if FromCaller(z, i) {
      var x :| InCode(z.caller, x) && i == SubstInst(Redirected(z), x);
      var b: nat, k: nat :| InCodeAt(z.caller, x, b, k);
      assert ClonedOrDeclared(z.caller.blocks[b].insts[k]);
    } else if FromCallee(z, i) {
      var x :| InCode(z.callee, x) && !x.Alloca? && i == CloneInst(z, x);
      var b: nat, k: nat :| InCodeAt(z.callee, x, b, k);
      assert ClonedOrDeclared(z.callee.blocks[b].insts[k]);
      NoCalls(z, x);
    }
  }

  lemma CanStillBeCloned(z: Plan)
    requires hide *;
             HasCall(z) && CanBeCloned(z.caller) && CanBeCloned(z.callee) && SafeToInline(z.callee, |TheCall(z).args|)
    ensures CanBeCloned(Inlined(z))
  {
    hide SafeToInline, Inlined, HasOrigin, ClonedOrDeclared;
    var g := Inlined(z);
    forall b, k | 0 <= b < |g.blocks| && 0 <= k < |g.blocks[b].insts| ensures ClonedOrDeclared(g.blocks[b].insts[k]) {
      hide CanBeCloned;
      Origin(z, b, g.blocks[b].insts[k]);
      OriginCanBeCloned(z, g.blocks[b].insts[k]);
    }
  }

  // ----- declarations -----

  lemma DeclaredStays(z: Plan, a: nat)
    requires hide *; HasCall(z) && DeclaredIn(z.caller, a)
    ensures DeclaredIn(Inlined(z), a)
  {
    hide Redirected, Inlined, CallerBlock, ContinuationBlock, Declares;
    var b: nat, k: nat :| DeclaresAt(z.caller, b, k, a);
    if b == z.b && k >= z.k {
      ContinuationIs(z);
      DeclaredBehind(z, k, a);
      assert DeclaresAt(Inlined(z), Continuation(z), k - z.k, a);
    } else {
      CallerBlockIs(z, b);
      DeclaredBefore(z, b, k, a);
      assert DeclaresAt(Inlined(z), b, (if b == 0 then |z.declared| else 0) + k, a);
    }
  }

  lemma DeclaredBehind(z: Plan, k: nat, a: nat)
    requires hide *; HasCall(z) && k >= z.k && DeclaresAt(z.caller, z.b, k, a)
    ensures var insts := ContinuationBlock(z).insts; 0 < k - z.k < |insts| && Declares(insts[k - z.k], a)
  {
    hide ApplyAll, Dst, Redirected, SubstTerm;
    var rest := z.caller.blocks[z.b].insts[z.k + 1..];
    assert rest[k - z.k - 1] == Alloca(a);
    assert ContinuationBlock(z).insts[k - z.k] == SubstInsts(Redirected(z), rest)[k - z.k - 1];
  }

  lemma DeclaredBefore(z: Plan, b: nat, k: nat, a: nat)
    requires hide CallerBlock, HasCall; HasCall(z) && (b == z.b ==> k < z.k) && DeclaresAt(z.caller, b, k, a)
    ensures var insts, n := CallerBlock(z, b).insts, (if b == 0 then |z.declared| else 0) + k;
      n < |insts| && Declares(insts[n], a)
  {
    hide ApplyAll, Dst, Redirected, SubstTerm;
    var insts, m := z.caller.blocks[b].insts, Redirected(z);
    var front := if b == 0 then Declarations(z.declared) else [];
    var part := if b == z.b then insts[..z.k] else insts;
    assert part[k] == Alloca(a);
    assert CallerBlock(z, b).insts[|front| + k] == SubstInsts(m, part)[k];
  }

  lemma NewIsDeclared(z: Plan, a: nat)
    requires hide *; HasCall(z) && a in z.declared
    ensures DeclaredIn(Inlined(z), a)
  {
    hide Redirected;
    CallerBlockIs(z, 0);
    var k :| 0 <= k < |z.declared| && z.declared[k] == a;
    assert CallerBlock(z, 0).insts[k] == Declarations(z.declared)[k] == Alloca(a);
    assert DeclaresAt(Inlined(z), 0, k, a);
  }

  lemma OriginDeclares(z: Plan, i: Inst, a: nat)
    requires hide *; HasCall(z) && Mapped(z) && AllDeclared(z) && DeclaresItsSlots(z.caller)
    requires HasOrigin(z, i) && UsesSlot(i, a)
    ensures DeclaredIn(Inlined(z), a)
  {
    hide Inlined, CloneOperand, Redirected, DeclaredIn, FreshFor;
    if FromCaller(z, i) {
      var x :| InCode(z.caller, x) && i == SubstInst(Redirected(z), x);
      var b: nat, k: nat :| InCodeAt(z.caller, x, b, k);
      assert UsesSlot(z.caller.blocks[b].insts[k], a);
      DeclaredStays(z, a);
    } else if FromCallee(z, i) {
      var x :| InCode(z.callee, x) && !x.Alloca? && i == CloneInst(z, x);
      var b: nat, k: nat :| InCodeAt(z.callee, x, b, k);
      RegMapped(z, b, k);
      NewIsDeclared(z, a);
    } else {
      NewIsDeclared(z, a);
    }
  }

  lemma StillDeclares(z: Plan)
    requires hide DeclaresItsSlots, Inlined, L.Below, Mapped, SafeToInline;
             Inlinable(z) && AllDeclared(z) && DeclaresItsSlots(z.caller)
    ensures DeclaresItsSlots(Inlined(z))
  {
    hide HasOrigin, Inlinable, Inlined, L.Below, Mapped;
    InlinableMaps(z);
    hide Inlined, DeclaredIn, HasOrigin, Inlinable, Mapped, AllDeclared, UsesSlot;
    var g := Inlined(z);
    forall b: nat, k: nat, a: nat | b < |g.blocks| && k < |g.blocks[b].insts| && UsesSlot(g.blocks[b].insts[k], a)
      ensures DeclaredIn(g, a)
    {
      hide DeclaresItsSlots;
      Origin(z, b, g.blocks[b].insts[k]);
      OriginDeclares(z, g.blocks[b].insts[k], a);
    }
  }

  lemma InlinableMaps(z: Plan)
    requires Inlinable(z)
    ensures HasCall(z) && Mapped(z) && L.Below(z.caller, z.base) && z.base <= z.result
  {
    hide Dst, L.BlockBelow, SafeToInline;
  }

  // ----- one definition for every register -----

  lemma {:induction false} CountPlace(insts: seq<Inst>, q: Query) returns (j: nat)
    requires Count(insts, q) > 0
    ensures j < |insts| && Hit(q, insts[j]) > 0
  {
    hide Hit;
    var n := |insts| - 1;
    if Hit(q, insts[n]) > 0 {
      j := n;
    } else {
      j := CountPlace(insts[..n], q);
    }
  }

  lemma {:induction false} CountAllPlace(f: Function, n: nat, q: Query) returns (i: nat, j: nat)
    requires n <= |f.blocks| && CountAll(f, n, q) > 0
    ensures i < n && j < |f.blocks[i].insts| && Hit(q, f.blocks[i].insts[j]) > 0
    decreases n
  {
    hide Hit, Count;
    if Count(f.blocks[n - 1].insts, q) > 0 {
      i := n - 1;
      j := CountPlace(f.blocks[i].insts, q);
    } else {
      i, j := CountAllPlace(f, n - 1, q);
    }
  }

  lemma {:induction false} CountAtMostOne(insts: seq<Inst>, r: nat)
    requires forall j: nat, j': nat :: j < |insts| && j' < |insts| && Dst(insts[j]) == Dst(insts[j']) == Some(r)
               ==> j == j'
    ensures Count(insts, SetsReg(r)) <= 1
  {
    if insts != [] {
      var n := |insts| - 1;
      CountAtMostOne(insts[..n], r);
      if Count(insts[..n], SetsReg(r)) > 0 {
        var j := CountPlace(insts[..n], SetsReg(r));
      }
    }
  }

  lemma {:induction false} DefinedAtMostOnce(f: Function, n: nat, r: nat)
    requires UniqueDefs(f) && n <= |f.blocks|
    ensures CountAll(f, n, SetsReg(r)) <= 1
    decreases n
  {
    hide Count;
    if n > 0 {
      DefinedAtMostOnce(f, n - 1, r);
      var insts := f.blocks[n - 1].insts;
      forall j: nat, j': nat | j < |insts| && j' < |insts| && Dst(insts[j]) == Dst(insts[j']) == Some(r)
        ensures j == j'
      {
        assert Defines(f, n - 1, j, r) && Defines(f, n - 1, j', r);
      }
      CountAtMostOne(insts, r);
      if CountAll(f, n - 1, SetsReg(r)) > 0 && Count(insts, SetsReg(r)) > 0 {
        var i, j := CountAllPlace(f, n - 1, SetsReg(r));
        var k := CountPlace(insts, SetsReg(r));
        SamePlace(f, i, j, n - 1, k, r);
      }
    }
  }

  lemma SamePlace(f: Function, i: nat, j: nat, i': nat, j': nat, r: nat)
    requires UniqueDefs(f) && Defines(f, i, j, r) && Defines(f, i', j', r)
    ensures i == i' && j == j'
  {
  }

  lemma CountedOnceIsUnique(f: Function)
    requires forall r: nat :: CountAll(f, |f.blocks|, SetsReg(r)) <= 1
    ensures UniqueDefs(f)
  {
    hide CountAll;
    forall b: nat, k: nat, b': nat, k': nat, r: nat | Defines(f, b, k, r) && Defines(f, b', k', r)
      ensures b == b' && k == k'
    {
      if (b, k) != (b', k') {
        TwoPlaces(f, SetsReg(r), b, k, b', k');
      }
    }
  }

  /** The register of the callee that has number `r` in the caller, if there is one. */
  ghost predicate IsOld(z: Plan, r: nat, x: Option<nat>) {
    && (x.Some? ==> x.value in z.regs && z.regs[x.value] == r)
    && forall y :: y in z.regs && z.regs[y] == r ==> x == Some(y)
  }

  function OldCount(insts: seq<Inst>, x: Option<nat>): nat {
    if x.Some? then Count(insts, SetsReg(x.value)) else 0
  }

  lemma CountLast(insts: seq<Inst>, q: Query)
    requires insts != []
    ensures Count(insts, q) == Count(insts[..|insts| - 1], q) + Hit(q, insts[|insts| - 1])
  {
  }

  lemma LastDefines(z: Plan, i: Inst, r: nat, x: Option<nat>)
    requires HasCall(z) && IsOld(z, r, x) && !i.Call? && !i.Alloca? && (Dst(i).Some? ==> Dst(i).value in z.regs)
    ensures Hit(SetsReg(r), CloneInst(z, i)) == if x.Some? then Hit(SetsReg(x.value), i) else 0
  {
    hide CloneOperand;
  }

  lemma {:induction false} CopyDefines(z: Plan, insts: seq<Inst>, r: nat, x: Option<nat>)
    requires hide *; HasCall(z) && IsOld(z, r, x)
    requires forall i :: i in insts ==> !i.Call? && (Dst(i).Some? ==> Dst(i).value in z.regs)
    ensures Count(CloneInsts(z, insts), SetsReg(r)) == OldCount(insts, x)
  {
    if insts != [] {
      hide IsOld, CloneInst, Count;
      var n := |insts| - 1;
      var front, last := insts[..n], insts[n];
      CopyDefines(z, front, r, x);
      if x.Some? {
        CountLast(insts, SetsReg(x.value));
      }
      if last.Alloca? {
        assert CloneInsts(z, insts) == CloneInsts(z, front);
      } else {
        LastDefines(z, last, r, x);
        CountAppend(CloneInsts(z, front), [CloneInst(z, last)], SetsReg(r));
        SingleCount(CloneInst(z, last), SetsReg(r));
      }
    }
  }

  lemma CalleeMapped(z: Plan, b: nat)
    requires hide *; HasCall(z) && Mapped(z) && SafeToInline(z.callee, |TheCall(z).args|) && b < |z.callee.blocks|
    ensures forall i :: i in z.callee.blocks[b].insts ==> !i.Call? && (Dst(i).Some? ==> Dst(i).value in z.regs)
  {
    var insts := z.callee.blocks[b].insts;
    forall i | i in insts ensures !i.Call? && (Dst(i).Some? ==> Dst(i).value in z.regs) {
      hide Mapped, SafeToInline;
      var k :| 0 <= k < |insts| && insts[k] == i;
      RegMapped(z, b, k);
      assert InCodeAt(z.callee, i, b, k);
      NoCalls(z, i);
    }
  }

  function ReturnCode(z: Plan, b: nat): seq<Inst>
    requires HasCall(z) && b < |z.callee.blocks|
  {
    match z.callee.blocks[b].term
    case Ret(Some(v)) => [Store(Slot(z.resultSlot), CloneOperand(z, v))]
    case _ => []
  }

  lemma CloneBlockCode(z: Plan, b: nat)
    requires hide *; HasCall(z) && b < |z.callee.blocks|
    ensures CloneBlock(z, b).insts == CloneInsts(z, z.callee.blocks[b].insts) + ReturnCode(z, b)
  {
    hide CloneOperand, CloneInsts;
  }

  lemma BlockDefines(z: Plan, b: nat, r: nat, x: Option<nat>)
    requires hide *; HasCall(z) && Mapped(z) && SafeToInline(z.callee, |TheCall(z).args|) && b < |z.callee.blocks|
    requires IsOld(z, r, x)
    ensures Count(CloneBlock(z, b).insts, SetsReg(r)) == OldCount(z.callee.blocks[b].insts, x)
  {
    hide AllLocal, CloneBlock, CloneInsts, CloneOperand, Mapped, Uses;
    CalleeMapped(z, b);
    CloneBlockCode(z, b);
    hide Mapped, SafeToInline, CloneOperand, CloneInsts, CloneBlock, Count, IsOld;
    var insts := z.callee.blocks[b].insts;
    CopyDefines(z, insts, r, x);
    CountNone(ReturnCode(z, b), SetsReg(r));
    CountAppend(CloneInsts(z, insts), ReturnCode(z, b), SetsReg(r));
  }

  function OldCountAll(f: Function, n: nat, x: Option<nat>): nat
    requires n <= |f.blocks|
  {
    if x.Some? then CountAll(f, n, SetsReg(x.value)) else 0
  }

  lemma {:induction false} CopiesDefine(z: Plan, n: nat, r: nat, x: Option<nat>)
    requires HasCall(z) && Mapped(z) && SafeToInline(z.callee, |TheCall(z).args|) && n <= |z.callee.blocks|
    requires IsOld(z, r, x)
    ensures CountAll(Inlined(z), BodyStart(z) + n, SetsReg(r))
            == CountAll(Inlined(z), BodyStart(z), SetsReg(r)) + OldCountAll(z.callee, n, x)
    decreases n
  {
    hide CallerBlock, CloneBlock, ContinuationBlock, Mapped, SafeToInline, Count, IsOld;
    if n > 0 {
      CopiesDefine(z, n - 1, r, x);
      InlinedBlock(z, n - 1);
      BlockDefines(z, n - 1, r, x);
      hide Inlined;
    }
  }

  /** The caller sets no register from `base` on. */
  lemma {:induction false} NothingAbove(f: Function, base: nat, n: nat, r: nat)
    requires hide *; L.Below(f, base) && base <= r && n <= |f.blocks|
    ensures CountAll(f, n, SetsReg(r)) == 0
    decreases n
  {
    if n > 0 {
      NothingAbove(f, base, n - 1, r);
      var insts := f.blocks[n - 1].insts;
      forall i | i in insts ensures Hit(SetsReg(r), i) == 0 {
        var k :| 0 <= k < |insts| && insts[k] == i;
        assert L.BlockBelow(f.blocks[n - 1], base);
      }
      CountNone(insts, SetsReg(r));
    }
  }

  lemma RestDefinesNothing(z: Plan, r: nat)
    requires hide Count, L.Below; HasCall(z) && L.Below(z.caller, z.base) && z.base <= r
    ensures Count(z.caller.blocks[z.b].insts[z.k + 1..], SetsReg(r)) == 0
  {
    hide Count, L.PhiBelow, L.PointerBelow, L.TermBelow;
    var insts := z.caller.blocks[z.b].insts;
    forall i | i in insts[z.k + 1..] ensures Hit(SetsReg(r), i) == 0 {
      var k :| z.k + 1 <= k < |insts| && insts[k] == i;
      assert L.BlockBelow(z.caller.blocks[z.b], z.base);
    }
    CountNone(insts[z.k + 1..], SetsReg(r));
  }

  lemma ContinuationDefines(z: Plan, r: nat)
    requires hide *; HasCall(z) && L.Below(z.caller, z.base) && z.base <= r
    ensures Count(ContinuationBlock(z).insts, SetsReg(r)) == if r == z.result then 1 else 0
  {
    hide L.Below, Redirected, Count;
    var load, rest := Load(z.result, Slot(z.resultSlot)), z.caller.blocks[z.b].insts[z.k + 1..];
    CountAppend([load], SubstInsts(Redirected(z), rest), SetsReg(r));
    SingleCount(load, SetsReg(r));
    CountSubst(Redirected(z), rest, SetsReg(r));
    RestDefinesNothing(z, r);
  }

  lemma OldOf(z: Plan, r: nat) returns (x: Option<nat>)
    requires Mapped(z)
    ensures IsOld(z, r, x) && (r == z.result ==> x.None?)
  {
    if y :| y in z.regs && z.regs[y] == r {
      x := Some(y);
    } else {
      x := None;
    }
  }

  lemma NewDefinedOnce(z: Plan, r: nat)
    requires hide AllLocal, CountAll, Inlined, L.Below, Mapped;
             HasCall(z) && Mapped(z) && L.Below(z.caller, z.base) && SafeToInline(z.callee, |TheCall(z).args|)
    requires UniqueDefs(z.callee) && z.base <= r
    ensures CountAll(Inlined(z), |Inlined(z).blocks|, SetsReg(r)) <= 1
  {
    var x := OldOf(z, r);
    hide Mapped, L.Below, SafeToInline, UniqueDefs, CountAll, Count, IsOld, ContinuationBlock, CallerBlock,
         CloneBlock;
    CallerCounts(z, |z.caller.blocks|, SetsReg(r));
    NothingAbove(z.caller, z.base, |z.caller.blocks|, r);
    CopiesDefine(z, |z.callee.blocks|, r, x);
    if x.Some? {
      DefinedAtMostOnce(z.callee, |z.callee.blocks|, x.value);
    }
    ContinuationIs(z);
    ContinuationDefines(z, r);
    InlinedSize(z, SetsReg(r));
  }

  lemma StillUnique(z: Plan)
    requires hide Inlined, L.Below, Mapped, SafeToInline; Inlinable(z) && UniqueDefs(z.caller) && UniqueDefs(z.callee)
    ensures UniqueDefs(Inlined(z))
  {
    InlinableMaps(z);
    InlinableCallee(z);
    hide *;
    forall r: nat ensures CountAll(Inlined(z), |Inlined(z).blocks|, SetsReg(r)) <= 1 {
      if r < z.base {
        OutsideBase(z, r);
        InlinedCounts(z, SetsReg(r));
        DefinedAtMostOnce(z.caller, |z.caller.blocks|, r);
      } else {
        NewDefinedOnce(z, r);
      }
    }
    CountedOnceIsUnique(Inlined(z));
  }

  lemma OutsideBase(z: Plan, r: nat)
    requires r < z.base
    ensures OutsideCopy(z, SetsReg(r))
  {
  }

  // ----- all of it -----

  /** The result of inlining is fit to be inlined again. */
  lemma InlinedIsPlain(z: Plan, params: nat)
    requires hide Inlined, L.Below, Mapped, Plain, SafeToInline;
             Inlinable(z) && AllDeclared(z) && Plain(z.caller, params)
    requires UniqueDefs(z.callee) && CanBeCloned(z.callee) && TargetsWithin(Inlined(z))
    ensures Plain(Inlined(z), params)
  {
    hide DeclaresItsSlots, Inlinable, Inlined, L.Below, Mapped, ParamsBelow, SafeToInline, UniqueDefs;
    InlinableMaps(z);
    InlinableCallee(z);
    hide Inlinable, Mapped, L.Below, SafeToInline, UniqueDefs, CanBeCloned, ParamsBelow, DeclaresItsSlots, Inlined,
         AllDeclared, TargetsWithin;
    ParamsStayBelow(z, params);
    StillUnique(z);
    StillDeclares(z);
    CanStillBeCloned(z);
  }
}
