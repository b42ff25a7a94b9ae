/** Sequentialising parallel copies with one scratch register: every destination receives what its source
    held before the first copy. */
module ParallelCopies {
  import opened Int32
  import opened Machine

  /** Where a value is: in an allocated register, or somewhere it has to be loaded from. */
  datatype Source = InRegister(reg: Register) | Outside(value: nat)

  /** A copy that waits, perhaps with the scratch register in place of its own source. */
  datatype Copy = Copy(dst: Register, src: Source, forced: bool)

  datatype Move = Mv(dst: Register, src: Register) | LoadInto(dst: Register, value: nat)

  type Registers = Register -> i32

  /** The values outside the registers, which no move changes. */
  type Memory = nat -> i32

  function Set(regs: Registers, r: Register, v: i32): Registers {
    x => if x == r then v else regs(x)
  }

  function Execute(code: seq<Move>, regs: Registers, mem: Memory): Registers {
    if code == [] then regs
    else
      var before := Execute(code[..|code| - 1], regs, mem);
      match code[|code| - 1]
      case Mv(d, s) => Set(before, d, before(s))
      case LoadInto(d, v) => Set(before, d, mem(v))
  }

  lemma {:induction false} ExecuteMore(code: seq<Move>, more: seq<Move>, regs: Registers, mem: Memory)
    ensures Execute(code + more, regs, mem) == Execute(more, Execute(code, regs, mem), mem)
  {
    if more == [] {
      assert code + more == code;
    } else {
      assert (code + more)[..|code + more| - 1] == code + more[..|more| - 1];
      ExecuteMore(code, more[..|more| - 1], regs, mem);
    }
  }

  /** The register a waiting copy still needs. */
  function Needs(c: Copy): Source {
    if c.forced then InRegister(T2) else c.src
  }

  function ValueOf(s: Source, regs: Registers, mem: Memory): i32 {
    match s
    case InRegister(r) => regs(r)
    case Outside(v) => mem(v)
  }

  predicate IsScratch(r: Register) {
    r == T0 || r == T2
  }

  predicate FromScratch(s: Source) {
    s.InRegister? && IsScratch(s.reg)
  }

  /** What the callers guarantee: different destinations, and no scratch register on either side. */
  predicate Proper(copies: seq<Copy>) {
    && (forall i, j :: 0 <= i < j < |copies| ==> copies[i].dst != copies[j].dst)
    && (forall i :: 0 <= i < |copies| ==> !IsScratch(copies[i].dst) && !copies[i].forced && !FromScratch(copies[i].src))
  }

  /** The same while copies wait, some of them for the scratch register T2. */
  predicate Waiting(copies: seq<Copy>) {
    && (forall i, j :: 0 <= i < j < |copies| ==> copies[i].dst != copies[j].dst)
    && (forall i :: 0 <= i < |copies| ==> !IsScratch(copies[i].dst) && !FromScratch(copies[i].src))
  }

  predicate Feeds(copies: seq<Copy>, j: nat, r: Register)
    requires j < |copies|
  {
    Needs(copies[j]) == InRegister(r)
  }

  /** No other copy needs the destination of copy `i`. */
  predicate IsReady(copies: seq<Copy>, i: nat)
    requires i < |copies|
  {
    forall j: nat :: j < |copies| && j != i ==> !Feeds(copies, j, copies[i].dst)
  }

  // ----- when nothing is ready -----

  function RegistersOf(s: seq<Register>): set<Register> {
    set r | r in s
  }

  lemma {:induction false} FewerThanElements(s: seq<Register>)
    ensures |RegistersOf(s)| <= |s|
  {
    if s != [] {
      FewerThanElements(s[1..]);
      assert s == [s[0]] + s[1..];
      assert RegistersOf(s) == {s[0]} + RegistersOf(s[1..]);
    }
  }

  lemma {:induction false} AsManyAsElements(s: seq<Register>)
    requires forall i, j :: 0 <= i < j < |s| ==> s[i] != s[j]
    ensures |RegistersOf(s)| == |s|
  {
    if s != [] {
      AsManyAsElements(s[1..]);
      assert s == [s[0]] + s[1..];
      assert s[0] !in s[1..];
      assert RegistersOf(s) == {s[0]} + RegistersOf(s[1..]);
    }
  }

  function Destinations(copies: seq<Copy>): (r: seq<Register>)
    ensures |r| == |copies| && forall i :: 0 <= i < |r| ==> r[i] == copies[i].dst
  {
    seq(|copies|, i requires 0 <= i < |copies| => copies[i].dst)
  }

  /** The registers needed, with T0 for a value outside. */
  function Needed(copies: seq<Copy>): (r: seq<Register>)
    ensures |r| == |copies|
    ensures forall i :: 0 <= i < |r| ==> r[i] == if Needs(copies[i]).InRegister? then Needs(copies[i]).reg else T0
  {
    seq(|copies|, i requires 0 <= i < |copies| => if Needs(copies[i]).InRegister? then Needs(copies[i]).reg else T0)
  }

  /** If no copy is ready then the destinations are a permutation of the sources: every waiting copy needs an
      allocated register, so none waits for the scratch register or for a value outside. */
  lemma NothingReadyIsPermutation(copies: seq<Copy>, k: nat)
    requires Waiting(copies) && (forall i: nat :: i < |copies| ==> !IsReady(copies, i)) && k < |copies|
    ensures Needs(copies[k]).InRegister? && !copies[k].forced && Needs(copies[k]).reg in Destinations(copies)
  {
    var dsts, needed := Destinations(copies), Needed(copies);
    if needed[k] !in dsts {
      var others := needed[..k] + needed[k + 1..];
      AsManyAsElements(dsts);
      FewerThanElements(others);
      forall r | r in RegistersOf(dsts)
        ensures r in RegistersOf(others)
      {
        var i: nat :| i < |dsts| && dsts[i] == r;
        assert !IsReady(copies, i);
        var j: nat :| j < |copies| && j != i && Feeds(copies, j, copies[i].dst);
        assert needed[j] == r;
        assert j != k;
        assert others[if j < k then j else j - 1] == r;
      }
      SubsetIsSmaller(RegistersOf(dsts), RegistersOf(others));
      assert false;
    }
    assert Needs(copies[k]).InRegister?;
  }

  lemma {:induction false} SubsetIsSmaller(a: set<Register>, b: set<Register>)
    requires a <= b
    ensures |a| <= |b|
  {
    if a != {} {
      var x :| x in a;
      SubsetIsSmaller(a - {x}, b - {x});
    }
  }

  // ----- progress -----

  /** A waiting copy is one of the original ones, though its value may be in T2 by now. */
  ghost predicate Asked(copies: seq<Copy>, c: Copy) {
    exists i: nat :: i < |copies| && copies[i].dst == c.dst && copies[i].src == c.src
  }

  /** The code so far: what was copied has arrived, and what waits can still be found. */
  ghost predicate Progress(copies: seq<Copy>, code: seq<Move>, waiting: seq<Copy>) {
    && Proper(copies) && Waiting(waiting)
    && (forall w: nat :: w < |waiting| ==> Asked(copies, waiting[w]))
    && forall regs: Registers, mem: Memory :: Preserved(copies, code, waiting, regs, mem)
  }

  ghost predicate Preserved(copies: seq<Copy>, code: seq<Move>, waiting: seq<Copy>, regs: Registers, mem: Memory) {
    var now := Execute(code, regs, mem);
    && (forall w: nat :: w < |waiting| ==> ValueOf(Needs(waiting[w]), now, mem) == ValueOf(waiting[w].src, regs, mem))
    && (forall i: nat :: i < |copies| && copies[i].dst !in Destinations(waiting) ==>
          now(copies[i].dst) == ValueOf(copies[i].src, regs, mem))
    && (forall r :: r !in Destinations(copies) && !IsScratch(r) ==> now(r) == regs(r))
  }

  /** What the parallel copies mean. */
  ghost predicate Implements(copies: seq<Copy>, code: seq<Move>) {
    forall regs: Registers, mem: Memory, r: Register :: CopiedAt(copies, code, regs, mem, r)
  }

  ghost predicate CopiedAt(copies: seq<Copy>, code: seq<Move>, regs: Registers, mem: Memory, r: Register) {
    && (forall i: nat :: i < |copies| && copies[i].dst == r ==>
          Execute(code, regs, mem)(r) == ValueOf(copies[i].src, regs, mem))
    && (r !in Destinations(copies) && !IsScratch(r) ==> Execute(code, regs, mem)(r) == regs(r))
  }

  /** Copies that would copy a register to itself. */
  predicate IsIdle(c: Copy) {
    c.src == InRegister(c.dst)
  }

  lemma DestinationsIn(waiting: seq<Copy>)
    ensures forall c :: c in waiting ==> c.dst in Destinations(waiting)
  {
    forall c | c in waiting
      ensures c.dst in Destinations(waiting)
    {
      var w: nat :| w < |waiting| && waiting[w] == c;
      assert Destinations(waiting)[w] == c.dst;
    }
  }

  lemma DestinationsWithout(waiting: seq<Copy>, k: nat)
    requires k < |waiting|
    ensures forall r :: r in Destinations(waiting) ==>
              r == waiting[k].dst || r in Destinations(waiting[..k] + waiting[k + 1..])
  {
    var rest := waiting[..k] + waiting[k + 1..];
    forall r | r in Destinations(waiting) && r != waiting[k].dst
      ensures r in Destinations(rest)
    {
      var w: nat :| w < |waiting| && waiting[w].dst == r;
      assert Destinations(rest)[if w < k then w else w - 1] == r;
    }
  }

  lemma StartsProgress(copies: seq<Copy>, waiting: seq<Copy>)
    requires hide *; Proper(copies) && Waiting(waiting)
    requires forall w: nat :: w < |waiting| ==> waiting[w] in copies && !waiting[w].forced
    requires forall c :: c in copies ==> c in waiting || IsIdle(c)
    ensures Progress(copies, [], waiting)
  {
    forall w: nat | w < |waiting|
      ensures Asked(copies, waiting[w])
    {
      var i: nat :| i < |copies| && copies[i] == waiting[w];
    }
    forall regs: Registers, mem: Memory
      ensures Preserved(copies, [], waiting, regs, mem)
    {
      forall i: nat | i < |copies| && copies[i].dst !in Destinations(waiting)
        ensures regs(copies[i].dst) == ValueOf(copies[i].src, regs, mem)
      {
        DestinationsIn(waiting);
        assert copies[i] in copies;
      }
      assert Execute([], regs, mem) == regs;
    }
    assert forall regs: Registers, mem: Memory :: Preserved(copies, [], waiting, regs, mem);
  }

  lemma EndsProgress(copies: seq<Copy>, code: seq<Move>)
    requires Progress(copies, code, [])
    ensures Implements(copies, code)
  {
    hide Asked, Destinations, Execute, Proper, ValueOf, Waiting;
    forall regs: Registers, mem: Memory, r: Register
      ensures CopiedAt(copies, code, regs, mem, r)
    {
      assert Preserved(copies, code, [], regs, mem);
    }
  }

  /** The moves of one ready copy: from a register, or through T0, or straight into the destination. */
  function Emitted(c: Copy, direct: bool): seq<Move> {
    match Needs(c)
    case InRegister(r) => if r == c.dst then [] else [Mv(c.dst, r)]
    case Outside(v) => if direct then [LoadInto(c.dst, v)] else [LoadInto(T0, v), Mv(c.dst, T0)]
  }

  lemma EmittedEffect(c: Copy, direct: bool, now: Registers, mem: Memory)
    requires !IsScratch(c.dst)
    ensures var next := Execute(Emitted(c, direct), now, mem);
            next(c.dst) == ValueOf(Needs(c), now, mem) && forall r :: r != c.dst && r != T0 ==> next(r) == now(r)
  {
    var code := Emitted(c, direct);
    if |code| == 2 {
      assert code[..1] == [LoadInto(T0, Needs(c).value)];
      assert code[..1][..0] == [];
      assert Execute(code[..1], now, mem) == Set(now, T0, mem(Needs(c).value));
    } else if |code| == 1 {
      assert code[..0] == [];
    }
  }

  lemma ReadyProgress(copies: seq<Copy>, code: seq<Move>, waiting: seq<Copy>, k: nat, direct: bool)
    requires hide *; Progress(copies, code, waiting) && k < |waiting| && IsReady(waiting, k)
    ensures Progress(copies, code + Emitted(waiting[k], direct), waiting[..k] + waiting[k + 1..])
  {
    hide Emitted, IsReady, Preserved;
    var rest, c := waiting[..k] + waiting[k + 1..], waiting[k];
    forall regs: Registers, mem: Memory
      ensures Preserved(copies, code + Emitted(c, direct), rest, regs, mem)
    {
      assert Preserved(copies, code, waiting, regs, mem);
      ReadyPreserved(copies, code, waiting, k, direct, regs, mem);
    }
    forall w: nat | w < |rest|
      ensures Asked(copies, rest[w])
    {
      var w' := if w < k then w else w + 1;
      assert rest[w] == waiting[w'];
    }
  }

  lemma ReadyPreserved(copies: seq<Copy>, code: seq<Move>, waiting: seq<Copy>, k: nat, direct: bool, regs: Registers,
                       mem: Memory)
    requires hide *; Proper(copies) && Waiting(waiting) && k < |waiting| && IsReady(waiting, k)
    requires forall w: nat :: w < |waiting| ==> Asked(copies, waiting[w])
    requires Preserved(copies, code, waiting, regs, mem)
    ensures Preserved(copies, code + Emitted(waiting[k], direct), waiting[..k] + waiting[k + 1..], regs, mem)
  {
    hide Emitted, Execute, IsReady, ValueOf;
    var rest, c := waiting[..k] + waiting[k + 1..], waiting[k];
    ExecuteMore(code, Emitted(c, direct), regs, mem);
    EmittedEffect(c, direct, Execute(code, regs, mem), mem);
    hide Execute, Emitted;
    var now, next := Execute(code, regs, mem), Execute(code + Emitted(c, direct), regs, mem);
    var i0: nat :| i0 < |copies| && copies[i0].dst == c.dst && copies[i0].src == c.src;
    assert Destinations(copies)[i0] == c.dst;
    DestinationsWithout(waiting, k);
    RestKept(waiting, k, now, next, mem);
    forall w: nat | w < |rest|
      ensures ValueOf(Needs(rest[w]), next, mem) == ValueOf(rest[w].src, regs, mem)
    {
      assert rest[w] == waiting[if w < k then w else w + 1];
    }
    forall i: nat | i < |copies| && copies[i].dst !in Destinations(rest)
      ensures next(copies[i].dst) == ValueOf(copies[i].src, regs, mem)
    {
      assert i != i0 ==> copies[i].dst != c.dst;
    }
  }

  /** What the other copies need survives the moves of a ready one. */
  lemma RestKept(waiting: seq<Copy>, k: nat, now: Registers, next: Registers, mem: Memory)
    requires Waiting(waiting) && k < |waiting| && IsReady(waiting, k)
    requires forall r :: r != waiting[k].dst && r != T0 ==> next(r) == now(r)
    ensures var rest := waiting[..k] + waiting[k + 1..];
            forall w: nat :: w < |rest| ==> ValueOf(Needs(rest[w]), next, mem) == ValueOf(Needs(rest[w]), now, mem)
  {
    var rest := waiting[..k] + waiting[k + 1..];
    forall w: nat | w < |rest|
      ensures ValueOf(Needs(rest[w]), next, mem) == ValueOf(Needs(rest[w]), now, mem)
    {
      var w': nat := if w < k then w else w + 1;
      assert rest[w] == waiting[w'] && !Feeds(waiting, w', waiting[k].dst);
    }
  }

  /** All copies that need `r` take it from T2 instead. */
  function Forced(waiting: seq<Copy>, r: Register): (f: seq<Copy>)
    ensures |f| == |waiting|
    ensures forall i :: 0 <= i < |f| ==>
              f[i] == if Needs(waiting[i]) == InRegister(r) then waiting[i].(forced := true) else waiting[i]
  {
    seq(|waiting|, i requires 0 <= i < |waiting| => if Needs(waiting[i]) == InRegister(r)
                                                      then waiting[i].(forced := true) else waiting[i])
  }

  /** Saving a destination in T2 when nothing is ready: T2 was free, and afterwards the saved copy is ready. */
  lemma ForcedProgress(copies: seq<Copy>, code: seq<Move>, waiting: seq<Copy>)
    requires hide *;
             Progress(copies, code, waiting) && waiting != [] && forall i: nat :: i < |waiting| ==> !IsReady(waiting, i)
    ensures Progress(copies, code + [Mv(T2, waiting[0].dst)], Forced(waiting, waiting[0].dst))
    ensures forall i :: 0 <= i < |waiting| ==> !waiting[i].forced
    ensures exists i :: 0 <= i < |waiting| && Forced(waiting, waiting[0].dst)[i].forced
  {
    var r, f := waiting[0].dst, Forced(waiting, waiting[0].dst);
    forall k: nat | k < |waiting|
      ensures Needs(waiting[k]).InRegister? && !waiting[k].forced
    {
      NothingReadyIsPermutation(waiting, k);
    }
    assert !IsReady(waiting, 0);
    var j: nat :| j < |waiting| && j != 0 && Feeds(waiting, j, r);
    assert f[j].forced;
    assert Destinations(f) == Destinations(waiting);
    forall regs: Registers, mem: Memory
      ensures Preserved(copies, code + [Mv(T2, r)], f, regs, mem)
    {
      assert Preserved(copies, code, waiting, regs, mem);
      ExecuteMore(code, [Mv(T2, r)], regs, mem);
      var now := Execute(code, regs, mem);
      assert [Mv(T2, r)][..0] == [];
      assert Execute([Mv(T2, r)], now, mem) == Set(now, T2, now(r));
      forall i: nat | i < |copies|
        ensures !IsScratch(copies[i].dst)
      {
      }
      forall w: nat | w < |f|
        ensures ValueOf(Needs(f[w]), Set(now, T2, now(r)), mem) == ValueOf(f[w].src, regs, mem)
      {
        assert ValueOf(Needs(waiting[w]), now, mem) == ValueOf(waiting[w].src, regs, mem);
      }
    }
  }

  /** 1 while no copy waits for the scratch register. */
  ghost function Unforced(waiting: seq<Copy>): nat {
    if exists i :: 0 <= i < |waiting| && waiting[i].forced then 0 else 1
  }

  method FindReady(waiting: seq<Copy>) returns (k: nat)
    ensures k <= |waiting| && (k < |waiting| ==> IsReady(waiting, k))
    ensures k == |waiting| ==> forall i: nat :: i < |waiting| ==> !IsReady(waiting, i)
  {
    k := 0;
    while k < |waiting|
      invariant 0 <= k <= |waiting| && forall i: nat :: i < k ==> !IsReady(waiting, i)
    {
      var needed, j := false, 0;
      while j < |waiting| && !needed
        invariant 0 <= j <= |waiting|
        invariant needed ==> exists i: nat :: i < |waiting| && i != k && Feeds(waiting, i, waiting[k].dst)
        invariant !needed ==> forall i: nat :: i < j && i != k ==> !Feeds(waiting, i, waiting[k].dst)
        decreases |waiting| - j
      {
        if j != k && Needs(waiting[j]) == InRegister(waiting[k].dst) {
          assert Feeds(waiting, j, waiting[k].dst);
          needed := true;
        }
        j := j + 1;
      }
      if !needed {
        return;
      }
      k := k + 1;
    }
  }

  /** Emits moves that have the effect of all copies at once. `direct` loads a value straight into its destination,
      as for call arguments; otherwise it passes through T0, as for phis. */
  method Sequentialize(copies: seq<Copy>, direct: bool) returns (code: seq<Move>)
    requires Proper(copies)
    ensures Implements(copies, code)
  {
    hide Emitted, Forced, Implements, IsReady, Preserved, Proper, Waiting, Progress;
    code := [];
    var waiting := RemoveIdle(copies);
    StartsProgress(copies, waiting);
    while waiting != []
      invariant Progress(copies, code, waiting)
      decreases |waiting|, Unforced(waiting)
    {
      var k := FindReady(waiting);
      if k == |waiting| {
        var preserved := waiting[0].dst;
        ForcedProgress(copies, code, waiting);
        code := code + [Mv(T2, preserved)];
        waiting := Forced(waiting, preserved);
      } else {
        ReadyProgress(copies, code, waiting, k, direct);
        code := code + Emitted(waiting[k], direct);
        waiting := waiting[..k] + waiting[k + 1..];
      }
    }
    EndsProgress(copies, code);
  }

  method RemoveIdle(copies: seq<Copy>) returns (waiting: seq<Copy>)
    requires Proper(copies)
    ensures Waiting(waiting)
    ensures forall w: nat :: w < |waiting| ==> waiting[w] in copies && !waiting[w].forced
    ensures forall c :: c in copies ==> c in waiting || IsIdle(c)
  {
    waiting := [];
    var i := 0;
    while i < |copies|
      invariant 0 <= i <= |copies| && Waiting(waiting)
      invariant forall w: nat :: w < |waiting| ==> waiting[w] in copies[..i] && !waiting[w].forced
      invariant forall c :: c in copies[..i] ==> c in waiting || IsIdle(c)
    {
      assert copies[..i + 1] == copies[..i] + [copies[i]];
      if !IsIdle(copies[i]) {
        forall w: nat | w < |waiting|
          ensures waiting[w].dst != copies[i].dst
        {
          var j: nat :| j < i && copies[j] == waiting[w];
        }
        waiting := waiting + [copies[i]];
      }
      i := i + 1;
    }
    assert copies[..i] == copies;
  }
}
