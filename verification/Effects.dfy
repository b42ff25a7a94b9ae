/** Which globals a function and everything it calls may touch, and what that says about its runs. */
module Effects {
  import opened Ir

  /** The functions of a module, by name. */
  type Program = map<string, Function>

  /** `unknown` says that a function outside the module may be called. */
  datatype Effect = Effect(touched: set<string>, callees: seq<string>, unknown: bool)

  type Summaries = map<string, Effect>

  predicate Touches(i: Inst, x: string) {
    (i.Load? && i.ptr == Global(x)) || (i.Store? && i.ptr == Global(x))
  }

  /** Some instruction of the function loads or stores the global. */
  ghost predicate Accesses(f: Function, x: string) {
    exists b: nat, k: nat :: b < |f.blocks| && k < |f.blocks[b].insts| && Touches(f.blocks[b].insts[k], x)
  }

  ghost predicate Calls(f: Function, c: string) {
    exists b: nat, k: nat ::
      b < |f.blocks| && k < |f.blocks[b].insts| && f.blocks[b].insts[k].Call? && f.blocks[b].insts[k].callee == c
  }

  // ----- what a function does by itself -----

  /** What the first `k` instructions of block `b` and all blocks before it do. */
  ghost predicate Seen(f: Function, known: set<string>, b: nat, k: nat, e: Effect) {
    && (forall x :: x in e.touched <==> TouchedBefore(f, b, k, x))
    && (forall c :: c in e.callees <==> CalledBefore(f, b, k, c))
    && (e.unknown <==> exists c :: c in e.callees && c !in known)
  }

  predicate Earlier(b': nat, k': nat, b: nat, k: nat) {
    b' < b || (b' == b && k' < k)
  }

  ghost predicate TouchedBefore(f: Function, b: nat, k: nat, x: string) {
    exists b': nat, k': nat :: Earlier(b', k', b, k) && b' < |f.blocks| && k' < |f.blocks[b'].insts|
      && Touches(f.blocks[b'].insts[k'], x)
  }

  ghost predicate CalledBefore(f: Function, b: nat, k: nat, c: string) {
    exists b': nat, k': nat :: Earlier(b', k', b, k) && b' < |f.blocks| && k' < |f.blocks[b'].insts|
      && f.blocks[b'].insts[k'].Call? && f.blocks[b'].insts[k'].callee == c
  }

  /** The effect of the instructions of a function, calls not followed. */
  ghost predicate IsDirect(f: Function, known: set<string>, e: Effect) {
    && (forall x :: x in e.touched <==> Accesses(f, x))
    && (forall c :: c in e.callees <==> Calls(f, c))
    && (e.unknown <==> exists c :: c in e.callees && c !in known)
  }

  lemma TouchedNext(f: Function, b: nat, k: nat, x: string)
    requires b < |f.blocks| && k < |f.blocks[b].insts|
    ensures TouchedBefore(f, b, k + 1, x) <==> TouchedBefore(f, b, k, x) || Touches(f.blocks[b].insts[k], x)
  {
    if TouchedBefore(f, b, k + 1, x) {
      var b': nat, k': nat :| Earlier(b', k', b, k + 1) && b' < |f.blocks| && k' < |f.blocks[b'].insts|
        && Touches(f.blocks[b'].insts[k'], x);
      assert Earlier(b', k', b, k) || (b' == b && k' == k);
    }
    if TouchedBefore(f, b, k, x) {
      var b': nat, k': nat :| Earlier(b', k', b, k) && b' < |f.blocks| && k' < |f.blocks[b'].insts|
        && Touches(f.blocks[b'].insts[k'], x);
      assert Earlier(b', k', b, k + 1);
    }
    assert Earlier(b, k, b, k + 1);
  }

  lemma CalledNext(f: Function, b: nat, k: nat, c: string)
    requires b < |f.blocks| && k < |f.blocks[b].insts|
    ensures var i := f.blocks[b].insts[k];
      CalledBefore(f, b, k + 1, c) <==> CalledBefore(f, b, k, c) || (i.Call? && i.callee == c)
  {
    if CalledBefore(f, b, k + 1, c) {
      var b': nat, k': nat :| Earlier(b', k', b, k + 1) && b' < |f.blocks| && k' < |f.blocks[b'].insts|
        && f.blocks[b'].insts[k'].Call? && f.blocks[b'].insts[k'].callee == c;
      assert Earlier(b', k', b, k) || (b' == b && k' == k);
    }
    if CalledBefore(f, b, k, c) {
      var b': nat, k': nat :| Earlier(b', k', b, k) && b' < |f.blocks| && k' < |f.blocks[b'].insts|
        && f.blocks[b'].insts[k'].Call? && f.blocks[b'].insts[k'].callee == c;
      assert Earlier(b', k', b, k + 1);
    }
    assert Earlier(b, k, b, k + 1);
  }

  lemma NextBlock(f: Function, known: set<string>, b: nat, e: Effect)
    requires b < |f.blocks| && Seen(f, known, b, |f.blocks[b].insts|, e)
    ensures Seen(f, known, b + 1, 0, e)
  {
    forall x ensures TouchedBefore(f, b + 1, 0, x) <==> TouchedBefore(f, b, |f.blocks[b].insts|, x) {
      if TouchedBefore(f, b + 1, 0, x) {
        var b': nat, k': nat :| Earlier(b', k', b + 1, 0) && b' < |f.blocks| && k' < |f.blocks[b'].insts|
          && Touches(f.blocks[b'].insts[k'], x);
        assert Earlier(b', k', b, |f.blocks[b].insts|);
      }
      if TouchedBefore(f, b, |f.blocks[b].insts|, x) {
        var b': nat, k': nat :| Earlier(b', k', b, |f.blocks[b].insts|) && b' < |f.blocks|
          && k' < |f.blocks[b'].insts| && Touches(f.blocks[b'].insts[k'], x);
        assert Earlier(b', k', b + 1, 0);
      }
    }
    forall c ensures CalledBefore(f, b + 1, 0, c) <==> CalledBefore(f, b, |f.blocks[b].insts|, c) {
      if CalledBefore(f, b + 1, 0, c) {
        var b': nat, k': nat :| Earlier(b', k', b + 1, 0) && b' < |f.blocks| && k' < |f.blocks[b'].insts|
          && f.blocks[b'].insts[k'].Call? && f.blocks[b'].insts[k'].callee == c;
        assert Earlier(b', k', b, |f.blocks[b].insts|);
      }
      if CalledBefore(f, b, |f.blocks[b].insts|, c) {
        var b': nat, k': nat :| Earlier(b', k', b, |f.blocks[b].insts|) && b' < |f.blocks|
          && k' < |f.blocks[b'].insts| && f.blocks[b'].insts[k'].Call? && f.blocks[b'].insts[k'].callee == c;
        assert Earlier(b', k', b + 1, 0);
      }
    }
  }

  lemma AllSeen(f: Function, known: set<string>, e: Effect)
    requires hide *; Seen(f, known, |f.blocks|, 0, e)
    ensures IsDirect(f, known, e)
  {
    forall x ensures TouchedBefore(f, |f.blocks|, 0, x) <==> Accesses(f, x) {
      if Accesses(f, x) {
        var b: nat, k: nat :| b < |f.blocks| && k < |f.blocks[b].insts| && Touches(f.blocks[b].insts[k], x);
        assert Earlier(b, k, |f.blocks|, 0);
      }
    }
    forall c ensures CalledBefore(f, |f.blocks|, 0, c) <==> Calls(f, c) {
      if Calls(f, c) {
        var b: nat, k: nat :| b < |f.blocks| && k < |f.blocks[b].insts| && f.blocks[b].insts[k].Call?
          && f.blocks[b].insts[k].callee == c;
        assert Earlier(b, k, |f.blocks|, 0);
      }
    }
  }

  lemma NothingSeen(f: Function, known: set<string>)
    ensures Seen(f, known, 0, 0, Effect({}, [], false))
  {
  }

  function Note(e: Effect, i: Inst, known: set<string>): Effect {
    match i
    case Call(_, c, _) => Effect(e.touched, e.callees + [c], e.unknown || c !in known)
    case Load(_, Global(x)) => e.(touched := e.touched + {x})
    case Store(Global(x), _) => e.(touched := e.touched + {x})
    case _ => e
  }

  lemma NoteSees(f: Function, known: set<string>, b: nat, k: nat, e: Effect)
    requires b < |f.blocks| && k < |f.blocks[b].insts| && Seen(f, known, b, k, e)
    ensures Seen(f, known, b, k + 1, Note(e, f.blocks[b].insts[k], known))
  {
    hide TouchedBefore, CalledBefore;
    var i := f.blocks[b].insts[k];
    var e' := Note(e, i, known);
    forall x ensures x in e'.touched <==> TouchedBefore(f, b, k + 1, x) {
      TouchedNext(f, b, k, x);
    }
    forall c ensures c in e'.callees <==> CalledBefore(f, b, k + 1, c) {
      CalledNext(f, b, k, c);
    }
    if i.Call? {
      assert i.callee in e'.callees;
    }
  }

  /** One scan over the instructions of a function. */
  method Direct(f: Function, known: set<string>) returns (e: Effect)
    ensures IsDirect(f, known, e)
  {
    hide Seen, IsDirect, Note;
    e := Effect({}, [], false);
    NothingSeen(f, known);
    var b := 0;
    while b < |f.blocks|
      invariant 0 <= b <= |f.blocks| && Seen(f, known, b, 0, e)
    {
      var k := 0;
      while k < |f.blocks[b].insts|
        invariant 0 <= k <= |f.blocks[b].insts| && Seen(f, known, b, k, e)
      {
        NoteSees(f, known, b, k, e);
        e := Note(e, f.blocks[b].insts[k], known);
        k := k + 1;
      }
      NextBlock(f, known, b, e);
      b := b + 1;
    }
    AllSeen(f, known, e);
  }

  // ----- the closure over the calls -----

  /** A chain of calls through functions of the module. */
  predicate Chain(d: Summaries, path: seq<string>) {
    && path != [] && path[0] in d
    && (|path| > 1 ==> path[1] in d[path[0]].callees && Chain(d, path[1..]))
  }

  ghost predicate Reaches(d: Summaries, f: string, h: string) {
    exists path: seq<string> :: Chain(d, path) && path[0] == f && path[|path| - 1] == h
  }

  /** Some function reached from `f` touches the global itself. */
  ghost predicate MayTouch(d: Summaries, f: string, x: string) {
    exists h :: h in d && Reaches(d, f, h) && x in d[h].touched
  }

  ghost predicate MayEscape(d: Summaries, f: string) {
    exists h :: h in d && Reaches(d, f, h) && d[h].unknown
  }

  /** The summaries say no less than the direct effects, and no less than the summaries of the callees. */
  ghost predicate Closed(d: Summaries, e: Summaries) {
    && e.Keys == d.Keys
    && (forall f :: f in d ==>
          e[f].callees == d[f].callees && d[f].touched <= e[f].touched && (d[f].unknown ==> e[f].unknown))
    && (forall f, c :: f in d && c in d[f].callees && c in d ==> Covers(e[f], e[c]))
  }

  predicate Covers(e: Effect, callee: Effect) {
    callee.touched <= e.touched && (callee.unknown ==> e.unknown)
  }

  /** The summaries say nothing that no chain of calls justifies. */
  ghost predicate Justified(d: Summaries, e: Summaries) {
    && e.Keys == d.Keys
    && (forall f :: f in d ==>
          e[f].callees == d[f].callees && d[f].touched <= e[f].touched && (d[f].unknown ==> e[f].unknown))
    && (forall f, x :: f in d && x in e[f].touched ==> MayTouch(d, f, x))
    && (forall f :: f in d && e[f].unknown ==> MayEscape(d, f))
  }

  lemma ReachesSelf(d: Summaries, f: string)
    requires f in d
    ensures Reaches(d, f, f)
  {
    assert Chain(d, [f]);
  }

  lemma ReachesThrough(d: Summaries, f: string, c: string, h: string)
    requires f in d && c in d[f].callees && Reaches(d, c, h)
    ensures Reaches(d, f, h)
  {
    var path: seq<string> :| Chain(d, path) && path[0] == c && path[|path| - 1] == h;
    assert ([f] + path)[1..] == path;
    assert Chain(d, [f] + path);
  }

  lemma MayThrough(d: Summaries, f: string, c: string)
    requires f in d && c in d[f].callees
    ensures forall x :: MayTouch(d, c, x) ==> MayTouch(d, f, x)
    ensures MayEscape(d, c) ==> MayEscape(d, f)
  {
    hide Reaches;
    forall h | Reaches(d, c, h) ensures Reaches(d, f, h) {
      ReachesThrough(d, f, c, h);
    }
  }

  lemma DirectIsJustified(d: Summaries)
    ensures Justified(d, d)
  {
    forall f | f in d ensures Reaches(d, f, f) {
      ReachesSelf(d, f);
    }
  }

  /** Taking over the summary of a callee. */
  function Absorb(e: Effect, callee: Effect): Effect {
    Effect(e.touched + callee.touched, e.callees, e.unknown || callee.unknown)
  }

  lemma AbsorbIsJustified(d: Summaries, e: Summaries, f: string, c: string)
    requires Justified(d, e) && f in d && c in d[f].callees && c in d
    ensures Justified(d, e[f := Absorb(e[f], e[c])])
  {
    hide MayTouch, MayEscape;
    MayThrough(d, f, c);
    assert e[f := Absorb(e[f], e[c])].Keys == d.Keys;
  }

  /** A closed summary says everything that a chain of calls can do. */
  lemma {:induction false} ClosedFollowsChains(d: Summaries, e: Summaries, path: seq<string>)
    requires Closed(d, e) && Chain(d, path) && path[|path| - 1] in d
    ensures Covers(e[path[0]], d[path[|path| - 1]])
    decreases |path|
  {
    if |path| > 1 {
      ClosedFollowsChains(d, e, path[1..]);
      assert path[1] in d;
      assert Covers(e[path[0]], e[path[1]]);
    }
  }

  lemma ClosedFollowsReaches(d: Summaries, e: Summaries, f: string, h: string)
    requires Closed(d, e) && Reaches(d, f, h)
    ensures f in d && h in d && Covers(e[f], d[h])
  {
    hide Closed;
    var path: seq<string> :| Chain(d, path) && path[0] == f && path[|path| - 1] == h;
    LastIsKnown(d, path);
    KeysAre(d, e);
    ClosedFollowsChains(d, e, path);
  }

  lemma KeysAre(d: Summaries, e: Summaries)
    requires Closed(d, e)
    ensures e.Keys == d.Keys
  {
  }

  lemma {:induction false} LastIsKnown(d: Summaries, path: seq<string>)
    requires Chain(d, path)
    ensures path[|path| - 1] in d
  {
    if |path| > 1 {
      LastIsKnown(d, path[1..]);
    }
  }

  /** The closure is exact: it is the least one. */
  lemma ClosureIsExact(d: Summaries, e: Summaries)
    requires Closed(d, e) && Justified(d, e)
    ensures forall f, x :: f in d ==> (x in e[f].touched <==> MayTouch(d, f, x))
    ensures forall f :: f in d ==> (e[f].unknown <==> MayEscape(d, f))
  {
    hide Closed, Reaches;
    forall f, x | f in d && MayTouch(d, f, x) ensures x in e[f].touched {
      var h :| h in d && Reaches(d, f, h) && x in d[h].touched;
      ClosedFollowsReaches(d, e, f, h);
    }
    forall f | f in d && MayEscape(d, f) ensures e[f].unknown {
      var h :| h in d && Reaches(d, f, h) && d[h].unknown;
      ClosedFollowsReaches(d, e, f, h);
    }
  }

  // ----- the fixpoint loop -----

  /** All globals that any function touches. */
  ghost function AllTouched(d: Summaries): set<string> {
    set f, x | f in d && x in d[f].touched :: x
  }

  ghost function SizeOf(e: Summaries, f: string): nat {
    if f in e then |e[f].touched| + (if e[f].unknown then 1 else 0) else 0
  }

  /** How much the summaries say. */
  ghost function Size(e: Summaries, order: seq<string>): nat {
    if order == [] then 0
    else SizeOf(e, order[0]) + Size(e, order[1..])
  }

  lemma JustifiedIsBounded(d: Summaries, e: Summaries, f: string)
    requires Justified(d, e) && f in d
    ensures e[f].touched <= AllTouched(d)
  {
    forall x | x in e[f].touched ensures x in AllTouched(d) {
      assert MayTouch(d, f, x);
      var h :| h in d && Reaches(d, f, h) && x in d[h].touched;
    }
  }

  lemma SubsetSize<T>(a: set<T>, b: set<T>)
    requires a <= b
    ensures |a| <= |b| && (|a| == |b| ==> a == b)
  {
    if a != b {
      var x :| x in b && x !in a;
      SubsetSize(a, b - {x});
    }
  }

  lemma {:induction false} SizeIsBounded(d: Summaries, e: Summaries, order: seq<string>)
    requires Justified(d, e)
    ensures Size(e, order) <= |order| * (|AllTouched(d)| + 1)
  {
    hide Justified, AllTouched;
    if order != [] {
      SizeIsBounded(d, e, order[1..]);
      if order[0] in e {
        KeysOf(d, e);
        JustifiedIsBounded(d, e, order[0]);
        SubsetSize(e[order[0]].touched, AllTouched(d));
      }
      assert |order| * (|AllTouched(d)| + 1) == (|AllTouched(d)| + 1) + |order[1..]| * (|AllTouched(d)| + 1);
    }
  }

  lemma KeysOf(d: Summaries, e: Summaries)
    requires Justified(d, e)
    ensures e.Keys == d.Keys
  {
  }

  /** Absorbing never says less, and says more unless nothing changed. */
  lemma {:induction false} AbsorbGrows(e: Summaries, order: seq<string>, f: string, callee: Effect)
    requires f in e
    ensures var e' := e[f := Absorb(e[f], callee)];
      Size(e', order) >= Size(e, order) && (f in order && !Covers(e[f], callee) ==> Size(e', order) > Size(e, order))
  {
    if order != [] {
      AbsorbGrows(e, order[1..], f, callee);
      SubsetSize(e[f].touched, e[f].touched + callee.touched);
    }
  }

  lemma AbsorbNothing(e: Summaries, f: string, callee: Effect)
    requires f in e && Covers(e[f], callee)
    ensures e[f := Absorb(e[f], callee)] == e
  {
    assert e[f].touched + callee.touched == e[f].touched;
  }

  /** The first `j` callees of `f` are covered. */
  ghost predicate CoversFirst(e: Summaries, f: string, j: nat) {
    f in e && j <= |e[f].callees| && forall i: nat :: i < j && e[f].callees[i] in e ==> Covers(e[f], e[e[f].callees[i]])
  }

  /** Summaries grow until nothing changes, whatever the order in which the functions are visited. */
  method Summarize(d: Summaries, order: seq<string>) returns (e: Summaries)
    requires forall f :: f in order <==> f in d
    ensures e.Keys == d.Keys
    ensures forall f :: f in d ==> e[f].callees == d[f].callees
    ensures forall f, x :: f in d ==> (x in e[f].touched <==> MayTouch(d, f, x))
    ensures forall f :: f in d ==> (e[f].unknown <==> MayEscape(d, f))
    ensures Closed(d, e)
  {
    hide Absorb, AllTouched, Covers, MayEscape, MayTouch, Reaches, Size;
    e := d;
    DirectIsJustified(d);
    var changed := true;
    ghost var bound := |order| * (|AllTouched(d)| + 1);
    while changed
      invariant Justified(d, e)
      invariant !changed ==> forall n: nat :: n < |order| ==> CoversFirst(e, order[n], |e[order[n]].callees|)
      decreases bound - Size(e, order), changed
    {
      changed := false;
      ghost var before := e;
      var n := 0;
      while n < |order|
        invariant 0 <= n <= |order| && Justified(d, e) && Size(e, order) >= Size(before, order)
        invariant changed ==> Size(e, order) > Size(before, order)
        invariant !changed ==> e == before && forall m: nat :: m < n ==> CoversFirst(e, order[m], |e[order[m]].callees|)
      {
        var f := order[n];
        assert f in d;
        var j := 0;
        while j < |d[f].callees|
          invariant 0 <= j <= |d[f].callees| && Justified(d, e) && Size(e, order) >= Size(before, order)
          invariant changed ==> Size(e, order) > Size(before, order)
          invariant !changed ==> e == before && CoversFirst(e, f, j)
          invariant !changed ==> forall m: nat :: m < n ==> CoversFirst(e, order[m], |e[order[m]].callees|)
        {
          var c := d[f].callees[j];
          if c in e {
            AbsorbIsJustified(d, e, f, c);
            AbsorbGrows(e, order, f, e[c]);
            if Covers(e[f], e[c]) {
              AbsorbNothing(e, f, e[c]);
            } else {
              changed := true;
            }
            e := e[f := Absorb(e[f], e[c])];
          }
          j := j + 1;
        }
        n := n + 1;
      }
      SizeIsBounded(d, e, order);
    }
    forall f, c | f in d && c in d[f].callees && c in d ensures Covers(e[f], e[c]) {
      var m :| 0 <= m < |order| && order[m] == f;
      assert CoversFirst(e, order[m], |e[order[m]].callees|);
    }
    ClosureIsExact(d, e);
  }
}
