/** Values, their operands and the lists of their users, kept consistent under every change. */
module UseLists {

  /** The list without the first occurrence of `x`. */
  function WithoutFirst<T(==)>(s: seq<T>, x: T): seq<T> {
    if s == [] then [] else if s[0] == x then s[1..] else [s[0]] + WithoutFirst(s[1..], x)
  }

  lemma {:induction false} WithoutFirstCounts<T>(s: seq<T>, x: T)
    requires x in s
    ensures multiset(s) == multiset(WithoutFirst(s, x)) + multiset{x}
  {
    assert s == [s[0]] + s[1..];
    if s[0] != x {
      WithoutFirstCounts(s[1..], x);
    }
  }

  lemma {:induction false} WithoutFirstAt<T>(s: seq<T>, x: T, i: nat)
    requires i < |s| && s[i] == x && x !in s[..i]
    ensures WithoutFirst(s, x) == s[..i] + s[i + 1..]
  {
    if i > 0 {
      assert s[0] == s[..i][0];
      assert s[1..][..i - 1] == s[..i][1..];
      WithoutFirstAt(s[1..], x, i - 1);
    }
  }

  lemma {:induction false} WithoutFirstAbsent<T>(s: seq<T>, x: T)
    requires x !in s
    ensures WithoutFirst(s, x) == s
  {
    if s != [] {
      WithoutFirstAbsent(s[1..], x);
    }
  }

  lemma CountUpdate<T>(s: seq<T>, i: nat, x: T)
    requires i < |s|
    ensures multiset(s[i := x]) + multiset{s[i]} == multiset(s) + multiset{x}
  {
    assert s == s[..i] + [s[i]] + s[i + 1..];
    assert s[i := x] == s[..i] + [x] + s[i + 1..];
  }

  /** The operands with one value in place of another. */
  function Replaced<T(==)>(s: seq<T>, x: T, y: T): (r: seq<T>)
    ensures |r| == |s| && forall i :: 0 <= i < |s| ==> r[i] == if s[i] == x then y else s[i]
  {
    seq(|s|, i requires 0 <= i < |s| => if s[i] == x then y else s[i])
  }

  /** How often a user is recorded. */
  function Uses(s: seq<Value>, u: Value): nat {
    multiset(s)[u]
  }

  /** How often a value occurs among operands. */
  function Slots(s: seq<Value?>, v: Value): nat {
    multiset(s)[v]
  }

  // ----- use lists and operand lists as maps -----

  /** Every use is recorded at the value used, as often as it occurs among the operands. */
  ghost predicate Agree(uses: map<Value, seq<Value>>, ops: map<Value, seq<Value?>>) {
    && uses.Keys == ops.Keys
    && (forall u, o :: u in ops && o in ops[u] && o != null ==> o in ops)
    && (forall v, u :: v in uses && u in uses[v] ==> u in ops)
    && (forall v, u :: v in uses && u in ops ==> Uses(uses[v], u) == Slots(ops[u], v))
  }

  ghost function Recorded(uses: map<Value, seq<Value>>, v: Value?, u: Value): map<Value, seq<Value>>
    requires v != null ==> v in uses
  {
    if v == null then uses else uses[v := uses[v] + [u]]
  }

  ghost function Unrecorded(uses: map<Value, seq<Value>>, v: Value?, u: Value): map<Value, seq<Value>>
    requires v != null ==> v in uses
  {
    if v == null then uses else uses[v := WithoutFirst(uses[v], u)]
  }

  lemma CountWithoutFirst(s: seq<Value>, x: Value, y: Value)
    requires x in s
    ensures Uses(WithoutFirst(s, x), y) == Uses(s, y) - if y == x then 1 else 0
  {
    WithoutFirstCounts(s, x);
  }

  lemma {:induction false} WithoutFirstElements(s: seq<Value>, x: Value)
    ensures forall y :: y in WithoutFirst(s, x) ==> y in s
  {
    if s != [] {
      WithoutFirstElements(s[1..], x);
    }
  }

  lemma UsedIsRecorded(uses: map<Value, seq<Value>>, ops: map<Value, seq<Value?>>, u: Value, i: nat)
    requires Agree(uses, ops) && u in ops && i < |ops[u]| && ops[u][i] != null
    ensures ops[u][i] in uses && u in uses[ops[u][i]]
  {
    var v: Value := ops[u][i];
    assert v in ops[u];
    assert Uses(uses[v], u) == Slots(ops[u], v);
  }

  /** One pair of a value and a user, before and after operand `i` of user `u` becomes empty ... */
  lemma UnsetPair(uses: seq<Value>, ops: seq<Value?>, v: Value, x: Value, u: Value, i: nat, before: Value)
    requires Uses(uses, x) == Slots(ops, v) && (v == before ==> u in uses) && (x == u ==> i < |ops| && ops[i] == before)
    ensures Uses(if v == before then WithoutFirst(uses, u) else uses, x)
            == Slots(if x == u then ops[i := null] else ops, v)
  {
    if v == before {
      CountWithoutFirst(uses, u, x);
    }
    if x == u {
      CountUpdated(ops, i, null, v);
    }
  }

  /** ... and before and after it is filled. */
  lemma FillPair(uses: seq<Value>, ops: seq<Value?>, v: Value, x: Value, u: Value, i: nat, value: Value)
    requires Uses(uses, x) == Slots(ops, v) && (x == u ==> i < |ops| && ops[i] == null)
    ensures Uses(if v == value then uses + [u] else uses, x) == Slots(if x == u then ops[i := value] else ops, v)
  {
    if x == u {
      CountUpdated(ops, i, value, v);
    }
  }

  /** An operand becomes empty. */
  lemma UnsetAgrees(uses: map<Value, seq<Value>>, ops: map<Value, seq<Value?>>, u: Value, i: nat)
    requires Agree(uses, ops) && u in ops && i < |ops[u]| && ops[u][i] != null
    ensures ops[u][i] in uses && Agree(Unrecorded(uses, ops[u][i], u), ops[u := ops[u][i := null]])
  {
    hide Uses, Slots, WithoutFirst;
    var before: Value := ops[u][i];
    UsedIsRecorded(uses, ops, u, i);
    WithoutFirstElements(uses[before], u);
    var uses', ops' := uses[before := WithoutFirst(uses[before], u)], ops[u := ops[u][i := null]];
    forall v, x | v in uses' && x in ops'
      ensures Uses(uses'[v], x) == Slots(ops'[x], v)
    {
      UnsetPair(uses[v], ops[x], v, x, u, i, before);
    }
    forall x: Value, o: Value | x in ops' && o in ops'[x]
      ensures o in ops'
    {
      ElementOfUpdate(ops[u], i, null, o);
    }
  }

  /** An empty operand is filled. */
  lemma FillAgrees(uses: map<Value, seq<Value>>, ops: map<Value, seq<Value?>>, u: Value, i: nat, value: Value)
    requires Agree(uses, ops) && u in ops && i < |ops[u]| && value in ops && ops[u][i] == null
    ensures value in uses && Agree(Recorded(uses, value, u), ops[u := ops[u][i := value]])
  {
    hide Uses, Slots;
    assert value in uses.Keys;
    var uses', ops' := uses[value := uses[value] + [u]], ops[u := ops[u][i := value]];
    forall v, x | v in uses' && x in ops'
      ensures Uses(uses'[v], x) == Slots(ops'[x], v)
    {
      FillPair(uses[v], ops[x], v, x, u, i, value);
    }
    forall x: Value, o: Value | x in ops' && o in ops'[x]
      ensures o in ops'
    {
      ElementOfUpdate(ops[u], i, value, o);
    }
  }

  lemma CountUpdated(s: seq<Value?>, i: nat, x: Value?, y: Value)
    requires i < |s|
    ensures Slots(s[i := x], y) == Slots(s, y) + (if y == x then 1 else 0) - if y == s[i] then 1 else 0
  {
    CountUpdate(s, i, x);
  }

  lemma ElementOfUpdate(s: seq<Value?>, i: nat, x: Value?, o: Value)
    requires i < |s|
    ensures o in s[i := x] ==> o in s || o == x
  {
  }

  lemma SameKeys(uses: map<Value, seq<Value>>, ops: map<Value, seq<Value?>>)
    requires Agree(uses, ops)
    ensures uses.Keys == ops.Keys
  {
  }

  /** Changing one operand. */
  lemma SetAgrees(uses: map<Value, seq<Value>>, ops: map<Value, seq<Value?>>, u: Value, i: nat, value: Value?)
    requires hide *; Agree(uses, ops) && u in ops && i < |ops[u]| && (value != null ==> value in ops)
    ensures ops[u][i] != null ==> ops[u][i] in uses
    ensures value != null ==> value in Unrecorded(uses, ops[u][i], u)
    ensures Agree(Recorded(Unrecorded(uses, ops[u][i], u), value, u), ops[u := ops[u][i := value]])
  {
    hide Agree, WithoutFirst;
    SameKeys(uses, ops);
    assert value != null ==> value in uses.Keys;
    var emptied := ops[u := ops[u][i := null]];
    if ops[u][i] != null {
      UnsetAgrees(uses, ops, u, i);
    } else {
      assert ops[u][i := null] == ops[u] && emptied == ops;
    }
    assert emptied[u][i := value] == ops[u][i := value];
    assert emptied[u := ops[u][i := value]] == ops[u := ops[u][i := value]];
    if value != null {
      FillAgrees(Unrecorded(uses, ops[u][i], u), emptied, u, i, value);
    }
  }

  lemma AddPair(uses: seq<Value>, ops: seq<Value?>, v: Value, x: Value, u: Value, value: Value)
    requires Uses(uses, x) == Slots(ops, v)
    ensures Uses(if v == value then uses + [u] else uses, x) == Slots(if x == u then ops + [value] else ops, v)
  {
  }

  /** One operand more. */
  lemma AddAgrees(uses: map<Value, seq<Value>>, ops: map<Value, seq<Value?>>, u: Value, value: Value)
    requires Agree(uses, ops) && u in ops && value in ops
    ensures value in uses && Agree(Recorded(uses, value, u), ops[u := ops[u] + [value]])
  {
    hide Uses, Slots;
    assert value in uses.Keys;
    var uses', ops' := uses[value := uses[value] + [u]], ops[u := ops[u] + [value]];
    forall v, x | v in uses' && x in ops'
      ensures Uses(uses'[v], x) == Slots(ops'[x], v)
    {
      AddPair(uses[v], ops[x], v, x, u, value);
    }
  }

  /** Empty operands may be dropped. */
  lemma DropAgrees(uses: map<Value, seq<Value>>, ops: map<Value, seq<Value?>>, u: Value)
    requires Agree(uses, ops) && u in ops && forall o :: o in ops[u] ==> o == null
    ensures Agree(uses, ops[u := []])
  {
    forall v | v in uses
      ensures Slots([], v) == Slots(ops[u], v)
    {
      assert v !in ops[u];
    }
    hide Slots;
  }

  /** A value that is no operand has no users. */
  lemma UnusedIsUnrecorded(uses: map<Value, seq<Value>>, ops: map<Value, seq<Value?>>, v: Value)
    requires Agree(uses, ops) && v in uses && forall u :: u in ops ==> v !in ops[u]
    ensures uses[v] == []
  {
    forall u | u in ops
      ensures Uses(uses[v], u) == 0
    {
      assert Uses(uses[v], u) == Slots(ops[u], v);
    }
    assert uses[v] != [] ==> uses[v][0] in uses[v] && Uses(uses[v], uses[v][0]) > 0;
  }

  /** Every user of an operand is recorded. */
  lemma UserIsRecorded(uses: map<Value, seq<Value>>, ops: map<Value, seq<Value?>>, v: Value)
    requires Agree(uses, ops) && v in uses
    ensures forall u :: u in ops && v in ops[u] ==> u in uses[v]
  {
    forall u | u in ops && v in ops[u]
      ensures u in uses[v]
    {
      assert Uses(uses[v], u) == Slots(ops[u], v);
    }
  }

  /** The operand of the last entry for block `b`. */
  function ValueFrom(blocks: seq<Value>, ops: seq<Value?>, b: Value): Value?
    requires |blocks| == |ops|
  {
    if blocks == [] then null
    else if blocks[|blocks| - 1] == b then ops[|ops| - 1]
    else ValueFrom(blocks[..|blocks| - 1], ops[..|ops| - 1], b)
  }

  lemma {:induction false} ValueFromIsOperand(blocks: seq<Value>, ops: seq<Value?>, b: Value)
    requires |blocks| == |ops| && b in blocks
    ensures ValueFrom(blocks, ops, b) in ops
  {
    var n := |blocks| - 1;
    if blocks[n] != b {
      assert b in blocks[..n];
      ValueFromIsOperand(blocks[..n], ops[..n], b);
    }
  }

  /** Blocks that occur once keep their operand. */
  lemma {:induction false} ValueFromUnique(blocks: seq<Value>, ops: seq<Value?>, i: nat)
    requires |blocks| == |ops| && i < |blocks| && forall j :: 0 <= j < |blocks| && j != i ==> blocks[j] != blocks[i]
    ensures ValueFrom(blocks, ops, blocks[i]) == ops[i]
  {
    var n := |blocks| - 1;
    if i < n {
      ValueFromUnique(blocks[..n], ops[..n], i);
    }
  }

  // ----- values on the heap -----

  ghost function UsesOf(all: set<Value>): map<Value, seq<Value>>
    reads all`uses
  {
    map v | v in all :: v.uses
  }

  ghost function OperandsOf(all: set<Value>): map<Value, seq<Value?>>
    reads all`operands
  {
    map v | v in all :: v.operands
  }

  ghost predicate Consistent(all: set<Value>)
    reads all`uses, all`operands
  {
    Agree(UsesOf(all), OperandsOf(all))
  }

  /** A value that may also use others: a block, a constant, or an instruction with its operands. */
  class Value {
    var uses: seq<Value>
    var operands: seq<Value?>
    /** For a phi, the block of every operand. */
    var incomingBlocks: seq<Value>

    constructor ()
      ensures uses == [] && operands == [] && incomingBlocks == []
    {
      uses, operands, incomingBlocks := [], [], [];
    }

    method AddUse(user: Value)
      modifies `uses
      ensures uses == old(uses) + [user]
    {
      uses := uses + [user];
    }

    method RemoveUse(user: Value)
      modifies `uses
      ensures uses == WithoutFirst(old(uses), user)
    {
      var i := 0;
      while i < |uses|
        invariant 0 <= i <= |uses| && uses == old(uses) && user !in uses[..i]
      {
        if uses[i] == user {
          WithoutFirstAt(uses, user, i);
          uses := uses[..i] + uses[i + 1..];
          return;
        }
        i := i + 1;
      }
      assert uses[..i] == uses;
      WithoutFirstAbsent(uses, user);
    }

    method AddOperand(value: Value, ghost all: set<Value>)
      requires this in all && value in all && Consistent(all)
      modifies `operands, value`uses
      ensures Consistent(all) && operands == old(operands) + [value]
      ensures UsesOf(all) == Recorded(old(UsesOf(all)), value, this)
      ensures OperandsOf(all) == old(OperandsOf(all))[this := old(operands) + [value]]
    {
      hide Agree, Uses, Slots;
      ghost var uses0, ops0 := UsesOf(all), OperandsOf(all);
      AddAgrees(uses0, ops0, this, value);
      operands := operands + [value];
      value.AddUse(this);
      assert UsesOf(all) == Recorded(uses0, value, this);
      assert OperandsOf(all) == ops0[this := ops0[this] + [value]];
    }

    method SetOperand(i: nat, value: Value?, ghost all: set<Value>)
      requires this in all && (value == null || value in all) && i < |operands| && Consistent(all)
      modifies `operands, all`uses
      ensures Consistent(all) && operands == old(operands)[i := value]
      ensures OperandsOf(all) == old(OperandsOf(all))[this := operands]
      ensures old(operands[i]) == value ==> UsesOf(all) == old(UsesOf(all))
      ensures old(operands[i]) != value && old(operands[i]) != null ==> old(operands[i]) in all
      ensures old(operands[i]) != value ==>
                UsesOf(all) == Recorded(Unrecorded(old(UsesOf(all)), old(operands[i]), this), value, this)
    {
      hide Agree, Recorded, Unrecorded, WithoutFirst, Uses, Slots;
      ghost var uses0, ops0 := UsesOf(all), OperandsOf(all);
      var before := operands[i];
      if before == value {
        assert operands == operands[i := value];
        return;
      }
      SetAgrees(uses0, ops0, this, i, value);
      MoveRecord(before, value, all);
      operands := operands[i := value];
      assert OperandsOf(all) == ops0[this := ops0[this][i := value]];
    }

    /** Takes this user off the records of one value and puts it on those of another. */
    method MoveRecord(before: Value?, value: Value?, ghost all: set<Value>)
      requires (before == null || before in all) && (value == null || value in all)
      modifies all`uses
      ensures UsesOf(all) == Recorded(Unrecorded(old(UsesOf(all)), before, this), value, this)
    {
      hide WithoutFirst;
      ghost var uses0 := UsesOf(all);
      if before != null {
        before.RemoveUse(this);
      }
      assert UsesOf(all) == Unrecorded(uses0, before, this);
      if value != null {
        value.AddUse(this);
      }
      assert UsesOf(all) == Recorded(Unrecorded(uses0, before, this), value, this);
    }

    /** Every user takes `other` instead; afterwards nothing uses this value. */
    method ReplaceAllUsesWith(other: Value, ghost all: set<Value>)
      requires this in all && other in all && Consistent(all)
      modifies all`uses, all`operands
      ensures Consistent(all)
      ensures forall u :: u in all ==> u.operands == Replaced(old(u.operands), this, other)
      ensures other != this ==> uses == []
    {
      hide *;
      if other == this {
        return;
      }
      RewriteAll(other, all);
      ClearUses(all);
    }

    method ClearUses(ghost all: set<Value>)
      requires this in all && Consistent(all) && uses == []
      modifies `uses
      ensures Consistent(all) && uses == []
    {
      hide Agree;
      ghost var recorded := UsesOf(all);
      uses := [];
      assert UsesOf(all) == recorded;
    }

    method RewriteAll(other: Value, ghost all: set<Value>)
      requires this in all && other in all && other != this && Consistent(all)
      modifies all`uses, all`operands
      ensures Consistent(all) && uses == []
      ensures forall u :: u in all ==> u.operands == Replaced(old(u.operands), this, other)
    {
      hide Agree, Rewritten, Replaced;
      ghost var ops0: map<Value, seq<Value?>> := OperandsOf(all);
      UserIsRecorded(UsesOf(all), ops0, this);
      AllUsersKnown(UsesOf(all), ops0, this);
      ghost var users := uses;
      RewriteUsers(uses, other, all);
      AllRewritten(ops0, users, this, other);
      UnusedIsUnrecorded(UsesOf(all), OperandsOf(all), this);
      forall u | u in all
        ensures u.operands == Replaced(old(u.operands), this, other)
      {
        assert u.operands == OperandsOf(all)[u];
      }
    }

    method RewriteUsers(users: seq<Value>, other: Value, ghost all: set<Value>)
      requires this in all && other in all && this != other && Consistent(all) && forall u :: u in users ==> u in all
      modifies all`uses, all`operands
      ensures Consistent(all) && OperandsOf(all) == Rewritten(old(OperandsOf(all)), users, this, other)
    {
      hide Agree, Consistent, Replaced, Rewritten;
      ghost var ops0: map<Value, seq<Value?>> := OperandsOf(all);
      NothingRewritten(ops0, this, other);
      var i := 0;
      while i < |users|
        invariant 0 <= i <= |users| && Consistent(all) && OperandsOf(all) == Rewritten(ops0, users[..i], this, other)
      {
        assert users[i] in users;
        users[i].ReplaceOperands(this, other, all);
        RewriteNext(ops0, users, i, this, other);
        i := i + 1;
      }
      assert users[..i] == users;
    }

    /** Replaces a value among the operands of one user. */
    method ReplaceOperands(value: Value, other: Value, ghost all: set<Value>)
      requires this in all && value in all && other in all && value != other && Consistent(all)
      modifies `operands, all`uses
      ensures Consistent(all) && operands == Replaced(old(operands), value, other)
      ensures OperandsOf(all) == old(OperandsOf(all))[this := operands]
    {
      hide Agree, Consistent, Recorded, Unrecorded, UsesOf;
      ghost var ops0: map<Value, seq<Value?>> := OperandsOf(all);
      var i := 0;
      while i < |operands|
        invariant 0 <= i <= |operands| == |old(operands)| && Consistent(all)
                  && OperandsOf(all) == ops0[this := operands]
        invariant operands[..i] == Replaced(old(operands)[..i], value, other) && operands[i..] == old(operands)[i..]
      {
        assert operands[i] == old(operands)[i];
        if operands[i] == value {
          SetOperand(i, other, all);
        }
        i := i + 1;
      }
    }

    method AddIncoming(value: Value, block: Value, ghost all: set<Value>)
      requires this in all && value in all && Consistent(all)
      modifies `operands, `incomingBlocks, value`uses
      ensures Consistent(all) && operands == old(operands) + [value] && incomingBlocks == old(incomingBlocks) + [block]
    {
      AddOperand(value, all);
      incomingBlocks := incomingBlocks + [block];
    }

    method ReplaceIncomingBlock(before: Value, after: Value)
      modifies `incomingBlocks
      ensures incomingBlocks == Renamed(old(incomingBlocks), before, after)
    {
      var i := 0;
      while i < |incomingBlocks|
        invariant 0 <= i <= |incomingBlocks| == |old(incomingBlocks)|
        invariant incomingBlocks[..i] == Renamed(old(incomingBlocks)[..i], before, after)
        invariant incomingBlocks[i..] == old(incomingBlocks)[i..]
      {
        assert incomingBlocks[i] == old(incomingBlocks)[i];
        if incomingBlocks[i] == before {
          incomingBlocks := incomingBlocks[i := after];
        }
        i := i + 1;
      }
    }

    /** Puts the entries of a phi in the order of the predecessors; every block keeps its value. */
    method ReorderIncoming(order: seq<Value>, ghost all: set<Value>)
      requires this in all && Consistent(all) && |operands| == |incomingBlocks| && null !in operands
      requires forall i, j :: 0 <= i < j < |order| ==> order[i] != order[j]
      requires forall b :: b in order ==> b in incomingBlocks
      modifies `operands, `incomingBlocks, all`uses
      ensures Consistent(all) && incomingBlocks == order && |operands| == |order|
      ensures forall j :: 0 <= j < |order| ==> operands[j] == ValueFrom(old(incomingBlocks), old(operands), order[j])
    {
      hide Agree;
      var vals := PickValues(order);
      ghost var ops0, blocks0 := operands, incomingBlocks;
      forall j | 0 <= j < |order|
        ensures vals[j] in ops0
      {
        ValueFromIsOperand(blocks0, ops0, order[j]);
      }
      OperandsKnown(UsesOf(all), OperandsOf(all), this);
      DropOperands(all);
      incomingBlocks := [];
      assert forall j :: 0 <= j < |vals| ==> vals[j] in ops0;
      AddAllIncoming(vals, order, all);
    }

    method AddAllIncoming(vals: seq<Value?>, order: seq<Value>, ghost all: set<Value>)
      requires this in all && Consistent(all) && |vals| == |order| && operands == [] && incomingBlocks == []
      requires forall j :: 0 <= j < |vals| ==> vals[j] != null && vals[j] in all
      modifies `operands, `incomingBlocks, all`uses
      ensures Consistent(all) && operands == vals && incomingBlocks == order
    {
      hide Agree;
      var j := 0;
      while j < |order|
        invariant 0 <= j <= |order| && Consistent(all) && operands == vals[..j] && incomingBlocks == order[..j]
      {
        assert vals[..j + 1] == vals[..j] + [vals[j]] && order[..j + 1] == order[..j] + [order[j]];
        AddIncoming(vals[j], order[j], all);
        j := j + 1;
      }
      assert vals[..j] == vals && order[..j] == order;
    }

    /** The operand for every block of the order. */
    method PickValues(order: seq<Value>) returns (vals: seq<Value?>)
      requires |operands| == |incomingBlocks| && forall i, j :: 0 <= i < j < |order| ==> order[i] != order[j]
      ensures |vals| == |order| && forall j :: 0 <= j < |order| ==>
                                     vals[j] == ValueFrom(incomingBlocks, operands, order[j])
    {
      vals := seq(|order|, _ => null);
      var i := 0;
      while i < |incomingBlocks|
        invariant 0 <= i <= |incomingBlocks| && |vals| == |order|
        invariant forall j :: 0 <= j < |order| ==> vals[j] == ValueFrom(incomingBlocks[..i], operands[..i], order[j])
      {
        ghost var vals0 := vals;
        var j := 0;
        while j < |order|
          invariant 0 <= j <= |order| && vals == vals0 && forall k :: 0 <= k < j ==> order[k] != incomingBlocks[i]
        {
          if order[j] == incomingBlocks[i] {
            vals := vals[j := operands[i]];
            break;
          }
          j := j + 1;
        }
        assert incomingBlocks[..i + 1][..i] == incomingBlocks[..i] && operands[..i + 1][..i] == operands[..i];
        i := i + 1;
      }
      assert incomingBlocks[..i] == incomingBlocks && operands[..i] == operands;
    }

    /** Withdraws all uses and forgets the operands. */
    method DropOperands(ghost all: set<Value>)
      requires this in all && Consistent(all)
      modifies `operands, all`uses
      ensures Consistent(all) && operands == []
    {
      hide Agree, WithoutFirst;
      ghost var ops: map<Value, seq<Value?>> := OperandsOf(all);
      var i := 0;
      while i < |operands|
        invariant 0 <= i <= |operands| && operands == old(operands) && this in ops && Agree(UsesOf(all), ops)
        invariant ops == OperandsOf(all)[this := ops[this]] && |ops[this]| == |operands|
        invariant (forall k :: 0 <= k < i ==> ops[this][k] == null) && ops[this][i..] == operands[i..]
      {
        assert ops[this][i] == operands[i];
        if operands[i] != null {
          UnsetAgrees(UsesOf(all), ops, this, i);
          ghost var uses0 := UsesOf(all);
          operands[i].RemoveUse(this);
          assert UsesOf(all) == Unrecorded(uses0, operands[i], this);
          ops := ops[this := ops[this][i := null]];
        }
        i := i + 1;
      }
      DropAgrees(UsesOf(all), ops, this);
      operands := [];
      assert OperandsOf(all) == ops[this := []];
    }
  }

  /** The block list with one block in place of another. */
  function Renamed(s: seq<Value>, x: Value, y: Value): (r: seq<Value>)
    ensures |r| == |s| && forall i :: 0 <= i < |s| ==> r[i] == if s[i] == x then y else s[i]
  {
    seq(|s|, i requires 0 <= i < |s| => if s[i] == x then y else s[i])
  }

  /** The operands after the users in `done` were rewritten. */
  ghost function Rewritten(ops: map<Value, seq<Value?>>, done: seq<Value>, x: Value,
                           y: Value): map<Value, seq<Value?>> {
    map u | u in ops :: if u in done then Replaced(ops[u], x, y) else ops[u]
  }

  lemma NothingRewritten(ops: map<Value, seq<Value?>>, x: Value, y: Value)
    ensures Rewritten(ops, [], x, y) == ops
  {
  }

  lemma RewriteNext(ops: map<Value, seq<Value?>>, users: seq<Value>, i: nat, x: Value, y: Value)
    requires i < |users| && users[i] in ops
    ensures users[i] in Rewritten(ops, users[..i], x, y)
    ensures var before := Rewritten(ops, users[..i], x, y);
            before[users[i] := Replaced(before[users[i]], x, y)] == Rewritten(ops, users[..i + 1], x, y)
  {
    assert users[..i + 1] == users[..i] + [users[i]];
    assert Replaced(Replaced(ops[users[i]], x, y), x, y) == Replaced(ops[users[i]], x, y);
  }

  /** If all users of a value were rewritten then nobody uses it. */
  lemma AllRewritten(ops: map<Value, seq<Value?>>, users: seq<Value>, x: Value, y: Value)
    requires x != y && forall u :: u in ops && x in ops[u] ==> u in users
    ensures forall u :: u in ops ==>
              Rewritten(ops, users, x, y)[u] == Replaced(ops[u], x, y) && x !in Replaced(ops[u], x, y)
  {
    forall u | u in ops && x !in ops[u]
      ensures Replaced(ops[u], x, y) == ops[u]
    {
    }
  }

  lemma AllUsersKnown(uses: map<Value, seq<Value>>, ops: map<Value, seq<Value?>>, v: Value)
    requires Agree(uses, ops) && v in uses
    ensures forall u :: u in uses[v] ==> u in ops
  {
  }

  lemma OperandsKnown(uses: map<Value, seq<Value>>, ops: map<Value, seq<Value?>>, u: Value)
    requires Agree(uses, ops) && u in ops
    ensures forall o: Value :: o in ops[u] ==> o in ops
  {
  }
}
