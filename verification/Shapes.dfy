/** What can be read off a statement: what it declares, where generating it stops, and where it jumps. */
module Shapes {
  import opened Ast

  // ----- what may be generated -----

  /** Whether generating `s` leaves the insertion point in a block that is ended. */
  predicate Closes(s: Stmt) {
    match s
    case Block(body) => exists i :: 0 <= i < |body| && Closes(body[i])
    case If(_, s1, Some(s2)) => Closes(s1) && Closes(s2)
    case Break => true
    case Continue => true
    case Return(_) => true
    case _ => false
  }

  /** Generation comes to the `i`-th statement of a block. */
  predicate Comes(body: seq<Stmt>, i: nat) {
    i <= |body| && forall j :: 0 <= j < i ==> !Closes(body[j])
  }

  /** The generated statements assign to no constant, and jump only inside loops. */
  predicate Generable(s: Stmt, inLoop: bool) {
    match s
    case Block(body) => forall i: nat :: i < |body| && Comes(body, i) ==> Generable(body[i], inLoop)
    case Assign(_, d, _) => !d.Constant?
    case If(_, s1, None) => Generable(s1, inLoop)
    case If(_, s1, Some(s2)) => Generable(s1, inLoop) && Generable(s2, inLoop)
    case While(_, b) => Generable(b, true)
    case Break => inLoop
    case Continue => inLoop
    case _ => true
  }

  /** The variables declared inside a statement. */
  function Declares(s: Stmt): set<nat> {
    match s
    case Block(body) => DeclaresAll(body)
    case VarDecl(id, _, _) => {id}
    case If(_, s1, None) => Declares(s1)
    case If(_, s1, Some(s2)) => Declares(s1) + Declares(s2)
    case While(_, b) => Declares(b)
    case _ => {}
  }

  function DeclaresAll(ss: seq<Stmt>): set<nat> {
    if ss == [] then {} else DeclaresAll(ss[..|ss| - 1]) + Declares(ss[|ss| - 1])
  }

  /** Every declaration is a node of its own. */
  predicate DeclaresOnce(s: Stmt) {
    match s
    case Block(body) => AllDeclareOnce(body)
    case If(_, s1, None) => DeclaresOnce(s1)
    case If(_, s1, Some(s2)) => DeclaresOnce(s1) && DeclaresOnce(s2) && Declares(s1) !! Declares(s2)
    case While(_, b) => DeclaresOnce(b)
    case _ => true
  }

  predicate AllDeclareOnce(ss: seq<Stmt>) {
    ss == [] || (AllDeclareOnce(ss[..|ss| - 1]) && DeclaresOnce(ss[|ss| - 1])
                 && DeclaresAll(ss[..|ss| - 1]) !! Declares(ss[|ss| - 1]))
  }

  predicate Distinct(ids: seq<nat>) {
    forall i, j :: 0 <= i < j < |ids| ==> ids[i] != ids[j]
  }
}
