/** What the C compiler checks of generated code: every temporary is declared, in the same function
    and in scope, before it is read. */
module Acceptance {
  import opened NativeCode

  /** The temporaries in scope after some statements. */
  function After(stmts: seq<Stmt>, d: set<Temp>): set<Temp> {
    if |stmts| == 0 then d else After(stmts[1..], AfterOne(stmts[0], d))
  }

  function AfterOne(s: Stmt, d: set<Temp>): set<Temp> {
    match s
    case Set(t, _) => d + {t}
    case If(t, _, _, _, _, _, _) => d + {t}
    case _ => d
  }

  predicate Accepted(stmts: seq<Stmt>, d: set<Temp>) {
    |stmts| == 0 || (AcceptedOne(stmts[0], d) && Accepted(stmts[1..], AfterOne(stmts[0], d)))
  }

  predicate InScope(ts: seq<Temp>, d: set<Temp>) {
    forall i :: 0 <= i < |ts| ==> ts[i] in d
  }

  predicate AcceptedOne(s: Stmt, d: set<Temp>) {
    match s
    case Set(_, rhs) => InScope(Operands(rhs), d)
    case Check(test, _) => test in d
    case If(_, test, _, yes, yesT, no, noT) =>
      && test in d
      && Accepted(yes, d) && yesT in After(yes, d)
      && Accepted(no, d) && noT in After(no, d)
    case _ => true
  }

  predicate AcceptedFunction(f: Function) {
    var d := (set i | 0 <= i < |f.captures| :: f.captures[i]) + (set i | 0 <= i < |f.params| :: f.params[i]);
    Accepted(f.body, d) && f.result in After(f.body, d)
  }

  predicate AcceptedCode(c: Code) {
    && (forall id :: id in c.lambdas ==> AcceptedFunction(c.lambdas[id]))
    && (forall id :: id in c.bodies ==> AcceptedFunction(c.bodies[id]))
    && (forall id :: id in c.handlers ==> AcceptedFunction(c.handlers[id]))
    && (forall name :: name in c.defuns ==> AcceptedFunction(c.defuns[name]))
  }

  lemma {:induction false} AfterConcat(a: seq<Stmt>, b: seq<Stmt>, d: set<Temp>)
    ensures After(a + b, d) == After(b, After(a, d))
    ensures Accepted(a + b, d) <==> Accepted(a, d) && Accepted(b, After(a, d))
    decreases |a|
  {
    if |a| == 0 {
      assert a + b == b;
    } else {
      assert (a + b)[0] == a[0] && (a + b)[1..] == a[1..] + b;
      AfterConcat(a[1..], b, AfterOne(a[0], d));
    }
  }
}
