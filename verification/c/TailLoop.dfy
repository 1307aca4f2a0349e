/** eval_defun_expression turns a function whose body holds one self tail call into a c.loop
    (src/c/evaluator.c): the analysis, the rewriting and the loop around the body. */
module TailLoop {
  import opened Options
  import opened TreeWalk

  datatype Verdict = PossiblyTail | NonTail | Rejected(message: string)

  /** What the analysis has found so far; calls counts the function's own name. */
  datatype Scan = Scan(verdict: Verdict, calls: nat)

  /** analyze_tail_call_helper below the top level. tail: e is in tail position. */
  function Analyze(f: string, n: nat, e: Kl, tail: bool, s: Scan): Scan
    decreases Size(e), 0
  {
    if !s.verdict.PossiblyTail? || !NonEmpty(e) || !e.items[0].Sym? then s
    else
      SizeOfParts(e.items);
      SizeOfParts(e.items[1..]);
      var args := e.items[1..];
      if e.items[0].name == f then
        if !tail then s.(verdict := NonTail)
        else if s.calls > 0 then Scan(NonTail, s.calls + 1)
        else if |args| != n then Scan(Rejected("Wrong number of arguments for function application"), s.calls + 1)
        else AnalyzeAll(f, n, args, false, s.(calls := s.calls + 1))
      else match KeywordOf(e.items[0].name)
        case KIf =>
          if |args| != 3 then s.(verdict := Rejected("Wrong number of arguments for if expression"))
          else Analyze(f, n, args[2], tail, Analyze(f, n, args[1], tail, Analyze(f, n, args[0], false, s)))
        case KCond =>
          if |args| == 0 then s.(verdict := Rejected("No true case found for cond")) else AnalyzeCases(f, n, args, tail, s)
        case KLet =>
          if |args| != 3 then s.(verdict := Rejected("Wrong number of arguments for let expression"))
          else if !args[0].Sym? then s.(verdict := Rejected("Let variable should be a symbol"))
          else Analyze(f, n, args[2], tail, Analyze(f, n, args[1], false, s))
        case _ => AnalyzeAll(f, n, args, true, s)
  }

  /** The arguments of a call; names: a mere mention of the function's name counts too. */
  function AnalyzeAll(f: string, n: nat, args: seq<Kl>, names: bool, s: Scan): Scan
    decreases SizeAll(args), 1
  {
    if |args| == 0 || s.verdict.Rejected? then s
    else
      SizeOfParts(args);
      if names && args[0] == Sym(f) then
        if s.calls > 0 then Scan(NonTail, s.calls + 1) else AnalyzeAll(f, n, args[1..], names, s.(calls := s.calls + 1))
      else AnalyzeAll(f, n, args[1..], names, Analyze(f, n, args[0], false, s))
  }

  /** Malformed cases are rejected even where the function is known to be no loop. */
  function AnalyzeCases(f: string, n: nat, cases: seq<Kl>, tail: bool, s: Scan): Scan
    decreases SizeAll(cases), 1
  {
    if |cases| == 0 || s.verdict.Rejected? then s
    else if !cases[0].List? then s.(verdict := Rejected("Cond case should be a list"))
    else if |cases[0].items| != 2 then s.(verdict := Rejected("Wrong number of arguments for a case"))
    else
      SizeOfParts(cases);
      SizeOfParts(cases[0].items);
      var t := Analyze(f, n, cases[0].items[0], false, s);
      AnalyzeCases(f, n, cases[1..], tail, Analyze(f, n, cases[0].items[1], tail, t))
  }

  /** analyze_tail_call */
  function AnalyzeBody(f: string, n: nat, body: Kl): Scan {
    if HeadedBy(body, f) || HeadedBy(body, "if") || HeadedBy(body, "cond") || HeadedBy(body, "let")
    then Analyze(f, n, body, true, Scan(PossiblyTail, 0))
    else Scan(NonTail, 0)
  }

  predicate IsLoop(f: string, d: Defun) {
    AnalyzeBody(f, |d.params|, d.body) == Scan(PossiblyTail, 1)
  }

  /** tail_call_to_c_recur_expression: the first self call in tail position gets the head c.recur. */
  function ToRecur(f: string, e: Kl): Option<Kl>
    decreases Size(e), 0
  {
    if !NonEmpty(e) || !e.items[0].Sym? then None
    else if e.items[0].name == f then Some(List(e.items[0 := Sym("c.recur")]))
    else
      SizeOfParts(e.items);
      SizeOfParts(e.items[1..]);
      match KeywordOf(e.items[0].name)
      case KIf =>
        if |e.items| != 4 then None
        else if ToRecur(f, e.items[2]).Some? then Some(List(e.items[2 := ToRecur(f, e.items[2]).value]))
        else if ToRecur(f, e.items[3]).Some? then Some(List(e.items[3 := ToRecur(f, e.items[3]).value]))
        else None
      case KCond =>
        var cases := CasesToRecur(f, e.items[1..]);
        if cases.Some? then Some(List([e.items[0]] + cases.value)) else None
      case KLet =>
        if |e.items| == 4 && ToRecur(f, e.items[3]).Some? then Some(List(e.items[3 := ToRecur(f, e.items[3]).value])) else None
      case _ => None
  }

  function CasesToRecur(f: string, cases: seq<Kl>): Option<seq<Kl>>
    decreases SizeAll(cases), 1
  {
    if |cases| == 0 || !cases[0].List? || |cases[0].items| != 2 then None
    else
      SizeOfParts(cases);
      SizeOfParts(cases[0].items);
      var here := ToRecur(f, cases[0].items[1]);
      if here.Some? then Some([List(cases[0].items[1 := here.value])] + cases[1..])
      else
        var rest := CasesToRecur(f, cases[1..]);
        if rest.Some? then Some([cases[0]] + rest.value) else None
  }

  /** The names of a loop and the parameters that they start from, alternating. */
  function Interleave(names: seq<string>, made: seq<string>): (r: seq<Kl>)
    requires |names| == |made|
    ensures |r| == 2 * |names|
  {
    if |names| == 0 then [] else [Sym(names[0]), Sym(made[0])] + Interleave(names[1..], made[1..])
  }

  /** wrap_function_with_c_loop_expression: the function gets generated parameters. */
  function Wrap(params: seq<string>, made: seq<string>, body: Kl): Defun
    requires |made| == |params|
  {
    Defun(made, List([Sym("c.loop"), List(Interleave(params, made)), body]))
  }

  datatype Definition = Rejection(message: string) | Definition(defun: Defun)

  /** optimize_tail_call for a function with that many generated symbols at hand. */
  function Optimise(f: string, d: Defun, made: seq<string>): Definition
    requires |made| == |d.params|
  {
    var s := AnalyzeBody(f, |d.params|, d.body);
    if s.verdict.Rejected? then Rejection(s.verdict.message)
    else if !IsLoop(f, d) then Definition(d)
    else
      var r := ToRecur(f, d.body);
      Definition(Wrap(d.params, made, if r.Some? then r.value else d.body))
  }

  /** Along its tail positions e is well formed, and every self call there has n arguments. */
  predicate TailFits(f: string, n: nat, e: Kl)
    decreases Size(e), 0
  {
    if !NonEmpty(e) || !e.items[0].Sym? then true
    else if e.items[0].name == f then |e.items| == n + 1
    else
      SizeOfParts(e.items);
      SizeOfParts(e.items[1..]);
      match KeywordOf(e.items[0].name)
      case KIf => |e.items| == 4 && TailFits(f, n, e.items[2]) && TailFits(f, n, e.items[3])
      case KCond => |e.items| > 1 && CasesFit(f, n, e.items[1..])
      case KLet => |e.items| == 4 && e.items[1].Sym? && TailFits(f, n, e.items[3])
      case _ => true
  }

  predicate CasesFit(f: string, n: nat, cases: seq<Kl>)
    decreases SizeAll(cases), 1
  {
    if |cases| == 0 then true
    else
      SizeOfParts(cases);
      && cases[0].List? && |cases[0].items| == 2
      && (SizeOfParts(cases[0].items); TailFits(f, n, cases[0].items[1]))
      && (OneSize(cases[0]); CasesFit(f, n, cases[1..]))
  }

  /** What the analysis does not reject fits. */
  lemma {:induction false} AcceptedFits(f: string, n: nat, e: Kl, s: Scan)
    requires Analyze(f, n, e, true, s).verdict.PossiblyTail?
    ensures s.verdict.PossiblyTail? && TailFits(f, n, e)
    decreases Size(e), 0
  {
    hide KeywordOf;
    if NonEmpty(e) && e.items[0].Sym? && s.verdict.PossiblyTail? && e.items[0].name != f {
      SizeOfParts(e.items);
      SizeOfParts(e.items[1..]);
      var args := e.items[1..];
      match KeywordOf(e.items[0].name) {
        case KIf =>
          if |args| == 3 {
            var t := Analyze(f, n, args[0], false, s);
            AcceptedFits(f, n, args[2], Analyze(f, n, args[1], true, t));
            AcceptedFits(f, n, args[1], t);
          }
        case KCond =>
          AcceptedCasesFit(f, n, args, s);
        case KLet =>
          if |args| == 3 && args[0].Sym? {
            AcceptedFits(f, n, args[2], Analyze(f, n, args[1], false, s));
          }
        case _ =>
      }
    }
  }

  lemma {:induction false} AcceptedCasesFit(f: string, n: nat, cases: seq<Kl>, s: Scan)
    requires AnalyzeCases(f, n, cases, true, s).verdict.PossiblyTail?
    ensures s.verdict.PossiblyTail? && CasesFit(f, n, cases)
    decreases SizeAll(cases), 1
  {
    if |cases| > 0 && !s.verdict.Rejected? && cases[0].List? && |cases[0].items| == 2 {
      SizeOfParts(cases);
      SizeOfParts(cases[0].items);
      OneSize(cases[0]);
      var t := Analyze(f, n, cases[0].items[0], false, s);
      AcceptedCasesFit(f, n, cases[1..], Analyze(f, n, cases[0].items[1], true, t));
      AcceptedFits(f, n, cases[0].items[1], t);
    }
  }
}
