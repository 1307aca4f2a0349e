/** Exactly which functions optimize_tail_call makes loops of, told without the scan: the body is well
    formed, the function's name occurs once, and no call of it is outside tail position. */
module LoopTest {
  import opened TreeWalk
  import opened TailLoop

  /** How often the function is called, or mentioned as an argument of another function. A list whose
      head is no symbol is not looked into. */
  function Mentions(f: string, e: Kl): nat
    decreases Size(e), 0
  {
    if !NonEmpty(e) || !e.items[0].Sym? then 0
    else
      SizeOfParts(e.items);
      SizeOfParts(e.items[1..]);
      var args := e.items[1..];
      if e.items[0].name == f then 1 + MentionsIn(f, args, false)
      else match KeywordOf(e.items[0].name)
        case KIf => if |args| == 3 then Mentions(f, args[0]) + Mentions(f, args[1]) + Mentions(f, args[2]) else 0
        case KCond => MentionsInCases(f, args)
        case KLet => if |args| == 3 then Mentions(f, args[1]) + Mentions(f, args[2]) else 0
        case _ => MentionsIn(f, args, true)
  }

  function MentionsIn(f: string, args: seq<Kl>, names: bool): nat
    decreases SizeAll(args), 1
  {
    if |args| == 0 then 0
    else
      SizeOfParts(args);
      OneSize(args[0]);
      (if names && args[0] == Sym(f) then 1 else Mentions(f, args[0])) + MentionsIn(f, args[1..], names)
  }

  function MentionsInCases(f: string, cases: seq<Kl>): nat
    decreases SizeAll(cases), 1
  {
    if |cases| == 0 || !cases[0].List? || |cases[0].items| != 2 then 0
    else
      SizeOfParts(cases);
      SizeOfParts(cases[0].items);
      Mentions(f, cases[0].items[0]) + Mentions(f, cases[0].items[1]) + MentionsInCases(f, cases[1..])
  }

  /** Ifs, conds and lets are well formed, calls of the function have n arguments, and all of these
      calls are in tail position. */
  predicate Loopable(f: string, n: nat, e: Kl, tail: bool)
    decreases Size(e), 0
  {
    if !NonEmpty(e) || !e.items[0].Sym? then true
    else
      SizeOfParts(e.items);
      SizeOfParts(e.items[1..]);
      var args := e.items[1..];
      if e.items[0].name == f then tail && |args| == n && AllLoopable(f, n, args)
      else match KeywordOf(e.items[0].name)
        case KIf => |args| == 3 && Loopable(f, n, args[0], false) && Loopable(f, n, args[1], tail) && Loopable(f, n, args[2], tail)
        case KCond => |args| > 0 && CasesLoopable(f, n, args, tail)
        case KLet => |args| == 3 && args[0].Sym? && Loopable(f, n, args[1], false) && Loopable(f, n, args[2], tail)
        case _ => AllLoopable(f, n, args)
  }

  predicate AllLoopable(f: string, n: nat, args: seq<Kl>)
    decreases SizeAll(args), 1
  {
    |args| > 0 ==> (
      SizeOfParts(args);
      OneSize(args[0]);
      Loopable(f, n, args[0], false) && AllLoopable(f, n, args[1..]))
  }

  predicate CasesLoopable(f: string, n: nat, cases: seq<Kl>, tail: bool)
    decreases SizeAll(cases), 1
  {
    |cases| > 0 ==> (
      cases[0].List? && |cases[0].items| == 2 && (
        SizeOfParts(cases);
        SizeOfParts(cases[0].items);
        Loopable(f, n, cases[0].items[0], false) && Loopable(f, n, cases[0].items[1], tail) && CasesLoopable(f, n, cases[1..], tail)))
  }

  /** A scan goes on well exactly when what it meets is in order and no second mention comes. */
  predicate GoesOn(s: Scan, r: Scan, fits: bool, mentions: nat) {
    && (r.verdict.PossiblyTail? <==> s.verdict.PossiblyTail? && fits && (mentions == 0 || s.calls + mentions == 1))
    && (r.verdict.PossiblyTail? ==> r.calls == s.calls + mentions)
  }

  lemma {:induction false} ScanExactly(f: string, n: nat, e: Kl, tail: bool, s: Scan)
    requires KeywordOf(f).KNone?
    ensures GoesOn(s, Analyze(f, n, e, tail, s), Loopable(f, n, e, tail), Mentions(f, e))
    decreases Size(e), 0
  {
    hide KeywordOf, AnalyzeAll, AnalyzeCases, MentionsIn, MentionsInCases, AllLoopable, CasesLoopable;
    if s.verdict.PossiblyTail? && NonEmpty(e) && e.items[0].Sym? {
      SizeOfParts(e.items);
      SizeOfParts(e.items[1..]);
      var args := e.items[1..];
      if e.items[0].name == f {
        ScanAllExactly(f, n, args, false, s.(calls := s.calls + 1));
      } else {
        match KeywordOf(e.items[0].name) {
          case KIf =>
            if |args| == 3 {
              ScanIfExactly(f, n, args[0], args[1], args[2], tail, s);
            }
          case KCond => ScanCasesExactly(f, n, args, tail, s);
          case KLet =>
            if |args| == 3 && args[0].Sym? {
              ScanLetExactly(f, n, args[1], args[2], tail, s);
            }
          case _ => ScanAllExactly(f, n, args, true, s);
        }
      }
    }
  }

  lemma {:induction false} ScanIfExactly(f: string, n: nat, test: Kl, yes: Kl, no: Kl, tail: bool, s: Scan)
    requires KeywordOf(f).KNone?
    ensures GoesOn(s, Analyze(f, n, no, tail, Analyze(f, n, yes, tail, Analyze(f, n, test, false, s))),
      Loopable(f, n, test, false) && Loopable(f, n, yes, tail) && Loopable(f, n, no, tail),
      Mentions(f, test) + Mentions(f, yes) + Mentions(f, no))
    decreases Size(test) + Size(yes) + Size(no), 1
  {
    hide KeywordOf, Analyze, Loopable, Mentions;
    OneSize(test);
    OneSize(yes);
    OneSize(no);
    var t := Analyze(f, n, test, false, s);
    ScanExactly(f, n, test, false, s);
    ScanExactly(f, n, yes, tail, t);
    ScanExactly(f, n, no, tail, Analyze(f, n, yes, tail, t));
  }

  lemma {:induction false} ScanLetExactly(f: string, n: nat, bound: Kl, body: Kl, tail: bool, s: Scan)
    requires KeywordOf(f).KNone?
    ensures GoesOn(s, Analyze(f, n, body, tail, Analyze(f, n, bound, false, s)),
      Loopable(f, n, bound, false) && Loopable(f, n, body, tail), Mentions(f, bound) + Mentions(f, body))
    decreases Size(bound) + Size(body), 1
  {
    hide KeywordOf, Analyze, Loopable, Mentions;
    OneSize(bound);
    OneSize(body);
    ScanExactly(f, n, bound, false, s);
    ScanExactly(f, n, body, tail, Analyze(f, n, bound, false, s));
  }

  lemma {:induction false} ScanAllExactly(f: string, n: nat, args: seq<Kl>, names: bool, s: Scan)
    requires KeywordOf(f).KNone?
    ensures GoesOn(s, AnalyzeAll(f, n, args, names, s), AllLoopable(f, n, args), MentionsIn(f, args, names))
    decreases SizeAll(args), 1
  {
    hide KeywordOf, Analyze;
    if |args| > 0 && !s.verdict.Rejected? {
      SizeOfParts(args);
      OneSize(args[0]);
      if names && args[0] == Sym(f) {
        assert Loopable(f, n, args[0], false) && Mentions(f, args[0]) == 0;
        ScanAllExactly(f, n, args[1..], names, s.(calls := s.calls + 1));
      } else {
        ScanExactly(f, n, args[0], false, s);
        ScanAllExactly(f, n, args[1..], names, Analyze(f, n, args[0], false, s));
      }
    }
  }

  lemma {:induction false} ScanCasesExactly(f: string, n: nat, cases: seq<Kl>, tail: bool, s: Scan)
    requires KeywordOf(f).KNone?
    ensures GoesOn(s, AnalyzeCases(f, n, cases, tail, s), CasesLoopable(f, n, cases, tail), MentionsInCases(f, cases))
    decreases SizeAll(cases), 1
  {
    hide KeywordOf, Analyze, Loopable, Mentions;
    if |cases| > 0 && !s.verdict.Rejected? && cases[0].List? && |cases[0].items| == 2 {
      SizeOfParts(cases);
      SizeOfParts(cases[0].items);
      var test, body := cases[0].items[0], cases[0].items[1];
      var t := Analyze(f, n, test, false, s);
      ScanExactly(f, n, test, false, s);
      ScanExactly(f, n, body, tail, t);
      ScanCasesExactly(f, n, cases[1..], tail, Analyze(f, n, body, tail, t));
    }
  }

  /** The functions that become loops. */
  lemma LoopsExactly(f: string, d: Defun)
    requires KeywordOf(f).KNone?
    ensures IsLoop(f, d) <==>
      && (HeadedBy(d.body, f) || HeadedBy(d.body, "if") || HeadedBy(d.body, "cond") || HeadedBy(d.body, "let"))
      && Loopable(f, |d.params|, d.body, true) && Mentions(f, d.body) == 1
  {
    hide Analyze, Loopable, Mentions, KeywordOf;
    ScanExactly(f, |d.params|, d.body, true, Scan(PossiblyTail, 0));
  }
}
