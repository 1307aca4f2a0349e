/** After optimize_tail_call no self call is left in tail position. */
module LoopShape {
  import opened Options
  import opened TreeWalk
  import opened TailLoop

  /** The self calls in tail position. */
  function TailCalls(f: string, e: Kl): nat
    decreases Size(e), 0
  {
    if !NonEmpty(e) || !e.items[0].Sym? then 0
    else if e.items[0].name == f then 1
    else
      SizeOfParts(e.items);
      SizeOfParts(e.items[1..]);
      match KeywordOf(e.items[0].name)
      case KIf => if |e.items| == 4 then TailCalls(f, e.items[2]) + TailCalls(f, e.items[3]) else 0
      case KCond => TailCallsIn(f, e.items[1..])
      case KLet => if |e.items| == 4 then TailCalls(f, e.items[3]) else 0
      case _ => 0
  }

  function TailCallsIn(f: string, cases: seq<Kl>): nat
    decreases SizeAll(cases), 1
  {
    if |cases| == 0 || !cases[0].List? || |cases[0].items| != 2 then 0
    else
      SizeOfParts(cases);
      SizeOfParts(cases[0].items);
      TailCalls(f, cases[0].items[1]) + TailCallsIn(f, cases[1..])
  }

  // What the analysis counts --------------------------------------------------------------------

  lemma {:induction false} Counted(f: string, n: nat, e: Kl, tail: bool, s: Scan)
    ensures var r := Analyze(f, n, e, tail, s);
      r.calls >= s.calls && (tail && r.verdict.PossiblyTail? ==> r.calls >= s.calls + TailCalls(f, e))
    decreases Size(e), 0
  {
    hide KeywordOf;
    if s.verdict.PossiblyTail? && NonEmpty(e) && e.items[0].Sym? {
      SizeOfParts(e.items);
      SizeOfParts(e.items[1..]);
      var args := e.items[1..];
      if e.items[0].name == f {
        AllCounted(f, n, args, false, s.(calls := s.calls + 1));
      } else {
        match KeywordOf(e.items[0].name) {
          case KIf =>
            if |args| == 3 {
              var t := Analyze(f, n, args[0], false, s);
              var y := Analyze(f, n, args[1], tail, t);
              Counted(f, n, args[0], false, s);
              Counted(f, n, args[1], tail, t);
              Counted(f, n, args[2], tail, y);
              Backwards(f, n, args[2], tail, y);
            }
          case KCond => CasesCounted(f, n, args, tail, s);
          case KLet =>
            if |args| == 3 && args[0].Sym? {
              Counted(f, n, args[1], false, s);
              Counted(f, n, args[2], tail, Analyze(f, n, args[1], false, s));
            }
          case _ => AllCounted(f, n, args, true, s);
        }
      }
    }
  }

  /** A scan that ends well was well before. */
  lemma Backwards(f: string, n: nat, e: Kl, tail: bool, s: Scan)
    ensures Analyze(f, n, e, tail, s).verdict.PossiblyTail? ==> s.verdict.PossiblyTail?
  {
    hide KeywordOf, AnalyzeAll, AnalyzeCases;
  }

  lemma {:induction false} AllCounted(f: string, n: nat, args: seq<Kl>, names: bool, s: Scan)
    ensures AnalyzeAll(f, n, args, names, s).calls >= s.calls
    decreases SizeAll(args), 1
  {
    if |args| > 0 && !s.verdict.Rejected? {
      SizeOfParts(args);
      AllCounted(f, n, args[1..], names, s.(calls := s.calls + 1));
      Counted(f, n, args[0], false, s);
      AllCounted(f, n, args[1..], names, Analyze(f, n, args[0], false, s));
    }
  }

  lemma {:induction false} CasesCounted(f: string, n: nat, cases: seq<Kl>, tail: bool, s: Scan)
    ensures var r := AnalyzeCases(f, n, cases, tail, s);
      && r.calls >= s.calls && (r.verdict.PossiblyTail? ==> s.verdict.PossiblyTail?)
      && (tail && r.verdict.PossiblyTail? ==> r.calls >= s.calls + TailCallsIn(f, cases))
    decreases SizeAll(cases), 1
  {
    hide KeywordOf, Analyze;
    if |cases| > 0 && !s.verdict.Rejected? && cases[0].List? && |cases[0].items| == 2 {
      SizeOfParts(cases);
      SizeOfParts(cases[0].items);
      var test, body := cases[0].items[0], cases[0].items[1];
      var t := Analyze(f, n, test, false, s);
      Counted(f, n, test, false, s);
      Backwards(f, n, test, false, s);
      Counted(f, n, body, tail, t);
      Backwards(f, n, body, tail, t);
      CasesCounted(f, n, cases[1..], tail, Analyze(f, n, body, tail, t));
    }
  }

  // What the rewriting removes ------------------------------------------------------------------

  lemma {:induction false} OneRemoved(f: string, e: Kl)
    requires KeywordOf(f).KNone?
    ensures ToRecur(f, e).Some? <==> TailCalls(f, e) > 0
    ensures ToRecur(f, e).Some? ==> TailCalls(f, ToRecur(f, e).value) + 1 == TailCalls(f, e)
    decreases Size(e), 0
  {
    assert KeywordOf("c.recur").KRecur?;
    hide KeywordOf;
    if NonEmpty(e) && e.items[0].Sym? && e.items[0].name != f {
      SizeOfParts(e.items);
      SizeOfParts(e.items[1..]);
      match KeywordOf(e.items[0].name) {
        case KIf =>
          if |e.items| == 4 {
            OneRemoved(f, e.items[2]);
            OneRemoved(f, e.items[3]);
          }
        case KCond =>
          OneRemovedIn(f, e.items[1..]);
          var cases := CasesToRecur(f, e.items[1..]);
          if cases.Some? {
            assert ([e.items[0]] + cases.value)[1..] == cases.value;
          }
        case KLet =>
          if |e.items| == 4 {
            OneRemoved(f, e.items[3]);
          }
        case _ =>
      }
    }
  }

  lemma {:induction false} OneRemovedIn(f: string, cases: seq<Kl>)
    requires KeywordOf(f).KNone?
    ensures CasesToRecur(f, cases).Some? <==> TailCallsIn(f, cases) > 0
    ensures CasesToRecur(f, cases).Some? ==> TailCallsIn(f, CasesToRecur(f, cases).value) + 1 == TailCallsIn(f, cases)
    decreases SizeAll(cases), 1
  {
    hide KeywordOf, ToRecur, TailCalls;
    if |cases| > 0 && cases[0].List? && |cases[0].items| == 2 {
      SizeOfParts(cases);
      SizeOfParts(cases[0].items);
      OneRemoved(f, cases[0].items[1]);
      OneRemovedIn(f, cases[1..]);
      var r := CasesToRecur(f, cases);
      if ToRecur(f, cases[0].items[1]).Some? {
        assert r.value[1..] == cases[1..];
      } else if r.Some? {
        assert r.value[1..] == CasesToRecur(f, cases[1..]).value;
      }
    }
  }

  /** The c.loop takes over every self call in tail position. */
  lemma {:induction false} NoTailCallIsLeft(f: string, d: Defun)
    requires KeywordOf(f).KNone? && IsLoop(f, d)
    ensures TailCalls(f, d.body) <= 1
    ensures TailCalls(f, if ToRecur(f, d.body).Some? then ToRecur(f, d.body).value else d.body) == 0
  {
    hide Analyze, KeywordOf;
    Counted(f, |d.params|, d.body, true, Scan(PossiblyTail, 0));
    OneRemoved(f, d.body);
  }
}
