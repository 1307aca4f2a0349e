/** Which statement a call is turned into (src/c/emit.c): the choices that the meaning of the code does
    not show. */
module EmissionLaws {
  import opened Options
  import opened KlSyntax
  import opened NativeCode
  import opened Emission

  function Last(stmts: seq<Stmt>): Stmt
    requires |stmts| > 0
  {
    stmts[|stmts| - 1]
  }

  /** A call by a name that is neither bound nor a form. */
  ghost predicate IsNamedCall(f: string, args: seq<Kl>, binds: seq<Bound>) {
    TempOf(binds, f).None? && !IsSpecial(f)
  }

  lemma CallIsEmitted(f: string, args: seq<Kl>, binds: seq<Bound>, self: Option<Self>, tail: bool, k: Counters)
    requires IsNamedCall(f, args, binds)
    ensures Emit(List([Sym(f)] + args), binds, self, tail, k) == EmitNamed(f, args, binds, self, tail, k)
  {
    hide EmitNamed, IsSpecial;
    assert ([Sym(f)] + args)[1..] == args;
  }

  /** The primitives that are called in place, with their number of arguments. */
  predicate CalledInPlace(f: string, n: nat) {
    || (n == 2 && f in {"+", "-", "*", "/", "<", ">", "<=", ">=", "=", "cons"})
    || (n == 1 && f in {"hd", "tl", "cons?", "number?", "string?", "symbol?", "absvector?"})
  }

  /** Such a call reads no function cell and is never a tail call. */
  lemma InPlaceLaw(f: string, args: seq<Kl>, binds: seq<Bound>, self: Option<Self>, tail: bool, k: Counters)
    requires IsNamedCall(f, args, binds) && CalledInPlace(f, |args|)
    ensures var o := Emit(List([Sym(f)] + args), binds, self, tail, k);
      o.Out? ==> |o.stmts| > 0 && exists ts :: |ts| == |args| && Last(o.stmts) == Set(o.t, Inline(f, ts))
  {
    hide Emit, EmitArgs;
    CallIsEmitted(f, args, binds, self, tail, k);
    var a := EmitArgs(args, binds, self, k);
  }

  /** A tail call of the function itself is a jump, any other tail call by name is left to the
      trampoline, and a call elsewhere is made at once. */
  lemma NamedCallLaw(f: string, args: seq<Kl>, binds: seq<Bound>, self: Option<Self>, tail: bool, k: Counters)
    requires IsNamedCall(f, args, binds) && !CalledInPlace(f, |args|)
    ensures var o := Emit(List([Sym(f)] + args), binds, self, tail, k);
      var again := tail && self.Some? && self.value.name == f && |self.value.params| == |args|;
      o.Out? ==>
        && (again ==> |o.stmts| > 1 && o.stmts[|o.stmts| - 2] == Goto)
        && (!again ==> |o.stmts| > 0 && exists ts :: |ts| == |args| && Last(o.stmts) == Set(o.t, if tail then TailDirect(f, ts) else Direct(f, ts)))
  {
    hide Emit, EmitArgs;
    CallIsEmitted(f, args, binds, self, tail, k);
    var again := tail && self.Some? && self.value.name == f && |self.value.params| == |args|;
    var a := EmitArgs(args, binds, self, if again then k else Fresh(k, 1));
  }

  /** The same of a call through a value. */
  lemma ValueCallLaw(head: Kl, args: seq<Kl>, binds: seq<Bound>, self: Option<Self>, tail: bool, k: Counters)
    requires head.Sym? ==> TempOf(binds, head.name).Some?
    ensures var o := Emit(List([head] + args), binds, self, tail, k);
      o.Out? ==> |o.stmts| > 0 && exists h, ts :: |ts| == |args| && Last(o.stmts) == Set(o.t, if tail then TailIndirect(h, ts) else Indirect(h, ts))
  {
    hide EmitArgs;
    assert ([head] + args)[1..] == args;
    assert Emit(List([head] + args), binds, self, tail, k) == EmitValueCall(head, args, binds, self, tail, k);
  }
}
