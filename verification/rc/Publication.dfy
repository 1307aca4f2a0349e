/** Publishing a compiled object in the cache directory (compile_execute and object_receipt in
    src/rc/native_compile.c). The files of one key are changed in atomic steps under a lock; a crash
    or an error return can come between any two steps, and files can be damaged from outside at any
    time. Digests are collision free, so a key stands for one program text and a receipt for one
    object. */
module Publication {
  import opened Options

  /** A receipt is the digest of an object, or something that is no object's digest. */
  datatype Receipt = Sum(object_: nat) | Garbage

  /** true in source means that the file holds exactly the text of the key. */
  datatype Disk = Disk(source: Option<bool>, object_: Option<nat>, receipt: Option<Receipt>)

  /** How far the holder of the lock has come. */
  datatype Phase = Idle | Checked | Refused | Written | Compiled(temp: nat) | Renamed | Published

  /** produced lists the outputs of successful compiles of the text, served the objects that were
      loaded from disk. */
  datatype State = State(disk: Disk, phase: Phase, produced: set<nat>, served: set<nat>)

  datatype Event =
    | Check
    | Load
    | LoadFails
    | WriteSource
    | CompileOk(object_: nat)
    | CompileFails
    | Rename
    | Publish
    | Crash
    | Damage(disk: Disk)
    | DamageTemp(object_: nat)

  /** The source file holds the text of the key. */
  predicate Intact(d: Disk) {
    d.source.Some? && d.source.value
  }

  /** same_file on the source and object_receipt on the object. */
  predicate Accepts(d: Disk) {
    Intact(d) && d.object_.Some? && d.receipt == Some(Sum(d.object_.value))
  }

  /** The object file is opened once to be checked or published and again to be loaded. A request
      compiles when the check refuses the files, and when an accepted object does not load or bind. */
  predicate Possible(s: State, e: Event) {
    match e
    case Check => s.phase.Idle?
    case Load => (s.phase.Checked? || s.phase.Published?) && s.disk.object_.Some?
    case LoadFails => s.phase.Checked? || s.phase.Published?
    case WriteSource => s.phase.Refused?
    case CompileOk(_) => s.phase.Written? && s.disk.source.Some?
    case CompileFails => s.phase.Written?
    case Rename => s.phase.Compiled?
    case Publish => s.phase.Renamed? && s.disk.object_.Some?
    case Crash => true
    case Damage(_) => true
    case DamageTemp(_) => s.phase.Compiled?
  }

  /** The compiler reads the source file; only an undamaged one gives an output for the text. The
      receipt is computed from the object as it is read back. */
  function Next(s: State, e: Event): State
    requires Possible(s, e)
  {
    match e
    case Check => s.(phase := if Accepts(s.disk) then Checked else Refused)
    case Load => s.(phase := Idle, served := s.served + {s.disk.object_.value})
    case LoadFails => s.(phase := if s.phase.Checked? then Refused else Idle)
    case WriteSource => s.(disk := s.disk.(source := Some(true)), phase := Written)
    case CompileOk(o) => s.(phase := Compiled(o), produced := if Intact(s.disk) then s.produced + {o} else s.produced)
    case CompileFails => s.(phase := Idle)
    case Rename => s.(disk := s.disk.(object_ := Some(s.phase.temp)), phase := Renamed)
    case Publish => s.(disk := s.disk.(receipt := Some(Sum(s.disk.object_.value))), phase := Published)
    case Crash => s.(phase := Idle)
    case Damage(d) => s.(disk := d)
    case DamageTemp(o) => s.(phase := Compiled(o))
  }

  /** Damage that puts nothing right: a receipt that is changed is no object's digest, and a source
      that is changed is not given the text. Objects can become anything. */
  predicate Accidental(s: State, e: Event) {
    e.Damage? ==>
      && (e.disk.receipt == s.disk.receipt || e.disk.receipt.None? || e.disk.receipt == Some(Garbage))
      && (e.disk.source == s.disk.source || !Intact(e.disk))
  }

  /** The lock holder is about to use a file that it will not check again, and gets something else
      instead. A file that is lost does no harm. */
  predicate Misleads(s: State, d: Disk) {
    || (s.phase.Written? && d.source.Some? && !Intact(d))
    || ((s.phase.Checked? || s.phase.Renamed? || s.phase.Published?) && d.object_.Some? && d.object_.value !in s.produced)
  }

  /** An object that was never produced lies beside the receipt for it. */
  predicate Forges(s: State, d: Disk) {
    d.object_.Some? && d.receipt == Some(Sum(d.object_.value)) && d.object_.value !in s.produced
  }

  /** The damage that does harm. */
  predicate Dangerous(s: State, e: Event) {
    match e
    case Damage(d) => Misleads(s, d) || Forges(s, d)
    case DamageTemp(o) => o !in s.produced
    case _ => false
  }

  ghost predicate Run(s: State, es: seq<Event>)
    decreases |es|
  {
    |es| == 0 || (Possible(s, es[0]) && Run(Next(s, es[0]), es[1..]))
  }

  ghost function After(s: State, es: seq<Event>): State
    requires Run(s, es)
    decreases |es|
  {
    if |es| == 0 then s else After(Next(s, es[0]), es[1..])
  }

  /** A run in which no damage is dangerous. */
  ghost predicate Guarded(s: State, es: seq<Event>)
    requires Run(s, es)
    decreases |es|
  {
    |es| == 0 || (!Dangerous(s, es[0]) && Guarded(Next(s, es[0]), es[1..]))
  }

  ghost predicate AllAccidental(s: State, es: seq<Event>)
    requires Run(s, es)
    decreases |es|
  {
    |es| == 0 || (Accidental(s, es[0]) && AllAccidental(Next(s, es[0]), es[1..]))
  }

  predicate Undisturbed(es: seq<Event>) {
    forall i :: 0 <= i < |es| ==> !es[i].Damage? && !es[i].DamageTemp?
  }

  predicate Served(s: State) {
    s.served <= s.produced
  }

  /** An object beside the receipt for it, and whatever is about to be published or loaded, was
      produced. */
  predicate Sound(s: State) {
    && !Forges(s, s.disk)
    && (s.phase.Written? ==> s.disk.source.None? || Intact(s.disk))
    && (s.phase.Compiled? ==> s.phase.temp in s.produced)
    && (s.phase.Checked? || s.phase.Renamed? || s.phase.Published? ==> s.disk.object_.Some? ==> s.disk.object_.value in s.produced)
    && Served(s)
  }

  lemma StepIsSound(s: State, e: Event)
    requires Sound(s) && Possible(s, e) && !Dangerous(s, e)
    ensures Sound(Next(s, e))
  {
  }

  /** For every run with crashes anywhere and any damage at any time that is not dangerous: an object
      loaded from disk was produced by a successful compile of exactly the requested text. */
  lemma {:induction false} LoadedWasProduced(s: State, es: seq<Event>)
    requires Sound(s) && Run(s, es) && Guarded(s, es)
    ensures Served(After(s, es)) && Sound(After(s, es))
    decreases |es|
  {
    if |es| > 0 {
      StepIsSound(s, es[0]);
      LoadedWasProduced(Next(s, es[0]), es[1..]);
    }
  }

  lemma UndisturbedIsGuarded(s: State, es: seq<Event>)
    requires Run(s, es) && Undisturbed(es)
    ensures Guarded(s, es)
    decreases |es|
  {
    if |es| > 0 {
      UndisturbedIsGuarded(Next(s, es[0]), es[1..]);
    }
  }

  // Every dangerous damage does harm ------------------------------------------------------------

  lemma Unproduced(produced: set<nat>) returns (o: nat)
    ensures forall p :: p in produced ==> p < o
    decreases produced
  {
    if produced == {} {
      o := 0;
    } else {
      var one :| one in produced;
      var rest := Unproduced(produced - {one});
      o := if one < rest then rest else one + 1;
      assert forall p :: p in produced ==> p == one || p in produced - {one};
    }
  }

  /** What is done after a dangerous damage: the lock holder goes on, or, where it is not misled, the
      next request finds the object in order, if need be after one that has put the source right. */
  function Onward(s: State, e: Event, o: nat): seq<Event> {
    if e.Damage? && !Misleads(s, e.disk) then
      (if Intact(e.disk) then [Crash, Check, Load] else [Crash, Check, WriteSource, Crash, Check, Load])
    else
      match s.phase
      case Written => [CompileOk(o), Rename, Publish, Load]
      case Compiled(_) => [Rename, Publish, Load]
      case Renamed => [Publish, Load]
      case _ => [Load]
  }

  lemma LoadServes(s: State)
    requires Possible(s, Load) && s.disk.object_.value !in s.produced
    ensures Run(s, [Load]) && !Served(After(s, [Load]))
  {
    assert [Load][1..] == [];
    assert Run(Next(s, Load), []) && s.disk.object_.value in Next(s, Load).served;
  }

  lemma PublishedServes(s: State)
    requires Possible(s, Publish) && s.disk.object_.value !in s.produced
    ensures Run(s, [Publish, Load]) && !Served(After(s, [Publish, Load]))
  {
    LoadServes(Next(s, Publish));
    assert [Publish, Load][1..] == [Load];
  }

  lemma RenamedServes(s: State)
    requires s.phase.Compiled? && s.phase.temp !in s.produced
    ensures Run(s, [Rename, Publish, Load]) && !Served(After(s, [Rename, Publish, Load]))
  {
    PublishedServes(Next(s, Rename));
    assert [Rename, Publish, Load][1..] == [Publish, Load];
  }

  lemma ForgedServes(s: State)
    requires Intact(s.disk) && Forges(s, s.disk)
    ensures Run(s, [Crash, Check, Load]) && !Served(After(s, [Crash, Check, Load]))
  {
    var s1 := Next(s, Crash);
    LoadServes(Next(s1, Check));
    assert [Check, Load][1..] == [Load] && [Crash, Check, Load][1..] == [Check, Load];
    assert Run(s1, [Check, Load]) && !Served(After(s1, [Check, Load]));
  }

  lemma ForgedServesLater(s: State)
    requires !Intact(s.disk) && Forges(s, s.disk)
    ensures var es := [Crash, Check, WriteSource, Crash, Check, Load]; Run(s, es) && !Served(After(s, es))
  {
    var es := [Crash, Check, WriteSource, Crash, Check, Load];
    var s2 := Next(Next(s, Crash), Check);
    ForgedServes(Next(s2, WriteSource));
    assert es[1..] == [Check] + es[2..] && es[2..] == [WriteSource] + es[3..] && es[3..] == [Crash, Check, Load];
    assert es[1..][1..] == es[2..] && es[2..][1..] == es[3..];
    assert Run(s2, es[2..]) && !Served(After(s2, es[2..]));
    assert Run(Next(s, Crash), es[1..]) && !Served(After(Next(s, Crash), es[1..]));
  }

  lemma OnwardServes(s: State, e: Event, o: nat)
    requires Possible(s, e) && Dangerous(s, e) && o !in s.produced
    ensures Run(Next(s, e), Onward(s, e, o)) && !Served(After(Next(s, e), Onward(s, e, o)))
  {
    var s1 := Next(s, e);
    if e.Damage? && !Misleads(s, e.disk) {
      if Intact(e.disk) {
        ForgedServes(s1);
      } else {
        ForgedServesLater(s1);
      }
    } else {
      match s.phase
      case Written =>
        RenamedServes(Next(s1, CompileOk(o)));
        assert Onward(s, e, o)[1..] == [Rename, Publish, Load];
      case Compiled(_) => RenamedServes(s1);
      case Renamed => PublishedServes(s1);
      case _ => LoadServes(s1);
    }
  }

  /** Damage of any kind can end in loading an object that was not produced exactly when it is
      dangerous; no further damage is needed. */
  lemma DamageHarmsExactly(s: State, e: Event)
    requires Sound(s) && Possible(s, e)
    ensures Dangerous(s, e) <==> exists es :: Undisturbed(es) && Run(Next(s, e), es) && !Served(After(Next(s, e), es))
  {
    if Dangerous(s, e) {
      var o := Unproduced(s.produced);
      OnwardServes(s, e, o);
      assert Undisturbed(Onward(s, e, o));
    } else {
      StepIsSound(s, e);
      forall es | Undisturbed(es) && Run(Next(s, e), es)
        ensures Served(After(Next(s, e), es))
      {
        UndisturbedIsGuarded(Next(s, e), es);
        LoadedWasProduced(Next(s, e), es);
      }
    }
  }

  /** Any damage to the object between its renaming and its receipt is vouched for. */
  lemma DamageInWindowIsAccepted(s: State, o: nat, bad: nat)
    requires Sound(s) && s.phase.Idle? && !Accepts(s.disk) && bad != o && bad !in s.produced
    ensures var s4 := Next(Next(Next(Next(s, Check), WriteSource), CompileOk(o)), Rename);
      var s5 := Next(s4, Damage(s4.disk.(object_ := Some(bad))));
      var s9 := Next(Next(Next(Next(s5, Publish), Crash), Check), Load);
      bad in s9.served && bad !in s9.produced
  {
  }

  /** An object that is damaged between its check and its loading is loaded. */
  lemma DamageAfterCheckIsLoaded(s: State, bad: nat)
    requires Sound(s) && s.phase.Idle? && Accepts(s.disk) && bad !in s.produced
    ensures var s3 := Next(Next(Next(s, Check), Damage(s.disk.(object_ := Some(bad)))), Load);
      bad in s3.served && bad !in s3.produced
  {
  }

  /** A source that is damaged while it is compiled leaves an object of another text; a later request
      that crashes after writing the source again makes it acceptable. */
  lemma DamagedSourceIsAccepted(s: State, o: nat)
    requires Sound(s) && s.phase.Idle? && !Accepts(s.disk) && o !in s.produced
    ensures var s2 := Next(Next(s, Check), WriteSource);
      var s3 := Next(s2, Damage(s2.disk.(source := Some(false))));
      var s6 := Next(Next(Next(s3, CompileOk(o)), Rename), Publish);
      var s9 := Next(Next(Next(Next(s6, Crash), Check), WriteSource), Crash);
      var s11 := Next(Next(s9, Check), Load);
      o in s11.served && o !in s11.produced
  {
  }

  // What a request does -------------------------------------------------------------------------

  /** A check accepts exactly the text of the key with an object and the receipt for that object. What
      is accepted can be loaded and is not compiled; what is refused is compiled and not loaded. */
  lemma CheckAcceptsExactly(s: State)
    requires s.phase.Idle?
    ensures var s1 := Next(s, Check);
      && s1.disk == s.disk && s1.served == s.served && s1.produced == s.produced
      && (Possible(s1, Load) <==> s.disk.source == Some(true) && s.disk.object_.Some? && s.disk.receipt == Some(Sum(s.disk.object_.value)))
      && (Possible(s1, WriteSource) <==> !Possible(s1, Load))
  {
  }

  /** An accepted object is loaded. */
  lemma AcceptedIsServed(s: State)
    requires s.phase.Idle? && Accepts(s.disk)
    ensures Run(s, [Check, Load]) && After(s, [Check, Load]) == s.(served := s.served + {s.disk.object_.value})
  {
    var s1 := Next(s, Check);
    assert [Check, Load][1..] == [Load] && [Load][1..] == [];
    assert Run(Next(s1, Load), []) && After(Next(s1, Load), []) == Next(s1, Load);
    assert Run(s1, [Load]) && After(s1, [Load]) == Next(s1, Load);
  }

  function Compiling(o: nat): seq<Event> {
    [WriteSource, CompileOk(o), Rename, Publish, Load]
  }

  /** Compiling ends with the compiler's output loaded, and acceptable to the next request. */
  lemma CompiledIsServed(s: State, o: nat)
    requires s.phase.Refused?
    ensures Run(s, Compiling(o))
    ensures After(s, Compiling(o))
      == State(Disk(Some(true), Some(o), Some(Sum(o))), Idle, s.produced + {o}, s.served + {o})
    ensures Accepts(After(s, Compiling(o)).disk)
  {
    var es := Compiling(o);
    var s1 := Next(s, WriteSource);
    var s2 := Next(s1, CompileOk(o));
    var s3 := Next(s2, Rename);
    var s4 := Next(s3, Publish);
    var s5 := Next(s4, Load);
    assert es[1..] == [CompileOk(o), Rename, Publish, Load];
    assert [CompileOk(o), Rename, Publish, Load][1..] == [Rename, Publish, Load];
    assert [Rename, Publish, Load][1..] == [Publish, Load] && [Publish, Load][1..] == [Load] && [Load][1..] == [];
    assert Run(s5, []) && After(s5, []) == s5;
    assert Run(s4, [Load]) && After(s4, [Load]) == s5;
    assert Run(s3, [Publish, Load]) && After(s3, [Publish, Load]) == s5;
    assert Run(s2, [Rename, Publish, Load]) && After(s2, [Rename, Publish, Load]) == s5;
    assert Run(s1, [CompileOk(o), Rename, Publish, Load]) && After(s1, [CompileOk(o), Rename, Publish, Load]) == s5;
  }

  /** A request whose files are refused compiles, and so does one whose accepted object cannot be
      loaded: both end with the new object loaded. */
  lemma UnloadableIsCompiled(s: State, o: nat)
    requires s.phase.Idle?
    ensures var first := if Accepts(s.disk) then [Check, LoadFails] else [Check];
      Run(s, first + Compiling(o)) && o in After(s, first + Compiling(o)).served && Accepts(After(s, first + Compiling(o)).disk)
  {
    var s1 := Next(s, Check);
    if Accepts(s.disk) {
      var s2 := Next(s1, LoadFails);
      CompiledIsServed(s2, o);
      Step(s1, LoadFails, Compiling(o));
      Step(s, Check, [LoadFails] + Compiling(o));
      assert [Check] + ([LoadFails] + Compiling(o)) == [Check, LoadFails] + Compiling(o);
    } else {
      CompiledIsServed(s1, o);
      Step(s, Check, Compiling(o));
    }
  }

  lemma Step(s: State, e: Event, es: seq<Event>)
    requires Possible(s, e) && Run(Next(s, e), es)
    ensures Run(s, [e] + es) && After(s, [e] + es) == After(Next(s, e), es)
  {
    assert ([e] + es)[1..] == es;
  }

  // Failures and crashes ------------------------------------------------------------------------

  /** A run without a successful compile, so any number of requests that fail, makes nothing
      acceptable and serves nothing that was not produced before it. */
  lemma {:induction false} FailurePublishesNothing(s: State, es: seq<Event>)
    requires Sound(s) && Run(s, es) && Guarded(s, es) && forall i :: 0 <= i < |es| ==> !es[i].CompileOk?
    ensures After(s, es).produced == s.produced
    ensures Accepts(After(s, es).disk) ==> After(s, es).disk.object_.value in s.produced
    ensures forall o :: o in After(s, es).served ==> o in s.produced
    decreases |es|
  {
    if |es| > 0 {
      StepIsSound(s, es[0]);
      FailurePublishesNothing(Next(s, es[0]), es[1..]);
    }
  }

  /** The receipt on disk names an object that was produced, if it names any. */
  predicate Vouched(s: State) {
    s.disk.receipt.Some? && s.disk.receipt.value.Sum? ==> s.disk.receipt.value.object_ in s.produced
  }

  /** Until a receipt is published, crashes and accidental damage at any step, dangerous or not, leave
      nothing acceptable but an object whose receipt was there at the start. */
  lemma {:induction false} CrashAcceptsNothingNew(s: State, es: seq<Event>)
    requires Run(s, es) && AllAccidental(s, es) && forall i :: 0 <= i < |es| ==> !es[i].Publish?
    ensures Accepts(After(s, es).disk) ==> s.disk.receipt == Some(Sum(After(s, es).disk.object_.value))
    ensures Vouched(s) && Accepts(After(s, es).disk) ==> After(s, es).disk.object_.value in s.produced
    decreases |es|
  {
    if |es| > 0 {
      CrashAcceptsNothingNew(Next(s, es[0]), es[1..]);
    }
  }

  /** A failed request can make something acceptable again: it restores a source that was lost, beside
      an object and a receipt that were left. */
  lemma FailureRestoresAcceptance(s: State)
    requires s.phase.Idle? && !Intact(s.disk) && Accepts(s.disk.(source := Some(true)))
    ensures var es := [Check, WriteSource, CompileFails];
      !Accepts(s.disk) && Run(s, es) && Accepts(After(s, es).disk) && After(s, es).disk == s.disk.(source := Some(true))
  {
    var es := [Check, WriteSource, CompileFails];
    var s1 := Next(s, Check);
    var s2 := Next(s1, WriteSource);
    var s3 := Next(s2, CompileFails);
    assert es[1..] == [WriteSource, CompileFails] && es[1..][1..] == [CompileFails] && es[1..][1..][1..] == [];
    assert Run(s3, []) && After(s3, []) == s3;
    assert Run(s2, [CompileFails]) && After(s2, [CompileFails]) == s3;
    assert Run(s1, [WriteSource, CompileFails]) && After(s1, [WriteSource, CompileFails]) == s3;
  }
}
