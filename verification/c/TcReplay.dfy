/** Recording and replaying typecheck verdicts (src/c/tc_cache.c:940-1218) as a state machine. The
    original typecheck and load run between the steps, and may call the wrappers again. Hashes are
    taken to be collision free: equal hashes mean equal arguments, files, chains and keys. */
module TcReplay {
  import opened Options
  import opened TcText
  import opened TcFile

  /** The files loaded so far, with the typechecking flag of each. */
  type Chain = seq<(nat, bool)>

  /** What a load frame has digested: hashes of typecheck calls, and nested loads. */
  datatype Item = Call(n: nat) | Loaded(chain: Chain)

  /** What a load starts from: the files loaded before it, the loads that are running with what each has
      digested, the file and the flag, and the counter of generated symbols. */
  datatype Circumstances = Circumstances(chain: Chain, outer: seq<(nat, seq<Item>)>, file: nat, tcOn: bool, gensym: int)

  /** The pieces that are hashed one after the other for the name of a cache file. */
  datatype Piece = OfChain(chain: Chain) | OfFile(file: nat) | OfDigest(digest: seq<Item>) | OfFlag(tcOn: bool) | OfCounter(gensym: int)

  type LoadKey = seq<Piece>

  /** What has happened in a load, in the order in which it ended: top-level typecheck calls that
      returned, nested loads with the chain after them, and loads that have no key or threw. */
  datatype Past = Answered(hash: Option<nat>) | Nested(chain: Chain) | Unkeyed

  /** A typecheck call that is running; record says whether its verdict will be recorded, before what
      had happened when it began. */
  datatype Running = Running(hash: Option<nat>, record: bool, before: seq<Past>)

  datatype Outcome = Returned(v: Kl) | Threw

  datatype Answer = Answer(before: seq<Past>, hash: Option<nat>, outcome: Outcome)

  /** One load in progress, and what it has started from. answers lists what its top-level typecheck calls have been answered, by
      the original or from the recording, and befores what had happened before each recorded one;
      done is what has happened so far. None of these is in the file. */
  datatype Frame = Frame(
    key: LoadKey, from: Circumstances, replay: bool, poisoned: bool, digest: seq<Item>, entries: seq<Entry>, befores: seq<seq<Past>>, cursor: nat,
    ckpt: seq<Chain>, ckptCursor: nat, depth: nat, start: int, end: int,
    calls: seq<Running>, done: seq<Past>, answers: seq<Answer>)

  datatype Saved = Saved(from: Circumstances, start: int, end: int, entries: seq<Entry>, befores: seq<seq<Past>>, ckpt: seq<Chain>)

  datatype State = State(stack: seq<Frame>, chain: Chain, gensym: int, disk: map<LoadKey, Saved>)

  // Steps ---------------------------------------------------------------------------------------

  function Top(s: State): Frame
    requires |s.stack| > 0
  {
    s.stack[|s.stack| - 1]
  }

  function SetTop(s: State, f: Frame): State
    requires |s.stack| > 0
  {
    s.(stack := s.stack[..|s.stack| - 1] + [f])
  }

  function Forward(gensym: int, to: int): int {
    if to > gensym then to else gensym
  }

  function DigestOf(hash: Option<nat>): Item {
    Call(if hash.Some? then hash.value else 0)
  }

  /** The plan of stream_wrapper: the frame after the decision, and the verdict if it is served. */
  function Plan(f: Frame, hash: Option<nat>): (r: (Frame, Option<Entry>))
    ensures r.1.Some? ==> r.1.value.val.Some?
  {
    if f.poisoned || f.depth > 0 then (Enter(f, hash, false), None)
    else if !f.replay then (Enter(f, hash, true), None)
    else if f.cursor < |f.entries| && f.entries[f.cursor].hash == hash then
      var e := f.entries[f.cursor];
      var g := f.(cursor := f.cursor + 1, digest := f.digest + [DigestOf(hash)]);
      if e.val.Some? then (g.(done := g.done + [Answered(hash)], answers := g.answers + [Answer(g.done, hash, Returned(e.val.value))]), Some(e)) else (Enter(g, hash, false), None)
    else (Enter(f.(poisoned := true), hash, false), None)
  }

  /** with_depth_orig, before the call. */
  function Enter(f: Frame, hash: Option<nat>, record: bool): Frame {
    f.(depth := f.depth + 1, calls := f.calls + [Running(hash, record, f.done)])
  }

  function BeginCheck(s: State, hash: Option<nat>): (State, Option<Kl>)
    requires |s.stack| > 0
  {
    var (f, e) := Plan(Top(s), hash);
    if e.Some? then (SetTop(s, f).(gensym := Forward(s.gensym, e.value.gensym)), e.value.val)
    else (SetTop(s, f), None)
  }

  /** The verdict false is never kept. */
  function NewEntry(hash: Option<nat>, v: Kl, gensym: int): Entry {
    Entry(hash, if hash.Some? && v != Bool(false) then Some(v) else None, gensym)
  }

  function Leave(f: Frame, outcome: Outcome, gensym: int): Frame
    requires |f.calls| > 0
  {
    var call := f.calls[|f.calls| - 1];
    var g := f.(depth := if f.depth > 0 then f.depth - 1 else 0, calls := f.calls[..|f.calls| - 1],
      answers := if |f.calls| == 1 then f.answers + [Answer(call.before, call.hash, outcome)] else f.answers);
    if outcome.Threw? then g
    else
      var h := if |f.calls| == 1 then g.(done := g.done + [Answered(call.hash)]) else g;
      if !call.record then h
      else
        h.(digest := h.digest + [DigestOf(call.hash)], entries := h.entries + [NewEntry(call.hash, outcome.v, gensym)],
          befores := h.befores + [call.before])
  }

  /** The end of the original typecheck of the innermost call. */
  function EndCheck(s: State, outcome: Outcome): State
    requires |s.stack| > 0 && |Top(s).calls| > 0
  {
    SetTop(s, Leave(Top(s), outcome, s.gensym))
  }

  function Now(s: State, file: nat, tcOn: bool): Circumstances {
    Circumstances(s.chain, seq(|s.stack|, i requires 0 <= i < |s.stack| => (s.stack[i].from.file, s.stack[i].digest)), file, tcOn, s.gensym)
  }

  /** The running loads, outermost first. */
  function OuterPieces(outer: seq<(nat, seq<Item>)>): (r: LoadKey)
    ensures |r| == 2 * |outer|
  {
    if |outer| == 0 then []
    else
      var last := outer[|outer| - 1];
      OuterPieces(outer[..|outer| - 1]) + [OfFile(last.0), OfDigest(last.1)]
  }

  function KeyFor(c: Circumstances): LoadKey {
    [OfChain(c.chain)] + OuterPieces(c.outer) + [OfFile(c.file), OfFlag(c.tcOn), OfCounter(c.gensym)]
  }

  function KeyOf(s: State, file: nat, tcOn: bool): LoadKey {
    KeyFor(Now(s, file, tcOn))
  }

  /** native_tc_load up to the original load. */
  function BeginLoad(s: State, file: nat, tcOn: bool): State {
    var key, from := KeyOf(s, file, tcOn), Now(s, file, tcOn);
    if key in s.disk then
      var r := s.disk[key];
      var g := Forward(s.gensym, r.start);
      s.(gensym := g, stack := s.stack + [Frame(key, from, true, false, [], r.entries, r.befores, 0, r.ckpt, 0, 0, g, r.end, [], [], [])])
    else s.(stack := s.stack + [Frame(key, from, false, false, [], [], [], 0, [], 0, 0, s.gensym, 0, [], [], [])])
  }

  /** A load that has no key poisons the load it runs in. */
  function PlainLoad(s: State): State {
    if |s.stack| == 0 then s else SetTop(s, Top(s).(poisoned := true, done := Top(s).done + [Unkeyed]))
  }

  /** What can be read back of a recording. */
  function SaveAs(disk: map<LoadKey, Saved>, f: Frame, gensym: int): map<LoadKey, Saved> {
    if forall i :: 0 <= i < |f.entries| ==> Fits(f.entries[i])
    then disk[f.key := Saved(f.from, f.start, gensym, StoredAll(f.entries), f.befores, f.ckpt)]
    else disk - {f.key}
  }

  /** native_tc_load after the original load; written says whether the file could be written. */
  function EndLoad(s: State, threw: bool, written: bool): State
    requires |s.stack| > 0
  {
    var f := Top(s);
    var below := s.(stack := s.stack[..|s.stack| - 1]);
    if threw then PlainLoad(below)
    else
      var chain := s.chain + [(f.from.file, f.from.tcOn)];
      var t := below.(
        chain := chain,
        gensym := if f.replay then Forward(s.gensym, f.end) else s.gensym,
        disk := if !f.replay && !f.poisoned && written then SaveAs(s.disk, f, s.gensym) else s.disk);
      if |t.stack| == 0 then t else SetTop(t, NoteLoad(Top(t), chain))
  }

  /** A nested load in its parent: checked on replay, recorded otherwise. */
  function NoteLoad(f: Frame, chain: Chain): Frame {
    var g := f.(digest := f.digest + [Loaded(chain)], done := f.done + [Nested(chain)]);
    if !f.replay then g.(ckpt := g.ckpt + [chain])
    else if f.ckptCursor < |f.ckpt| && f.ckpt[f.ckptCursor] == chain then g.(ckptCursor := g.ckptCursor + 1)
    else g.(poisoned := true)
  }

  // Runs ----------------------------------------------------------------------------------------

  datatype Event =
    | Check(hash: Option<nat>)
    | Checked(outcome: Outcome)
    | Load(file: nat, tcOn: bool)
    | LoadEnds(threw: bool, written: bool)
    | OtherLoad
    | Gensym(to: int)

  /** The original typecheck: determined by the load, by what has happened in it before, calls and
      nested loads in their order, and by its arguments. */
  type Typecheck = (Circumstances, seq<Past>, Option<nat>) -> Outcome

  /** What can happen next: calls and loads end in the reverse order of their beginnings, and the
      original typecheck answers as it does. */
  predicate Possible(t: Typecheck, s: State, e: Event) {
    match e
    case Check(_) => |s.stack| > 0
    case Checked(outcome) =>
      && |s.stack| > 0 && |Top(s).calls| > 0
      && (|Top(s).calls| == 1 ==> outcome == t(Top(s).from, Top(s).calls[0].before, Top(s).calls[0].hash))
    case LoadEnds(_, _) => |s.stack| > 0 && |Top(s).calls| == 0
    case _ => true
  }

  function Next(t: Typecheck, s: State, e: Event): State
    requires Possible(t, s, e)
  {
    match e
    case Check(hash) => BeginCheck(s, hash).0
    case Checked(outcome) => EndCheck(s, outcome)
    case Load(file, tcOn) => BeginLoad(s, file, tcOn)
    case LoadEnds(threw, written) => EndLoad(s, threw, written)
    case OtherLoad => PlainLoad(s)
    case Gensym(to) => s.(gensym := Forward(s.gensym, to))
  }

  ghost predicate Run(t: Typecheck, s: State, es: seq<Event>)
    decreases |es|
  {
    |es| == 0 || (Possible(t, s, es[0]) && Run(t, Next(t, s, es[0]), es[1..]))
  }

  ghost function After(t: Typecheck, s: State, es: seq<Event>): State
    requires Run(t, s, es)
    decreases |es|
  {
    if |es| == 0 then s else After(t, Next(t, s, es[0]), es[1..])
  }

  // Histories -----------------------------------------------------------------------------------

  function Calls(h: seq<Past>): seq<Option<nat>> {
    if |h| == 0 then []
    else
      var last := h[|h| - 1];
      Calls(h[..|h| - 1]) + if last.Answered? then [last.hash] else []
  }

  function Loads(h: seq<Past>): seq<Chain> {
    if |h| == 0 then []
    else
      var last := h[|h| - 1];
      Loads(h[..|h| - 1]) + if last.Nested? then [last.chain] else []
  }

  predicate Keyed(h: seq<Past>) {
    Unkeyed !in h
  }

  /** Where calls and loads stand, but not which ones they are. */
  function Order(h: seq<Past>): seq<bool> {
    seq(|h|, i requires 0 <= i < |h| => h[i].Answered?)
  }

  lemma OneMorePast(h: seq<Past>, x: Past)
    ensures Calls(h + [x]) == Calls(h) + if x.Answered? then [x.hash] else []
    ensures Loads(h + [x]) == Loads(h) + if x.Nested? then [x.chain] else []
  {
    assert (h + [x])[..|h|] == h;
  }

  /** The same calls, loads from the same list, and the same order: the same history. */
  lemma {:induction false} SameHistory(h: seq<Past>, h': seq<Past>, ckpt: seq<Chain>)
    requires Keyed(h) && Keyed(h') && Calls(h) == Calls(h') && Loads(h) <= ckpt && Loads(h') <= ckpt && Order(h) == Order(h')
    ensures h == h'
  {
    hide Calls, Loads;
    assert |Order(h)| == |Order(h')|;
    if |h| > 0 {
      var n := |h| - 1;
      LastPast(h);
      LastPast(h');
      assert Order(h)[n] == Order(h')[n] && Order(h[..n]) == Order(h)[..n] && Order(h'[..n]) == Order(h')[..n];
      assert h[n] in h && h'[n] in h';
      SameHistory(h[..n], h'[..n], ckpt);
      assert h == h[..n] + [h[n]] && h' == h'[..n] + [h'[n]];
    }
  }

  /** The last thing that happened is the last call or the last load. */
  lemma LastPast(h: seq<Past>)
    requires |h| > 0 && Keyed(h)
    ensures var front, last := h[..|h| - 1], h[|h| - 1];
      var n, m := |Calls(front)|, |Loads(front)|;
      && Keyed(front)
      && (last.Answered? ==> |Calls(h)| == n + 1 && Calls(h)[..n] == Calls(front) && Calls(h)[n] == last.hash && Loads(h) == Loads(front))
      && (!last.Answered? ==> last.Nested? && |Loads(h)| == m + 1 && Loads(h)[..m] == Loads(front) && Loads(h)[m] == last.chain && Calls(h) == Calls(front))
  {
    assert h[|h| - 1] in h;
  }

  // Invariant -----------------------------------------------------------------------------------

  function Hashes(es: seq<Entry>): seq<Option<nat>> {
    seq(|es|, i requires 0 <= i < |es| => es[i].hash)
  }

  /** An entry says what typecheck answers after what had happened before it when it was recorded. */
  ghost predicate EntryHolds(t: Typecheck, from: Circumstances, es: seq<Entry>, befores: seq<seq<Past>>, j: nat)
    requires j < |es| && j < |befores|
  {
    var answer := t(from, befores[j], es[j].hash);
    answer.Returned? && (es[j].val.Some? ==> es[j].val == Some(answer.v))
  }

  /** The histories of a recording: its own calls and loads, in whatever order they came. */
  ghost predicate Fitting(es: seq<Entry>, befores: seq<seq<Past>>, ckpt: seq<Chain>) {
    |befores| == |es| && forall j :: 0 <= j < |es| ==>
      Calls(befores[j]) == Hashes(es[..j]) && Loads(befores[j]) <= ckpt && Keyed(befores[j])
  }

  ghost predicate Truthful(t: Typecheck, from: Circumstances, es: seq<Entry>, befores: seq<seq<Past>>, ckpt: seq<Chain>) {
    Fitting(es, befores, ckpt) && forall j :: 0 <= j < |es| ==> EntryHolds(t, from, es, befores, j)
  }

  function DoneOf(answers: seq<Answer>): seq<Option<nat>> {
    if |answers| == 0 then []
    else
      var last := answers[|answers| - 1];
      DoneOf(answers[..|answers| - 1]) + if last.outcome.Returned? then [last.hash] else []
  }

  /** Every answer so far is what typecheck gives without a cache, after what has happened before. */
  ghost predicate AnswersTrue(t: Typecheck, from: Circumstances, answers: seq<Answer>) {
    forall j :: 0 <= j < |answers| ==>
      answers[j].outcome == t(from, answers[j].before, answers[j].hash) && Calls(answers[j].before) == DoneOf(answers[..j])
  }

  /** The history of a load is that of its answers. */
  ghost predicate Told(f: Frame) {
    && Calls(f.done) == DoneOf(f.answers)
    && (forall j :: 0 <= j < |f.answers| ==> f.answers[j].before <= f.done)
    && (|f.calls| > 0 ==>
          f.calls[0].before <= f.done && Calls(f.calls[0].before) == Calls(f.done) && Loads(f.calls[0].before) <= Loads(f.done))
  }

  /** While a recording is followed, the calls and the loads are each a first part of the recorded
      ones, and a running call is answered as it was. */
  ghost predicate Following(t: Typecheck, f: Frame) {
    && f.cursor <= |f.entries| && Hashes(f.entries[..f.cursor]) == Calls(f.done) + (if |f.calls| > 0 then [f.calls[0].hash] else [])
    && Keyed(f.done) && Loads(f.done) <= f.ckpt && |Loads(f.done)| == f.ckptCursor
    && (|f.calls| > 0 ==>
          f.cursor > 0 && |f.befores| == |f.entries|
          && t(f.from, f.calls[0].before, f.calls[0].hash) == t(f.from, f.befores[f.cursor - 1], f.calls[0].hash))
  }

  /** The calls and the loads in a digest. */
  function ItemCalls(digest: seq<Item>): seq<nat> {
    if |digest| == 0 then []
    else
      var last := digest[|digest| - 1];
      ItemCalls(digest[..|digest| - 1]) + if last.Call? then [last.n] else []
  }

  function ItemLoads(digest: seq<Item>): seq<Chain> {
    if |digest| == 0 then []
    else
      var last := digest[|digest| - 1];
      ItemLoads(digest[..|digest| - 1]) + if last.Loaded? then [last.chain] else []
  }

  lemma OneMoreItem(digest: seq<Item>, x: Item)
    ensures ItemCalls(digest + [x]) == ItemCalls(digest) + if x.Call? then [x.n] else []
    ensures ItemLoads(digest + [x]) == ItemLoads(digest) + if x.Loaded? then [x.chain] else []
  {
    assert (digest + [x])[..|digest|] == digest;
  }

  /** A call whose arguments cannot be hashed counts as hash zero. */
  function Digested(hashes: seq<Option<nat>>): seq<nat> {
    seq(|hashes|, i requires 0 <= i < |hashes| => DigestOf(hashes[i]).n)
  }

  /** The digest tells the loads that have ended, and until the load is poisoned the calls; a running
      call of a recording that is followed counts already. */
  ghost predicate DigestTells(f: Frame) {
    && ItemLoads(f.digest) == Loads(f.done)
    && (!f.poisoned ==> ItemCalls(f.digest) == Digested(Calls(f.done) + if f.replay && |f.calls| > 0 then [f.calls[0].hash] else []))
  }

  ghost predicate FrameOk(t: Typecheck, f: Frame) {
    && f.key == KeyFor(f.from) && f.depth == |f.calls| && Told(f) && DigestTells(f) && AnswersTrue(t, f.from, f.answers)
    && (f.replay ==> Truthful(t, f.from, f.entries, f.befores, f.ckpt))
    && (f.replay && !f.poisoned ==> Following(t, f))
    && (!f.replay && !f.poisoned ==>
          Hashes(f.entries) == Calls(f.done) && Keyed(f.done) && Loads(f.done) == f.ckpt
          && Truthful(t, f.from, f.entries, f.befores, f.ckpt))
    && (forall i :: 0 <= i < |f.calls| && f.calls[i].record ==> i == 0 && !f.replay)
    && (!f.replay && !f.poisoned && |f.calls| > 0 ==> f.calls[0].record)
  }

  /** A recording lies under the name that belongs to what it has started from. */
  ghost predicate SavedOk(t: Typecheck, key: LoadKey, r: Saved) {
    key == KeyFor(r.from) && Truthful(t, r.from, r.entries, r.befores, r.ckpt)
  }

  ghost predicate Ok(t: Typecheck, s: State) {
    && (forall i :: 0 <= i < |s.stack| ==> FrameOk(t, s.stack[i]))
    && (forall key :: key in s.disk ==> SavedOk(t, key, s.disk[key]))
  }

  // When a recording is true --------------------------------------------------------------------

  /** A call takes the next entry of a recording. */
  predicate Consumes(f: Frame, hash: Option<nat>) {
    f.replay && !f.poisoned && f.depth == 0 && f.cursor < |f.entries| && f.entries[f.cursor].hash == hash
  }

  /** The calls and loads so far came in the order in which they were recorded. */
  predicate InOrder(s: State, e: Event) {
    e.Check? && |s.stack| > 0 && Consumes(Top(s), e.hash) ==>
      Top(s).cursor < |Top(s).befores| && Order(Top(s).done) == Order(Top(s).befores[Top(s).cursor])
  }

  /** What has happened makes no difference to typecheck from what had happened when the entry that
      is taken was recorded. */
  ghost predicate Settled(t: Typecheck, s: State, e: Event) {
    e.Check? && |s.stack| > 0 && Consumes(Top(s), e.hash) ==>
      var f := Top(s);
      f.cursor < |f.befores| && t(f.from, f.done, e.hash) == t(f.from, f.befores[f.cursor], e.hash)
  }

  /** An answer that does not depend on nested loads. */
  ghost predicate Blind(t: Typecheck) {
    forall from, h, h', hash :: Calls(h) == Calls(h') ==> t(from, h, hash) == t(from, h', hash)
  }

  /** The protocol compares calls and loads one by one, but not their order: where that is the same
      too, so is the history. */
  lemma InOrderIsRecorded(t: Typecheck, f: Frame, hash: Option<nat>)
    requires FrameOk(t, f) && Consumes(f, hash)
    ensures f.cursor < |f.befores| && (Order(f.done) == Order(f.befores[f.cursor]) <==> f.done == f.befores[f.cursor])
  {
    hide AnswersTrue, EntryHolds, Told;
    assert f.entries[..f.cursor] == f.entries[..f.cursor][..];
    if Order(f.done) == Order(f.befores[f.cursor]) {
      SameHistory(f.done, f.befores[f.cursor], f.ckpt);
    }
  }

  lemma InOrderIsSettled(t: Typecheck, s: State, e: Event)
    requires Ok(t, s) && InOrder(s, e)
    ensures Settled(t, s, e)
  {
    hide FrameOk;
    if e.Check? && |s.stack| > 0 && Consumes(Top(s), e.hash) {
      InOrderIsRecorded(t, Top(s), e.hash);
    }
  }

  lemma BlindIsSettled(t: Typecheck, s: State, e: Event)
    requires Ok(t, s) && Blind(t)
    ensures Settled(t, s, e)
  {
    hide AnswersTrue, EntryHolds, Told;
    if e.Check? && |s.stack| > 0 && Consumes(Top(s), e.hash) {
      assert FrameOk(t, Top(s));
    }
  }

  /** A verdict is served only where the earlier top-level calls and the finished nested loads of the
      frame match the recording, and then it is what typecheck answered when it was recorded; in
      the same order, it is what typecheck would answer now. */
  lemma ServedIsTrue(t: Typecheck, s: State, hash: Option<nat>)
    requires |s.stack| > 0 && Ok(t, s) && BeginCheck(s, hash).1.Some?
    ensures var f := Top(s);
      && f.replay && !f.poisoned && f.depth == 0 && f.cursor < |f.entries| && f.entries[f.cursor].hash == hash
      && Hashes(f.entries[..f.cursor]) == Calls(f.done) && Loads(f.done) == f.ckpt[..f.ckptCursor] && Keyed(f.done)
      && t(f.from, f.befores[f.cursor], hash) == Returned(BeginCheck(s, hash).1.value)
      && (InOrder(s, Check(hash)) || Blind(t) ==> t(f.from, f.done, hash) == Returned(BeginCheck(s, hash).1.value))
  {
    var f := Top(s);
    assert FrameOk(t, f) && EntryHolds(t, f.from, f.entries, f.befores, f.cursor);
    if InOrder(s, Check(hash)) {
      InOrderIsSettled(t, s, Check(hash));
    } else if Blind(t) {
      BlindIsSettled(t, s, Check(hash));
    }
  }

  function Remembered(es: seq<Entry>, befores: seq<seq<Past>>, h: seq<Past>, hash: Option<nat>): Outcome
    requires |befores| == |es|
  {
    var j := |Calls(h)|;
    if j < |es| && befores[j] == h && es[j].hash == hash then Returned(if es[j].val.Some? then es[j].val.value else Nil)
    else Threw
  }

  /** In another order nothing can be said: some typecheck gave every recorded answer and gives
      another one now. */
  lemma OutOfOrderCanBeFalse(t: Typecheck, f: Frame, hash: Option<nat>) returns (other: Typecheck)
    requires FrameOk(t, f) && Consumes(f, hash) && Order(f.done) != Order(f.befores[f.cursor])
    ensures Truthful(other, f.from, f.entries, f.befores, f.ckpt) && other(f.from, f.done, hash) == Threw
  {
    hide AnswersTrue, Told;
    var es, befores := f.entries, f.befores;
    other := (from, h, a) => if |befores| == |es| then Remembered(es, befores, h, a) else Threw;
    forall j | 0 <= j < |es|
      ensures EntryHolds(other, f.from, es, befores, j)
    {
      assert |Calls(befores[j])| == |Hashes(es[..j])| == j;
    }
    assert |Calls(f.done)| == |Hashes(es[..f.cursor])| == f.cursor;
  }

  function NewFrame(from: Circumstances): Frame {
    Frame(KeyFor(from), from, false, false, [], [], [], 0, [], 0, 0, 0, 0, [], [], [])
  }

  const FIRST := Circumstances([], [], 1, true, 0)
  const SECOND: Chain := [(2, true)]
  const LOADED := NewFrame(FIRST).(digest := [Loaded(SECOND)], ckpt := [SECOND], done := [Nested(SECOND)])
  const VERDICT := Entry(Some(7), Some(Bool(true)), 0)

  lemma FirstLoadBegins(disk: map<LoadKey, Saved>)
    ensures Now(State([], [], 0, disk), 1, true) == FIRST && KeyOf(State([], [], 0, disk), 1, true) == KeyFor(FIRST)
    ensures disk == map[] ==> BeginLoad(State([], [], 0, disk), 1, true) == State([NewFrame(FIRST)], [], 0, disk)
  {
    assert Now(State([], [], 0, disk), 1, true).outer == [];
    assert [] + [NewFrame(FIRST)] == [NewFrame(FIRST)];
  }

  lemma SecondLoadPasses()
    ensures var s := State([NewFrame(FIRST)], [], 0, map[]);
      EndLoad(BeginLoad(s, 2, true), false, false) == State([LOADED], SECOND, 0, map[])
  {
    var s := State([NewFrame(FIRST)], [], 0, map[]);
    var t := BeginLoad(s, 2, true);
    assert t.stack[..1] == s.stack && Top(t) == NewFrame(Now(s, 2, true));
    assert [] + SECOND == SECOND;
    assert NoteLoad(NewFrame(FIRST), SECOND) == LOADED;
    assert s.stack[..0] + [LOADED] == [LOADED];
  }

  lemma VerdictIsRecorded()
    ensures var s := EndCheck(BeginCheck(State([LOADED], SECOND, 0, map[]), Some(7)).0, Returned(Bool(true)));
      && |s.stack| == 1 && s.disk == map[] && s.gensym == 0
      && Top(s).entries == [VERDICT] && Top(s).befores == [[Nested(SECOND)]] && Top(s).key == KeyFor(FIRST)
      && !Top(s).replay && !Top(s).poisoned
  {
    var f := Enter(LOADED, Some(7), true);
    assert [LOADED][..0] + [f] == [f];
  }

  lemma VerdictIsSaved(s: State)
    requires |s.stack| == 1 && s.disk == map[] && Top(s).entries == [VERDICT] && Top(s).befores == [[Nested(SECOND)]]
    requires Top(s).key == KeyFor(FIRST) && !Top(s).replay && !Top(s).poisoned
    ensures var disk := EndLoad(s, false, true).disk;
      KeyFor(FIRST) in disk && disk[KeyFor(FIRST)].entries == [VERDICT] && disk[KeyFor(FIRST)].befores == [[Nested(SECOND)]]
  {
    assert Fits(VERDICT) && StoredAll([VERDICT]) == [VERDICT];
    assert EndLoad(s, false, true).disk == SaveAs(map[], Top(s), s.gensym);
  }

  lemma VerdictIsServed(disk: map<LoadKey, Saved>)
    requires KeyFor(FIRST) in disk && disk[KeyFor(FIRST)].entries == [VERDICT] && disk[KeyFor(FIRST)].befores == [[Nested(SECOND)]]
    ensures var s := BeginLoad(State([], [], 0, disk), 1, true);
      BeginCheck(s, Some(7)).1 == Some(Bool(true)) && Top(s).done == [] && Top(s).befores == [[Nested(SECOND)]]
  {
    hide KeyOf;
    FirstLoadBegins(disk);
  }

  /** A load that was recorded with a nested load before its check, and is replayed by a process that
      makes the check without it: the recorded verdict is served. */
  lemma CheckBeforeLoadIsServed()
    ensures var s1 := EndLoad(BeginLoad(BeginLoad(State([], [], 0, map[]), 1, true), 2, true), false, false);
      var s2 := EndCheck(BeginCheck(s1, Some(7)).0, Returned(Bool(true)));
      var s3 := BeginLoad(State([], [], 0, EndLoad(s2, false, true).disk), 1, true);
      && BeginCheck(s3, Some(7)).1 == Some(Bool(true))
      && Top(s3).done == [] && Top(s3).befores[0] == [Nested([(2, true)])]
  {
    FirstLoadBegins(map[]);
    SecondLoadPasses();
    VerdictIsRecorded();
    hide EndCheck, BeginLoad, EndLoad, KeyOf;
    var s2 := EndCheck(BeginCheck(State([LOADED], SECOND, 0, map[]), Some(7)).0, Returned(Bool(true)));
    VerdictIsSaved(s2);
    VerdictIsServed(EndLoad(s2, false, true).disk);
  }

  // Every step keeps it -------------------------------------------------------------------------

  lemma OneMoreAnswer(t: Typecheck, from: Circumstances, answers: seq<Answer>, a: Answer)
    requires AnswersTrue(t, from, answers) && a.outcome == t(from, a.before, a.hash) && Calls(a.before) == DoneOf(answers)
    ensures AnswersTrue(t, from, answers + [a])
    ensures DoneOf(answers + [a]) == DoneOf(answers) + if a.outcome.Returned? then [a.hash] else []
  {
    var more := answers + [a];
    assert more[..|answers|] == answers;
    forall j | 0 <= j < |more|
      ensures more[j].outcome == t(from, more[j].before, more[j].hash) && Calls(more[j].before) == DoneOf(more[..j])
    {
      if j < |answers| {
        assert more[..j] == answers[..j];
      }
    }
  }

  lemma OneMoreEntry(t: Typecheck, from: Circumstances, es: seq<Entry>, befores: seq<seq<Past>>, ckpt: seq<Chain>, e: Entry, before: seq<Past>)
    requires Truthful(t, from, es, befores, ckpt)
    requires Calls(before) == Hashes(es) && Loads(before) <= ckpt && Keyed(before)
    requires var answer := t(from, before, e.hash); answer.Returned? && (e.val.Some? ==> e.val == Some(answer.v))
    ensures Truthful(t, from, es + [e], befores + [before], ckpt)
  {
    var es', befores' := es + [e], befores + [before];
    assert es'[..|es|] == es;
    forall j | 0 <= j < |es'|
      ensures EntryHolds(t, from, es', befores', j)
      ensures Calls(befores'[j]) == Hashes(es'[..j]) && Loads(befores'[j]) <= ckpt && Keyed(befores'[j])
    {
      if j < |es| {
        assert es'[..j] == es[..j] && EntryHolds(t, from, es, befores, j);
      }
    }
  }

  lemma MoreLoads(t: Typecheck, from: Circumstances, es: seq<Entry>, befores: seq<seq<Past>>, ckpt: seq<Chain>, chain: Chain)
    requires Truthful(t, from, es, befores, ckpt)
    ensures Truthful(t, from, es, befores, ckpt + [chain])
  {
    forall j | 0 <= j < |es|
      ensures EntryHolds(t, from, es, befores, j) && Loads(befores[j]) <= ckpt + [chain]
    {
      assert EntryHolds(t, from, es, befores, j) && Loads(befores[j]) <= ckpt;
    }
  }

  lemma TruthfulStored(t: Typecheck, from: Circumstances, es: seq<Entry>, befores: seq<seq<Past>>, ckpt: seq<Chain>)
    requires Truthful(t, from, es, befores, ckpt)
    ensures Truthful(t, from, StoredAll(es), befores, ckpt)
  {
    forall j | 0 <= j < |es|
      ensures EntryHolds(t, from, StoredAll(es), befores, j) && Hashes(StoredAll(es)[..j]) == Hashes(es[..j])
    {
      assert EntryHolds(t, from, es, befores, j);
    }
  }

  lemma PlanIsOk(t: Typecheck, f: Frame, hash: Option<nat>)
    requires FrameOk(t, f)
    requires Consumes(f, hash) ==> f.cursor < |f.befores| && t(f.from, f.done, hash) == t(f.from, f.befores[f.cursor], hash)
    ensures FrameOk(t, Plan(f, hash).0)
  {
    hide AnswersTrue, DoneOf, Calls, Loads, Truthful, Fitting, DigestTells;
    DigestPlans(f, hash);
    if Consumes(f, hash) {
      TakenIsOk(t, f, hash);
    }
  }

  lemma DigestPlans(f: Frame, hash: Option<nat>)
    requires DigestTells(f) && f.depth == |f.calls|
    ensures DigestTells(Plan(f, hash).0)
  {
    hide Calls, Loads, ItemCalls, ItemLoads;
    if Consumes(f, hash) {
      OneMorePast(f.done, Answered(hash));
      OneMoreItem(f.digest, DigestOf(hash));
      assert Calls(f.done) + [] == Calls(f.done) && Calls(f.done) + [hash] + [] == Calls(f.done) + [hash];
      assert Digested(Calls(f.done) + [hash]) == Digested(Calls(f.done)) + [DigestOf(hash).n];
    }
  }

  lemma TakenIsOk(t: Typecheck, f: Frame, hash: Option<nat>)
    requires FrameOk(t, f) && Consumes(f, hash)
    requires f.cursor < |f.befores| && t(f.from, f.done, hash) == t(f.from, f.befores[f.cursor], hash)
    ensures FrameOk(t, Plan(f, hash).0)
  {
    hide AnswersTrue, DoneOf, Calls, Loads, DigestTells;
    DigestPlans(f, hash);
    assert f.entries[..f.cursor + 1] == f.entries[..f.cursor] + [f.entries[f.cursor]];
    assert Hashes(f.entries[..f.cursor + 1]) == Hashes(f.entries[..f.cursor]) + [hash];
    if f.entries[f.cursor].val.Some? {
      assert EntryHolds(t, f.from, f.entries, f.befores, f.cursor);
      var a := Answer(f.done, hash, Returned(f.entries[f.cursor].val.value));
      OneMoreAnswer(t, f.from, f.answers, a);
      OneMorePast(f.done, Answered(hash));
    }
  }

  lemma LeaveIsOk(t: Typecheck, f: Frame, outcome: Outcome, gensym: int)
    requires FrameOk(t, f) && |f.calls| > 0
    requires |f.calls| == 1 ==> outcome == t(f.from, f.calls[0].before, f.calls[0].hash)
    ensures FrameOk(t, Leave(f, outcome, gensym))
  {
    hide AnswersTrue, DoneOf, Calls, Loads, Truthful, Following, DigestTells;
    if |f.calls| == 1 {
      var call := f.calls[0];
      OneMoreAnswer(t, f.from, f.answers, Answer(call.before, call.hash, outcome));
      OneMorePast(f.done, Answered(call.hash));
      if !f.poisoned {
        if f.replay {
          FollowingGoesOn(t, f, outcome, gensym);
        } else if outcome.Returned? {
          KeyedPrefix(call.before, f.done);
          OneMoreEntry(t, f.from, f.entries, f.befores, f.ckpt, NewEntry(call.hash, outcome.v, gensym), call.before);
          assert Hashes(f.entries + [NewEntry(call.hash, outcome.v, gensym)]) == Hashes(f.entries) + [call.hash];
        }
      }
      DigestLeaves(f, outcome, gensym);
    } else {
      StillRunning(t, f, outcome, gensym);
    }
  }

  lemma DigestLeaves(f: Frame, outcome: Outcome, gensym: int)
    requires DigestTells(f) && |f.calls| == 1 && (f.replay && f.calls[0].record ==> f.poisoned)
    requires !f.poisoned ==> (f.replay ==> outcome.Returned?) && (!f.replay ==> f.calls[0].record)
    ensures DigestTells(Leave(f, outcome, gensym))
  {
    hide Calls, Loads, ItemCalls, ItemLoads;
    var call := f.calls[0];
    OneMorePast(f.done, Answered(call.hash));
    OneMoreItem(f.digest, DigestOf(call.hash));
    assert Digested(Calls(f.done) + [call.hash]) == Digested(Calls(f.done)) + [DigestOf(call.hash).n];
    assert Calls(f.done) + [] == Calls(f.done) && Calls(f.done) + [call.hash] + [] == Calls(f.done) + [call.hash];
  }

  lemma KeyedPrefix(h: seq<Past>, h': seq<Past>)
    requires h <= h' && Keyed(h')
    ensures Keyed(h)
  {
  }

  lemma StillRunning(t: Typecheck, f: Frame, outcome: Outcome, gensym: int)
    requires FrameOk(t, f) && |f.calls| > 1
    ensures FrameOk(t, Leave(f, outcome, gensym))
  {
    hide AnswersTrue, DoneOf, Calls, Loads, Truthful, DigestTells;
    DigestStays(f, Leave(f, outcome, gensym));
  }

  /** Nested calls do not count. */
  lemma DigestStays(f: Frame, g: Frame)
    requires DigestTells(f) && g.digest == f.digest && g.done == f.done && g.replay == f.replay && (f.poisoned ==> g.poisoned)
    requires !g.poisoned && f.replay ==> (|f.calls| > 0 <==> |g.calls| > 0) && (|f.calls| > 0 ==> f.calls[0].hash == g.calls[0].hash)
    ensures DigestTells(g)
  {
    hide Calls, Loads, ItemCalls, ItemLoads, Digested;
  }

  /** A running call that follows a recording returns, as it did when it was recorded. */
  lemma FollowingGoesOn(t: Typecheck, f: Frame, outcome: Outcome, gensym: int)
    requires Following(t, f) && Truthful(t, f.from, f.entries, f.befores, f.ckpt) && |f.calls| == 1
    requires outcome == t(f.from, f.calls[0].before, f.calls[0].hash)
    ensures outcome.Returned? && Following(t, Leave(f, outcome, gensym))
  {
    hide Calls, Loads, Fitting;
    var j, hash: Option<nat> := f.cursor - 1, f.calls[0].hash;
    OneMorePast(f.done, Answered(hash));
    assert |Hashes(f.entries[..f.cursor])| == f.cursor;
    assert f.entries[j].hash == Hashes(f.entries[..f.cursor])[j] == hash;
    assert EntryHolds(t, f.from, f.entries, f.befores, j);
  }

  /** Every step keeps the invariant, if the entries that are taken are settled. */
  lemma StepIsOk(t: Typecheck, s: State, e: Event)
    requires Ok(t, s) && Possible(t, s, e) && Settled(t, s, e)
    ensures Ok(t, Next(t, s, e))
  {
    hide FrameOk, Truthful, Plan, Leave;
    match e
    case Check(hash) => PlanIsOk(t, Top(s), hash);
    case Checked(outcome) => LeaveIsOk(t, Top(s), outcome, s.gensym);
    case Load(file, tcOn) => BeginLoadIsOk(t, s, file, tcOn);
    case LoadEnds(threw, written) => EndLoadIsOk(t, s, threw, written);
    case OtherLoad =>
      if |s.stack| > 0 {
        PoisonIsOk(t, Top(s));
      }
    case Gensym(_) =>
  }

  lemma PoisonIsOk(t: Typecheck, f: Frame)
    requires FrameOk(t, f)
    ensures FrameOk(t, f.(poisoned := true, done := f.done + [Unkeyed]))
  {
    hide AnswersTrue, DoneOf, Calls, Loads, Truthful, Following;
    OneMorePast(f.done, Unkeyed);
  }

  /** A recording that is found was made from the same circumstances. */
  lemma BeginLoadIsOk(t: Typecheck, s: State, file: nat, tcOn: bool)
    requires Ok(t, s)
    ensures Ok(t, BeginLoad(s, file, tcOn))
  {
    hide KeyFor, Now, Truthful, FrameOk;
    var from := Now(s, file, tcOn);
    if KeyFor(from) in s.disk {
      assert SavedOk(t, KeyFor(from), s.disk[KeyFor(from)]);
      KeyTells(from, s.disk[KeyFor(from)].from);
    }
    NewFrameIsOk(t, s, file, tcOn);
  }

  lemma NewFrameIsOk(t: Typecheck, s: State, file: nat, tcOn: bool)
    requires KeyOf(s, file, tcOn) in s.disk ==>
      var r := s.disk[KeyOf(s, file, tcOn)]; r.from == Now(s, file, tcOn) && Truthful(t, r.from, r.entries, r.befores, r.ckpt)
    ensures FrameOk(t, Top(BeginLoad(s, file, tcOn)))
  {
    hide KeyFor, Now;
  }

  // What a key tells ----------------------------------------------------------------------------

  lemma {:induction false} OuterTells(outer: seq<(nat, seq<Item>)>, outer': seq<(nat, seq<Item>)>)
    requires OuterPieces(outer) == OuterPieces(outer')
    ensures outer == outer'
    decreases |outer|
  {
    var n := |outer|;
    assert |OuterPieces(outer)| == |OuterPieces(outer')|;
    if n > 0 {
      var front, front' := outer[..n - 1], outer'[..n - 1];
      assert OuterPieces(outer)[..2 * n - 2] == OuterPieces(front) && OuterPieces(outer')[..2 * n - 2] == OuterPieces(front');
      OuterTells(front, front');
      assert OuterPieces(outer)[2 * n - 2..] == [OfFile(outer[n - 1].0), OfDigest(outer[n - 1].1)];
      assert OuterPieces(outer')[2 * n - 2..] == [OfFile(outer'[n - 1].0), OfDigest(outer'[n - 1].1)];
      assert OuterPieces(outer)[2 * n - 2..][0] == OuterPieces(outer')[2 * n - 2..][0];
      assert OuterPieces(outer)[2 * n - 2..][1] == OuterPieces(outer')[2 * n - 2..][1];
      assert outer == front + [outer[n - 1]] && outer' == front' + [outer'[n - 1]];
    }
  }

  /** The pieces, one after the other, can be read in one way only. */
  lemma KeyTells(c: Circumstances, c': Circumstances)
    ensures KeyFor(c) == KeyFor(c') <==> c == c'
  {
    if KeyFor(c) == KeyFor(c') {
      var n, n' := 2 * |c.outer|, 2 * |c'.outer|;
      assert |KeyFor(c)| == n + 4 && |KeyFor(c')| == n' + 4;
      assert KeyFor(c)[0] == OfChain(c.chain) && KeyFor(c')[0] == OfChain(c'.chain);
      assert KeyFor(c)[1..n + 1] == OuterPieces(c.outer) && KeyFor(c')[1..n + 1] == OuterPieces(c'.outer);
      OuterTells(c.outer, c'.outer);
      assert KeyFor(c)[n + 1] == OfFile(c.file) && KeyFor(c')[n + 1] == OfFile(c'.file);
      assert KeyFor(c)[n + 2] == OfFlag(c.tcOn) && KeyFor(c')[n + 2] == OfFlag(c'.tcOn);
      assert KeyFor(c)[n + 3] == OfCounter(c.gensym) && KeyFor(c')[n + 3] == OfCounter(c'.gensym);
    }
  }

  /** Two loads have the same cache file exactly when they load the same file under the same flag, after
      the same files, with the same counter, inside loads of the same files that have digested the
      same. */
  lemma SameKeyExactly(s: State, file: nat, tcOn: bool, s': State, file': nat, tcOn': bool)
    ensures KeyOf(s, file, tcOn) == KeyOf(s', file', tcOn') <==>
      && s.chain == s'.chain && file == file' && tcOn == tcOn' && s.gensym == s'.gensym && |s.stack| == |s'.stack|
      && forall i :: 0 <= i < |s.stack| ==> s.stack[i].from.file == s'.stack[i].from.file && s.stack[i].digest == s'.stack[i].digest
  {
    hide KeyFor;
    var c, c' := Now(s, file, tcOn), Now(s', file', tcOn');
    KeyTells(c, c');
    if c == c' {
      assert |c.outer| == |c'.outer|;
      forall i | 0 <= i < |s.stack|
        ensures s.stack[i].from.file == s'.stack[i].from.file && s.stack[i].digest == s'.stack[i].digest
      {
        assert c.outer[i] == c'.outer[i];
      }
    }
  }

  /** Then the enclosing loads have had the same loads, and, those that are not poisoned, the same calls
      up to the call of a recording that is being followed. */
  lemma SameKeySameHistory(t: Typecheck, s: State, file: nat, tcOn: bool, s': State, file': nat, tcOn': bool, i: nat)
    requires Ok(t, s) && Ok(t, s') && KeyOf(s, file, tcOn) == KeyOf(s', file', tcOn') && i < |s.stack|
    ensures |s'.stack| == |s.stack| && Loads(s.stack[i].done) == Loads(s'.stack[i].done)
    ensures !s.stack[i].poisoned && !s'.stack[i].poisoned && |s.stack[i].calls| == |s'.stack[i].calls| == 0 ==>
      Digested(Calls(s.stack[i].done)) == Digested(Calls(s'.stack[i].done))
  {
    SameKeyExactly(s, file, tcOn, s', file', tcOn');
    hide KeyOf, Calls, Loads, ItemCalls, ItemLoads, Truthful, AnswersTrue, Told, Following, Digested;
    assert FrameOk(t, s.stack[i]) && FrameOk(t, s'.stack[i]);
    assert Calls(s.stack[i].done) + [] == Calls(s.stack[i].done) && Calls(s'.stack[i].done) + [] == Calls(s'.stack[i].done);
  }

  /** But what a poisoned load typechecks leaves no mark: a load inside it has the same cache file
      whatever was typechecked since the poisoning. */
  lemma PoisonedCallsAreUnseen(t: Typecheck, s: State, hash: Option<nat>, v: Kl, file: nat, tcOn: bool)
    requires |s.stack| > 0 && Top(s).poisoned && |Top(s).calls| == 0
    ensures KeyOf(EndCheck(BeginCheck(s, hash).0, Returned(v)), file, tcOn) == KeyOf(s, file, tcOn)
  {
    var s' := EndCheck(BeginCheck(s, hash).0, Returned(v));
    SameKeyExactly(s', file, tcOn, s, file, tcOn);
  }

  lemma EndLoadIsOk(t: Typecheck, s: State, threw: bool, written: bool)
    requires Ok(t, s) && |s.stack| > 0 && |Top(s).calls| == 0
    ensures Ok(t, EndLoad(s, threw, written))
  {
    hide FrameOk, Truthful, NoteLoad, SaveAs;
    var f := Top(s);
    assert FrameOk(t, f);
    if |s.stack| > 1 {
      var parent := s.stack[|s.stack| - 2];
      PoisonIsOk(t, parent);
      NoteIsOk(t, parent, s.chain + [(f.from.file, f.from.tcOn)]);
    }
    if !f.replay && !f.poisoned {
      SavedIsOk(t, s.disk, f, s.gensym);
    }
  }

  lemma NoteIsOk(t: Typecheck, f: Frame, chain: Chain)
    requires FrameOk(t, f)
    ensures FrameOk(t, NoteLoad(f, chain))
  {
    hide AnswersTrue, DoneOf, Calls, Loads, Truthful, DigestTells;
    OneMorePast(f.done, Nested(chain));
    DigestNotes(f, NoteLoad(f, chain), chain);
    if !f.replay && !f.poisoned {
      MoreLoads(t, f.from, f.entries, f.befores, f.ckpt, chain);
    }
  }

  lemma DigestNotes(f: Frame, g: Frame, chain: Chain)
    requires DigestTells(f) && g.digest == f.digest + [Loaded(chain)] && g.done == f.done + [Nested(chain)]
    requires g.replay == f.replay && g.calls == f.calls && (f.poisoned ==> g.poisoned)
    ensures DigestTells(g)
  {
    hide Calls, Loads, ItemCalls, ItemLoads, Digested;
    OneMorePast(f.done, Nested(chain));
    OneMoreItem(f.digest, Loaded(chain));
    assert Calls(f.done) + [] == Calls(f.done) && ItemCalls(f.digest) + [] == ItemCalls(f.digest);
  }

  lemma SavedIsOk(t: Typecheck, disk: map<LoadKey, Saved>, f: Frame, gensym: int)
    requires FrameOk(t, f) && !f.replay && !f.poisoned
    requires forall key :: key in disk ==> SavedOk(t, key, disk[key])
    ensures var disk' := SaveAs(disk, f, gensym);
      forall key :: key in disk' ==> SavedOk(t, key, disk'[key])
  {
    hide Truthful, Fits;
    TruthfulStored(t, f.from, f.entries, f.befores, f.ckpt);
  }

  ghost predicate AllSettled(t: Typecheck, s: State, es: seq<Event>)
    requires Run(t, s, es)
    decreases |es|
  {
    |es| == 0 || (Settled(t, s, es[0]) && AllSettled(t, Next(t, s, es[0]), es[1..]))
  }

  ghost predicate AllInOrder(t: Typecheck, s: State, es: seq<Event>)
    requires Run(t, s, es)
    decreases |es|
  {
    |es| == 0 || (InOrder(s, es[0]) && AllInOrder(t, Next(t, s, es[0]), es[1..]))
  }

  /** In every reachable state every answer of every running load is what typecheck gives without a
      cache, whether it came from a recording or not. */
  lemma {:induction false} RunsAreOk(t: Typecheck, s: State, es: seq<Event>)
    requires Ok(t, s) && Run(t, s, es) && AllSettled(t, s, es)
    ensures Ok(t, After(t, s, es))
    ensures forall i :: 0 <= i < |After(t, s, es).stack| ==> AnswersTrue(t, After(t, s, es).stack[i].from, After(t, s, es).stack[i].answers)
    decreases |es|
  {
    hide FrameOk, Truthful, Next, Possible, AnswersTrue, Settled;
    if |es| > 0 {
      StepIsOk(t, s, es[0]);
      RunsAreOk(t, Next(t, s, es[0]), es[1..]);
    } else {
      forall i | 0 <= i < |s.stack|
        ensures AnswersTrue(t, s.stack[i].from, s.stack[i].answers)
      {
        OkAnswers(t, s.stack[i]);
      }
    }
  }

  lemma OkAnswers(t: Typecheck, f: Frame)
    requires FrameOk(t, f)
    ensures AnswersTrue(t, f.from, f.answers)
  {
  }

  /** Main result: so it is in every run in which calls and loads come in their recorded order
      whenever an entry is taken, whatever typecheck makes of nested loads; and in every run at all
      if typecheck makes nothing of them. */
  lemma {:induction false} ReplayIsTrue(t: Typecheck, s: State, es: seq<Event>)
    requires Ok(t, s) && Run(t, s, es) && (AllInOrder(t, s, es) || Blind(t))
    ensures AllSettled(t, s, es) && Ok(t, After(t, s, es))
    ensures forall i :: 0 <= i < |After(t, s, es).stack| ==> AnswersTrue(t, After(t, s, es).stack[i].from, After(t, s, es).stack[i].answers)
  {
    if Blind(t) {
      AllSettledBlind(t, s, es);
    } else {
      AllSettledInOrder(t, s, es);
    }
    RunsAreOk(t, s, es);
  }

  lemma {:induction false} AllSettledInOrder(t: Typecheck, s: State, es: seq<Event>)
    requires Ok(t, s) && Run(t, s, es) && AllInOrder(t, s, es)
    ensures AllSettled(t, s, es)
    decreases |es|
  {
    hide Ok, Next, Possible, Settled, InOrder;
    if |es| > 0 {
      InOrderIsSettled(t, s, es[0]);
      StepIsOk(t, s, es[0]);
      AllSettledInOrder(t, Next(t, s, es[0]), es[1..]);
    }
  }

  lemma {:induction false} AllSettledBlind(t: Typecheck, s: State, es: seq<Event>)
    requires Ok(t, s) && Run(t, s, es) && Blind(t)
    ensures AllSettled(t, s, es)
    decreases |es|
  {
    hide Ok, Next, Possible, Settled, Blind;
    if |es| > 0 {
      BlindIsSettled(t, s, es[0]);
      StepIsOk(t, s, es[0]);
      AllSettledBlind(t, Next(t, s, es[0]), es[1..]);
    }
  }

  /** A process starts with no load and no call, and with what earlier processes left on disk. */
  function Start(gensym: int, disk: map<LoadKey, Saved>): State {
    State([], [], gensym, disk)
  }

  /** What one process does, up to its end or to a crash. */
  datatype Process = Process(gensym: int, events: seq<Event>)

  /** One process after another; each takes the entries of its recordings in their recorded order, or
      typecheck makes nothing of nested loads. */
  ghost predicate Processes(t: Typecheck, disk: map<LoadKey, Saved>, ps: seq<Process>)
    decreases |ps|
  {
    |ps| == 0 ||
    (var s, es := Start(ps[0].gensym, disk), ps[0].events;
     Run(t, s, es) && (AllInOrder(t, s, es) || Blind(t)) && Processes(t, After(t, s, es).disk, ps[1..]))
  }

  /** Where the last of them has come to. */
  ghost function Reached(t: Typecheck, disk: map<LoadKey, Saved>, ps: seq<Process>): State
    requires Processes(t, disk, ps) && |ps| > 0
    decreases |ps|
  {
    var s := After(t, Start(ps[0].gensym, disk), ps[0].events);
    if |ps| == 1 then s else Reached(t, s.disk, ps[1..])
  }

  lemma RestartIsOk(t: Typecheck, s: State, gensym: int)
    requires Ok(t, s)
    ensures Ok(t, Start(gensym, s.disk))
  {
  }

  lemma {:induction false} ProcessesAreOk(t: Typecheck, disk: map<LoadKey, Saved>, ps: seq<Process>)
    requires Ok(t, Start(0, disk)) && Processes(t, disk, ps) && |ps| > 0
    ensures var s := Reached(t, disk, ps);
      Ok(t, s) && forall i :: 0 <= i < |s.stack| ==> AnswersTrue(t, s.stack[i].from, s.stack[i].answers)
    decreases |ps|
  {
    hide Ok, Run, After, AllInOrder, AllSettled, Blind, AnswersTrue;
    RestartIsOk(t, Start(0, disk), ps[0].gensym);
    ReplayIsTrue(t, Start(ps[0].gensym, disk), ps[0].events);
    if |ps| > 1 {
      RestartIsOk(t, After(t, Start(ps[0].gensym, disk), ps[0].events), 0);
      ProcessesAreOk(t, After(t, Start(ps[0].gensym, disk), ps[0].events).disk, ps[1..]);
    }
  }

  /** In every state that any number of processes reach from an empty cache, each of them stopped
      anywhere, all answers of all running loads are those of an uncached typecheck. */
  lemma ReachedIsTrue(t: Typecheck, ps: seq<Process>)
    requires Processes(t, map[], ps) && |ps| > 0
    ensures var s := Reached(t, map[], ps);
      forall i :: 0 <= i < |s.stack| ==> AnswersTrue(t, s.stack[i].from, s.stack[i].answers)
  {
    assert Ok(t, Start(0, map[]));
    ProcessesAreOk(t, map[], ps);
  }

  // Recording, then replaying -------------------------------------------------------------------

  /** A load is replayed exactly when there is a file for its circumstances. */
  lemma ReplaysExactly(s: State, file: nat, tcOn: bool)
    ensures var s' := BeginLoad(s, file, tcOn);
      && |s'.stack| == |s.stack| + 1 && s'.stack[..|s.stack|] == s.stack && s'.chain == s.chain && s'.disk == s.disk
      && Top(s').from == Now(s, file, tcOn) && (Top(s').replay <==> KeyOf(s, file, tcOn) in s.disk)
  {
    hide KeyFor, Now;
  }

  /** A load that ends well is the next file of the chain, and its parent has digested it. */
  lemma EndsExactly(s: State, written: bool)
    requires |s.stack| > 0
    ensures var f, s' := Top(s), EndLoad(s, false, written);
      && s'.chain == s.chain + [(f.from.file, f.from.tcOn)] && |s'.stack| == |s.stack| - 1
      && (|s'.stack| > 0 ==> Top(s').digest == s.stack[|s'.stack| - 1].digest + [Loaded(s'.chain)])
      && (f.replay || f.poisoned || !written ==> s'.disk == s.disk)
      && EndLoad(s, true, written).chain == s.chain && EndLoad(s, true, written).disk == s.disk
  {
  }

  /** A verdict is served exactly when the next entry is for this call and holds one; the counter goes
      on to where it was when the entry was made. A call that is not the next one poisons the load. */
  lemma ServedExactly(s: State, hash: Option<nat>)
    requires |s.stack| > 0
    ensures var f, (s', v) := Top(s), BeginCheck(s, hash);
      && v == (if Consumes(f, hash) then f.entries[f.cursor].val else None)
      && (v.Some? ==> s'.gensym == if s.gensym < f.entries[f.cursor].gensym then f.entries[f.cursor].gensym else s.gensym)
      && (v.None? ==> s'.gensym == s.gensym)
      && (Top(s').poisoned <==> f.poisoned || (f.replay && f.depth == 0 && !Consumes(f, hash)))
  {
  }

  /** A call of a load, what typecheck answers, and where it leaves the counter. */
  datatype Asked = Asked(hash: Option<nat>, v: Kl, gensym: int)

  /** The call, where no verdict is served for it. */
  function Ask(s: State, q: Asked): State
    requires |s.stack| > 0 && BeginCheck(s, q.hash).1.None?
  {
    EndCheck(BeginCheck(s, q.hash).0.(gensym := Forward(s.gensym, q.gensym)), Returned(q.v))
  }

  /** The calls, one after the other, while the load is recorded. */
  function Recorded(s: State, qs: seq<Asked>): (r: State)
    requires |s.stack| > 0 && !Top(s).replay
    ensures |r.stack| == |s.stack|
    decreases |qs|
  {
    if |qs| == 0 then s else Recorded(Ask(s, qs[0]), qs[1..])
  }

  /** The calls, one after the other, some of them served, and what has been served. */
  function Replayed(s: State, qs: seq<Asked>): (r: (State, seq<Option<Kl>>))
    requires |s.stack| > 0
    ensures |r.0.stack| == |s.stack|
    decreases |qs|
  {
    if |qs| == 0 then (s, [])
    else
      var (s', v) := BeginCheck(s, qs[0].hash);
      var (s2, vs) := Replayed(if v.Some? then s' else Ask(s, qs[0]), qs[1..]);
      (s2, [v] + vs)
  }

  function Counter(gensym: int, qs: seq<Asked>): int
    decreases |qs|
  {
    if |qs| == 0 then gensym else Counter(Forward(gensym, qs[0].gensym), qs[1..])
  }

  function EntriesOf(gensym: int, qs: seq<Asked>): seq<Entry>
    decreases |qs|
  {
    if |qs| == 0 then []
    else
      var g := Forward(gensym, qs[0].gensym);
      [NewEntry(qs[0].hash, qs[0].v, g)] + EntriesOf(g, qs[1..])
  }

  /** What can be served for a call: its verdict, unless that is false or has no text form, or the call
      has no hash. */
  function Servable(q: Asked): Option<Kl> {
    if q.hash.Some? && q.v != Bool(false) && Serialize(q.v).Some? then Some(q.v) else None
  }

  ghost predicate Recording(s: State) {
    |s.stack| > 0 && !Top(s).replay && !Top(s).poisoned && Top(s).depth == 0 && Top(s).calls == []
  }

  /** A recording that has gone on, with these further entries. */
  ghost predicate Grown(s: State, s': State, gensym: int, es: seq<Entry>)
    requires |s.stack| > 0
  {
    && Recording(s') && s'.gensym == gensym && s'.disk == s.disk && s'.chain == s.chain && |s'.stack| == |s.stack|
    && Top(s').entries == Top(s).entries + es
    && Top(s').key == Top(s).key && Top(s').from == Top(s).from && Top(s').start == Top(s).start
  }

  lemma {:induction false} RecordsAll(s: State, qs: seq<Asked>)
    requires Recording(s)
    ensures Grown(s, Recorded(s, qs), Counter(s.gensym, qs), EntriesOf(s.gensym, qs))
    decreases |qs|
  {
    hide Ask, NewEntry;
    if |qs| > 0 {
      var q, g := qs[0], Forward(s.gensym, qs[0].gensym);
      var s1 := Ask(s, q);
      RecordsOne(s, q);
      RecordsAll(s1, qs[1..]);
      GrownTwice(s, s1, Recorded(s1, qs[1..]), g, [NewEntry(q.hash, q.v, g)], Counter(g, qs[1..]), EntriesOf(g, qs[1..]));
    } else {
      assert Top(s).entries + [] == Top(s).entries;
    }
  }

  lemma GrownTwice(s: State, s1: State, s2: State, g1: int, es1: seq<Entry>, g2: int, es2: seq<Entry>)
    requires |s.stack| > 0 && Grown(s, s1, g1, es1) && Grown(s1, s2, g2, es2)
    ensures Grown(s, s2, g2, es1 + es2)
  {
    assert Top(s).entries + es1 + es2 == Top(s).entries + (es1 + es2);
  }

  lemma RecordsOne(s: State, q: Asked)
    requires Recording(s)
    ensures var g := Forward(s.gensym, q.gensym); Grown(s, Ask(s, q), g, [NewEntry(q.hash, q.v, g)])
  {
  }

  ghost predicate ReplayingRest(s: State, es: seq<Entry>) {
    && |s.stack| > 0 && Top(s).replay && !Top(s).poisoned && Top(s).depth == 0 && Top(s).calls == []
    && Top(s).cursor <= |Top(s).entries| && Top(s).entries[Top(s).cursor..] == es
  }

  lemma {:induction false} ServesAll(s: State, qs: seq<Asked>)
    requires ReplayingRest(s, StoredAll(EntriesOf(s.gensym, qs)))
    ensures var (s', vs) := Replayed(s, qs);
      && ReplayingRest(s', []) && s'.gensym == Counter(s.gensym, qs) && |s'.stack| == |s.stack| && Top(s').end == Top(s).end
      && |vs| == |qs| && forall i :: 0 <= i < |qs| ==> vs[i] == Servable(qs[i])
    decreases |qs|
  {
    hide Serialize, Stored, NewEntry, Servable, Plan, Leave;
    if |qs| > 0 {
      var q, g := qs[0], Forward(s.gensym, qs[0].gensym);
      var all := EntriesOf(s.gensym, qs);
      assert all[1..] == EntriesOf(g, qs[1..]) && StoredAll(all)[1..] == StoredAll(all[1..]);
      ServesOne(s, q, StoredAll(all));
      var (s', v) := BeginCheck(s, q.hash);
      ServesAll(if v.Some? then s' else Ask(s, q), qs[1..]);
    }
  }

  lemma ServesOne(s: State, q: Asked, es: seq<Entry>)
    requires ReplayingRest(s, es) && |es| > 0 && es[0] == Stored(NewEntry(q.hash, q.v, Forward(s.gensym, q.gensym)))
    ensures var (s', v) := BeginCheck(s, q.hash);
      var s2 := if v.Some? then s' else Ask(s, q);
      && v == Servable(q) && ReplayingRest(s2, es[1..]) && s2.gensym == Forward(s.gensym, q.gensym)
      && |s2.stack| == |s.stack| && Top(s2).end == Top(s).end
  {
    hide Serialize;
    var f := Top(s);
    assert f.entries[f.cursor] == es[0] && f.entries[f.cursor + 1..] == es[1..];
  }

  /** A load with these calls and no load inside it, from its beginning to its end. */
  function RecordedLoad(s: State, file: nat, tcOn: bool, qs: seq<Asked>): State
    requires KeyOf(s, file, tcOn) !in s.disk
  {
    EndLoad(Recorded(BeginLoad(s, file, tcOn), qs), false, true)
  }

  /** The same load again: what is served, and the state at its end. */
  function ReplayedLoad(s: State, file: nat, tcOn: bool, qs: seq<Asked>): (State, seq<Option<Kl>>) {
    var (s', vs) := Replayed(BeginLoad(s, file, tcOn), qs);
    (EndLoad(s', false, true), vs)
  }

  /** The file of this load is still what it was in the state r. */
  ghost predicate StillThere(r: State, again: State, key: LoadKey) {
    key in r.disk ==> key in again.disk && again.disk[key] == r.disk[key]
  }

  /** A load that is recorded is served when it is loaded again: if the file could be written, and the
      circumstances are the same, every verdict that can be served is, whatever else the process
      has done, and the counter ends where the recording has left it. */
  lemma RecordThenReplay(s: State, file: nat, tcOn: bool, qs: seq<Asked>, again: State)
    requires var key := KeyOf(s, file, tcOn);
      key !in s.disk && KeyOf(again, file, tcOn) == key && StillThere(RecordedLoad(s, file, tcOn, qs), again, key)
    requires forall i :: 0 <= i < |qs| && Servable(qs[i]).Some? ==> SpinesFit(qs[i].v, 0)
    ensures var (s', vs) := ReplayedLoad(again, file, tcOn, qs);
      && |vs| == |qs| && (forall i :: 0 <= i < |qs| ==> vs[i] == Servable(qs[i]))
      && s'.gensym == RecordedLoad(s, file, tcOn, qs).gensym
  {
    hide KeyFor, Now, Serialize, SpinesFit, StoredAll, Servable, Replayed, EndLoad, Recorded, BeginLoad;
    SameKeyExactly(s, file, tcOn, again, file, tcOn);
    FileOfRecording(s, file, tcOn, qs);
    FileIsFollowed(again, file, tcOn, qs);
    ServesAll(BeginLoad(again, file, tcOn), qs);
    EndOfReplay(Replayed(BeginLoad(again, file, tcOn), qs).0, Counter(s.gensym, qs));
  }

  /** What lies on disk after a recording. */
  ghost predicate HoldsRecording(r: Saved, gensym: int, qs: seq<Asked>) {
    r.start == gensym && r.end == Counter(gensym, qs) && r.entries == StoredAll(EntriesOf(gensym, qs))
  }

  lemma FileOfRecording(s: State, file: nat, tcOn: bool, qs: seq<Asked>)
    requires KeyOf(s, file, tcOn) !in s.disk && forall i :: 0 <= i < |qs| && Servable(qs[i]).Some? ==> SpinesFit(qs[i].v, 0)
    ensures var key, r := KeyOf(s, file, tcOn), RecordedLoad(s, file, tcOn, qs);
      r.gensym == Counter(s.gensym, qs) && key in r.disk && HoldsRecording(r.disk[key], s.gensym, qs)
  {
    hide KeyFor, Now, Serialize, SpinesFit, StoredAll, Servable, Recorded, EndLoad;
    var s1 := BeginLoad(s, file, tcOn);
    RecordsAll(s1, qs);
    assert [] + EntriesOf(s.gensym, qs) == EntriesOf(s.gensym, qs);
    EntriesFit(s.gensym, qs);
    IsOnDisk(Recorded(s1, qs));
  }

  lemma FileIsFollowed(s: State, file: nat, tcOn: bool, qs: seq<Asked>)
    requires KeyOf(s, file, tcOn) in s.disk && HoldsRecording(s.disk[KeyOf(s, file, tcOn)], s.gensym, qs)
    ensures var s' := BeginLoad(s, file, tcOn);
      ReplayingRest(s', StoredAll(EntriesOf(s.gensym, qs))) && s'.gensym == s.gensym && Top(s').end == Counter(s.gensym, qs)
  {
    hide KeyFor, Now, StoredAll;
    assert StoredAll(EntriesOf(s.gensym, qs))[0..] == StoredAll(EntriesOf(s.gensym, qs));
  }

  lemma EndOfReplay(s: State, end: int)
    requires |s.stack| > 0 && Top(s).replay && Top(s).end == end && s.gensym == end
    ensures EndLoad(s, false, true).gensym == end
  {
  }

  lemma {:induction false} EntriesFit(gensym: int, qs: seq<Asked>)
    requires forall i :: 0 <= i < |qs| && Servable(qs[i]).Some? ==> SpinesFit(qs[i].v, 0)
    ensures forall i :: 0 <= i < |EntriesOf(gensym, qs)| ==> Fits(EntriesOf(gensym, qs)[i])
    decreases |qs|
  {
    hide Serialize, SpinesFit;
    if |qs| > 0 {
      EntriesFit(Forward(gensym, qs[0].gensym), qs[1..]);
    }
  }

  lemma IsOnDisk(s: State)
    requires Recording(s) && forall i :: 0 <= i < |Top(s).entries| ==> Fits(Top(s).entries[i])
    ensures var f, s' := Top(s), EndLoad(s, false, true);
      s'.gensym == s.gensym && f.key in s'.disk && s'.disk[f.key] == Saved(f.from, f.start, s.gensym, StoredAll(f.entries), f.befores, f.ckpt)
  {
    hide Fits, StoredAll;
  }

  // What steps leave alone ----------------------------------------------------------------------

  /** Poison is permanent, for every frame that is still there. */
  lemma PoisonStays(t: Typecheck, s: State, e: Event, i: nat)
    requires Possible(t, s, e) && i < |s.stack| && i < |Next(t, s, e).stack| && s.stack[i].poisoned
    ensures Next(t, s, e).stack[i].poisoned
  {
    hide KeyFor, Now, SaveAs, NewEntry, DigestOf;
    match e
    case Check(hash) => assert Plan(Top(s), hash).0.poisoned || i < |s.stack| - 1;
    case Checked(outcome) => assert Leave(Top(s), outcome, s.gensym).poisoned || i < |s.stack| - 1;
    case LoadEnds(threw, written) => assert i < |s.stack| - 1;
    case _ =>
  }

  /** A poisoned frame serves nothing and records nothing more that will be kept. */
  lemma PoisonedServesNothing(s: State, hash: Option<nat>)
    requires |s.stack| > 0 && Top(s).poisoned
    ensures BeginCheck(s, hash).1.None? && Top(BeginCheck(s, hash).0).entries == Top(s).entries
    ensures forall written :: EndLoad(s, false, written).disk == s.disk
  {
  }

  /** Calls inside a call neither consume nor add entries, and are answered by the original. */
  lemma NestedCallsPass(t: Typecheck, s: State, hash: Option<nat>, outcome: Outcome)
    requires Ok(t, s) && |s.stack| > 0 && |Top(s).calls| > 0
    ensures var (s', v) := BeginCheck(s, hash);
      && v.None? && s'.gensym == s.gensym
      && Top(s').entries == Top(s).entries && Top(s').cursor == Top(s).cursor && Top(s').digest == Top(s).digest
      && Top(EndCheck(s', outcome)) == Top(s)
  {
    var f := Top(s);
    DepthIsCalls(t, f);
    hide FrameOk, NewEntry, DigestOf;
    assert Plan(f, hash) == (Enter(f, hash, false), None);
    assert (f.calls + [Running(hash, false, f.done)])[..|f.calls|] == f.calls;
  }

  lemma DepthIsCalls(t: Typecheck, f: Frame)
    requires FrameOk(t, f)
    ensures f.depth == |f.calls|
  {
  }

  /** The counter of generated symbols never goes back. */
  lemma GensymGoesForward(t: Typecheck, s: State, e: Event)
    requires Possible(t, s, e)
    ensures Next(t, s, e).gensym >= s.gensym
  {
  }

  /** Nor does it over a whole run. */
  lemma {:induction false} GensymNeverGoesBack(t: Typecheck, s: State, es: seq<Event>)
    requires Run(t, s, es)
    ensures After(t, s, es).gensym >= s.gensym
    decreases |es|
  {
    hide Next, Possible;
    if |es| > 0 {
      GensymGoesForward(t, s, es[0]);
      GensymNeverGoesBack(t, Next(t, s, es[0]), es[1..]);
    }
  }

  /** The run never ends the load at height h. */
  ghost predicate StaysAbove(t: Typecheck, s: State, es: seq<Event>, h: nat)
    requires Run(t, s, es)
    decreases |es|
  {
    |s.stack| > h && (|es| > 0 ==> StaysAbove(t, Next(t, s, es[0]), es[1..], h))
  }

  /** A load that is poisoned stays so until it ends: whatever runs in the meantime, no verdict is
      served to it, its recording is not added to, and its end saves nothing. */
  lemma {:induction false} PoisonIsPermanent(t: Typecheck, s: State, es: seq<Event>, h: nat)
    requires Run(t, s, es) && StaysAbove(t, s, es, h) && s.stack[h].poisoned
    ensures var s' := After(t, s, es);
      && |s'.stack| > h && s'.stack[h].poisoned
      && (|s'.stack| == h + 1 ==>
            && (forall hash :: BeginCheck(s', hash).1.None? && Top(BeginCheck(s', hash).0).entries == Top(s').entries)
            && (forall written :: EndLoad(s', false, written).disk == s'.disk))
    decreases |es|
  {
    hide Next, Possible;
    if |es| > 0 {
      PoisonStays(t, s, es[0], h);
      PoisonIsPermanent(t, Next(t, s, es[0]), es[1..], h);
    } else if |s.stack| == h + 1 {
      forall hash: Option<nat>
        ensures BeginCheck(s, hash).1.None? && Top(BeginCheck(s, hash).0).entries == Top(s).entries
      {
        PoisonedServesNothing(s, hash);
      }
      PoisonedServesNothing(s, None);
    }
  }

  lemma StepKeepsBelow(t: Typecheck, s: State, e: Event, h: nat)
    requires Possible(t, s, e) && |s.stack| > h && |Next(t, s, e).stack| > h
    ensures Next(t, s, e).stack[..h] == s.stack[..h]
  {
  }

  lemma {:induction false} RunKeepsBelow(t: Typecheck, s: State, es: seq<Event>, h: nat)
    requires Run(t, s, es) && StaysAbove(t, s, es, h)
    ensures var s' := After(t, s, es); |s'.stack| > h && s'.stack[..h] == s.stack[..h]
    decreases |es|
  {
    hide Next, Possible;
    if |es| > 0 {
      StepKeepsBelow(t, s, es[0], h);
      RunKeepsBelow(t, Next(t, s, es[0]), es[1..], h);
    }
  }

  /** A load leaves the stack at its entry height, on success and on throw, whatever ran inside; the
      loads around it are untouched but for the mark of the load itself in its parent. */
  lemma LoadRestoresStack(t: Typecheck, s: State, file: nat, tcOn: bool, es: seq<Event>, threw: bool, written: bool)
    requires var s1 := BeginLoad(s, file, tcOn);
      Run(t, s1, es) && StaysAbove(t, s1, es, |s.stack|) && |After(t, s1, es).stack| == |s.stack| + 1
    ensures var s3 := EndLoad(After(t, BeginLoad(s, file, tcOn), es), threw, written);
      && |s3.stack| == |s.stack|
      && (|s.stack| > 0 ==> s3.stack[..|s.stack| - 1] == s.stack[..|s.stack| - 1])
      && (|s.stack| > 0 ==> Top(s3).entries == Top(s).entries && Top(s3).cursor == Top(s).cursor && Top(s3).depth == Top(s).depth)
      && (|s.stack| > 0 && threw ==> Top(s3).poisoned)
  {
    hide Next, Possible, Run, After, BeginLoad, EndLoad;
    var s1 := BeginLoad(s, file, tcOn);
    ReplaysExactly(s, file, tcOn);
    RunKeepsBelow(t, s1, es, |s.stack|);
    assert s1.stack[..|s.stack|] == s.stack;
    EndRestores(s, After(t, s1, es), threw, written);
  }

  lemma EndRestores(s: State, s2: State, threw: bool, written: bool)
    requires |s2.stack| == |s.stack| + 1 && s2.stack[..|s.stack|] == s.stack
    ensures var s3 := EndLoad(s2, threw, written);
      && |s3.stack| == |s.stack|
      && (|s.stack| > 0 ==> s3.stack[..|s.stack| - 1] == s.stack[..|s.stack| - 1])
      && (|s.stack| > 0 ==> Top(s3).entries == Top(s).entries && Top(s3).cursor == Top(s).cursor && Top(s3).depth == Top(s).depth)
      && (|s.stack| > 0 && threw ==> Top(s3).poisoned)
  {
    hide SaveAs, Forward;
  }
}
