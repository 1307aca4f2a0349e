/** Definitions that compile themselves on their first call (lazy_call, make_lazy and define_lazy in
    src/rc/native_compile.c), against definitions that are compiled at once. */
module LazyDefinitions {
  import opened Options

  /** A definition's parameters and body: what a function means. */
  datatype Meaning = Meaning(params: seq<string>, body: nat)

  /** A native function, or a thunk with the cell that will hold one; a thunk made by defun also
      knows its name. */
  datatype Function =
    | Native(code: Meaning)
    | Thunk(cell: Cell, name: Option<string>)

  /** The three slots of a thunk's cell. */
  class Cell {
    var fn: Option<Meaning>
    var params: Option<seq<string>>
    var body: Option<nat>
    ghost const meaning: Meaning
    /** How many times the cell has been compiled with success. */
    ghost var compiles: nat

    constructor (params: seq<string>, body: nat)
      ensures Valid() && meaning == Meaning(params, body) && compiles == 0
    {
      fn, this.params, this.body := None, Some(params), Some(body);
      meaning, compiles := Meaning(params, body), 0;
    }

    /** Until the first call the slots hold the definition, afterwards its code. */
    ghost predicate Valid()
      reads this
    {
      if fn.Some? then fn.value == meaning && params.None? && body.None? && compiles == 1
      else params == Some(meaning.params) && body == Some(meaning.body) && compiles == 0
    }
  }

  /** The table once f has been called and has code: an entry for f under f's own name is replaced. */
  ghost function Replaced(functions: map<string, Function>, f: Function): map<string, Function> {
    if f.Thunk? && f.name.Some? && f.name.value in functions && functions[f.name.value] == f
    then functions[f.name.value := Native(f.cell.meaning)] else functions
  }

  ghost function MeaningOf(f: Function): Meaning {
    match f
    case Native(code) => code
    case Thunk(cell, _) => cell.meaning
  }

  class Runtime {
    var functions: map<string, Function>
    /** Every cell that was ever made. */
    ghost var cells: set<Cell>
    /** The eager table: what every symbol denotes. */
    ghost var eager: map<string, Meaning>

    constructor ()
      ensures Valid() && eager == map[] && cells == {}
    {
      functions, eager, cells := map[], map[], {};
    }

    /** A function that this runtime has made. */
    ghost predicate Known(f: Function)
      reads this
    {
      f.Thunk? ==> f.cell in cells
    }

    ghost predicate Valid()
      reads this, cells
    {
      && (forall c :: c in cells ==> c.Valid())
      && functions.Keys == eager.Keys
      && (forall s :: s in functions ==> Known(functions[s]) && MeaningOf(functions[s]) == eager[s])
    }

    /** define_lazy: a function that returns its second parameter needs no cell. */
    method Define(name: string, params: seq<string>, body: nat, isSecond: bool) returns (f: Function)
      requires Valid()
      modifies this
      ensures Valid() && eager == old(eager)[name := Meaning(params, body)]
      ensures functions == old(functions)[name := f] && Known(f) && MeaningOf(f) == Meaning(params, body)
      ensures f.Native? <==> isSecond
      ensures f.Thunk? ==> f.name == Some(name) && fresh(f.cell) && f.cell.compiles == 0
      ensures old(cells) <= cells && fresh(cells - old(cells))
      ensures forall c :: c in old(cells) ==> c.compiles == old(c.compiles)
    {
      if isSecond {
        f := Native(Meaning(params, body));
      } else {
        var cell := new Cell(params, body);
        cells := cells + {cell};
        f := Thunk(cell, Some(name));
      }
      functions := functions[name := f];
      eager := eager[name := Meaning(params, body)];
    }

    /** make_lazy without a name: the closures of lambda and freeze forms. */
    method Close(params: seq<string>, body: nat) returns (f: Function)
      requires Valid()
      modifies this`cells
      ensures Valid() && Known(f) && MeaningOf(f) == Meaning(params, body)
      ensures f.Thunk? && f.name.None? && fresh(f.cell) && f.cell.compiles == 0
      ensures old(cells) <= cells && fresh(cells - old(cells))
    {
      var cell := new Cell(params, body);
      cells := cells + {cell};
      f := Thunk(cell, None);
    }

    /** lazy_call up to the tail call: the code that runs is the function's own meaning, whatever its
        symbol means by now, and every symbol goes on to denote what it did. compiled is what the
        compiler would do now; a failure changes nothing, so a later call tries again. */
    method Call(f: Function, compiled: bool) returns (code: Option<Meaning>)
      requires Valid() && Known(f)
      modifies this`functions, cells
      ensures Valid() && eager == old(eager)
      ensures code.Some? <==> f.Native? || compiled || old(f.cell.compiles) == 1
      ensures code.Some? ==> code.value == MeaningOf(f)
      ensures functions == if code.Some? then Replaced(old(functions), f) else old(functions)
      ensures f.Thunk? ==> f.cell.compiles == if code.Some? then 1 else old(f.cell.compiles)
      ensures forall c :: c in cells && (f.Native? || c != f.cell) ==> c.compiles == old(c.compiles) && c.fn == old(c.fn)
      ensures forall s :: s in old(functions) && old(functions)[s] != f ==> functions[s] == old(functions)[s]
    {
      if f.Native? {
        return Some(f.code);
      }
      var cell := f.cell;
      if cell.fn.None? {
        if !compiled {
          return None;
        }
        cell.fn := Some(Meaning(cell.params.value, cell.body.value));
        cell.params, cell.body := None, None;
        cell.compiles := cell.compiles + 1;
      }
      if f.name.Some? && f.name.value in functions && functions[f.name.value] == f {
        functions := functions[f.name.value := Native(cell.fn.value)];
      }
      code := cell.fn;
    }

    /** A call through a symbol runs its latest definition. */
    method CallSymbol(name: string, compiled: bool) returns (code: Option<Meaning>)
      requires Valid()
      modifies this`functions, cells
      ensures Valid() && eager == old(eager)
      ensures code.Some? <==> name in old(functions)
                              && (old(functions)[name].Native? || compiled || old(functions[name].cell.compiles) == 1)
      ensures code.Some? ==> name in eager && code.value == eager[name]
      ensures name !in eager <==> name !in old(functions)
      ensures functions == if code.Some? then Replaced(old(functions), old(functions)[name]) else old(functions)
    {
      if name !in functions {
        return None;
      }
      code := Call(functions[name], compiled);
    }
  }
}
