/** The typecheck cache of src/c/tc_cache.c as it runs: the wrappers of shen.typecheck and load over
    one record of state. */
module TcCache {
  import opened Options
  import opened TcText
  import opened TcFile
  import opened TcReplay

  class TcState {
    var stack: seq<Frame>
    var chain: Chain
    var gensym: int
    var disk: map<LoadKey, Saved>

    function Abstract(): State
      reads this
    {
      State(stack, chain, gensym, disk)
    }

    constructor (gensym: int)
      ensures Abstract() == State([], [], gensym, map[])
    {
      stack, chain, this.gensym, disk := [], [], gensym, map[];
    }

    /** pin_gensym_forward */
    method PinForward(to: int)
      modifies this`gensym
      ensures gensym == Forward(old(gensym), to)
    {
      if to > gensym {
        gensym := to;
      }
    }

    method SetTopFrame(f: Frame)
      requires |stack| > 0
      modifies this`stack
      ensures Abstract() == SetTop(old(Abstract()), f)
    {
      stack := stack[..|stack| - 1] + [f];
    }

    /** stream_wrapper up to the original typecheck, which runs when there is no verdict. */
    method Check_(hash: Option<nat>) returns (served: Option<Kl>)
      requires |stack| > 0
      modifies this
      ensures Abstract() == BeginCheck(old(Abstract()), hash).0 && served == BeginCheck(old(Abstract()), hash).1
    {
      var top := stack[|stack| - 1];
      if !top.poisoned && top.depth == 0 && top.replay {
        if top.cursor < |top.entries| && top.entries[top.cursor].hash == hash {
          var e := top.entries[top.cursor];
          top := top.(cursor := top.cursor + 1, digest := top.digest + [DigestOf(hash)]);
          if e.val.Some? {
            SetTopFrame(top.(done := top.done + [Answered(hash)], answers := top.answers + [Answer(top.done, hash, Returned(e.val.value))]));
            PinForward(e.gensym);
            return e.val;
          }
        } else {
          top := top.(poisoned := true);
        }
        SetTopFrame(Enter(top, hash, false));
      } else {
        SetTopFrame(Enter(top, hash, !top.poisoned && top.depth == 0));
      }
      served := None;
    }

    /** with_depth_orig after the call, and the recording of a verdict. */
    method CheckEnds(outcome: Outcome)
      requires |stack| > 0 && |stack[|stack| - 1].calls| > 0
      modifies this
      ensures Abstract() == EndCheck(old(Abstract()), outcome)
    {
      var top := stack[|stack| - 1];
      var n := |top.calls|;
      var call := top.calls[n - 1];
      top := top.(calls := top.calls[..n - 1]);
      if top.depth > 0 {
        top := top.(depth := top.depth - 1);
      }
      if n == 1 {
        top := top.(answers := top.answers + [Answer(call.before, call.hash, outcome)]);
      }
      if outcome.Returned? {
        if n == 1 {
          top := top.(done := top.done + [Answered(call.hash)]);
        }
        if call.record {
          top := top.(digest := top.digest + [DigestOf(call.hash)], entries := top.entries + [NewEntry(call.hash, outcome.v, gensym)],
            befores := top.befores + [call.before]);
        }
      }
      SetTopFrame(top);
    }

    /** The pieces of the key, in the order in which they are hashed: the chain, the running loads from
        the outermost on, the file, the flag and the counter. */
    method Key(file: nat, tcOn: bool) returns (key: LoadKey)
      ensures key == KeyOf(Abstract(), file, tcOn)
    {
      ghost var outer := Now(Abstract(), file, tcOn).outer;
      key := [OfChain(chain)];
      var i := 0;
      while i < |stack|
        invariant i <= |stack| && key == [OfChain(chain)] + OuterPieces(outer[..i])
      {
        assert outer[..i + 1][..i] == outer[..i];
        key := key + [OfFile(stack[i].from.file)] + [OfDigest(stack[i].digest)];
        i := i + 1;
      }
      assert outer[..i] == outer;
      key := key + [OfFile(file), OfFlag(tcOn), OfCounter(gensym)];
    }

    /** native_tc_load up to the original load. */
    method LoadBegins(file: nat, tcOn: bool)
      modifies this
      ensures Abstract() == BeginLoad(old(Abstract()), file, tcOn)
    {
      var from := Now(Abstract(), file, tcOn);
      var key := Key(file, tcOn);
      if key in disk {
        var r := disk[key];
        PinForward(r.start);
        stack := stack + [Frame(key, from, true, false, [], r.entries, r.befores, 0, r.ckpt, 0, 0, gensym, r.end, [], [], [])];
      } else {
        stack := stack + [Frame(key, from, false, false, [], [], [], 0, [], 0, 0, gensym, 0, [], [], [])];
      }
    }

    /** poison_top */
    method PoisonTop()
      modifies this`stack
      ensures Abstract() == PlainLoad(old(Abstract()))
    {
      if |stack| > 0 {
        var top := stack[|stack| - 1];
        SetTopFrame(top.(poisoned := true, done := top.done + [Unkeyed]));
      }
    }

    /** native_tc_load after the original load. */
    method LoadEnds_(threw: bool, written: bool)
      requires |stack| > 0
      modifies this
      ensures Abstract() == EndLoad(old(Abstract()), threw, written)
    {
      var f := stack[|stack| - 1];
      stack := stack[..|stack| - 1];
      if threw {
        PoisonTop();
        return;
      }
      chain := chain + [(f.from.file, f.from.tcOn)];
      if f.replay {
        PinForward(f.end);
      } else if !f.poisoned && written {
        disk := SaveAs(disk, f, gensym);
      }
      if |stack| > 0 {
        SetTopFrame(NoteLoad(stack[|stack| - 1], chain));
      }
    }
  }
}
