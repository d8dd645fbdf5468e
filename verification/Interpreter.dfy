/** Everything together: tokens are compiled in one pass, the words are loaded, and the
    virtual machine runs them on globals that start with the intrinsics. */
module Interpreter {
  import opened Syntax
  import opened Values
  import opened Machine
  import opened Parser
  import opened Meaning
  import opened Activation
  import opened Semantics
  import opened Outcomes
  import opened Compiler
  import opened Correctness
  import opened GlobalCache
  import opened Vm

  /** How running a script ends: a syntax error, an operand too wide for its field, the
      end of the module with or without an uncaught error, the end of the process, or
      the end of the step budget.  `seen` is the final value of the watched global. */
  datatype Verdict =
    | Rejected
    | TooWide
    | Finished(error: Option<Value>, seen: Option<Value>)
    | Trapped
    | Unfinished

  /** The globals that the intrinsics make; a later definition of a name wins. */
  function Defined(intrinsics: seq<(Name, Value)>): map<Name, Value> {
    if intrinsics == [] then map[]
    else
      var last := intrinsics[|intrinsics| - 1];
      Defined(intrinsics[..|intrinsics| - 1])[last.0 := last.1]
  }

  method InitGlobals(hash: nat -> nat, img: Image, intrinsics: seq<(Name, Value)>) returns (globals: Globals)
    ensures fresh(globals) && fresh(globals.table) && fresh(globals.table.entries)
    ensures globals.Valid() && globals.Contents() == Defined(intrinsics)
    ensures forall at :: globals.names(at) == NameAt(img, at)
  {
    globals := new Globals(hash, at => NameAt(img, at));
    for i := 0 to |intrinsics|
      invariant fresh(globals) && fresh(globals.table) && fresh(globals.table.entries)
      invariant globals.Valid() && globals.Contents() == Defined(intrinsics[..i])
      invariant forall at :: globals.names(at) == NameAt(img, at)
    {
      assert intrinsics[..i + 1][..i] == intrinsics[..i];
      globals.Define(intrinsics[i].0, intrinsics[i].1);
    }
    assert intrinsics[..|intrinsics|] == intrinsics;
  }

  /** What a verdict says about direct evaluation of the program. */
  ghost predicate Correct(p: Program, globals: map<Name, Value>, watch: Name, r: Verdict) {
    match r
    case Finished(None, seen) =>
      exists g, a :: Concludes(p, globals, Halted(g, a)) && seen == Lookup(g, watch)
    case Finished(Some(err), seen) =>
      exists g, a :: Concludes(p, globals, Uncaught(err, g, a)) && seen == Lookup(g, watch)
    case Trapped => Concludes(p, globals, Stopped)
    case _ => true
  }

  /** A script whose evaluation concludes does so within every large enough budget. */
  lemma BudgetExists(toks: seq<Token>, strings: seq<string>, globals: map<Name, Value>, o: State) returns (enough: nat)
    requires Accepted(toks) && CodeFits(ProgramOf(toks, strings))
    requires !o.Running? && Concludes(ProgramOf(toks, strings), globals, o)
    ensures forall limit: nat :: limit >= enough ==> !Run(ScriptImage(toks, strings), Start(globals), limit).Running?
  {
    hide ParseModule, BlockWellPlaced, ScriptImage, Concludes, CodeFits, Run;
    CompilerCorrect(toks, strings, globals);
    var img := ScriptImage(toks, strings);
    enough :| Run(img, Start(globals), enough) == o;
    forall limit: nat | limit >= enough
      ensures !Run(img, Start(globals), limit).Running?
    {
      if Run(img, Start(globals), limit).Running? {
        StillRunning(img, Start(globals), enough, limit);
      }
    }
  }

  /** Compiling and running a script gives the verdict of its direct evaluation, with a
      caching, unchecked machine, on any intrinsics and any hash function. */
  method CompileAndRun(toks: seq<Token>, strings: seq<string>, intrinsics: seq<(Name, Value)>, hash: nat -> nat,
                       limit: nat, watch: Name)
    returns (r: Verdict)
    ensures r.Rejected? <==> !Accepted(toks)
    ensures r.TooWide? <==> Accepted(toks) && !CodeFits(ProgramOf(toks, strings))
    ensures Accepted(toks) ==> Correct(ProgramOf(toks, strings), Defined(intrinsics), watch, r)
    ensures r.Unfinished? ==> Run(ScriptImage(toks, strings), Start(Defined(intrinsics)), limit).Running?
  {
    hide ParseModule, BlockWellPlaced, CodeForModule, Codes, Concludes, CodeFits, Run, Loaded, LoadedAll, Safe;
    var ok, img := CompileAndLoad(toks, strings);
    if !ok {
      return Rejected;
    }
    if !CodeFits(ProgramOf(toks, strings)) {
      return TooWide;
    }
    CompilerCorrect(toks, strings, Defined(intrinsics));
    var globals := InitGlobals(hash, img, intrinsics);
    var vm := new Vm(img, globals, limit);
    var flow := vm.RunModule();
    var seen := globals.Get(watch);
    ghost var o := Run(img, Start(Defined(intrinsics)), vm.steps);
    assert flow != Pause ==> Concludes(ProgramOf(toks, strings), Defined(intrinsics), o);
    match flow {
      case Exit => return Finished(None, seen);
      case Error => return Finished(vm.error, seen);
      case Trap => return Trapped;
      case Pause => return Unfinished;
    }
  }
}
