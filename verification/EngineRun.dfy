/**
 A run of the engine over a directory: every file found is analysed, those with a recipe are
 executed, native ones in two batches, and an unpacked installer is run over in turn, to a bounded
 depth. What the file system, the tools and the user do is given from outside.
 */
module EngineRun {
  import opened Common

  const MAX_DEPTH := 3

  datatype RecipeKind = NoRecipe | Native | Other

  /** A scanned file and how each step on it would go. */
  datatype File = File(id: nat, skipListed: bool, excluded: bool, reconFails: bool, recipe: RecipeKind,
                       runtimeFails: bool, toolsFail: bool, execFails: bool, stringsFail: bool, ghidraFails: bool,
                       nsis: bool, extracted: bool)

  /** A directory: the run's input, or below it the tree unpacked from a file. */
  type Dir = seq<nat>

  /** What scanning a directory finds, or None if that fails, and where no output directory can be made. */
  datatype World = World(scan: Dir -> Option<seq<File>>, mkdirFails: Dir -> bool)

  datatype Reason = SkipList | Excluded | NoMatch

  datatype Outcome = Skipped(why: Reason) | Failed | Succeeded

  /** A result, with the file it is about. */
  datatype Result = Result(file: nat, outcome: Outcome)

  datatype Options = Options(noSkip: bool, hasPause: bool)

  datatype Event =
    | Scanning(dir: Dir) | Found(files: nat) | SkippedFile(file: nat) | NoRecipeFor(file: nat) | Matched(file: nat)
    | ToolsNeeded | Executed(file: nat) | RanStrings(file: nat) | RanGhidra(file: nat)
    | Unpacking(dir: Dir, depth: nat) | TooDeep(dir: Dir) | Error(dir: Dir, file: nat) | Done

  // ---------------------------------------------------------------- what a file comes to

  /** The first pass settles a file without a task. */
  function Settled(f: File, o: Options): Option<Outcome>
  {
    if !o.noSkip && f.skipListed then Some(Skipped(SkipList))
    else if f.excluded then Some(Skipped(Excluded))
    else if f.reconFails then Some(Failed)
    else if f.recipe.NoRecipe? then Some(Skipped(NoMatch))
    else None
  }

  /** The second pass sets a native file aside if all it needs is there. */
  predicate SetAside(f: File) { !f.runtimeFails && !f.toolsFail && f.recipe.Native? }

  /** How a task ends; with several native files only the second of their two batches counts. */
  function Executes(f: File, batched: bool): Outcome
  {
    if f.runtimeFails || f.toolsFail then Failed
    else if batched && f.recipe.Native? then (if f.ghidraFails then Failed else Succeeded)
    else if f.execFails then Failed else Succeeded
  }

  function Tasks(fs: seq<File>, o: Options): (ts: seq<File>)
  {
    if fs == [] then []
    else Tasks(fs[..|fs| - 1], o) + if Settled(fs[|fs| - 1], o).None? then [fs[|fs| - 1]] else []
  }

  function SettledResults(fs: seq<File>, o: Options): seq<Result>
  {
    if fs == [] then []
    else
      var f := fs[|fs| - 1];
      SettledResults(fs[..|fs| - 1], o)
      + match Settled(f, o) case None => [] case Some(out) => [Result(f.id, out)]
  }

  function Natives(ts: seq<File>): (ns: seq<File>)
    ensures forall k :: 0 <= k < |ns| ==> SetAside(ns[k])
  {
    if ts == [] then []
    else Natives(ts[..|ts| - 1]) + if SetAside(ts[|ts| - 1]) then [ts[|ts| - 1]] else []
  }

  function DirectResults(ts: seq<File>): seq<Result>
  {
    if ts == [] then []
    else
      var t := ts[|ts| - 1];
      DirectResults(ts[..|ts| - 1]) + if SetAside(t) then [] else [Result(t.id, Executes(t, false))]
  }

  function NativeResults(ns: seq<File>, batched: bool): seq<Result>
  {
    if ns == [] then []
    else
      var t := ns[|ns| - 1];
      NativeResults(ns[..|ns| - 1], batched) + [Result(t.id, Executes(t, batched))]
  }

  predicate Batched(fs: seq<File>, o: Options) { |Natives(Tasks(fs, o))| > 1 }

  /** The results in the order the run makes them: settled files, direct tasks, native files. */
  function Results(fs: seq<File>, o: Options): seq<Result>
  {
    SettledResults(fs, o) + DirectResults(Tasks(fs, o)) + NativeResults(Natives(Tasks(fs, o)), Batched(fs, o))
  }

  function OutcomeOf(f: File, o: Options, batched: bool): Outcome
  {
    match Settled(f, o) case Some(out) => out case None => Executes(f, batched)
  }

  /** One result for each file, in the order of the files. */
  function PerFile(fs: seq<File>, o: Options, batched: bool): seq<Result>
  {
    if fs == [] then []
    else
      var f := fs[|fs| - 1];
      PerFile(fs[..|fs| - 1], o, batched) + [Result(f.id, OutcomeOf(f, o, batched))]
  }

  /**
   What a file comes to. Skipped for its name first (unless that is turned off), then by pattern; failed if it
   cannot be classified; skipped without a recipe; failed without runtime or tools. Then a native file in a
   batch stands or falls with the decompiler, anything else with its recipe.
   */
  lemma OutcomeTable(f: File, o: Options, batched: bool)
    ensures OutcomeOf(f, o, batched) == Skipped(SkipList) <==> f.skipListed && !o.noSkip
    ensures OutcomeOf(f, o, batched) == Skipped(Excluded) <==> f.excluded && !(f.skipListed && !o.noSkip)
    ensures OutcomeOf(f, o, batched) == Skipped(NoMatch) <==>
            f.recipe == NoRecipe && !f.reconFails && !f.excluded && !(f.skipListed && !o.noSkip)
    ensures OutcomeOf(f, o, batched) == Succeeded <==>
            && !f.excluded && !(f.skipListed && !o.noSkip) && !f.reconFails && f.recipe != NoRecipe
            && !f.runtimeFails && !f.toolsFail
            && (if batched && f.recipe == Native then !f.ghidraFails else !f.execFails)
  {
  }

  /** A native file that gets as far as having its runtime and its tools. */
  predicate GoesNative(f: File, o: Options)
  {
    && f.recipe == Native && !f.excluded && !(f.skipListed && !o.noSkip) && !f.reconFails
    && !f.runtimeFails && !f.toolsFail
  }

  function GoingNative(fs: seq<File>, o: Options): seq<File>
  {
    if fs == [] then []
    else GoingNative(fs[..|fs| - 1], o) + if GoesNative(fs[|fs| - 1], o) then [fs[|fs| - 1]] else []
  }

  lemma {:induction false} NativesGo(fs: seq<File>, o: Options)
    ensures Natives(Tasks(fs, o)) == GoingNative(fs, o)
  {
    if fs != [] {
      var n := |fs| - 1;
      NativesGo(fs[..n], o);
      GoesIff(fs[n], o);
      hide Settled, SetAside, GoesNative;
      var ts := Tasks(fs[..n], o);
      assert (ts + [fs[n]])[..|ts|] == ts;
      assert Natives(ts) + [] == Natives(ts) && ts + [] == ts;
    }
  }

  lemma GoesIff(f: File, o: Options)
    ensures GoesNative(f, o) <==> Settled(f, o).None? && SetAside(f)
  {
  }

  lemma {:induction false} GoingCount(fs: seq<File>, o: Options)
    ensures |GoingNative(fs, o)| >= 1 <==> exists i :: 0 <= i < |fs| && GoesNative(fs[i], o)
    ensures |GoingNative(fs, o)| >= 2 <==> exists i, j :: 0 <= i < j < |fs| && GoesNative(fs[i], o) && GoesNative(fs[j], o)
  {
    hide GoesNative;
    if fs != [] {
      var n := |fs| - 1;
      GoingCount(fs[..n], o);
      assert forall i :: 0 <= i < n ==> fs[..n][i] == fs[i];
    }
  }

  /** There is a batch exactly if two files go native. */
  lemma BatchedIff(fs: seq<File>, o: Options)
    ensures Batched(fs, o) <==> exists i, j :: 0 <= i < j < |fs| && GoesNative(fs[i], o) && GoesNative(fs[j], o)
  {
    hide GoesNative;
    NativesGo(fs, o);
    GoingCount(fs, o);
  }

  lemma {:induction false} SplitPerFile(fs: seq<File>, o: Options, batched: bool)
    ensures multiset(SettledResults(fs, o)) + multiset(DirectResults(Tasks(fs, o)))
            + multiset(NativeResults(Natives(Tasks(fs, o)), batched))
         == multiset(PerFile(fs, o, batched))
  {
    hide Settled, Executes, SetAside;
    if fs != [] {
      var n := |fs| - 1;
      var f, ts := fs[n], Tasks(fs[..n], o);
      SplitPerFile(fs[..n], o, batched);
      Snocs(ts, f, batched);
      DirectIsUnbatched(f, batched);
    }
  }

  lemma DirectIsUnbatched(f: File, batched: bool)
    ensures !SetAside(f) ==> Executes(f, false) == Executes(f, batched)
  {
  }

  lemma Snocs(ts: seq<File>, f: File, batched: bool)
    ensures Natives(ts + [f]) == if SetAside(f) then Natives(ts) + [f] else Natives(ts)
    ensures DirectResults(ts + [f])
         == if SetAside(f) then DirectResults(ts) else DirectResults(ts) + [Result(f.id, Executes(f, false))]
    ensures NativeResults(Natives(ts) + [f], batched)
         == NativeResults(Natives(ts), batched) + [Result(f.id, Executes(f, batched))]
    ensures ts + [] == ts
  {
    hide SetAside, Executes;
    assert (ts + [f])[..|ts|] == ts && (Natives(ts) + [f])[..|Natives(ts)|] == Natives(ts);
  }

  /** A run makes exactly one result for every scanned file, whatever way each of them went. */
  lemma OneResultPerFile(fs: seq<File>, o: Options)
    ensures multiset(Results(fs, o)) == multiset(PerFile(fs, o, Batched(fs, o)))
    ensures |Results(fs, o)| == |fs|
  {
    SplitPerFile(fs, o, Batched(fs, o));
    PerFileLength(fs, o, Batched(fs, o));
    assert |multiset(Results(fs, o))| == |Results(fs, o)|;
    assert |multiset(PerFile(fs, o, Batched(fs, o)))| == |fs|;
  }

  lemma {:induction false} PerFileLength(fs: seq<File>, o: Options, batched: bool)
    ensures |PerFile(fs, o, batched)| == |fs|
  {
    if fs != [] {
      PerFileLength(fs[..|fs| - 1], o, batched);
    }
  }

  // ---------------------------------------------------------------- the summary

  datatype Stats = Stats(total: nat, success: nat, failed: nat, skipped: nat)

  function Count(rs: seq<Result>, p: Outcome -> bool): (n: nat)
    ensures n <= |rs|
  {
    if rs == [] then 0 else Count(rs[..|rs| - 1], p) + if p(rs[|rs| - 1].outcome) then 1 else 0
  }

  method BuildSummary(results: seq<Result>) returns (s: Stats)
    ensures s.total == |results| == s.success + s.failed + s.skipped
    ensures s.success == Count(results, (o: Outcome) => o.Succeeded?)
    ensures s.failed == Count(results, (o: Outcome) => o.Failed?)
    ensures s.skipped == Count(results, (o: Outcome) => o.Skipped?)
  {
    var ok, bad, out := (o: Outcome) => o.Succeeded?, (o: Outcome) => o.Failed?, (o: Outcome) => o.Skipped?;
    s := Stats(0, 0, 0, 0);
    for i := 0 to |results|
      invariant s.total == i == s.success + s.failed + s.skipped
      invariant s.success == Count(results[..i], ok) && s.failed == Count(results[..i], bad)
      invariant s.skipped == Count(results[..i], out)
    {
      assert results[..i + 1][..i] == results[..i];
      s := s.(total := s.total + 1);
      match results[i].outcome
      case Skipped(_) => s := s.(skipped := s.skipped + 1);
      case Failed => s := s.(failed := s.failed + 1);
      case Succeeded => s := s.(success := s.success + 1);
    }
    assert results[..|results|] == results;
  }

  // ---------------------------------------------------------------- the trace

  predicate NoDone(es: seq<Event>) { forall e :: e in es ==> !e.Done? }

  /** Every nested run announced is deeper than the run it is part of, and not too deep. */
  predicate DepthsOk(es: seq<Event>, depth: nat)
  {
    forall e :: e in es && e.Unpacking? ==> depth < e.depth <= 3
  }

  /** What may be emitted inside a run, before its end. */
  predicate Inner(es: seq<Event>, depth: nat) { NoDone(es) && DepthsOk(es, depth) }

  /** The events since the run began are inner ones. */
  ghost predicate Good(begun: seq<Event>, es: seq<Event>, depth: nat)
  {
    begun <= es && Inner(es[|begun|..], depth)
  }

  lemma InnerConcat(a: seq<Event>, b: seq<Event>, depth: nat)
    requires Inner(a, depth) && Inner(b, depth)
    ensures Inner(a + b, depth)
  {
  }

  lemma GoodConcat(begun: seq<Event>, es: seq<Event>, more: seq<Event>, depth: nat)
    requires Good(begun, es, depth) && Inner(more, depth)
    ensures Good(begun, es + more, depth)
  {
    hide Inner;
    assert (es + more)[|begun|..] == es[|begun|..] + more;
    InnerConcat(es[|begun|..], more, depth);
  }

  /** What a nested run adds is also fine for the run around it. */
  lemma GoodNested(begun: seq<Event>, before: seq<Event>, es: seq<Event>, depth: nat)
    requires Good(begun, before, depth) && Good(before, es, depth + 1)
    ensures Good(begun, es, depth)
  {
    var more := es[|before|..];
    assert es == before + more;
    assert Inner(more, depth);
    GoodConcat(begun, before, more, depth);
  }

  lemma GoodAtFirst(es: seq<Event>, depth: nat)
    ensures Good(es, es, depth)
  {
  }

  /** The first batch: strings of every native file, failures noted and passed over. */
  function StringsTrace(ns: seq<File>, dir: Dir): seq<Event>
  {
    if ns == [] then []
    else
      var t := ns[|ns| - 1];
      StringsTrace(ns[..|ns| - 1], dir) + [RanStrings(t.id)] + if t.stringsFail then [Error(dir, t.id)] else []
  }

  /** The second: the decompiler for every one of them, each ending in completion or an error. */
  function GhidraTrace(ns: seq<File>, dir: Dir): seq<Event>
  {
    if ns == [] then []
    else
      var t := ns[|ns| - 1];
      GhidraTrace(ns[..|ns| - 1], dir) + [RanGhidra(t.id)] + [if t.ghidraFails then Error(dir, t.id) else Executed(t.id)]
  }

  function Left(depth: nat): nat { if depth < MAX_DEPTH then MAX_DEPTH - depth else 0 }

  class Engine {
    const world: World
    /** Whether the n-th look at the context during the whole run finds it cancelled. */
    const aborts: nat -> bool
    var clock: nat
    var events: seq<Event>

    constructor (world: World, aborts: nat -> bool)
      ensures events == [] && this.world == world
    {
      this.world := world;
      this.aborts := aborts;
      clock, events := 0, [];
    }

    method Send(e: Event, depth: nat, ghost begun: seq<Event>)
      requires Good(begun, events, depth) && !e.Done? && (e.Unpacking? ==> depth < e.depth <= MAX_DEPTH)
      modifies `events
      ensures events == old(events) + [e] && Good(begun, events, depth)
    {
      GoodConcat(begun, events, [e], depth);
      events := events + [e];
    }

    /** A look at the context, and a wait at the pause gate when there is one. */
    method Checkpoint(o: Options) returns (stop: bool)
      modifies `clock
    {
      stop := aborts(clock);
      clock := clock + 1;
      if !stop && o.hasPause {
        stop := aborts(clock);
        clock := clock + 1;
      }
    }

    /** The terminal event is sent however the body ends, but by the outermost run only. */
    method Run(dir: Dir, depth: nat, o: Options) returns (failed: bool, results: seq<Result>, stats: Stats)
      modifies this
      decreases Left(depth), 3
      ensures depth > 0 ==> Good(old(events), events, depth)
      ensures depth == 0 ==> exists es :: events == old(events) + es + [Done] && Inner(es, 0)
      ensures !failed ==> world.scan(dir).Some? && results == Results(world.scan(dir).value, o)
      ensures !failed ==> stats.total == |world.scan(dir).value| == stats.success + stats.failed + stats.skipped
    {
      hide Inner, Results;
      ghost var begun := events;
      failed, results, stats := RunBody(dir, depth, o);
      if depth == 0 {
        ghost var es := events[|begun|..];
        assert events == begun + es;
        events := events + [Done];
      }
    }

    method RunBody(dir: Dir, depth: nat, o: Options) returns (failed: bool, results: seq<Result>, stats: Stats)
      modifies this
      decreases Left(depth), 2
      ensures Good(old(events), events, depth)
      ensures !failed ==> world.scan(dir).Some? && results == Results(world.scan(dir).value, o)
      ensures !failed ==> stats.total == |world.scan(dir).value| == stats.success + stats.failed + stats.skipped
    {
      hide Good, SettledResults, DirectResults, NativeResults, Tasks, Natives;
      ghost var begun := events;
      stats := Stats(0, 0, 0, 0);
      GoodAtFirst(events, depth);
      Send(Scanning(dir), depth, begun);
      var scan := world.scan(dir);
      if scan.None? {
        Send(Error(dir, 0), depth, begun);
        return true, [], stats;
      }
      var files := scan.value;
      Send(Found(|files|), depth, begun);
      var stopped, tasks;
      stopped, results, tasks := Analyse(dir, files, depth, o, begun);
      if stopped {
        return true, [], stats;
      }
      if tasks != [] {
        Send(ToolsNeeded, depth, begun);
      }
      var natives;
      stopped, results, natives := Execute(dir, tasks, depth, o, begun, results);
      if stopped {
        return true, [], stats;
      }
      stopped, results := ExecuteNatives(dir, natives, depth, o, begun, results);
      if stopped {
        return true, [], stats;
      }
      stats := BuildSummary(results);
      OneResultPerFile(files, o);
      failed := false;
    }

    /** The first pass: what is skipped or fails at once gets its result, the rest becomes a task. */
    method Analyse(dir: Dir, files: seq<File>, depth: nat, o: Options, ghost begun: seq<Event>)
      returns (stopped: bool, results: seq<Result>, tasks: seq<File>)
      requires Good(begun, events, depth)
      modifies this
      ensures Good(begun, events, depth)
      ensures !stopped ==> results == SettledResults(files, o) && tasks == Tasks(files, o)
    {
      hide Good;
      stopped, results, tasks := false, [], [];
      for i := 0 to |files|
        invariant Good(begun, events, depth)
        invariant results == SettledResults(files[..i], o) && tasks == Tasks(files[..i], o)
      {
        stopped := Checkpoint(o);
        if stopped {
          return;
        }
        var f := files[i];
        assert files[..i + 1][..i] == files[..i];
        if !o.noSkip {
          if f.skipListed {
            results := results + [Result(f.id, Skipped(SkipList))];
            Send(SkippedFile(f.id), depth, begun);
            continue;
          }
        }
        if f.excluded {
          results := results + [Result(f.id, Skipped(Excluded))];
          Send(SkippedFile(f.id), depth, begun);
          continue;
        }
        if f.reconFails {
          Send(Error(dir, f.id), depth, begun);
          results := results + [Result(f.id, Failed)];
          continue;
        }
        if f.recipe.NoRecipe? {
          Send(NoRecipeFor(f.id), depth, begun);
          results := results + [Result(f.id, Skipped(NoMatch))];
          continue;
        }
        Send(Matched(f.id), depth, begun);
        tasks := tasks + [f];
      }
      stopped := false;
      assert files[..|files|] == files;
    }

    /** The second pass: native files are set aside, all others are executed and perhaps unpacked further. */
    method Execute(dir: Dir, tasks: seq<File>, depth: nat, o: Options, ghost begun: seq<Event>, results0: seq<Result>)
      returns (stopped: bool, results: seq<Result>, natives: seq<File>)
      requires Good(begun, events, depth)
      modifies this
      decreases Left(depth), 1
      ensures Good(begun, events, depth)
      ensures !stopped ==> results == results0 + DirectResults(tasks) && natives == Natives(tasks)
    {
      hide Good;
      stopped, results, natives := false, results0, [];
      for i := 0 to |tasks|
        invariant Good(begun, events, depth)
        invariant results == results0 + DirectResults(tasks[..i]) && natives == Natives(tasks[..i])
      {
        stopped := Checkpoint(o);
        if stopped {
          return;
        }
        var t := tasks[i];
        DirectStep(tasks, i, results0);
        if t.runtimeFails {
          Send(Error(dir, t.id), depth, begun);
          results := results + [Result(t.id, Failed)];
          continue;
        }
        if t.toolsFail {
          Send(Error(dir, t.id), depth, begun);
          results := results + [Result(t.id, Failed)];
          continue;
        }
        if o.hasPause {
          stopped := aborts(clock);
          clock := clock + 1;
          if stopped {
            return;
          }
        }
        if t.recipe.Native? {
          natives := natives + [t];
          continue;
        }
        var tr := ExecuteRecipe(dir, t, depth, begun);
        results := results + [tr];
        MaybeRecurseUnpack(dir, t, tr, depth, o, begun);
      }
      stopped := false;
      assert tasks[..|tasks|] == tasks;
    }

    method ExecuteRecipe(dir: Dir, t: File, depth: nat, ghost begun: seq<Event>) returns (tr: Result)
      requires Good(begun, events, depth)
      modifies `events
      ensures Good(begun, events, depth)
      ensures tr == Result(t.id, if t.execFails then Failed else Succeeded)
    {
      if t.execFails {
        Send(Error(dir, t.id), depth, begun);
        return Result(t.id, Failed);
      }
      Send(Executed(t.id), depth, begun);
      return Result(t.id, Succeeded);
    }

    /** A run over the tree an installer unpacked; whatever comes of it, this run goes on. */
    method MaybeRecurseUnpack(dir: Dir, t: File, tr: Result, depth: nat, o: Options, ghost begun: seq<Event>)
      requires Good(begun, events, depth)
      modifies this
      decreases Left(depth), 0
      ensures Good(begun, events, depth)
    {
      hide Good;
      if tr.outcome.Failed? || !t.nsis {
        return;
      }
      if !t.extracted {
        return;
      }
      if depth >= MAX_DEPTH {
        Send(TooDeep(dir), depth, begun);
        return;
      }
      var nested := dir + [t.id];
      if world.mkdirFails(nested) {
        Send(Error(dir, t.id), depth, begun);
        return;
      }
      Send(Unpacking(nested, depth + 1), depth, begun);
      ghost var before := events;
      var failed, _, _ := Run(nested, depth + 1, o);
      GoodNested(begun, before, events, depth);
      if failed {
        Send(Error(dir, t.id), depth, begun);
      }
    }

    /** Several native files run in two batches, a single one in one go. */
    method ExecuteNatives(dir: Dir, ns: seq<File>, depth: nat, o: Options, ghost begun: seq<Event>, results0: seq<Result>)
      returns (stopped: bool, results: seq<Result>)
      requires Good(begun, events, depth) && forall k :: 0 <= k < |ns| ==> SetAside(ns[k])
      modifies this
      ensures Good(begun, events, depth)
      ensures !stopped ==> results == results0 + NativeResults(ns, |ns| > 1)
      ensures !stopped && |ns| > 1 ==> events == old(events) + StringsTrace(ns, dir) + GhidraTrace(ns, dir)
    {
      hide Good;
      stopped, results := false, results0;
      if |ns| > 1 {
        stopped := StringsBatch(dir, ns, depth, o, begun);
        if stopped {
          return;
        }
        stopped, results := GhidraBatch(dir, ns, depth, o, begun, results0);
      } else if |ns| == 1 {
        var tr := ExecuteRecipe(dir, ns[0], depth, begun);
        results := results + [tr];
        assert ns[..0] == [] && NativeResults(ns[..0], false) == [];
        assert NativeResults(ns, false) == [Result(ns[0].id, Executes(ns[0], false))];
      }
    }

    method StringsBatch(dir: Dir, ns: seq<File>, depth: nat, o: Options, ghost begun: seq<Event>) returns (stopped: bool)
      requires Good(begun, events, depth)
      modifies this
      ensures Good(begun, events, depth)
      ensures !stopped ==> events == old(events) + StringsTrace(ns, dir)
    {
      hide Good;
      ghost var before := events;
      for i := 0 to |ns|
        invariant Good(begun, events, depth) && events == before + StringsTrace(ns[..i], dir)
      {
        stopped := Checkpoint(o);
        if stopped {
          return;
        }
        var t := ns[i];
        assert ns[..i + 1][..i] == ns[..i];
        Send(RanStrings(t.id), depth, begun);
        if t.stringsFail {
          Send(Error(dir, t.id), depth, begun);
        }
      }
      stopped := false;
      assert ns[..|ns|] == ns;
    }

    method GhidraBatch(dir: Dir, ns: seq<File>, depth: nat, o: Options, ghost begun: seq<Event>, results0: seq<Result>)
      returns (stopped: bool, results: seq<Result>)
      requires Good(begun, events, depth) && forall k :: 0 <= k < |ns| ==> SetAside(ns[k])
      modifies this
      ensures Good(begun, events, depth)
      ensures !stopped ==> events == old(events) + GhidraTrace(ns, dir) && results == results0 + NativeResults(ns, true)
    {
      hide Good;
      ghost var before := events;
      results := results0;
      for i := 0 to |ns|
        invariant Good(begun, events, depth) && events == before + GhidraTrace(ns[..i], dir)
        invariant results == results0 + NativeResults(ns[..i], true)
      {
        stopped := Checkpoint(o);
        if stopped {
          return;
        }
        var t := ns[i];
        assert ns[..i + 1][..i] == ns[..i];
        Send(RanGhidra(t.id), depth, begun);
        if t.ghidraFails {
          Send(Error(dir, t.id), depth, begun);
        } else {
          Send(Executed(t.id), depth, begun);
        }
        results := results + [Result(t.id, if t.ghidraFails then Failed else Succeeded)];
      }
      stopped := false;
      assert ns[..|ns|] == ns;
    }
  }

  lemma DirectStep(ts: seq<File>, i: nat, results0: seq<Result>)
    requires i < |ts|
    ensures Natives(ts[..i + 1]) == if SetAside(ts[i]) then Natives(ts[..i]) + [ts[i]] else Natives(ts[..i])
    ensures results0 + DirectResults(ts[..i + 1])
         == if SetAside(ts[i]) then results0 + DirectResults(ts[..i])
            else results0 + DirectResults(ts[..i]) + [Result(ts[i].id, Executes(ts[i], false))]
  {
    assert ts[..i + 1][..i] == ts[..i];
  }
}
