/** The state of the pipeline service and what each of its locked sections does to it. */
module PipelineStatus {
  import opened Common

  datatype Progress = Progress(step: int, total: int, name: string)

  datatype Event = Event(phase: string, target: string, filesTotal: int, filesProcessed: int, progress: Option<Progress>)

  datatype Status = Status(running: bool, paused: bool, phase: string, target: string,
                           stepIndex: int, stepTotal: int, stepName: string, filesProcessed: int, filesTotal: int)

  /** A pause gate as the service sees it: which run it was made for, and whether it is paused. */
  datatype Gate = Gate(run: nat, paused: bool)

  /** The fields behind the service's mutex; cancel names the run whose context it cancels. */
  datatype Service = Service(status: Status, cancel: Option<nat>, gate: Option<Gate>)

  function Zero(): Status { Status(false, false, "", "", 0, 0, "", 0, 0) }

  function Starting(): Status { Zero().(running := true, phase := "starting") }

  function Reset(): Service { Service(Zero(), None, None) }

  function Claimed(run: nat): Service { Service(Starting(), Some(run), Some(Gate(run, false))) }

  /** One event drained into the status: an empty target keeps the last one, no progress keeps the step. */
  function Drained(st: Status, ev: Event): Status
  {
    var st1 := st.(phase := ev.phase, target := if ev.target != "" then ev.target else st.target,
                   filesTotal := ev.filesTotal, filesProcessed := ev.filesProcessed);
    match ev.progress
    case None => st1
    case Some(p) => st1.(stepIndex := p.step, stepTotal := p.total, stepName := p.name)
  }

  function Terminal(st: Status, failed: bool): Status
  {
    st.(running := false, paused := false, phase := if failed then "error" else "done",
        stepIndex := if !failed && st.stepTotal > 0 then st.stepTotal else st.stepIndex)
  }

  function Finished(s: Service, failed: bool): Service { Service(Terminal(s.status, failed), None, None) }

  function Stopped(s: Service): Service
  {
    s.(cancel := None, gate := match s.gate case None => None case Some(g) => Some(g.(paused := false)))
  }

  function Paused(s: Service): Service
  {
    if !s.status.running || s.gate.None? then s
    else s.(gate := Some(s.gate.value.(paused := true)), status := s.status.(paused := true))
  }

  function Resumed(s: Service): Service
  {
    if s.gate.None? || !s.gate.value.paused then s
    else s.(gate := Some(s.gate.value.(paused := false)), status := s.status.(paused := false))
  }
}

/** The service object: each method is one section under the mutex. */
module PipelineServices {
  import opened Common
  import opened PipelineStatus
  import PauseGates

  class PipelineService {
    var cancel: Option<nat>
    var status: Status
    var pause: PauseGates.PauseGate?
    ghost var gateRun: nat

    ghost predicate Valid()
      reads this, pause, if pause == null then [] else pause.installed
    {
      pause != null ==> pause.Valid()
    }

    ghost function View(): Service
      requires Valid()
      reads this, pause, if pause == null then [] else pause.installed
    {
      Service(status, cancel, if pause == null then None else Some(Gate(gateRun, PauseGates.Paused(pause.View()))))
    }

    constructor ()
      ensures Valid() && View() == Reset()
    {
      cancel, status, pause, gateRun := None, Zero(), null, 0;
    }

    /** The head of Run: the first caller to find the service idle owns the run, anybody else returns. */
    method Begin(run: nat) returns (claimed: bool)
      requires Valid()
      modifies this
      ensures Valid()
      ensures claimed == !old(View()).status.running
      ensures View() == if claimed then Claimed(run) else old(View())
    {
      if status.running {
        return false;
      }
      cancel := Some(run);
      pause := new PauseGates.PauseGate();
      gateRun := run;
      status := Zero().(running := true, phase := "starting");
      return true;
    }

    method DrainEvent(ev: Event)
      requires Valid()
      modifies `status
      ensures Valid() && status == Drained(old(status), ev)
    {
      hide PauseGates.PauseGate.Valid;
      status := status.(phase := ev.phase);
      if ev.target != "" {
        status := status.(target := ev.target);
      }
      status := status.(filesTotal := ev.filesTotal);
      status := status.(filesProcessed := ev.filesProcessed);
      if ev.progress.Some? {
        status := status.(stepIndex := ev.progress.value.step);
        status := status.(stepTotal := ev.progress.value.total);
        status := status.(stepName := ev.progress.value.name);
      }
    }

    method ResetStatus()
      requires Valid()
      modifies this
      ensures Valid() && View() == Reset()
    {
      status, cancel, pause := Zero(), None, null;
    }

    method FinishStatus(failed: bool)
      requires Valid()
      modifies this
      ensures Valid() && View() == Finished(old(View()), failed)
    {
      var phase := "done";
      if failed {
        phase := "error";
      }
      status := status.(running := false);
      status := status.(paused := false);
      status := status.(phase := phase);
      if !failed && status.stepTotal > 0 {
        status := status.(stepIndex := status.stepTotal);
      }
      cancel, pause := None, null;
    }

    method Stop()
      requires Valid()
      modifies this, pause, if pause == null then [] else pause.installed
      ensures Valid() && View() == Stopped(old(View()))
    {
      if pause != null {
        pause.Resume();
      }
      cancel := None;
    }

    method Pause()
      requires Valid()
      modifies this, pause, if pause == null then [] else pause.installed
      ensures Valid() && View() == Paused(old(View()))
    {
      if !status.running || pause == null {
        return;
      }
      pause.Pause();
      status := status.(paused := true);
    }

    method Resume()
      requires Valid()
      modifies this, pause, if pause == null then [] else pause.installed
      ensures Valid() && View() == Resumed(old(View()))
    {
      hide PauseGates.PauseGate.Valid, PauseGates.PauseGate.View;
      if pause == null {
        return;
      }
      var waiting := pause.IsPaused();
      if !waiting {
        return;
      }
      pause.Resume();
      status := status.(paused := false);
    }
  }
}

/**
 The service under any interleaving of Run callers, the drainer goroutine each run starts, and
 callers of Stop, Pause and Resume. Nothing is assumed about how many runs are inside Run at once.
 */
module PipelineRuns {
  import opened Common
  import opened PipelineStatus

  /** The goroutine that drains a run's events: blocked, holding a received event, notifying, or done. */
  datatype Drainer = NotStarted | Waiting | Holding(ev: Event) | Notifying | Gone(panicked: bool)

  /** Where the run is; at a send its engine waits for room in the queue and looks at nothing else. */
  datatype Pc =
    | Loading
    | InEngine
    | AtSend(ev: Event)
    | EngineReturned(failed: bool)
    | EventsClosed(failed: bool)

  /** A caller inside Run after it claimed the service; sent and written are its history. */
  datatype Run = Run(pc: Pc, cancelled: bool, gate: Option<nat>, queue: seq<Event>, drainer: Drainer,
                     sent: seq<Event>, written: seq<Event>)

  datatype System = System(service: Service, runs: map<nat, Run>, next: nat)

  datatype Step =
    | Begin
    | LoadFails(c: nat)
    | Start(c: nat)
    | Offer(c: nat, ev: Event)
    | Send(c: nat)
    | EngineReturns(c: nat, failed: bool)
    | CloseEvents(c: nat)
    | Receive(c: nat)
    | Write(c: nat)
    | Notified(c: nat)
    | NotifyPanics(c: nat)
    | DrainerExits(c: nat)
    | Finish(c: nat)
    | Stop
    | Pause
    | Resume

  const BUFFER := 100

  function Initial(): System { System(Reset(), map[], 0) }

  /** The run that takes the step, if it is a run's or its drainer's. */
  function Actor(e: Step): Option<nat>
  {
    match e
    case LoadFails(c) => Some(c)
    case Start(c) => Some(c)
    case Offer(c, _) => Some(c)
    case Send(c) => Some(c)
    case EngineReturns(c, _) => Some(c)
    case CloseEvents(c) => Some(c)
    case Receive(c) => Some(c)
    case Write(c) => Some(c)
    case Notified(c) => Some(c)
    case NotifyPanics(c) => Some(c)
    case DrainerExits(c) => Some(c)
    case Finish(c) => Some(c)
    case _ => None
  }

  /** Is the run at the point where it takes this step? */
  predicate CanTake(r: Run, e: Step)
  {
    match e
    case LoadFails(_) => r.pc.Loading?
    case Start(_) => r.pc.Loading?
    case Offer(_, _) => r.pc.InEngine?
    case Send(_) => r.pc.AtSend? && |r.queue| < BUFFER
    case EngineReturns(_, _) => r.pc.InEngine?
    case CloseEvents(_) => r.pc.EngineReturned?
    case Receive(_) => r.drainer.Waiting? && |r.queue| > 0
    case Write(_) => r.drainer.Holding?
    case Notified(_) => r.drainer.Notifying?
    case NotifyPanics(_) => r.drainer.Notifying?
    case DrainerExits(_) => r.drainer.Waiting? && r.queue == [] && r.pc.EventsClosed?
    case Finish(_) => r.pc.EventsClosed? && r.drainer.Gone?
    case _ => false
  }

  /** What a step does to the run that takes it; gate is the one the service holds at that moment. */
  function Turned(r: Run, e: Step, gate: Option<nat>): Run
    requires CanTake(r, e)
  {
    match e
    case Start(_) => r.(pc := InEngine, gate := gate, drainer := Waiting)
    case Offer(_, ev) => r.(pc := AtSend(ev))
    case Send(_) => r.(pc := InEngine, queue := r.queue + [r.pc.ev], sent := r.sent + [r.pc.ev])
    case EngineReturns(_, failed) => r.(pc := EngineReturned(failed))
    case CloseEvents(_) => r.(pc := EventsClosed(r.pc.failed))
    case Receive(_) => r.(drainer := Holding(r.queue[0]), queue := r.queue[1..])
    case Write(_) => r.(drainer := Notifying, written := r.written + [r.drainer.ev])
    case Notified(_) => r.(drainer := Waiting)
    case NotifyPanics(_) => r.(drainer := Gone(true))
    case DrainerExits(_) => r.(drainer := Gone(false))
    case _ => r
  }

  /** What a step does to the fields behind the mutex. */
  function Served(s: Service, e: Step, next: nat, r: Option<Run>): Service
    requires r.Some? ==> CanTake(r.value, e)
    requires Actor(e).Some? ==> r.Some?
  {
    match e
    case Begin => if s.status.running then s else Claimed(next)
    case LoadFails(_) => Reset()
    case Write(_) => s.(status := Drained(s.status, r.value.drainer.ev))
    case Finish(_) => Finished(s, r.value.pc.failed)
    case Stop => Stopped(s)
    case Pause => Paused(s)
    case Resume => Resumed(s)
    case _ => s
  }

  predicate Enabled(s: System, e: Step)
  {
    match Actor(e)
    case None => true
    case Some(c) => c in s.runs && CanTake(s.runs[c], e)
  }

  function GateRun(s: Service): Option<nat> { match s.gate case None => None case Some(g) => Some(g.run) }

  /** Calling the cancel function stored in the service cancels the context of the run it belongs to. */
  function CancelRun(runs: map<nat, Run>, cancel: Option<nat>): map<nat, Run>
  {
    if cancel.Some? && cancel.value in runs
    then runs[cancel.value := runs[cancel.value].(cancelled := true)] else runs
  }

  /** What a step does to the runs that are inside Run. */
  function RunsAfter(s: System, e: Step): map<nat, Run>
    requires Enabled(s, e)
  {
    match Actor(e)
    case Some(c) =>
      if e.LoadFails? || e.Finish? then s.runs - {c} else s.runs[c := Turned(s.runs[c], e, GateRun(s.service))]
    case None =>
      if e.Begin? && !s.service.status.running then s.runs[s.next := Run(Loading, false, None, [], NotStarted, [], [])]
      else if e.Stop? then CancelRun(s.runs, s.service.cancel)
      else s.runs
  }

  function After(s: System, e: Step): System
    requires Enabled(s, e)
  {
    var r := match Actor(e) case None => None case Some(c) => Some(s.runs[c]);
    System(Served(s.service, e, s.next, r), RunsAfter(s, e),
           if e.Begin? && !s.service.status.running then s.next + 1 else s.next)
  }

  ghost predicate Trace(ss: seq<System>, es: seq<Step>)
  {
    && |ss| == |es| + 1 && ss[0] == Initial()
    && forall i :: 0 <= i < |es| ==> Moves(ss[i], es[i], ss[i + 1])
  }

  predicate Moves(s: System, e: Step, t: System)
  {
    Enabled(s, e) && t == After(s, e)
  }

  // ---------------------------------------------------------------- the invariant

  /** The status after a run drained evs, one event after another. */
  function Fold(evs: seq<Event>): Status
  {
    if evs == [] then Starting() else Drained(Fold(evs[..|evs| - 1]), evs[|evs| - 1])
  }

  function InHand(d: Drainer): seq<Event> { if d.Holding? then [d.ev] else [] }

  /** Every event sent is written, in the drainer's hand, or queued, in that order. */
  predicate Conserved(r: Run)
  {
    r.sent == r.written + InHand(r.drainer) + r.queue
  }

  predicate RunOk(c: nat, r: Run)
  {
    && Conserved(r) && |r.queue| <= BUFFER
    && (r.pc.Loading? ==> r.drainer.NotStarted? && r.gate.None? && r.sent == [])
    && (!r.pc.Loading? ==> !r.drainer.NotStarted? && r.gate == Some(c))
    && (r.drainer == Gone(false) ==> r.pc.EventsClosed? && r.queue == [])
  }

  /** What the service's fields say while run c is inside Run. */
  predicate Busy(s: Service, c: nat, r: Run)
  {
    && s.gate.Some? && s.gate.value.run == c
    && (s.gate.value.paused ==> s.status.paused)
    && s.cancel == (if r.cancelled then None else Some(c))
    && s.status.running && s.status == Fold(r.written).(paused := s.status.paused)
  }

  /** What they say when nobody is. */
  predicate Quiet(s: Service)
  {
    && !s.status.running && !s.status.paused && s.cancel == None && s.gate == None
    && (s.status.phase == "" || s.status.phase == "done" || s.status.phase == "error")
  }

  ghost predicate Inv(s: System)
  {
    && (forall c :: c in s.runs ==> c + 1 == s.next && RunOk(c, s.runs[c]) && Busy(s.service, c, s.runs[c]))
    && (s.runs == map[] ==> Quiet(s.service))
  }

  lemma FoldStep(evs: seq<Event>, ev: Event)
    ensures Fold(evs + [ev]) == Drained(Fold(evs), ev)
  {
    assert (evs + [ev])[..|evs|] == evs;
  }

  lemma {:induction false} FoldRuns(evs: seq<Event>)
    ensures Fold(evs).running && !Fold(evs).paused
  {
    if evs != [] {
      FoldRuns(evs[..|evs| - 1]);
    }
  }

  /** Sending, receiving and writing keep the events in order. */
  lemma EventsConserved(r: Run, ev: Event)
    requires Conserved(r)
    ensures Conserved(r.(queue := r.queue + [ev], sent := r.sent + [ev]))
    ensures |r.queue| > 0 && !r.drainer.Holding? ==> Conserved(r.(drainer := Holding(r.queue[0]), queue := r.queue[1..]))
    ensures r.drainer.Holding? ==> Conserved(r.(drainer := Notifying, written := r.written + [r.drainer.ev]))
  {
    if |r.queue| > 0 {
      assert r.queue == [r.queue[0]] + r.queue[1..];
    }
  }

  lemma TurnedOk(c: nat, r: Run, e: Step)
    requires RunOk(c, r) && CanTake(r, e)
    ensures RunOk(c, Turned(r, e, Some(c)))
  {
    match e
    case Send(_) => EventsConserved(r, r.pc.ev);
    case Receive(_) => EventsConserved(r, r.queue[0]);
    case Write(_) => EventsConserved(r, r.drainer.ev);
    case _ =>
  }

  lemma RunStepOk(s: System, e: Step, c: nat)
    requires Enabled(s, e) && c in s.runs && RunOk(c, s.runs[c]) && c in After(s, e).runs && c < s.next
    requires s.service.gate.Some? && s.service.gate.value.run == c
    ensures RunOk(c, After(s, e).runs[c])
  {
    hide Served, CanTake, Turned;
    if Actor(e) == Some(c) {
      TurnedOk(c, s.runs[c], e);
    }
  }

  lemma BusyStep(s: System, e: Step, c: nat)
    requires Enabled(s, e) && c in s.runs && Busy(s.service, c, s.runs[c])
    requires forall d :: d in s.runs ==> d == c
    requires c in After(s, e).runs && (e.Begin? ==> s.service.status.running)
    ensures Busy(After(s, e).service, c, After(s, e).runs[c])
  {
    hide Fold;
    if e.Write? {
      FoldStep(s.runs[c].written, s.runs[c].drainer.ev);
    }
  }

  lemma InvStep(s: System, e: Step, t: System)
    requires Inv(s) && Moves(s, e, t)
    ensures Inv(t)
  {
    hide RunOk, Busy, Enabled, After, Quiet;
    StepTaken(s, e, t);
    if s.runs == map[] {
      QuietStep(s, e);
    } else {
      var c :| c in s.runs;
      assert forall d :: d in s.runs ==> d == c;
      SomeoneRuns(s, e, c);
      if c in t.runs {
        RunStepOk(s, e, c);
        BusyStep(s, e, c);
      }
    }
  }

  lemma SomeoneRuns(s: System, e: Step, c: nat)
    requires Enabled(s, e) && c in s.runs && Busy(s.service, c, s.runs[c])
    requires forall d :: d in s.runs ==> d == c
    ensures s.service.status.running && s.service.gate.Some? && s.service.gate.value.run == c
    ensures After(s, e).next == s.next
    ensures c in After(s, e).runs ==> forall d :: d in After(s, e).runs ==> d == c
    ensures c !in After(s, e).runs ==> After(s, e).runs == map[] && Quiet(After(s, e).service)
  {
    hide Fold, Drained;
  }

  lemma QuietStep(s: System, e: Step)
    requires Enabled(s, e) && s.runs == map[] && Quiet(s.service)
    ensures Inv(After(s, e))
    ensures !e.Begin? ==> After(s, e) == s
  {
    if e.Begin? {
      assert s.next in After(s, e).runs && Fold([]) == Starting();
    }
  }

  /** The invariant holds in every state of every run. */
  lemma {:induction false} InvAlways(ss: seq<System>, es: seq<Step>, j: nat)
    requires Trace(ss, es) && j < |ss|
    ensures Inv(ss[j])
  {
    hide Inv, Moves;
    if j > 0 {
      InvAlways(ss, es, j - 1);
      InvStep(ss[j - 1], es[j - 1], ss[j]);
    } else {
      InitialInv();
    }
  }

  lemma InitialInv()
    ensures Inv(Initial())
  {
  }

  // ---------------------------------------------------------------- what follows for every interleaving

  /** At most one caller is past the claim, and the service is running exactly while there is one. */
  lemma OneRunAtATime(ss: seq<System>, es: seq<Step>, j: nat)
    requires Trace(ss, es) && j < |ss|
    ensures forall c, d :: c in ss[j].runs && d in ss[j].runs ==> c == d
    ensures ss[j].service.status.running <==> exists c :: c in ss[j].runs
  {
    InvAlways(ss, es, j);
    hide RunOk;
    if ss[j].runs == map[] {
      assert Quiet(ss[j].service);
    } else {
      var c :| c in ss[j].runs;
      assert Busy(ss[j].service, c, ss[j].runs[c]);
    }
  }

  /** When the service is not running no drainer is live and nothing of the last run is left. */
  lemma IdleIsQuiet(ss: seq<System>, es: seq<Step>, j: nat)
    requires Trace(ss, es) && j < |ss| && !ss[j].service.status.running
    ensures ss[j].runs == map[] && Quiet(ss[j].service)
  {
    InvAlways(ss, es, j);
    OneRunAtATime(ss, es, j);
    assert forall c :: c !in ss[j].runs;
  }

  /** The terminal status stays as it is until the next run claims the service. */
  lemma {:induction false} TerminalStays(ss: seq<System>, es: seq<Step>, i: nat, j: nat)
    requires Trace(ss, es) && i <= j < |ss| && !ss[i].service.status.running
    requires forall k :: i <= k < j ==> es[k] != Begin
    ensures ss[j] == ss[i]
    decreases j
  {
    hide Moves;
    if i < j {
      TerminalStays(ss, es, i, j - 1);
      IdleIsQuiet(ss, es, j - 1);
      StepTaken(ss[j - 1], es[j - 1], ss[j]);
      QuietStep(ss[j - 1], es[j - 1]);
    }
  }

  lemma StepTaken(s: System, e: Step, t: System)
    requires Moves(s, e, t)
    ensures Enabled(s, e) && t == After(s, e)
  {
  }

  /** The last non-empty target of a list of events, or "" when there is none. */
  function LastTarget(evs: seq<Event>): string
  {
    if evs == [] then ""
    else if evs[|evs| - 1].target != "" then evs[|evs| - 1].target
    else LastTarget(evs[..|evs| - 1])
  }

  /** The step shown is that of the last event that carried one. */
  function LastProgress(evs: seq<Event>): Progress
  {
    if evs == [] then Progress(0, 0, "")
    else if evs[|evs| - 1].progress.Some? then evs[|evs| - 1].progress.value
    else LastProgress(evs[..|evs| - 1])
  }

  /** A final event without target or progress blanks neither; phase and file counts are those of the last event. */
  lemma {:induction false} FoldShows(evs: seq<Event>)
    ensures Fold(evs).phase == if evs == [] then "starting" else evs[|evs| - 1].phase
    ensures Fold(evs).target == LastTarget(evs)
    ensures Progress(Fold(evs).stepIndex, Fold(evs).stepTotal, Fold(evs).stepName) == LastProgress(evs)
    ensures evs != [] ==> Fold(evs).filesTotal == evs[|evs| - 1].filesTotal
                          && Fold(evs).filesProcessed == evs[|evs| - 1].filesProcessed
  {
    if evs != [] {
      FoldShows(evs[..|evs| - 1]);
    }
  }

  /**
   What is shown while a run is on, in every interleaving: the phase and the file counts of the last
   event written, "starting" and 0 before there is one, the last target named, and the last step there was.
   */
  lemma StatusShows(ss: seq<System>, es: seq<Step>, j: nat, c: nat)
    requires Trace(ss, es) && j < |ss| && c in ss[j].runs
    ensures var st, evs := ss[j].service.status, ss[j].runs[c].written;
            && st.running
            && st.phase == (if evs == [] then "starting" else evs[|evs| - 1].phase)
            && st.target == LastTarget(evs)
            && Progress(st.stepIndex, st.stepTotal, st.stepName) == LastProgress(evs)
            && st.filesTotal == (if evs == [] then 0 else evs[|evs| - 1].filesTotal)
            && st.filesProcessed == (if evs == [] then 0 else evs[|evs| - 1].filesProcessed)
  {
    InvAlways(ss, es, j);
    assert Busy(ss[j].service, c, ss[j].runs[c]);
    hide Fold;
    FoldShows(ss[j].runs[c].written);
    FoldOfNone();
  }

  lemma FoldOfNone()
    ensures Fold([]).filesTotal == 0 && Fold([]).filesProcessed == 0
  {
  }

  /** Pause takes hold of the active run's gate, Resume lets go of it, and each shows in the paused flag. */
  lemma PauseTakes(ss: seq<System>, es: seq<Step>, j: nat, c: nat)
    requires Trace(ss, es) && j < |es| && c in ss[j].runs
    ensures es[j] == Pause ==> ss[j + 1].service.gate == Some(Gate(c, true)) && ss[j + 1].service.status.paused
    ensures es[j] == Resume ==>
              && ss[j + 1].service.gate == Some(Gate(c, false))
              && (ss[j].service.gate == Some(Gate(c, true)) ==> !ss[j + 1].service.status.paused)
              && (ss[j].service.gate == Some(Gate(c, false)) ==> ss[j + 1].service.status.paused == ss[j].service.status.paused)
    ensures es[j] == Pause || es[j] == Resume ==>
              ss[j + 1].service.status == ss[j].service.status.(paused := ss[j + 1].service.status.paused)
  {
    InvAlways(ss, es, j);
    StepTaken(ss[j], es[j], ss[j + 1]);
    hide Fold;
    assert Busy(ss[j].service, c, ss[j].runs[c]);
  }

  /**
   What a run leaves behind: the status folded from the events its drainer wrote, closed off with
   the engine's outcome. Those are all the events the engine sent, in order, unless the drainer
   panicked while notifying, and then a prefix of them. The target is the last one named, the file
   counts are the last ones sent, and after success the step shown is the last one there is.
   */
  lemma FinishTellsAll(ss: seq<System>, es: seq<Step>, j: nat)
    requires Trace(ss, es) && j < |es| && es[j].Finish?
    ensures es[j].c in ss[j].runs
    ensures var r := ss[j].runs[es[j].c];
            && r.pc.EventsClosed? && r.drainer.Gone?
            && ss[j + 1].service.status == Terminal(Fold(r.written), r.pc.failed)
            && r.written <= r.sent && (!r.drainer.panicked ==> r.written == r.sent)
            && ss[j + 1].service.status.phase == (if r.pc.failed then "error" else "done")
    ensures var st, evs := ss[j + 1].service.status, ss[j].runs[es[j].c].written;
            && !st.running && !st.paused
            && st.target == LastTarget(evs) && st.stepTotal == LastProgress(evs).total && st.stepName == LastProgress(evs).name
            && st.stepIndex == (if st.phase == "done" && st.stepTotal > 0 then st.stepTotal else LastProgress(evs).step)
            && (evs != [] ==> st.filesTotal == evs[|evs| - 1].filesTotal
                              && st.filesProcessed == evs[|evs| - 1].filesProcessed)
  {
    InvAlways(ss, es, j);
    StepTaken(ss[j], es[j], ss[j + 1]);
    hide Inv, Moves, Trace, Fold;
    TerminalOfFold(ss[j], es[j].c);
    FoldShows(ss[j].runs[es[j].c].written);
  }

  lemma TerminalOfFold(s: System, c: nat)
    requires Inv(s) && Enabled(s, Finish(c))
    ensures var r := s.runs[c];
            && Finished(s.service, r.pc.failed).status == Terminal(Fold(r.written), r.pc.failed)
            && r.written <= r.sent && (!r.drainer.panicked ==> r.written == r.sent)
  {
    hide Fold;
    assert RunOk(c, s.runs[c]) && Busy(s.service, c, s.runs[c]);
  }

  /** A run's context is cancelled exactly when somebody called Stop after it claimed the service. */
  lemma {:induction false} CancelledIff(ss: seq<System>, es: seq<Step>, i: nat, j: nat)
    requires Trace(ss, es) && i < j < |ss| && es[i].Begin? && !ss[i].service.status.running
    requires ss[i].next in ss[j].runs
    ensures ss[j].runs[ss[i].next].cancelled <==> exists k :: i < k < j && es[k] == Stop
    decreases j
  {
    var c := ss[i].next;
    hide Inv;
    StepTaken(ss[i], es[i], ss[i + 1]);
    if j > i + 1 {
      InvAlways(ss, es, j - 1);
      StaysIn(ss, es, i, j);
      CancelledIff(ss, es, i, j - 1);
      StepTaken(ss[j - 1], es[j - 1], ss[j]);
      CancelStep(ss[j - 1], es[j - 1], c);
      assert es[j - 1] == Stop ==> exists k :: i < k < j && es[k] == Stop;
      assert (exists k :: i < k < j && es[k] == Stop)
          <==> es[j - 1] == Stop || exists k :: i < k < j - 1 && es[k] == Stop;
    }
  }

  lemma CancelStep(s: System, e: Step, c: nat)
    requires Inv(s) && c in s.runs && Enabled(s, e) && c in After(s, e).runs
    ensures After(s, e).runs[c].cancelled <==> s.runs[c].cancelled || e == Stop
  {
    hide Fold, Drained, RunOk;
    assert Busy(s.service, c, s.runs[c]);
  }

  /** Stop reaches the run that is active: its context is cancelled and the gate it waits at is open. */
  lemma StopReaches(ss: seq<System>, es: seq<Step>, j: nat, c: nat)
    requires Trace(ss, es) && j < |es| && es[j] == Stop && c in ss[j].runs
    ensures c in ss[j + 1].runs && ss[j + 1].runs[c].cancelled
    ensures !ss[j].runs[c].pc.Loading? ==> ss[j + 1].runs[c].gate == Some(c)
    ensures ss[j + 1].service.gate == Some(Gate(c, false))
  {
    InvAlways(ss, es, j);
    StepTaken(ss[j], es[j], ss[j + 1]);
    hide Fold;
    assert RunOk(c, ss[j].runs[c]) && Busy(ss[j].service, c, ss[j].runs[c]);
  }

  /** Once a run has left it does not come back: its number is not given out again. */
  lemma StaysIn(ss: seq<System>, es: seq<Step>, i: nat, j: nat)
    requires Trace(ss, es) && i + 1 < j < |ss| && ss[i].next in ss[j].runs && ss[i].next < ss[i + 1].next
    ensures ss[i].next in ss[j - 1].runs
  {
    NumbersGrow(ss, es, i + 1, j - 1);
    StepTaken(ss[j - 1], es[j - 1], ss[j]);
    NewcomerIsNew(ss[j - 1], es[j - 1], ss[i].next);
  }

  lemma NewcomerIsNew(s: System, e: Step, c: nat)
    requires Enabled(s, e) && c in After(s, e).runs && c < s.next
    ensures c in s.runs
  {
    hide Drained, Paused, Resumed, Stopped, Finished;
  }

  lemma {:induction false} NumbersGrow(ss: seq<System>, es: seq<Step>, i: nat, j: nat)
    requires Trace(ss, es) && i <= j < |ss|
    ensures ss[i].next <= ss[j].next
    decreases j
  {
    if i < j {
      NumbersGrow(ss, es, i, j - 1);
      StepTaken(ss[j - 1], es[j - 1], ss[j]);
      NumberGrows(ss[j - 1], es[j - 1]);
    }
  }

  lemma NumberGrows(s: System, e: Step)
    requires Enabled(s, e)
    ensures s.next <= After(s, e).next
  {
    hide Drained, Paused, Resumed, Stopped, Finished;
  }

  /**
   Stop opens the gate but leaves the paused flag up: within a run the flag is up over an open gate
   exactly when a Stop found the flag up and nobody has called Pause since.
   */
  lemma {:induction false} PausedOverOpenGateIff(ss: seq<System>, es: seq<Step>, i: nat, j: nat)
    requires Trace(ss, es) && i < j < |ss| && es[i].Begin? && !ss[i].service.status.running
    requires ss[i].next in ss[j].runs
    ensures ss[j].service.gate.Some?
    ensures ss[j].service.status.paused && !ss[j].service.gate.value.paused <==> StoppedWhilePaused(ss, es, i, j)
    decreases j
  {
    var c := ss[i].next;
    hide Inv;
    StepTaken(ss[i], es[i], ss[i + 1]);
    if j > i + 1 {
      InvAlways(ss, es, j - 1);
      StaysIn(ss, es, i, j);
      PausedOverOpenGateIff(ss, es, i, j - 1);
      StepTaken(ss[j - 1], es[j - 1], ss[j]);
      PauseStep(ss[j - 1], es[j - 1], c);
      StoppedLater(ss, es, i, j);
    }
  }

  ghost predicate StoppedWhilePaused(ss: seq<System>, es: seq<Step>, i: nat, j: nat)
    requires j <= |es| && j <= |ss|
  {
    exists k :: i < k < j && es[k] == Stop && ss[k].service.status.paused && forall m :: k < m < j ==> es[m] != Pause
  }

  lemma StoppedLater(ss: seq<System>, es: seq<Step>, i: nat, j: nat)
    requires i + 1 < j <= |es| && j <= |ss|
    ensures StoppedWhilePaused(ss, es, i, j)
       <==> || (es[j - 1] == Stop && ss[j - 1].service.status.paused)
            || (es[j - 1] != Pause && StoppedWhilePaused(ss, es, i, j - 1))
  {
    if es[j - 1] != Pause && StoppedWhilePaused(ss, es, i, j - 1) {
      var k :| i < k < j - 1 && es[k] == Stop && ss[k].service.status.paused && forall m :: k < m < j - 1 ==> es[m] != Pause;
      assert forall m :: k < m < j ==> es[m] != Pause;
    }
  }

  predicate Stale(s: Service) { s.gate.Some? && s.status.paused && !s.gate.value.paused }

  lemma PauseStep(s: System, e: Step, c: nat)
    requires Inv(s) && c in s.runs && Enabled(s, e) && c in After(s, e).runs
    ensures After(s, e).service.gate.Some?
    ensures Stale(After(s, e).service) <==> (e == Stop && s.service.status.paused) || (e != Pause && Stale(s.service))
  {
    hide Fold, RunOk;
    assert Busy(s.service, c, s.runs[c]);
  }

  // ---------------------------------------------------------------- progress

  /** The engine waits for room in a queue that nobody empties any more. */
  predicate Stuck(r: Run)
  {
    r.pc.AtSend? && |r.queue| >= 100 && r.drainer == Gone(true)
  }

  /** What the drainer can do next, when it is there to do something. */
  function DrainStep(c: nat, r: Run): Step
  {
    if r.drainer.Holding? then Write(c)
    else if r.drainer.Notifying? then Notified(c)
    else if |r.queue| > 0 then Receive(c)
    else DrainerExits(c)
  }

  /** A step that brings the run nearer to its end: the engine sends what it is about to send and returns. */
  function Forward(c: nat, r: Run): Step
  {
    match r.pc
    case Loading => Start(c)
    case InEngine => EngineReturns(c, false)
    case AtSend(_) => if |r.queue| < BUFFER then Send(c) else DrainStep(c, r)
    case EngineReturned(_) => CloseEvents(c)
    case EventsClosed(_) => if r.drainer.Gone? then Finish(c) else DrainStep(c, r)
  }

  function Phases(pc: Pc): nat
  {
    match pc
    case Loading => 5
    case AtSend(_) => 4
    case InEngine => 3
    case EngineReturned(_) => 2
    case EventsClosed(_) => 1
  }

  function DrainPhases(d: Drainer): nat
  {
    match d
    case Holding(_) => 3
    case Notifying => 2
    case Waiting => 1
    case _ => 0
  }

  /** An event still to be drained takes three steps. */
  function Distance(r: Run): nat { 4 * Phases(r.pc) + 3 * |r.queue| + DrainPhases(r.drainer) }

  lemma ForwardHelps(c: nat, r: Run)
    requires RunOk(c, r) && !Stuck(r)
    ensures Actor(Forward(c, r)) == Some(c) && CanTake(r, Forward(c, r))
    ensures !Forward(c, r).Finish? ==>
              var t := Turned(r, Forward(c, r), Some(c)); Distance(t) < Distance(r) && !Stuck(t)
    ensures !Forward(c, r).LoadFails?
  {
  }

  lemma StuckCannot(r: Run, e: Step)
    requires Stuck(r)
    ensures !CanTake(r, e)
  {
  }

  /** An active run or its drainer can take a step exactly if the run is not stuck. */
  lemma CanMoveIff(ss: seq<System>, es: seq<Step>, j: nat, c: nat)
    requires Trace(ss, es) && j < |ss| && c in ss[j].runs
    ensures (exists e :: Actor(e) == Some(c) && Enabled(ss[j], e)) <==> !Stuck(ss[j].runs[c])
  {
    InvAlways(ss, es, j);
    var r := ss[j].runs[c];
    assert RunOk(c, r);
    hide RunOk, Stuck, CanTake;
    if Stuck(r) {
      forall e | Actor(e) == Some(c)
        ensures !Enabled(ss[j], e)
      {
        StuckCannot(r, e);
      }
    } else {
      ForwardHelps(c, r);
      assert Enabled(ss[j], Forward(c, r));
    }
  }

  /** Taking the steps es from s, run c has left by the end. */
  ghost predicate Leaves(s: System, c: nat, es: seq<Step>)
    decreases |es|
  {
    if es == [] then c !in s.runs else Enabled(s, es[0]) && Leaves(After(s, es[0]), c, es[1..])
  }

  lemma ForwardMoves(s: System, c: nat)
    requires Inv(s) && c in s.runs && !Stuck(s.runs[c])
    ensures var e := Forward(c, s.runs[c]);
            && Enabled(s, e) && Inv(After(s, e))
            && (c in After(s, e).runs ==>
                  Distance(After(s, e).runs[c]) < Distance(s.runs[c]) && !Stuck(After(s, e).runs[c]))
  {
    var e := Forward(c, s.runs[c]);
    assert RunOk(c, s.runs[c]) && Busy(s.service, c, s.runs[c]);
    ForwardHelps(c, s.runs[c]);
    assert Moves(s, e, After(s, e));
    InvStep(s, e, After(s, e));
    hide Forward, Served, Turned, CanTake, RunOk, Busy, Stuck, Distance, Inv;
  }

  lemma {:induction false} WayOut(s: System, c: nat) returns (es: seq<Step>)
    requires Inv(s) && c in s.runs && !Stuck(s.runs[c])
    ensures Leaves(s, c, es)
    decreases Distance(s.runs[c])
  {
    hide Inv, Stuck, Distance, Enabled, After, Forward;
    ForwardMoves(s, c);
    var e := Forward(c, s.runs[c]);
    var t := After(s, e);
    es := [];
    if c in t.runs {
      es := WayOut(t, c);
    }
    assert ([e] + es)[1..] == es;
    es := [e] + es;
  }

  lemma StuckStays(s: System, e: Step, c: nat)
    requires Inv(s) && c in s.runs && Stuck(s.runs[c]) && Enabled(s, e)
    ensures c in After(s, e).runs && Stuck(After(s, e).runs[c]) && Inv(After(s, e))
  {
    if Actor(e) == Some(c) {
      StuckCannot(s.runs[c], e);
    }
    assert c + 1 == s.next;
    assert Moves(s, e, After(s, e));
    InvStep(s, e, After(s, e));
    hide Inv, Served;
  }

  lemma {:induction false} NoWayOut(s: System, c: nat, es: seq<Step>)
    requires Inv(s) && c in s.runs && Stuck(s.runs[c])
    ensures !Leaves(s, c, es)
    decreases |es|
  {
    hide Inv, Stuck, Enabled, After;
    if es != [] && Enabled(s, es[0]) {
      StuckStays(s, es[0], c);
      NoWayOut(After(s, es[0]), c, es[1..]);
    }
  }

  /**
   From any state that can be reached, an active run can still be brought to its end exactly if it is
   not stuck: no steps help a stuck one, Stop, Pause and Resume included.
   */
  lemma CanFinishIff(ss: seq<System>, es: seq<Step>, j: nat, c: nat)
    requires Trace(ss, es) && j < |ss| && c in ss[j].runs
    ensures (exists fs :: Leaves(ss[j], c, fs)) <==> !Stuck(ss[j].runs[c])
  {
    hide Inv, Stuck, Leaves, Trace;
    InvAlways(ss, es, j);
    if Stuck(ss[j].runs[c]) {
      forall fs: seq<Step>
        ensures !Leaves(ss[j], c, fs)
      {
        NoWayOut(ss[j], c, fs);
      }
    } else {
      var fs := WayOut(ss[j], c);
    }
  }

  /** Once stuck, a run keeps the service running for good, and nobody else can claim it. */
  lemma {:induction false} StuckForever(ss: seq<System>, es: seq<Step>, i: nat, j: nat, c: nat)
    requires Trace(ss, es) && i <= j < |ss| && c in ss[i].runs && Stuck(ss[i].runs[c])
    ensures c in ss[j].runs && Stuck(ss[j].runs[c]) && ss[j].service.status.running
    decreases j
  {
    hide Inv, Stuck, Moves;
    InvAlways(ss, es, j);
    if i < j {
      StuckForever(ss, es, i, j - 1, c);
      InvAlways(ss, es, j - 1);
      StepTaken(ss[j - 1], es[j - 1], ss[j]);
      StuckStays(ss[j - 1], es[j - 1], c);
    }
    OneRunAtATime(ss, es, j);
  }

  /** One more step at the end of a trace. */
  lemma Extended(ss: seq<System>, es: seq<Step>, e: Step)
    requires Trace(ss, es) && Enabled(ss[|es|], e)
    ensures Trace(ss + [After(ss[|es|], e)], es + [e])
  {
    hide Enabled, After, Initial;
    var tt, fs := ss + [After(ss[|es|], e)], es + [e];
    forall i | 0 <= i < |fs|
      ensures Moves(tt[i], fs[i], tt[i + 1])
    {
      if i < |es| {
        assert Moves(ss[i], es[i], ss[i + 1]);
      } else {
        EnabledMoves(ss[i], e);
      }
    }
  }

  lemma EnabledMoves(s: System, e: Step)
    requires Enabled(s, e)
    ensures Moves(s, e, After(s, e))
  {
  }

  /** The drainer of run c has panicked, and n events are queued. */
  predicate Undrained(s: System, c: nat, n: nat)
  {
    c in s.runs && s.runs[c].pc.InEngine? && s.runs[c].drainer == Gone(true) && |s.runs[c].queue| == n
  }

  lemma FirstPanic(ev: Event) returns (ss: seq<System>, es: seq<Step>)
    ensures Trace(ss, es) && Undrained(ss[|es|], 0, 0)
  {
    var s := Initial();
    var a := Run(InEngine, false, Some(0), [], Waiting, [], []);
    var s1, s2 := After(s, Begin), After(After(s, Begin), Start(0));
    assert s2.runs == map[0 := a];
    var s3 := After(s2, Offer(0, ev));
    var s4 := After(s3, Send(0));
    assert s4.runs[0].queue == [ev];
    var s5 := After(s4, Receive(0));
    assert s5.runs[0].queue == [];
    var s6 := After(s5, Write(0));
    var s7 := After(s6, NotifyPanics(0));
    ss := [s, s1, s2, s3, s4, s5, s6, s7];
    es := [Begin, Start(0), Offer(0, ev), Send(0), Receive(0), Write(0), NotifyPanics(0)];
    hide After;
  }

  lemma OneMoreQueued(s: System, c: nat, n: nat, ev: Event)
    requires Undrained(s, c, n) && n < BUFFER
    ensures Enabled(s, Offer(c, ev)) && Enabled(After(s, Offer(c, ev)), Send(c))
    ensures Undrained(After(After(s, Offer(c, ev)), Send(c)), c, n + 1)
  {
  }

  lemma {:induction false} Filled(n: nat, ev: Event) returns (ss: seq<System>, es: seq<Step>)
    requires n <= BUFFER
    ensures Trace(ss, es) && Undrained(ss[|es|], 0, n)
  {
    if n == 0 {
      ss, es := FirstPanic(ev);
    } else {
      ss, es := Filled(n - 1, ev);
      hide Enabled, After, Undrained, Trace;
      ss, es := OneMoreSent(ss, es, n - 1, ev);
    }
  }

  lemma OneMoreSent(ss: seq<System>, es: seq<Step>, n: nat, ev: Event) returns (tt: seq<System>, fs: seq<Step>)
    requires Trace(ss, es) && Undrained(ss[|es|], 0, n) && n < BUFFER
    ensures Trace(tt, fs) && Undrained(tt[|fs|], 0, n + 1)
  {
    hide Enabled, After, Undrained;
    var s := ss[|es|];
    OneMoreQueued(s, 0, n, ev);
    Extended(ss, es, Offer(0, ev));
    tt, fs := ss + [After(s, Offer(0, ev))], es + [Offer(0, ev)];
    Extended(tt, fs, Send(0));
    tt, fs := tt + [After(tt[|fs|], Send(0))], fs + [Send(0)];
  }

  /** It can come to that: the drainer panics while it notifies, and the engine goes on sending. */
  lemma StuckIsReachable(ev: Event) returns (ss: seq<System>, es: seq<Step>)
    ensures Trace(ss, es) && 0 in ss[|es|].runs && Stuck(ss[|es|].runs[0])
  {
    ss, es := Filled(BUFFER, ev);
    Extended(ss, es, Offer(0, ev));
    hide Trace;
    ss, es := ss + [After(ss[|es|], Offer(0, ev))], es + [Offer(0, ev)];
  }
}
