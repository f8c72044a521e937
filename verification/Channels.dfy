/**
 The two places where goroutines wait on a channel that is closed to wake them and then replaced:
 the pause gate of a run, and the generation channel of the tools service. A channel is known by
 the number of times it has been closed; a second close of the same channel would be a panic.
 */
module Channels {

  /** Every channel ever installed in the field, oldest first, each with its number of closes. */
  type Pool = s: seq<nat> | |s| > 0 witness [0]

  function Current(p: Pool): nat { |p| - 1 }

  predicate IsOpen(p: Pool, k: nat)
  {
    k < |p| && p[k] == 0
  }

  function Closing(p: Pool): Pool { p[Current(p) := p[Current(p)] + 1] }

  /** All channels that were replaced are closed, and none was closed twice. */
  predicate Tidy(p: Pool)
  {
    && (forall k :: 0 <= k < |p| - 1 ==> p[k] == 1)
    && p[|p| - 1] <= 1
  }

  /** q continues p: no channel was dropped or opened again. */
  predicate Later(p: Pool, q: Pool)
  {
    |p| <= |q| && forall k :: 0 <= k < |p| ==> p[k] <= q[k]
  }

  /** A Go channel that only ever gets closed. */
  class Chan {
    var closes: nat

    constructor ()
      ensures closes == 0
    {
      closes := 0;
    }

    /** Closing a closed channel panics. */
    method Close()
      requires closes == 0
      modifies this
      ensures closes == 1
    {
      closes := closes + 1;
    }
  }

  ghost function Counts(cs: seq<Chan>): (p: seq<nat>)
    reads cs
    ensures |p| == |cs|
    ensures forall k :: 0 <= k < |cs| ==> p[k] == cs[k].closes
  {
    seq(|cs|, k requires 0 <= k < |cs| reads cs => cs[k].closes)
  }

  predicate Distinct(cs: seq<Chan>)
  {
    forall j, k :: 0 <= j < k < |cs| ==> cs[j] != cs[k]
  }
}

/** The gate between the steps of a run: its channel is closed while running and open while paused. */
module PauseGates {
  import opened Channels

  function NewGate(): Pool { [1] }

  predicate Paused(p: Pool) { IsOpen(p, Current(p)) }

  function Pausing(p: Pool): Pool { if Paused(p) then p else p + [0] }

  function Resuming(p: Pool): Pool { if Paused(p) then Closing(p) else p }

  /** A gate starts open, pausing shuts it with a channel that is not closed, and resuming opens it by closing that one. */
  lemma GateTurns(p: Pool)
    ensures NewGate() == [1] && !Paused(NewGate())
    ensures Paused(Pausing(p)) && Pausing(p) == if p[|p| - 1] == 0 then p else p + [0]
    ensures !Paused(Resuming(p)) && Resuming(p) == if p[|p| - 1] == 0 then p[|p| - 1 := 1] else p
    ensures Paused(p) <==> p[|p| - 1] == 0
  {
  }

  class PauseGate {
    var ch: Chan
    ghost var installed: seq<Chan>

    ghost predicate Valid()
      reads this, installed
      ensures Valid() ==> ch in installed
    {
      && |installed| > 0 && ch == installed[|installed| - 1]
      && Distinct(installed)
      && Tidy(Counts(installed))
    }

    ghost function View(): Pool
      requires Valid()
      reads this, installed
    {
      Counts(installed)
    }

    constructor ()
      ensures Valid() && fresh(installed) && View() == NewGate()
    {
      var c := new Chan();
      c.Close();
      ch := c;
      installed := [c];
    }

    method Pause()
      requires Valid()
      modifies this
      ensures Valid() && fresh(set c | c in installed && c !in old(installed))
      ensures View() == Pausing(old(View()))
    {
      if ch.closes > 0 {
        ch := new Chan();
        installed := installed + [ch];
      }
    }

    method Resume()
      requires Valid()
      modifies ch
      ensures Valid() && View() == Resuming(old(View()))
    {
      if ch.closes == 0 {
        ch.Close();
      }
    }

    method IsPaused() returns (paused: bool)
      requires Valid()
      ensures paused == Paused(View())
    {
      var c := ch;
      paused := c.closes == 0;
    }

    /** The locked part of WaitIfPaused: the caller then waits on c, whatever the field holds by then. */
    method Captured() returns (c: Chan)
      requires Valid()
      ensures c == installed[Current(View())]
    {
      c := ch;
    }
  }

  /**
   The gate under any interleaving: callers pause and resume it, waiters take the current channel
   and wait on it until it is closed or their context is cancelled.
   */
  datatype Gate = Gate(pool: Pool, waiting: map<nat, nat>)

  datatype GateStep = DoPause | DoResume | Capture(w: nat) | Wake(w: nat) | Cancelled(w: nat)

  function Fresh(): Gate { Gate(NewGate(), map[]) }

  predicate Enabled(g: Gate, e: GateStep)
  {
    match e
    case DoPause => true
    case DoResume => true
    case Capture(w) => w !in g.waiting
    case Wake(w) => w in g.waiting && !IsOpen(g.pool, g.waiting[w])
    case Cancelled(w) => w in g.waiting
  }

  function After(g: Gate, e: GateStep): Gate
    requires Enabled(g, e)
  {
    match e
    case DoPause => g.(pool := Pausing(g.pool))
    case DoResume => g.(pool := Resuming(g.pool))
    case Capture(w) => g.(waiting := g.waiting[w := Current(g.pool)])
    case Wake(w) => g.(waiting := g.waiting - {w})
    case Cancelled(w) => g.(waiting := g.waiting - {w})
  }

  ghost predicate Trace(gs: seq<Gate>, es: seq<GateStep>)
  {
    && |gs| == |es| + 1 && gs[0] == Fresh()
    && forall i :: 0 <= i < |es| ==> Enabled(gs[i], es[i]) && gs[i + 1] == After(gs[i], es[i])
  }

  /** In every run every replaced channel is closed, and no channel is ever closed twice. */
  lemma {:induction false} GateStaysTidy(gs: seq<Gate>, es: seq<GateStep>, j: nat)
    requires Trace(gs, es) && j < |gs|
    ensures Tidy(gs[j].pool)
    ensures forall w :: w in gs[j].waiting ==> gs[j].waiting[w] < |gs[j].pool|
  {
    if j > 0 {
      GateStaysTidy(gs, es, j - 1);
      assert Enabled(gs[j - 1], es[j - 1]) && gs[j] == After(gs[j - 1], es[j - 1]);
    }
  }

  lemma {:induction false} GateMovesOn(gs: seq<Gate>, es: seq<GateStep>, i: nat, j: nat)
    requires Trace(gs, es) && i <= j < |gs|
    ensures Later(gs[i].pool, gs[j].pool)
    decreases j - i
  {
    if i < j {
      GateMovesOn(gs, es, i, j - 1);
      assert Enabled(gs[j - 1], es[j - 1]) && gs[j] == After(gs[j - 1], es[j - 1]);
    }
  }

  /**
   A waiter that took its channel in step i finds it open at a later moment exactly when the gate
   was paused then and nobody has resumed it since, however often it was paused again.
   */
  lemma {:induction false} BlockedIff(gs: seq<Gate>, es: seq<GateStep>, i: nat, j: nat)
    requires Trace(gs, es) && i < j < |gs| && es[i].Capture?
    ensures IsOpen(gs[j].pool, Current(gs[i].pool))
       <==> Paused(gs[i].pool) && forall k :: i < k < j ==> es[k] != DoResume
    decreases j
  {
    var w := es[i].w;
    var p := Current(gs[i].pool);
    assert gs[i + 1] == After(gs[i], es[i]);
    if j > i + 1 {
      BlockedIff(gs, es, i, j - 1);
      GateStaysTidy(gs, es, j - 1);
      GateMovesOn(gs, es, i, j - 1);
      var g, e := gs[j - 1], es[j - 1];
      assert Enabled(g, e) && gs[j] == After(g, e);
      assert IsOpen(g.pool, p) ==> p == Current(g.pool);
    }
  }

  /** The channel a waiter waits on is the one it took: the field may change, the waiter does not. */
  lemma {:induction false} WaiterKeepsChannel(gs: seq<Gate>, es: seq<GateStep>, i: nat, j: nat)
    requires Trace(gs, es) && i < j < |gs| && es[i].Capture?
    requires forall k :: i < k < j ==> es[k] != Wake(es[i].w) && es[k] != Cancelled(es[i].w)
    ensures es[i].w in gs[j].waiting && gs[j].waiting[es[i].w] == Current(gs[i].pool)
    decreases j
  {
    assert gs[i + 1] == After(gs[i], es[i]);
    if j > i + 1 {
      WaiterKeepsChannel(gs, es, i, j - 1);
      assert Enabled(gs[j - 1], es[j - 1]) && gs[j] == After(gs[j - 1], es[j - 1]);
    }
  }

  /** Whoever waits on a channel taken before a resume can proceed right after it, and at any time later. */
  lemma ResumeFrees(gs: seq<Gate>, es: seq<GateStep>, i: nat, r: nat, j: nat)
    requires Trace(gs, es) && i < r < j < |gs| && es[i].Capture? && es[r] == DoResume
    requires forall k :: i < k < j ==> es[k] != Wake(es[i].w) && es[k] != Cancelled(es[i].w)
    ensures Enabled(gs[j], Wake(es[i].w))
  {
    BlockedIff(gs, es, i, j);
    WaiterKeepsChannel(gs, es, i, j);
  }
}

/** The generation channel of the tools service: closed and replaced at every change of an operation. */
module ToolChanges {
  import opened Channels

  datatype OpState = OpState(action: string, progress: int)

  type Ops = map<string, OpState>

  function Broadcast(p: Pool): Pool { Closing(p) + [0] }

  datatype Edit = Put(tool: string, op: OpState) | Drop(tool: string)

  function Edited(ops: Ops, e: Edit): Ops
  {
    match e
    case Put(tool, op) => ops[tool := op]
    case Drop(tool) => ops - {tool}
  }

  /** An edit is of one tool, and a broadcast closes the channel there is and puts a new one behind it. */
  lemma EditsAre(ops: Ops, tool: string, op: OpState, p: Pool)
    ensures var put, drop := Edited(ops, Put(tool, op)), Edited(ops, Drop(tool));
            && tool in put && put[tool] == op && tool !in drop
            && (forall t :: t != tool ==> (t in put <==> t in ops) && (t in drop <==> t in ops))
            && (forall t :: t != tool && t in ops ==> put[t] == ops[t] && drop[t] == ops[t])
    ensures |Broadcast(p)| == |p| + 1 && Broadcast(p)[|p|] == 0 && Broadcast(p)[|p| - 1] == p[|p| - 1] + 1
    ensures forall k :: 0 <= k < |p| - 1 ==> Broadcast(p)[k] == p[k]
  {
  }

  lemma TidyAfterBroadcast(p: Pool)
    requires Tidy(p) && IsOpen(p, Current(p))
    ensures Tidy(Broadcast(p))
  {
  }

  class ToolsService {
    var activeOps: Ops
    var changeCh: Chan
    ghost var installed: seq<Chan>

    ghost predicate Valid()
      reads this, installed
    {
      && |installed| > 0 && changeCh == installed[|installed| - 1]
      && Distinct(installed)
      && Tidy(Counts(installed)) && changeCh.closes == 0
    }

    ghost function View(): Pool
      requires Valid()
      reads this, installed
    {
      Counts(installed)
    }

    constructor ()
      ensures Valid() && fresh(installed) && activeOps == map[] && View() == [0]
    {
      var c := new Chan();
      activeOps := map[];
      changeCh := c;
      installed := [c];
    }

    /** Wakes every waiter and installs the channel of the next generation, in one locked section. */
    method BroadcastChange()
      requires Valid()
      modifies `changeCh, `installed, changeCh
      ensures Valid() && fresh(set c | c in installed && c !in old(installed))
      ensures View() == Broadcast(old(View())) && old(installed) <= installed
    {
      hide Counts, Tidy;
      ghost var was, cs := View(), installed;
      TidyAfterBroadcast(was);
      changeCh.Close();
      assert Counts(cs) == Closing(was);
      var next := new Chan();
      changeCh := next;
      installed := cs + [next];
      assert Counts(installed) == Counts(cs) + [0];
    }

    method UpdateOp(tool: string, action: string, progress: int)
      requires Valid()
      modifies this, changeCh
      ensures Valid() && activeOps == Edited(old(activeOps), Put(tool, OpState(action, progress)))
      ensures View() == Broadcast(old(View()))
    {
      activeOps := activeOps[tool := OpState(action, progress)];
      BroadcastChange();
    }

    method RemoveOp(tool: string)
      requires Valid()
      modifies this, changeCh
      ensures Valid() && activeOps == Edited(old(activeOps), Drop(tool))
      ensures View() == Broadcast(old(View()))
    {
      activeOps := activeOps - {tool};
      BroadcastChange();
    }

    /** The locked part of WaitForChange. */
    method Captured() returns (c: Chan)
      requires Valid()
      ensures c == installed[Current(View())]
    {
      c := changeCh;
    }
  }

  /**
   The service under any interleaving. A writer holds the lock twice, once to edit the operations
   and once to broadcast; in between it is in dirty, and anybody else may run.
   */
  datatype Tools = Tools(pool: Pool, ops: Ops, dirty: set<nat>, waiting: map<nat, nat>)

  datatype ToolStep =
    | Write(g: nat, edit: Edit)
    | Announce(g: nat)
    | Capture(w: nat)
    | Wake(w: nat)
    | TimeOut(w: nat)

  function Fresh(): Tools { Tools([0], map[], {}, map[]) }

  predicate Enabled(s: Tools, e: ToolStep)
  {
    match e
    case Write(g, _) => g !in s.dirty
    case Announce(g) => g in s.dirty
    case Capture(w) => w !in s.waiting
    case Wake(w) => w in s.waiting && !IsOpen(s.pool, s.waiting[w])
    case TimeOut(w) => w in s.waiting
  }

  function After(s: Tools, e: ToolStep): Tools
    requires Enabled(s, e)
  {
    match e
    case Write(g, edit) => s.(ops := Edited(s.ops, edit), dirty := s.dirty + {g})
    case Announce(g) => s.(pool := Broadcast(s.pool), dirty := s.dirty - {g})
    case Capture(w) => s.(waiting := s.waiting[w := Current(s.pool)])
    case Wake(w) => s.(waiting := s.waiting - {w})
    case TimeOut(w) => s.(waiting := s.waiting - {w})
  }

  ghost predicate Trace(ss: seq<Tools>, es: seq<ToolStep>)
  {
    && |ss| == |es| + 1 && ss[0] == Fresh()
    && forall i :: 0 <= i < |es| ==> Enabled(ss[i], es[i]) && ss[i + 1] == After(ss[i], es[i])
  }

  /** In every run the channel in the field is open, every other is closed, and none was closed twice. */
  lemma {:induction false} ServiceStaysTidy(ss: seq<Tools>, es: seq<ToolStep>, j: nat)
    requires Trace(ss, es) && j < |ss|
    ensures Tidy(ss[j].pool) && IsOpen(ss[j].pool, Current(ss[j].pool))
  {
    if j > 0 {
      ServiceStaysTidy(ss, es, j - 1);
      assert Enabled(ss[j - 1], es[j - 1]) && ss[j] == After(ss[j - 1], es[j - 1]);
    }
  }

  /** A waiter's channel is still open exactly when no broadcast was made since it took it. */
  lemma {:induction false} WokenIff(ss: seq<Tools>, es: seq<ToolStep>, i: nat, j: nat)
    requires Trace(ss, es) && i < j < |ss| && es[i].Capture?
    ensures IsOpen(ss[j].pool, Current(ss[i].pool)) <==> forall k :: i < k < j ==> !es[k].Announce?
    ensures Current(ss[i].pool) <= Current(ss[j].pool)
    decreases j
  {
    assert ss[i + 1] == After(ss[i], es[i]);
    ServiceStaysTidy(ss, es, i);
    if j > i + 1 {
      WokenIff(ss, es, i, j - 1);
      ServiceStaysTidy(ss, es, j - 1);
      assert Enabled(ss[j - 1], es[j - 1]) && ss[j] == After(ss[j - 1], es[j - 1]);
    }
  }

  /**
   No change is missed. While a waiter is still blocked, every edit made since it took its channel
   is by a writer that has yet to broadcast, and every writer that was between its edit and its
   broadcast at that moment still is; so once no broadcast is outstanding, the operations are
   exactly those the waiter started from.
   */
  lemma {:induction false} NothingMissed(ss: seq<Tools>, es: seq<ToolStep>, i: nat, j: nat)
    requires Trace(ss, es) && i < j < |ss| && es[i].Capture?
    requires IsOpen(ss[j].pool, Current(ss[i].pool))
    ensures ss[i].dirty <= ss[j].dirty
    ensures forall k :: i < k < j && es[k].Write? ==> es[k].g in ss[j].dirty
    ensures ss[j].dirty == ss[i].dirty ==> ss[j].ops == ss[i].ops
    decreases j
  {
    WokenIff(ss, es, i, j);
    assert ss[i + 1] == After(ss[i], es[i]);
    if j > i + 1 {
      WokenIff(ss, es, i, j - 1);
      NothingMissed(ss, es, i, j - 1);
      assert Enabled(ss[j - 1], es[j - 1]) && ss[j] == After(ss[j - 1], es[j - 1]);
    }
  }

  /**
   A waiter that arrives between a writer's edit and its broadcast is woken by that broadcast too:
   once the writer is done, the waiter can proceed.
   */
  lemma LateWaiterIsWoken(ss: seq<Tools>, es: seq<ToolStep>, i: nat, j: nat, g: nat)
    requires Trace(ss, es) && i < j < |ss| && es[i].Capture?
    requires g in ss[i].dirty && g !in ss[j].dirty
    ensures !IsOpen(ss[j].pool, Current(ss[i].pool))
  {
    if IsOpen(ss[j].pool, Current(ss[i].pool)) {
      NothingMissed(ss, es, i, j);
    }
  }
}
