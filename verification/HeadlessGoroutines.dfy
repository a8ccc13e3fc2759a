/** The goroutines of the server from beginning to end, with any steps of others between their own. */
module HeadlessGoroutines {
  import opened Wrappers
  import opened HeadlessServer
  import opened HeadlessSafety
  import opened HeadlessPlay
  import opened HeadlessControl

  /* ------------------------------------------------------------------ */
  /* A goroutine's own steps.                                             */
  /* ------------------------------------------------------------------ */

  /** Where a goroutine's own step takes it; nobody else can keep it from going there. */
  function Goes(task: Task, a: Action): Option<Task> {
    match a
    case Begin(_) => if task.pc == Spawned then Some(task.(state := Running, pc := FirstPc(task.kind))) else None
    case RegisterMachine(_) => if task.pc == Booting(false) then Some(task.(pc := Booting(true))) else None
    case StartReturns(_, ok) =>
      if task.pc.Booting? && (ok ==> task.pc.registered) then Some(task.(pc := if ok then Booted else CleaningUp)) else None
    case CleanupReturns(_, ok) => if task.pc == CleaningUp then Some(task.(pc := BootFailed(ok))) else None
    case StartFinishes(_, cancelled) =>
      if task.kind.Start? && (task.pc == Booted || task.pc.BootFailed?)
      then Some(Finish(task, task.pc == Booted, cancelled).(pc := Ending)) else None
    case StopGivesUp(_) => if task.pc == Waiting then Some(task.(pc := Halted(false))) else None
    case StopReturns(_, ok) => if task.pc == Halting then Some(task.(pc := Halted(ok))) else None
    case StopFinishes(_, cancelled) =>
      if task.kind.Stop? && task.pc.Halted? then Some(Finish(task, task.pc.stopped, cancelled).(pc := Ending)) else None
    case GlassReady(_) =>
      if task.kind.GlassSpawn? && task.pc == Showing
      then Some(if task.state == Running then Finish(task, true, false) else task) else None
    case GlassReturns(_, ok) => if task.pc == Showing then Some(task.(pc := Shown(ok))) else None
    case GlassFinishes(_, cancelled) =>
      if task.kind.GlassSpawn? && task.pc.Shown?
      then Some((if task.state == Running then Finish(task, false, cancelled) else task).(pc := Ending)) else None
    case PullReturns(_, ok) => if task.pc == Pulling then Some(task.(pc := Pulled(ok))) else None
    case PullFinishes(_, cancelled) =>
      if task.pc.Pulled? then Some(Finish(task, task.pc.fetched, cancelled).(pc := Ending)) else None
    case CloseDone(_) => if task.pc == Ending then Some(task.(pc := Closed)) else None
    case LeaveWaitGroup(_) => if task.pc == Closed then Some(task.(pc := Over)) else None
    case _ => None
  }

  lemma OwnStep(s: Server, t: TaskId, a: Action)
    requires t in s.tasks && (s.tasks[t].kind.Pull? || s.tasks[t].vm in s.vms)
    requires HasTask(a) && a.t == t && Goes(s.tasks[t], a).Some?
    ensures Step(s, a).Some? && t in Step(s, a).value.tasks && Step(s, a).value.tasks[t] == Goes(s.tasks[t], a).value
  {
  }

  /* ------------------------------------------------------------------ */
  /* The VM of a goroutine, when nobody else touches it.                  */
  /* ------------------------------------------------------------------ */

  /** The goroutines of a VM. */
  function Mine(s: Server, v: VmId): set<TaskId> {
    set t | t in s.tasks && !s.tasks[t].kind.Pull? && s.tasks[t].vm == v
  }

  /** A request for the VM, a step of one of its goroutines, an exit of its guest, or a shutdown that stops or records it. */
  predicate Touches(a: Action, v: VmId, mine: set<TaskId>) {
    || ((a.AcceptStop? || a.AcceptGlass? || a.MonitorSeesExit? || a.ShutdownStops?) && a.v == v)
    || a.ShutdownRecords?
    || (HasTask(a) && a.t in mine)
  }

  predicate Spares(actions: seq<Action>, v: VmId, mine: set<TaskId>) {
    forall i :: 0 <= i < |actions| ==> !Touches(actions[i], v, mine)
  }

  predicate Kept(s: Server, v: VmId, mine: set<TaskId>) { v in s.vms && Mine(s, v) <= mine }

  /** A VM and whether its machine is in the table. */
  datatype Seen = Seen(vm: Vm, up: bool)

  function See(s: Server, v: VmId): Seen
    requires v in s.vms
  {
    Seen(s.vms[v], v in s.machines)
  }

  lemma SpareStep(s: Server, a: Action, v: VmId, mine: set<TaskId>)
    requires Inv(s) && Kept(s, v, mine) && !Touches(a, v, mine)
    ensures Kept(Try(s, a), v, mine) && See(Try(s, a), v) == See(s, v)
  {
    hide Inv;
    if Step(s, a).Some? {
      var s' := Step(s, a).value;
      if a.AcceptStart? || a.AcceptStop? || a.AcceptGlass? || a.AcceptPull? {
        SpareAccept(s, s', a, v, mine);
      } else if a.MonitorSeesExit? {
        hide Accept, Work, Shutdown;
      } else if HasRequest(a) {
        SpareRequest(s, s', a, v, mine);
      } else {
        SpareWork(s, s', a, v, mine);
      }
    }
  }

  lemma SpareAccept(s: Server, s': Server, a: Action, v: VmId, mine: set<TaskId>)
    requires Kept(s, v, mine) && !Touches(a, v, mine) && Accept(s, a) == Some(s')
    ensures Kept(s', v, mine) && See(s', v) == See(s, v)
  {
    hide NoneOwns;
  }

  lemma SpareRequest(s: Server, s': Server, a: Action, v: VmId, mine: set<TaskId>)
    requires Kept(s, v, mine) && !Touches(a, v, mine) && Shutdown(s, a) == Some(s')
    ensures Kept(s', v, mine) && See(s', v) == See(s, v)
  {
    hide AllOver, AllStopped;
  }

  lemma SpareWork(s: Server, s': Server, a: Action, v: VmId, mine: set<TaskId>)
    requires Inv(s) && Kept(s, v, mine) && !Touches(a, v, mine) && Work(s, a) == Some(s')
    ensures Kept(s', v, mine) && See(s', v) == See(s, v)
  {
    hide Inv, Work, StateFits, PcFits;
    WorksFor(s, s', a);
    KnownVm(s, a.t);
    SameKinds(s, s', a);
    if s.tasks[a.t].kind.Pull? {
      PullTouchesNone(s, s', a);
    } else {
      assert a.t !in Mine(s, v);
      NotItsVm(s, s', a, v);
    }
  }

  lemma WorksFor(s: Server, s': Server, a: Action)
    requires Work(s, a) == Some(s')
    ensures HasTask(a) && a.t in s.tasks
  {
  }

  lemma NotItsVm(s: Server, s': Server, a: Action, v: VmId)
    requires Work(s, a) == Some(s') && a.t in s.tasks && v in s.vms && s.tasks[a.t].vm != v
    ensures v in s'.vms && s'.vms[v] == s.vms[v] && (v in s'.machines <==> v in s.machines)
  {
    hide Finish;
  }

  lemma PullTouchesNone(s: Server, s': Server, a: Action)
    requires Work(s, a) == Some(s') && a.t in s.tasks && s.tasks[a.t].kind.Pull? && PcFits(Pull, s.tasks[a.t].pc)
    ensures s'.vms == s.vms && s'.machines == s.machines
  {
    hide Finish;
  }

  lemma SameKinds(s: Server, s': Server, a: Action)
    requires Work(s, a) == Some(s')
    ensures s'.tasks.Keys == s.tasks.Keys
    ensures forall t :: t in s.tasks ==> s'.tasks[t].kind == s.tasks[t].kind && s'.tasks[t].vm == s.tasks[t].vm
  {
    hide Work;
    if a.StartFinishes? {
      StartKinds(s, s', a);
    } else if a.StopFinishes? {
      StopKinds(s, s', a);
    } else if a.GlassReady? || a.GlassFinishes? {
      GlassKinds(s, s', a);
    } else {
      OtherKinds(s, s', a);
    }
  }

  /** The goroutines are those that were there, of the same kinds and for the same VMs. */
  predicate Alike(s: Server, s': Server) {
    && s'.tasks.Keys == s.tasks.Keys
    && forall t :: t in s.tasks ==> s'.tasks[t].kind == s.tasks[t].kind && s'.tasks[t].vm == s.tasks[t].vm
  }

  lemma StartKinds(s: Server, s': Server, a: Action)
    requires Work(s, a) == Some(s') && a.StartFinishes?
    ensures Alike(s, s')
  {
    hide FinishStop, PresentFrame, FinishGlass, FirstPc, AtPc;
  }

  lemma StopKinds(s: Server, s': Server, a: Action)
    requires Work(s, a) == Some(s') && a.StopFinishes?
    ensures Alike(s, s')
  {
    hide FinishStart, PresentFrame, FinishGlass, FirstPc, AtPc;
  }

  lemma GlassKinds(s: Server, s': Server, a: Action)
    requires Work(s, a) == Some(s') && (a.GlassReady? || a.GlassFinishes?)
    ensures Alike(s, s')
  {
    hide FinishStart, FinishStop, FirstPc, AtPc;
  }

  lemma OtherKinds(s: Server, s': Server, a: Action)
    requires Work(s, a) == Some(s') && !a.StartFinishes? && !a.StopFinishes? && !a.GlassReady? && !a.GlassFinishes?
    ensures Alike(s, s')
  {
    hide FinishStart, FinishStop, PresentFrame, FinishGlass;
  }

  lemma TryKeeps(s: Server, a: Action)
    requires Inv(s)
    ensures Inv(Try(s, a))
  {
    hide Inv, Step;
    if Step(s, a).Some? {
      StepKeeps(s, a);
    }
  }

  lemma {:induction false} SparePlay(s: Server, actions: seq<Action>, v: VmId, mine: set<TaskId>)
    requires Inv(s) && Kept(s, v, mine) && Spares(actions, v, mine)
    ensures Kept(Play(s, actions), v, mine) && See(Play(s, actions), v) == See(s, v)
    decreases |actions|
  {
    hide Try, Touches, Kept, See, Inv;
    if actions != [] {
      TryKeeps(s, actions[0]);
      SpareStep(s, actions[0], v, mine);
      SparePlay(Try(s, actions[0]), actions[1..], v, mine);
    }
  }

  /** What a step of one of its own goroutines does to a VM. */
  function Effect(task: Task, a: Action, was: Seen): Seen {
    var vm := was.vm;
    match a
    case RegisterMachine(_) => was.(up := true)
    case CleanupReturns(_, ok) => was.(up := was.up && !ok)
    case StopReturns(_, ok) => was.(up := was.up && !ok)
    case StartFinishes(_, _) =>
      if vm.state != Starting then was
      else if task.pc == Booted then was.(vm := vm.(state := VmRunning, active := None))
      else was.(vm := vm.(state := VmFailed, owns := task.pc != BootFailed(true), active := None))
    case StopFinishes(_, _) =>
      if task.pc == Halted(true) then was.(vm := vm.(state := Stopped, owns := false, active := None))
      else was.(vm := vm.(state := VmFailed, owns := true, active := None))
    case GlassReady(_) => if task.state == Running then was.(vm := vm.(glass := Some(GlassOpen), active := None)) else was
    case GlassFinishes(_, _) =>
      var open := task.state != Running && task.pc == Shown(true);
      was.(vm := vm.(glass := Some(if open then GlassClosed else GlassFailed), active := if vm.active == Some(a.t) then None else vm.active))
    case _ => was
  }

  lemma OwnEffect(s: Server, t: TaskId, a: Action, mine: set<TaskId>)
    requires t in s.tasks && !s.tasks[t].kind.Pull? && Kept(s, s.tasks[t].vm, mine)
    requires HasTask(a) && a.t == t && Step(s, a).Some?
    ensures var v, s' := s.tasks[t].vm, Step(s, a).value;
            Kept(s', v, mine) && See(s', v) == Effect(s.tasks[t], a, See(s, v))
  {
    hide Work, Effect, See, Kept, Accept;
    if !(a.AcceptStart? || a.AcceptStop? || a.AcceptGlass? || a.AcceptPull?) {
      SameKinds(s, Step(s, a).value, a);
      if a.StartFinishes? {
        StartEffect(s, Step(s, a).value, a);
      } else if a.StopFinishes? {
        StopEffect(s, Step(s, a).value, a);
      } else if a.GlassReady? || a.GlassFinishes? {
        GlassEffect(s, Step(s, a).value, a);
      } else {
        OtherEffect(s, Step(s, a).value, a);
      }
      SameKept(s, Step(s, a).value, s.tasks[t].vm, mine);
    } else {
      NotAgain(s, a);
    }
  }

  lemma NotAgain(s: Server, a: Action)
    requires (a.AcceptStart? || a.AcceptStop? || a.AcceptGlass? || a.AcceptPull?) && a.t in s.tasks
    ensures Step(s, a).None?
  {
  }

  lemma SameKept(s: Server, s': Server, v: VmId, mine: set<TaskId>)
    requires Alike(s, s') && Kept(s, v, mine) && s'.vms.Keys == s.vms.Keys
    ensures Kept(s', v, mine)
  {
  }

  /** The own VM after a step of goroutine `a.t`. */
  predicate Does(s: Server, s': Server, a: Action)
    requires HasTask(a)
  {
    a.t in s.tasks && s.tasks[a.t].vm in s.vms && s'.vms.Keys == s.vms.Keys
    && See(s', s.tasks[a.t].vm) == Effect(s.tasks[a.t], a, See(s, s.tasks[a.t].vm))
  }

  lemma StartEffect(s: Server, s': Server, a: Action)
    requires Work(s, a) == Some(s') && a.StartFinishes? && !s.tasks[a.t].kind.Pull?
    ensures Does(s, s', a)
  {
    hide FinishStop, PresentFrame, FinishGlass, FirstPc, AtPc, Finish;
  }

  lemma StopEffect(s: Server, s': Server, a: Action)
    requires Work(s, a) == Some(s') && a.StopFinishes? && !s.tasks[a.t].kind.Pull?
    ensures Does(s, s', a)
  {
    hide FinishStart, PresentFrame, FinishGlass, FirstPc, AtPc, Finish;
  }

  lemma GlassEffect(s: Server, s': Server, a: Action)
    requires Work(s, a) == Some(s') && (a.GlassReady? || a.GlassFinishes?) && !s.tasks[a.t].kind.Pull?
    ensures Does(s, s', a)
  {
    hide FinishStart, FinishStop, FirstPc, AtPc, Finish;
  }

  lemma OtherEffect(s: Server, s': Server, a: Action)
    requires Work(s, a) == Some(s') && !a.StartFinishes? && !a.StopFinishes? && !a.GlassReady? && !a.GlassFinishes?
    requires !s.tasks[a.t].kind.Pull?
    ensures Does(s, s', a)
  {
    hide FinishStart, FinishStop, PresentFrame, FinishGlass, Finish;
  }

  /** The effect of an own step, if others spare the VM afterwards. */
  lemma StepThenOthers(s: Server, t: TaskId, a: Action, others: seq<Action>, mine: set<TaskId>)
    requires Inv(s) && t in s.tasks && !s.tasks[t].kind.Pull? && Kept(s, s.tasks[t].vm, mine)
    requires HasTask(a) && a.t == t && Step(s, a).Some?
    ensures Spares(others, s.tasks[t].vm, mine) ==>
              var s' := Play(Step(s, a).value, others);
              Kept(s', s.tasks[t].vm, mine) && See(s', s.tasks[t].vm) == Effect(s.tasks[t], a, See(s, s.tasks[t].vm))
  {
    hide Step, Play, Effect, Kept, See, Spares, Inv;
    OwnEffect(s, t, a, mine);
    StepKeeps(s, a);
    if Spares(others, s.tasks[t].vm, mine) {
      SparePlay(Step(s, a).value, others, s.tasks[t].vm, mine);
    }
  }

  lemma KnownVm(s: Server, t: TaskId)
    requires Inv(s) && t in s.tasks
    ensures (s.tasks[t].kind.Pull? || s.tasks[t].vm in s.vms) && TaskOk(s.tasks[t])
  {
  }

  /** One step of goroutine `t`, and then whatever others do; `run` is what has happened since `start`. */
  method Go(c: Control, t: TaskId, a: Action, others: seq<Action>, ghost start: Server, ghost run: seq<Action>,
            ghost mine: set<TaskId>) returns (ghost more: seq<Action>)
    requires c.Valid() && t in c.tasks && HasTask(a) && a.t == t && Goes(c.tasks[t], a).Some? && Foreign(others, t)
    requires c.View() == Play(start, run)
    modifies c
    ensures c.Valid() && c.View() == Play(start, more)
    ensures t in c.tasks && c.tasks[t] == Goes(old(c.tasks[t]), a).value
    ensures var v := old(c.tasks[t].vm);
            !old(c.tasks[t].kind.Pull?) && old(Kept(c.View(), v, mine)) && Spares(others, v, mine) ==>
              Kept(c.View(), v, mine) && See(c.View(), v) == Effect(old(c.tasks[t]), a, old(See(c.View(), v)))
  {
    hide Inv, Step, Goes, Play, Spares, Kept, See, Effect;
    KnownVm(c.View(), t);
    OwnStep(c.View(), t, a);
    if !c.tasks[t].kind.Pull? && Kept(c.View(), c.tasks[t].vm, mine) {
      StepThenOthers(c.View(), t, a, others, mine);
    }
    more := run + ([a] + others);
    PlayJoin(start, run, [a] + others);
    PlayOne(c.View(), a);
    PlayJoin(c.View(), [a], others);
    ForeignLeaves(Step(c.View(), a).value, others, t);
    var done := c.Perform(a);
    c.Interfere(others);
  }

  /** How an operation ends. */
  function Verdict(ok: bool, cancelled: bool): OpState { if ok then Succeeded else if cancelled then Cancelled else Failed }

  /** The goroutine is gone and its operation was finished once. */
  predicate Ended(task: Task, was: Task, ok: bool, cancelled: bool) {
    task == was.(state := Verdict(ok, cancelled), finishes := 1, pc := Over)
  }

  /** A goroutine of this kind that has not begun. */
  predicate Fresh(c: Control, t: TaskId)
    reads c
  {
    t in c.tasks && c.tasks[t].pc == Spawned
  }

  lemma NotFinished(s: Server, t: TaskId)
    requires Inv(s) && t in s.tasks && s.tasks[t].pc == Spawned
    ensures s.tasks[t].finishes == 0
  {
    KnownVm(s, t);
  }

  /* ------------------------------------------------------------------ */
  /* Whole goroutines.                                                    */
  /* ------------------------------------------------------------------ */

  /** Others never touch the VM. */
  ghost predicate SpareAll(others: nat -> seq<Action>, v: VmId, mine: set<TaskId>) {
    forall i :: Spares(others(i), v, mine)
  }

  /** The last two steps: the done channel is closed and the wait group left. */
  method Depart(c: Control, t: TaskId, others: nat -> seq<Action>, k: nat, ghost start: Server, ghost run: seq<Action>,
                ghost mine: set<TaskId>) returns (ghost more: seq<Action>)
    requires c.Valid() && t in c.tasks && c.tasks[t].pc == Ending && c.View() == Play(start, run)
    requires forall i :: Foreign(others(i), t)
    modifies c
    ensures c.Valid() && c.View() == Play(start, more) && t in c.tasks && c.tasks[t] == old(c.tasks[t]).(pc := Over)
    ensures var v := old(c.tasks[t].vm);
            !old(c.tasks[t].kind.Pull?) && old(Kept(c.View(), v, mine)) && SpareAll(others, v, mine) ==>
              Kept(c.View(), v, mine) && See(c.View(), v) == old(See(c.View(), v))
  {
    hide Inv, Play, Foreign, Control.View, Spares, Kept, See;
    more := Go(c, t, CloseDone(t), others(k), start, run, mine);
    more := Go(c, t, LeaveWaitGroup(t), others(k + 1), start, more, mine);
  }

  /** The last critical section, and what follows it. */
  method Close(c: Control, t: TaskId, a: Action, others: nat -> seq<Action>, k: nat, ghost start: Server,
               ghost run: seq<Action>, ghost mine: set<TaskId>) returns (ghost more: seq<Action>)
    requires c.Valid() && t in c.tasks && HasTask(a) && a.t == t && c.View() == Play(start, run)
    requires Goes(c.tasks[t], a).Some? && Goes(c.tasks[t], a).value.pc == Ending && forall i :: Foreign(others(i), t)
    modifies c
    ensures c.Valid() && c.View() == Play(start, more)
    ensures t in c.tasks && c.tasks[t] == Goes(old(c.tasks[t]), a).value.(pc := Over)
    ensures var v := old(c.tasks[t].vm);
            !old(c.tasks[t].kind.Pull?) && old(Kept(c.View(), v, mine)) && SpareAll(others, v, mine) ==>
              Kept(c.View(), v, mine) && See(c.View(), v) == Effect(old(c.tasks[t]), a, old(See(c.View(), v)))
  {
    hide Inv, Play, Foreign, Control.View, Goes, Spares, Kept, See, Effect;
    GoesSame(c.tasks[t], a);
    more := Go(c, t, a, others(k), start, run, mine);
    more := Depart(c, t, others, k + 1, start, more, mine);
  }

  lemma GoesSame(task: Task, a: Action)
    ensures Goes(task, a).Some? ==> Goes(task, a).value.kind == task.kind && Goes(task, a).value.vm == task.vm
  {
  }

  /** The driver's start call, and its stop call if that fails. */
  method StartMachine(c: Control, t: TaskId, others: nat -> seq<Action>, k: nat, added: bool, ok: bool, cleaned: bool,
                      ghost start: Server, ghost run: seq<Action>, ghost mine: set<TaskId>) returns (ghost more: seq<Action>)
    requires c.Valid() && t in c.tasks && c.tasks[t].pc == Booting(false) && (ok ==> added) && c.View() == Play(start, run)
    requires !c.tasks[t].kind.Pull? && forall i :: Foreign(others(i), t)
    modifies c
    ensures c.Valid() && c.View() == Play(start, more)
    ensures t in c.tasks && c.tasks[t] == old(c.tasks[t]).(pc := if ok then Booted else BootFailed(cleaned))
    ensures var v := old(c.tasks[t].vm);
            old(Kept(c.View(), v, mine)) && SpareAll(others, v, mine) ==>
              && Kept(c.View(), v, mine) && See(c.View(), v).vm == old(See(c.View(), v)).vm
              && (See(c.View(), v).up <==> (old(See(c.View(), v)).up || added) && (ok || !cleaned))
  {
    hide Inv, Play, Foreign, Control.View, Spares, Kept, See;
    more := run;
    if added {
      more := Go(c, t, RegisterMachine(t), others(k), start, more, mine);
    }
    more := Go(c, t, StartReturns(t, ok), others(k + 1), start, more, mine);
    if !ok {
      more := Go(c, t, CleanupReturns(t, cleaned), others(k + 2), start, more, mine);
    }
  }

  /**
   Boot: the driver adds its machine and starts it, or fails and is told to stop it again. Whatever
   others do in between, the operation is finished once, with the outcome of the driver's call. If
   they leave the VM alone, it runs and owns its resources, or it has failed and owns them exactly
   when the driver could not release them.
   */
  method BootVm(c: Control, t: TaskId, others: nat -> seq<Action>, added: bool, ok: bool, cleaned: bool,
                cancelled: bool) returns (ghost run: seq<Action>)
    requires c.Valid() && Fresh(c, t) && c.tasks[t].kind.Start? && (ok ==> added)
    requires forall i :: Foreign(others(i), t)
    modifies c
    ensures c.Valid() && c.View() == Play(old(c.View()), run)
    ensures t in c.tasks && Ended(c.tasks[t], old(c.tasks[t]), ok, cancelled)
    ensures var v := old(c.tasks[t].vm);
            v in old(c.vms) && old(c.vms[v].state == Starting) && SpareAll(others, v, old(Mine(c.View(), v))) ==>
              && v in c.vms && c.vms[v].state == (if ok then VmRunning else VmFailed) && c.vms[v].active == None
              && (c.vms[v].owns <==> ok || !cleaned) && c.vms[v].glass == old(c.vms[v].glass)
              && (v in c.machines <==> added && (ok || !cleaned))
  {
    hide Inv, Play, Foreign, SpareAll, Ended;
    NotUpYet(c.View(), t);
    run := BootSteps(c, t, others, added, ok, cleaned, cancelled, Mine(c.View(), c.tasks[t].vm));
  }

  method BootSteps(c: Control, t: TaskId, others: nat -> seq<Action>, added: bool, ok: bool, cleaned: bool,
                   cancelled: bool, ghost mine: set<TaskId>) returns (ghost run: seq<Action>)
    requires c.Valid() && Fresh(c, t) && c.tasks[t].kind.Start? && (ok ==> added)
    requires forall i :: Foreign(others(i), t)
    modifies c
    ensures c.Valid() && c.View() == Play(old(c.View()), run)
    ensures t in c.tasks && Ended(c.tasks[t], old(c.tasks[t]), ok, cancelled)
    ensures var v := old(c.tasks[t].vm);
            old(Kept(c.View(), v, mine)) && SpareAll(others, v, mine) && old(See(c.View(), v)).vm.state == Starting ==>
              var was := old(See(c.View(), v));
              && Kept(c.View(), v, mine)
              && See(c.View(), v)
                 == Seen(was.vm.(state := if ok then VmRunning else VmFailed, owns := if ok then was.vm.owns else !cleaned,
                                 active := None),
                         (was.up || added) && (ok || !cleaned))
  {
    hide Inv, Play, Foreign, Spares, Kept, See;
    NotFinished(c.View(), t);
    ghost var start := c.View();
    NothingYet(start);
    hide Control.View;
    run := Go(c, t, Begin(t), others(0), start, [], mine);
    run := StartMachine(c, t, others, 1, added, ok, cleaned, start, run, mine);
    run := Close(c, t, StartFinishes(t, cancelled), others, 4, start, run, mine);
  }

  lemma NotUpYet(s: Server, t: TaskId)
    requires Inv(s) && t in s.tasks && s.tasks[t].kind.Start? && s.tasks[t].pc == Spawned
    ensures s.tasks[t].vm in s.vms && s.tasks[t].vm !in s.machines && s.vms[s.tasks[t].vm].owns
  {
    hide TasksOk, StopsOk, Alone, ShutdownsOk;
    assert VmOk(s, s.tasks[t].vm);
  }

  lemma NothingYet(s: Server)
    ensures Play(s, []) == s
  {
  }

  lemma AwaitedKnown(s: Server, t: TaskId)
    requires Inv(s) && t in s.tasks && s.tasks[t].kind.Stop?
    ensures s.tasks[t].kind.awaits in s.tasks && s.tasks[t].vm in s.vms
  {
    assert StopOk(s, t);
  }

  /** The awaited channel is closed: the stop goes on to the driver. */
  method GoOn(c: Control, t: TaskId, others: seq<Action>, ghost start: Server, ghost run: seq<Action>,
              ghost mine: set<TaskId>) returns (ghost more: seq<Action>)
    requires c.Valid() && t in c.tasks && c.tasks[t].kind.Stop? && c.tasks[t].pc == Waiting && Foreign(others, t)
    requires var d := c.tasks[t].kind.awaits; d in c.tasks && (c.tasks[d].pc == Closed || c.tasks[d].pc == Over)
    requires c.View() == Play(start, run)
    modifies c
    ensures c.Valid() && c.View() == Play(start, more) && t in c.tasks && c.tasks[t] == old(c.tasks[t]).(pc := Halting)
    ensures var v := old(c.tasks[t].vm);
            old(Kept(c.View(), v, mine)) && Spares(others, v, mine) ==>
              Kept(c.View(), v, mine) && See(c.View(), v) == old(See(c.View(), v))
  {
    hide Inv, Play, Spares, Kept, See;
    KnownVm(c.View(), t);
    var a := StopGoesOn(t);
    ghost var next := AtPc(c.View(), t, Halting);
    assert Step(c.View(), a) == Some(next);
    hide Step;
    if Kept(c.View(), c.tasks[t].vm, mine) {
      StepThenOthers(c.View(), t, a, others, mine);
    }
    more := run + ([a] + others);
    PlayJoin(start, run, [a] + others);
    PlayOne(c.View(), a);
    PlayJoin(c.View(), [a], others);
    ForeignLeaves(next, others, t);
    var done := c.Perform(a);
    c.Interfere(others);
  }

  /** Waiting for the goroutine whose channel it was given, and then the driver's stop call. */
  method WaitAndHalt(c: Control, t: TaskId, others: nat -> seq<Action>, k: nat, patient: bool, ok: bool,
                     ghost start: Server, ghost run: seq<Action>, ghost mine: set<TaskId>)
    returns (stopped: bool, ghost more: seq<Action>)
    requires c.Valid() && t in c.tasks && c.tasks[t].kind.Stop? && c.tasks[t].pc == Waiting && c.View() == Play(start, run)
    requires forall i :: Foreign(others(i), t)
    modifies c
    ensures c.Valid() && c.View() == Play(start, more)
    ensures t in c.tasks && c.tasks[t] == old(c.tasks[t]).(pc := Halted(stopped))
    ensures var d := old(c.tasks[t].kind.awaits);
            d in old(c.tasks) && (stopped <==> patient && ok && old(c.tasks[d].pc == Closed || c.tasks[d].pc == Over))
    ensures var v := old(c.tasks[t].vm);
            old(Kept(c.View(), v, mine)) && SpareAll(others, v, mine) ==>
              Kept(c.View(), v, mine) && See(c.View(), v) == old(See(c.View(), v)).(up := old(See(c.View(), v)).up && !stopped)
  {
    hide Inv, Play, Foreign, Spares, Kept, See;
    AwaitedKnown(c.View(), t);
    hide Control.View;
    var awaited := c.tasks[c.tasks[t].kind.awaits].pc;
    if patient && (awaited == Closed || awaited == Over) {
      more := GoOn(c, t, others(k), start, run, mine);
      more := Go(c, t, StopReturns(t, ok), others(k + 1), start, more, mine);
      stopped := ok;
    } else {
      more := Go(c, t, StopGivesUp(t), others(k), start, run, mine);
      stopped := false;
    }
  }

  /**
   Stop: succeeded exactly when the goroutine waited for had ended in time and the driver stopped the
   machine. If others leave the VM alone, it is then stopped and owns nothing, or it has failed and
   still owns its resources.
   */
  method StopMachine(c: Control, t: TaskId, others: nat -> seq<Action>, patient: bool, ok: bool, cancelled: bool)
    returns (stopped: bool, ghost run: seq<Action>)
    requires c.Valid() && Fresh(c, t) && c.tasks[t].kind.Stop?
    requires forall i :: Foreign(others(i), t)
    modifies c
    ensures c.Valid() && c.View() == Play(old(c.View()), run)
    ensures t in c.tasks && Ended(c.tasks[t], old(c.tasks[t]), stopped, cancelled)
    ensures stopped ==> patient && ok
    ensures var v := old(c.tasks[t].vm);
            v in old(c.vms) && SpareAll(others, v, old(Mine(c.View(), v))) ==>
              && v in c.vms && c.vms[v].state == (if stopped then Stopped else VmFailed) && c.vms[v].active == None
              && c.vms[v].owns == !stopped && c.vms[v].glass == old(c.vms[v].glass)
              && (v in c.machines <==> v in old(c.machines) && !stopped)
  {
    hide Inv, Play, Foreign, SpareAll, Ended;
    stopped, run := StopSteps(c, t, others, patient, ok, cancelled, Mine(c.View(), c.tasks[t].vm));
  }

  method StopSteps(c: Control, t: TaskId, others: nat -> seq<Action>, patient: bool, ok: bool, cancelled: bool,
                   ghost mine: set<TaskId>) returns (stopped: bool, ghost run: seq<Action>)
    requires c.Valid() && Fresh(c, t) && c.tasks[t].kind.Stop?
    requires forall i :: Foreign(others(i), t)
    modifies c
    ensures c.Valid() && c.View() == Play(old(c.View()), run)
    ensures t in c.tasks && Ended(c.tasks[t], old(c.tasks[t]), stopped, cancelled)
    ensures stopped ==> patient && ok
    ensures var v := old(c.tasks[t].vm);
            old(Kept(c.View(), v, mine)) && SpareAll(others, v, mine) ==>
              var was := old(See(c.View(), v));
              && Kept(c.View(), v, mine)
              && See(c.View(), v)
                 == Seen(was.vm.(state := if stopped then Stopped else VmFailed, owns := !stopped, active := None), was.up && !stopped)
  {
    hide Inv, Play, Foreign, Spares, Kept, See;
    NotFinished(c.View(), t);
    ghost var start := c.View();
    NothingYet(start);
    hide Control.View;
    run := Go(c, t, Begin(t), others(0), start, [], mine);
    stopped, run := WaitAndHalt(c, t, others, 1, patient, ok, start, run, mine);
    run := Close(c, t, StopFinishes(t, cancelled), others, 3, start, run, mine);
  }

  /** The driver's window call, with or without a complete frame. */
  method Present(c: Control, t: TaskId, others: nat -> seq<Action>, k: nat, frame: bool, clean: bool,
                 ghost start: Server, ghost run: seq<Action>, ghost mine: set<TaskId>) returns (ghost more: seq<Action>)
    requires c.Valid() && t in c.tasks && c.tasks[t].kind.GlassSpawn? && c.tasks[t].pc == Showing
    requires c.tasks[t].state == Running && c.View() == Play(start, run) && forall i :: Foreign(others(i), t)
    modifies c
    ensures c.Valid() && c.View() == Play(start, more) && t in c.tasks
    ensures var was := old(c.tasks[t]);
            c.tasks[t] == (if frame then was.(state := Succeeded, finishes := was.finishes + 1) else was).(pc := Shown(clean))
    ensures var v := old(c.tasks[t].vm);
            old(Kept(c.View(), v, mine)) && SpareAll(others, v, mine) ==>
              var was := old(See(c.View(), v));
              && Kept(c.View(), v, mine)
              && See(c.View(), v) == if frame then was.(vm := was.vm.(glass := Some(GlassOpen), active := None)) else was
  {
    hide Inv, Play, Foreign, Control.View, Spares, Kept, See;
    more := run;
    if frame {
      more := Go(c, t, GlassReady(t), others(k), start, more, mine);
    }
    more := Go(c, t, GlassReturns(t, clean), others(k + 1), start, more, mine);
  }

  /**
   A window: it succeeds with its first complete frame, and fails if it closes without one. If others
   leave the VM alone, only its window and active operation have changed.
   */
  method ShowGlass(c: Control, t: TaskId, others: nat -> seq<Action>, frame: bool, clean: bool, cancelled: bool)
    returns (ghost run: seq<Action>)
    requires c.Valid() && Fresh(c, t) && c.tasks[t].kind.GlassSpawn?
    requires forall i :: Foreign(others(i), t)
    modifies c
    ensures c.Valid() && c.View() == Play(old(c.View()), run)
    ensures t in c.tasks && Ended(c.tasks[t], old(c.tasks[t]), frame, cancelled)
    ensures var v := old(c.tasks[t].vm);
            v in old(c.vms) && SpareAll(others, v, old(Mine(c.View(), v))) ==>
              && v in c.vms && (v in c.machines <==> v in old(c.machines))
              && c.vms[v] == old(c.vms[v]).(glass := Some(if frame && clean then GlassClosed else GlassFailed),
                                            active := if frame || old(c.vms[v].active == Some(t)) then None
                                                      else old(c.vms[v].active))
  {
    hide Inv, Play, Foreign, SpareAll, Ended;
    run := GlassSteps(c, t, others, frame, clean, cancelled, Mine(c.View(), c.tasks[t].vm));
  }

  method GlassSteps(c: Control, t: TaskId, others: nat -> seq<Action>, frame: bool, clean: bool, cancelled: bool,
                    ghost mine: set<TaskId>) returns (ghost run: seq<Action>)
    requires c.Valid() && Fresh(c, t) && c.tasks[t].kind.GlassSpawn?
    requires forall i :: Foreign(others(i), t)
    modifies c
    ensures c.Valid() && c.View() == Play(old(c.View()), run)
    ensures t in c.tasks && Ended(c.tasks[t], old(c.tasks[t]), frame, cancelled)
    ensures var v := old(c.tasks[t].vm);
            old(Kept(c.View(), v, mine)) && SpareAll(others, v, mine) ==>
              var was := old(See(c.View(), v));
              && Kept(c.View(), v, mine)
              && See(c.View(), v)
                 == was.(vm := was.vm.(glass := Some(if frame && clean then GlassClosed else GlassFailed),
                                       active := if frame || was.vm.active == Some(t) then None else was.vm.active))
  {
    hide Inv, Play, Foreign, Spares, Kept, See;
    NotFinished(c.View(), t);
    ghost var start := c.View();
    NothingYet(start);
    hide Control.View;
    hide Goes, Effect, Ended;
    BeginIs(c.tasks[t], t);
    run := Go(c, t, Begin(t), others(0), start, [], mine);
    run := Present(c, t, others, 1, frame, clean, start, run, mine);
    GlassFinishIs(c.tasks[t], t, clean, cancelled);
    run := Close(c, t, GlassFinishes(t, cancelled), others, 3, start, run, mine);
    GlassEnded(c.tasks[t], old(c.tasks[t]), frame, clean, cancelled);
  }

  lemma BeginIs(task: Task, t: TaskId)
    requires task.pc == Spawned && task.kind.GlassSpawn?
    ensures Goes(task, Begin(t)) == Some(task.(pc := Showing, state := Running))
    ensures forall was :: Effect(task, Begin(t), was) == was
  {
  }

  lemma GlassFinishIs(task: Task, t: TaskId, clean: bool, cancelled: bool)
    requires task.kind.GlassSpawn? && task.pc == Shown(clean)
    ensures var done := if task.state != Running then task else Finish(task, false, cancelled);
            Goes(task, GlassFinishes(t, cancelled)) == Some(done.(pc := Ending))
    ensures forall was :: Effect(task, GlassFinishes(t, cancelled), was) == WindowGone(was, t, task.state != Running && clean)
  {
    hide Finish;
    forall was
      ensures Effect(task, GlassFinishes(t, cancelled), was) == WindowGone(was, t, task.state != Running && clean)
    {
      hide Goes;
    }
  }

  /** The VM when its window has gone. */
  function WindowGone(was: Seen, t: TaskId, clean: bool): Seen {
    was.(vm := was.vm.(glass := Some(if clean then GlassClosed else GlassFailed),
                       active := if was.vm.active == Some(t) then None else was.vm.active))
  }

  lemma GlassEnded(task: Task, was: Task, frame: bool, clean: bool, cancelled: bool)
    requires was.finishes == 0
    requires var shown := was.(state := Running, pc := Shown(clean));
             task == (if frame then shown.(state := Succeeded, finishes := 1) else Finish(shown, false, cancelled)).(pc := Over)
    ensures Ended(task, was, frame, cancelled)
  {
  }

  method PullImage(c: Control, t: TaskId, others: nat -> seq<Action>, fetched: bool, cancelled: bool)
    returns (ghost run: seq<Action>)
    requires c.Valid() && Fresh(c, t) && c.tasks[t].kind.Pull?
    requires forall i :: Foreign(others(i), t)
    modifies c
    ensures c.Valid() && c.View() == Play(old(c.View()), run)
    ensures t in c.tasks && Ended(c.tasks[t], old(c.tasks[t]), fetched, cancelled)
  {
    hide Inv, Play, Foreign;
    NotFinished(c.View(), t);
    ghost var start := c.View();
    NothingYet(start);
    hide Control.View;
    run := Go(c, t, Begin(t), others(0), start, [], {});
    run := Go(c, t, PullReturns(t, fetched), others(1), start, run, {});
    run := Close(c, t, PullFinishes(t, cancelled), others, 2, start, run, {});
  }

  /* ------------------------------------------------------------------ */
  /* A shutdown request.                                                  */
  /* ------------------------------------------------------------------ */

  /** Actions of goroutines, of other requests and of the monitor. */
  predicate ForeignTo(actions: seq<Action>, r: RequestId) {
    forall i :: 0 <= i < |actions| ==> HasRequest(actions[i]) ==> actions[i].r != r
  }

  lemma RequestElsewhere(s: Server, a: Action, r: RequestId)
    requires r in s.shutdowns && (HasRequest(a) ==> a.r != r)
    ensures r in Try(s, a).shutdowns && Try(s, a).shutdowns[r] == s.shutdowns[r]
  {
    hide Work, Accept, Shutdown, AllStopped;
    if a.MonitorSeesExit? {
    } else if HasRequest(a) {
      if Shutdown(s, a).Some? {
        OtherRequest(s, a, r);
      }
    } else if a.AcceptStart? || a.AcceptStop? || a.AcceptGlass? || a.AcceptPull? {
      if Accept(s, a).Some? {
        AcceptLeavesShutdowns(s, a);
      }
    } else if Work(s, a).Some? {
      WorkLeavesShutdowns(s, a);
    }
  }

  lemma OtherRequest(s: Server, a: Action, r: RequestId)
    requires r in s.shutdowns && HasRequest(a) && a.r != r && Shutdown(s, a).Some?
    ensures r in Shutdown(s, a).value.shutdowns && Shutdown(s, a).value.shutdowns[r] == s.shutdowns[r]
  {
    hide AllStopped;
  }

  lemma {:induction false} RequestStays(s: Server, actions: seq<Action>, r: RequestId)
    requires r in s.shutdowns && ForeignTo(actions, r)
    ensures r in Play(s, actions).shutdowns && Play(s, actions).shutdowns[r] == s.shutdowns[r]
    decreases |actions|
  {
    hide Try;
    if actions != [] {
      RequestElsewhere(s, actions[0], r);
      RequestStays(Try(s, actions[0]), actions[1..], r);
    }
  }

  /** Where a step takes the request; it waits for the goroutines, and for nobody else. */
  function Proceeds(s: Server, pc: ShutdownPc, a: Action): Option<ShutdownPc> {
    match a
    case ShutdownCloses(_) => if pc == Entered then Some(WaitingJobs) else None
    case ShutdownTimesOut(_) => if pc == WaitingJobs then Some(Leaving(false)) else None
    case ShutdownJobsEnd(_) => if pc == WaitingJobs && AllOver(s) then Some(JobsDone) else None
    case ShutdownListsMachines(_) => if pc == JobsDone then Some(Draining(s.machines)) else None
    case ShutdownStops(_, v, ok) =>
      if pc.Draining? && v in pc.ids then Some(if ok then Draining(pc.ids - {v}) else Leaving(false)) else None
    case ShutdownDrained(_, ok) =>
      if pc.Draining? && pc.ids == {} then Some(if ok then Drained else Leaving(false)) else None
    case ShutdownRecords(_) => if pc == Drained then Some(Leaving(true)) else None
    case ShutdownLeaves(_) => if pc.Leaving? then Some(Left(pc.ok)) else None
    case _ => None
  }

  lemma RequestStep(s: Server, r: RequestId, a: Action)
    requires r in s.shutdowns && HasRequest(a) && a.r == r && Proceeds(s, s.shutdowns[r], a).Some?
    ensures Step(s, a).Some? && r in Step(s, a).value.shutdowns
    ensures Step(s, a).value.shutdowns[r] == Proceeds(s, s.shutdowns[r], a).value
  {
    hide AllOver, AllStopped;
  }

  /** One step of request `r`, and then whatever others do. */
  method Say(c: Control, r: RequestId, a: Action, others: seq<Action>, ghost start: Server, ghost run: seq<Action>)
    returns (ghost more: seq<Action>)
    requires c.Valid() && r in c.shutdowns && HasRequest(a) && a.r == r && ForeignTo(others, r)
    requires Proceeds(c.View(), c.shutdowns[r], a).Some? && c.View() == Play(start, run)
    modifies c
    ensures c.Valid() && c.View() == Play(start, more)
    ensures r in c.shutdowns && c.shutdowns[r] == Proceeds(old(c.View()), old(c.shutdowns[r]), a).value
  {
    hide Inv, Step, Proceeds, Play;
    RequestStep(c.View(), r, a);
    more := run + ([a] + others);
    PlayJoin(start, run, [a] + others);
    PlayOne(c.View(), a);
    PlayJoin(c.View(), [a], others);
    RequestStays(Step(c.View(), a).value, others, r);
    var done := c.Perform(a);
    c.Interfere(others);
  }

  method Enter(c: Control, r: RequestId, others: seq<Action>, ghost start: Server) returns (ghost run: seq<Action>)
    requires c.Valid() && r !in c.shutdowns && c.gate == None && ForeignTo(others, r) && c.View() == start
    modifies c
    ensures c.Valid() && c.View() == Play(start, run) && r in c.shutdowns && c.shutdowns[r] == Entered
  {
    hide Inv, Play;
    var a := ShutdownEnters(r);
    ghost var next := WithShutdown(c.View(), r, Entered).(gate := Some(r));
    assert Step(c.View(), a) == Some(next);
    hide Step;
    run := [a] + others;
    PlayOne(start, a);
    PlayJoin(start, [a], others);
    RequestStays(next, others, r);
    var done := c.Perform(a);
    c.Interfere(others);
  }

  /** The driver stops every machine it listed, until one does not stop. */
  method Drain(c: Control, r: RequestId, others: nat -> seq<Action>, stops: VmId -> bool, ghost start: Server,
               ghost run: seq<Action>) returns (ok: bool, ghost more: seq<Action>)
    requires c.Valid() && r in c.shutdowns && c.shutdowns[r].Draining? && c.View() == Play(start, run)
    requires forall i :: ForeignTo(others(i), r)
    modifies c
    ensures c.Valid() && c.View() == Play(start, more) && r in c.shutdowns
    ensures c.shutdowns[r] == if ok then Draining({}) else Leaving(false)
    ensures ok <==> forall v :: v in old(c.shutdowns[r].ids) ==> stops(v)
  {
    hide Inv, Play, ForeignTo;
    more := run;
    var left := c.shutdowns[r].ids;
    while left != {}
      invariant c.Valid() && c.View() == Play(start, more) && r in c.shutdowns && c.shutdowns[r] == Draining(left)
      invariant left <= old(c.shutdowns[r].ids)
      invariant forall v :: v in old(c.shutdowns[r].ids) && v !in left ==> stops(v)
      decreases |left|
    {
      var v :| v in left;
      more := Say(c, r, ShutdownStops(r, v, stops(v)), others(8 + |left|), start, more);
      if !stops(v) {
        return false, more;
      }
      left := left - {v};
    }
    ok := true;
  }

  /** The driver is through, and everything is recorded as stopped. */
  method RecordAll(c: Control, r: RequestId, others: nat -> seq<Action>, drained: bool, ghost start: Server,
                   ghost run: seq<Action>) returns (ghost more: seq<Action>)
    requires c.Valid() && r in c.shutdowns && c.shutdowns[r] == Draining({}) && c.View() == Play(start, run)
    requires forall i :: ForeignTo(others(i), r)
    modifies c
    ensures c.Valid() && c.View() == Play(start, more) && r in c.shutdowns && c.shutdowns[r] == Leaving(drained)
  {
    hide Inv, Play, ForeignTo, Control.View;
    more := Say(c, r, ShutdownDrained(r, drained), others(2), start, run);
    if drained {
      more := Say(c, r, ShutdownRecords(r), others(3), start, more);
    }
  }

  /** From the end of the goroutines to the answer. */
  method StopEverything(c: Control, r: RequestId, others: nat -> seq<Action>, stops: VmId -> bool, drained: bool,
                        ghost start: Server, ghost run: seq<Action>) returns (ok: bool, ghost more: seq<Action>)
    requires c.Valid() && r in c.shutdowns && c.shutdowns[r] == JobsDone && c.View() == Play(start, run)
    requires forall i :: ForeignTo(others(i), r)
    modifies c
    ensures c.Valid() && c.View() == Play(start, more) && r in c.shutdowns && c.shutdowns[r] == Leaving(ok)
  {
    hide Inv, Play, ForeignTo, Control.View;
    more := Say(c, r, ShutdownListsMachines(r), others(0), start, run);
    ok, more := Drain(c, r, others, stops, start, more);
    if ok {
      more := RecordAll(c, r, others, drained, start, more);
      ok := drained;
    }
  }

  /**
   A shutdown: it closes the server, waits for the goroutines, has the driver stop the machines and
   records everything as stopped. When it answers success, nothing is left running or owned and every
   operation is terminal, whatever others did meanwhile and do before the answer is out.
   */
  method ShutDownServer(c: Control, r: RequestId, others: nat -> seq<Action>, inTime: bool, stops: VmId -> bool,
                        drained: bool) returns (ok: bool, ghost run: seq<Action>)
    requires c.Valid() && r !in c.shutdowns && c.gate == None && forall i :: ForeignTo(others(i), r)
    modifies c
    ensures c.Valid() && c.View() == Play(old(c.View()), run) && r in c.shutdowns && c.shutdowns[r] == Left(ok)
    ensures ok ==> Quiet(c.View()) && forall t :: t in c.tasks ==> c.tasks[t].state.Terminal()
  {
    hide Inv, Play, ForeignTo, Quiet, AllOver, Control.View;
    ghost var start := c.View();
    run := Enter(c, r, others(4), start);
    run := Say(c, r, ShutdownCloses(r), others(5), start, run);
    var over := c.JobsOver();
    if over && inTime {
      run := Say(c, r, ShutdownJobsEnd(r), others(6), start, run);
      ok, run := StopEverything(c, r, others, stops, drained, start, run);
    } else {
      run := Say(c, r, ShutdownTimesOut(r), others(6), start, run);
      ok := false;
    }
    run := Answer(c, r, ok, others(7), start, run);
  }

  /** The gate is left; after success everything stays as it was recorded. */
  method Answer(c: Control, r: RequestId, ok: bool, others: seq<Action>, ghost start: Server, ghost run: seq<Action>)
    returns (ghost more: seq<Action>)
    requires c.Valid() && r in c.shutdowns && c.shutdowns[r] == Leaving(ok) && ForeignTo(others, r)
    requires c.View() == Play(start, run)
    modifies c
    ensures c.Valid() && c.View() == Play(start, more) && r in c.shutdowns && c.shutdowns[r] == Left(ok)
    ensures ok ==> Quiet(c.View()) && forall t :: t in c.tasks ==> c.tasks[t].state.Terminal()
  {
    hide Inv, Play, ForeignTo, Quiet;
    more := Say(c, r, ShutdownLeaves(r), others, start, run);
    if ok {
      QuietMeans(c.View(), r);
    }
  }
}
