/** What becomes of a VM: after a start or a stop has ended, and for as long as nothing else happens to it. */
module HeadlessOutcomes {
  import opened Wrappers
  import opened HeadlessServer
  import opened HeadlessSafety
  import opened HeadlessHistory

  /* ------------------------------------------------------------------ */
  /* When requests are accepted.                                          */
  /* ------------------------------------------------------------------ */

  /** Some VM has resources. */
  ghost predicate SomeOwns(h: seq<Action>) {
    exists v :: Life(h, v).Some? && Life(h, v).value.owns
  }

  /** Requests are accepted exactly when the history leaves room for them. */
  lemma AcceptedIff(h: seq<Action>, t: TaskId, v: VmId)
    requires Run(h).Some? && Unused(h, t)
    ensures Run(h + [AcceptStart(t, v)]).Some? <==> !Closing(h) && Life(h, v).None? && !SomeOwns(h)
    ensures Run(h + [AcceptStop(t, v)]).Some? <==> !Closing(h) && Life(h, v).Some? && Life(h, v).value.state != Stopping
    ensures Run(h + [AcceptGlass(t, v)]).Some?
       <==> && !Closing(h) && Life(h, v).Some?
            && (var r := Life(h, v).value;
                && r.state == VmRunning && r.active == None
                && r.glass != Some(GlassStarting) && r.glass != Some(GlassOpen))
    ensures Run(h + [AcceptPull(t)]).Some? <==> !Closing(h)
  {
    hide Run, Life, Closing, NoneOwns, SomeOwns, Step, TasksTold, MachinesTold, VmsTold, Unused;
    HistoryTells(h);
    var s := Run(h).value;
    NotUsed(h, t);
    OwnersTold(s, h);
    VmSees(s, h, v);
    RunMore(h, AcceptStart(t, v));
    RunMore(h, AcceptStop(t, v));
    RunMore(h, AcceptGlass(t, v));
    RunMore(h, AcceptPull(t));
    StepAccepts(s, t, v);
  }

  lemma VmSees(s: Server, h: seq<Action>, v: VmId)
    requires VmsTold(s, h)
    ensures VmTold(s, h, v)
  {
  }

  lemma StepAccepts(s: Server, t: TaskId, v: VmId)
    requires t !in s.tasks
    ensures Step(s, AcceptStart(t, v)).Some? <==> !s.closing && v !in s.vms && NoneOwns(s)
    ensures Step(s, AcceptStop(t, v)).Some? <==> !s.closing && v in s.vms && s.vms[v].state != Stopping
    ensures Step(s, AcceptGlass(t, v)).Some?
       <==> && !s.closing && v in s.vms && s.vms[v].state == VmRunning && s.vms[v].active == None
            && s.vms[v].glass != Some(GlassOpen) && s.vms[v].glass != Some(GlassStarting)
    ensures Step(s, AcceptPull(t)).Some? <==> !s.closing
  {
    hide NoneOwns;
  }

  lemma RunMore(h: seq<Action>, a: Action)
    requires Run(h).Some?
    ensures Run(h + [a]) == Step(Run(h).value, a)
  {
    hide Step;
    Front(h, a);
  }

  /** A number that occurs in no event is no task. */
  lemma NotUsed(h: seq<Action>, t: TaskId)
    requires Run(h).Some? && Unused(h, t)
    ensures t !in Run(h).value.tasks
  {
    HistoryTells(h);
    var s := Run(h).value;
    if t in s.tasks {
      TaskSees(s, h, t);
      hide TasksTold, Run, Progress, PcTold, OnceTold;
      UnusedNot(h, t, AcceptPull(t));
      var v := s.tasks[t].vm;
      UnusedNot(h, t, AcceptStart(t, v));
      UnusedNot(h, t, AcceptStop(t, v));
      UnusedNot(h, t, AcceptGlass(t, v));
    }
  }

  lemma OwnersTold(s: Server, h: seq<Action>)
    requires VmsTold(s, h)
    ensures NoneOwns(s) <==> !SomeOwns(h)
  {
    hide Life;
    if SomeOwns(h) {
      var v :| Life(h, v).Some? && Life(h, v).value.owns;
      assert VmTold(s, h, v);
    }
    if !NoneOwns(s) {
      var v :| v in s.vms && s.vms[v].owns;
      assert VmTold(s, h, v);
    }
  }

  /* ------------------------------------------------------------------ */
  /* Two more things that every step keeps.                               */
  /* ------------------------------------------------------------------ */

  predicate Halter(s: Server, t: TaskId, v: VmId) {
    t in s.tasks && s.tasks[t].kind.Stop? && s.tasks[t].vm == v && !Done(s.tasks[t].pc)
  }

  /** A stop that has not ended is the only one of its VM, which is stopping. */
  ghost predicate OneStop(s: Server) {
    && (forall t, v :: Halter(s, t, v) ==> v in s.vms && s.vms[v].state == Stopping)
    && (forall t, u, v :: Halter(s, t, v) && Halter(s, u, v) ==> t == u)
  }

  /** A machine that was added stays while its boot goroutine is at work. */
  predicate BootHas(s: Server) {
    forall t :: t in s.tasks && (s.tasks[t].pc == Booting(true) || s.tasks[t].pc == Booted) ==> s.tasks[t].vm in s.machines
  }

  lemma AcceptStops(s: Server, s': Server, a: Action)
    requires OneStop(s) && BootHas(s) && Accepts(a) && Accept(s, a) == Some(s')
    ensures OneStop(s') && BootHas(s')
  {
    hide NoneOwns;
    forall t, v
      ensures t != a.t ==> (Halter(s', t, v) <==> Halter(s, t, v))
    {
    }
  }

  /** A step of a goroutine changes no VM but its own, and takes none out of the state of stopping but by ending a stop. */
  lemma WorkVm(s: Server, s': Server, a: Action)
    requires Work(s, a) == Some(s') && !Accepts(a)
    ensures s'.vms.Keys == s.vms.Keys
    ensures forall v :: v in s.vms && s.vms[v].state == Stopping && s'.vms[v].state != Stopping ==>
              a.StopFinishes? && Halter(s, a.t, v) && !Halter(s', a.t, v)
  {
    hide Work, Halter;
    if a.StopFinishes? {
      StopVm(s, s', a);
    } else {
      OtherVm(s, s', a);
    }
  }

  lemma StopVm(s: Server, s': Server, a: Action)
    requires Work(s, a) == Some(s') && a.StopFinishes?
    ensures s'.vms.Keys == s.vms.Keys
    ensures forall v :: v in s.vms && s.vms[v].state == Stopping && s'.vms[v].state != Stopping ==>
              Halter(s, a.t, v) && !Halter(s', a.t, v)
  {
    hide FinishStart, FinishGlass, PresentFrame, AtPc, FirstPc;
  }

  lemma OtherVm(s: Server, s': Server, a: Action)
    requires Work(s, a) == Some(s') && !Accepts(a) && !a.StopFinishes?
    ensures s'.vms.Keys == s.vms.Keys
    ensures forall v :: v in s.vms && s.vms[v].state == Stopping ==> s'.vms[v].state == Stopping
  {
    hide Finish, FinishStop, FirstPc;
  }

  lemma NextDone(task: Task, a: Action)
    requires Ready(task, a)
    ensures Next(task, a).kind == task.kind && Next(task, a).vm == task.vm
    ensures Done(task.pc) ==> Done(Next(task, a).pc)
  {
  }

  lemma WorkStops(s: Server, s': Server, a: Action)
    requires OneStop(s) && !Accepts(a) && Work(s, a) == Some(s')
    ensures OneStop(s')
  {
    hide Work, Next, Ready;
    WorkIs(s, s', a);
    WorkVm(s, s', a);
    NextDone(s.tasks[a.t], a);
    forall t, v
      ensures Halter(s', t, v) ==> Halter(s, t, v)
    {
    }
  }

  /** A machine goes only when a failed boot or a stop of its VM is told so by the driver. */
  lemma WorkMachines(s: Server, s': Server, a: Action)
    requires Work(s, a) == Some(s') && !Accepts(a)
    ensures forall v :: v in s.machines && v !in s'.machines ==>
              && a.t in s.tasks && s.tasks[a.t].vm == v
              && (s.tasks[a.t].pc == Halting || s.tasks[a.t].pc == CleaningUp)
    ensures a.RegisterMachine? ==> a.t in s.tasks && s.tasks[a.t].vm in s'.machines
  {
  }

  lemma NextBoots(task: Task, a: Action)
    requires Ready(task, a) && (Next(task, a).pc == Booting(true) || Next(task, a).pc == Booted)
    ensures a.RegisterMachine? || task.pc == Booting(true) || (a.StartReturns? && a.ok)
  {
  }

  lemma WorkBoots(s: Server, s': Server, a: Action)
    requires Inv(s) && BootHas(s) && !Accepts(a) && Work(s, a) == Some(s')
    ensures BootHas(s')
  {
    hide Work, Next, Ready, Inv;
    WorkIs(s, s', a);
    WorkMachines(s, s', a);
    NextDone(s.tasks[a.t], a);
    forall t | t in s'.tasks && (s'.tasks[t].pc == Booting(true) || s'.tasks[t].pc == Booted)
      ensures s'.tasks[t].vm in s'.machines
    {
      if t == a.t {
        NextBoots(s.tasks[t], a);
        if a.StartReturns? && a.ok {
          ReturnsUp(s, s', a);
        }
      } else if s.tasks[a.t].vm == s.tasks[t].vm {
        NotTakenAway(s, t, a.t);
      }
    }
  }

  lemma ReturnsUp(s: Server, s': Server, a: Action)
    requires Work(s, a) == Some(s') && a.StartReturns? && a.ok
    ensures a.t in s.tasks && s.tasks[a.t].pc == Booting(true)
  {
  }

  /** While its boot goroutine is at work, no other goroutine of a VM is about to take its machine away. */
  lemma NotTakenAway(s: Server, t: TaskId, u: TaskId)
    requires Inv(s) && t in s.tasks && u in s.tasks && t != u && s.tasks[t].vm == s.tasks[u].vm
    requires s.tasks[t].pc == Booting(true) || s.tasks[t].pc == Booted
    ensures s.tasks[u].pc != Halting && s.tasks[u].pc != CleaningUp
  {
    hide VmsOk, Alone, ShutdownsOk, StateFits;
    assert TaskOk(s.tasks[t]) && TaskOk(s.tasks[u]) && StopOk(s, u);
  }

  lemma RequestIs(s: Server, s': Server, a: Action)
    requires Shutdown(s, a) == Some(s')
    ensures s'.tasks == s.tasks && HasRequest(a)
    ensures a.ShutdownRecords? || a.ShutdownStops? ==>
              a.r in s.shutdowns && (s.shutdowns[a.r].Drained? || s.shutdowns[a.r].Draining?)
    ensures !a.ShutdownRecords? && !a.ShutdownStops? ==> s'.vms == s.vms && s'.machines == s.machines
  {
    hide AllOver, AllStopped;
  }

  lemma RequestStops(s: Server, s': Server, a: Action)
    requires Inv(s) && OneStop(s) && BootHas(s) && Shutdown(s, a) == Some(s')
    ensures OneStop(s') && BootHas(s')
  {
    hide Shutdown, Inv;
    RequestIs(s, s', a);
    assert forall t, v :: Halter(s', t, v) <==> Halter(s, t, v);
    if a.ShutdownRecords? || a.ShutdownStops? {
      AllOverThen(s, a.r);
      NobodyHalts(s);
    }
  }

  lemma AllOverThen(s: Server, r: RequestId)
    requires Inv(s) && r in s.shutdowns && (s.shutdowns[r].Drained? || s.shutdowns[r].Draining?)
    ensures AllOver(s)
  {
    hide TasksOk, Linked, VmsOk, StopsOk, Alone;
    assert ShutdownOk(s, s.shutdowns[r]);
  }

  lemma NobodyHalts(s: Server)
    requires AllOver(s)
    ensures forall t, v :: !Halter(s, t, v)
  {
  }

  lemma MonitorStops(s: Server, s': Server, a: Action)
    requires OneStop(s) && BootHas(s) && Monitor(s, a) == Some(s')
    ensures OneStop(s') && BootHas(s')
  {
    assert forall t, v :: Halter(s', t, v) <==> Halter(s, t, v);
  }

  lemma {:induction false} RunStops(h: seq<Action>)
    requires Run(h).Some?
    ensures OneStop(Run(h).value) && BootHas(Run(h).value)
  {
    hide Inv, OneStop, BootHas, Accept, Work, Shutdown, Monitor;
    if h == [] {
      StartStops();
    } else {
      var before, a := h[..|h| - 1], h[|h| - 1];
      RunStops(before);
      RunKeeps(before);
      var s, s' := Run(before).value, Run(h).value;
      if Accepts(a) {
        AcceptStops(s, s', a);
      } else if HasTask(a) {
        WorkStops(s, s', a);
        WorkBoots(s, s', a);
      } else if a.MonitorSeesExit? {
        MonitorStops(s, s', a);
      } else {
        RequestStops(s, s', a);
      }
    }
  }

  lemma StartStops()
    ensures OneStop(INITIAL) && BootHas(INITIAL)
  {
  }

  /* ------------------------------------------------------------------ */
  /* A VM that is left alone.                                             */
  /* ------------------------------------------------------------------ */

  /** A stop of `v` is accepted, or a shutdown records that everything has stopped. */
  predicate Halts(a: Action, v: VmId) {
    (a.AcceptStop? && a.v == v) || a.ShutdownRecords?
  }

  /** That, or its guest is seen to have exited, or a shutdown stops its machine. */
  predicate Disturbs(a: Action, v: VmId) {
    Halts(a, v) || (a.MonitorSeesExit? && a.v == v) || (a.ShutdownStops? && a.v == v)
  }

  predicate Same(s: Server, s': Server, v: VmId)
    requires v in s.vms
  {
    v in s'.vms && s'.vms[v].state == s.vms[v].state && s'.vms[v].owns == s.vms[v].owns && s'.vms[v].starter == s.vms[v].starter
  }

  lemma AcceptSteady(s: Server, s': Server, a: Action, v: VmId)
    requires Accepts(a) && Accept(s, a) == Some(s') && v in s.vms && !Halts(a, v)
    ensures Same(s, s', v) && (v in s'.machines <==> v in s.machines)
    ensures Settled(s, v) ==> Settled(s', v)
  {
    hide NoneOwns;
  }

  lemma RequestSteady(s: Server, s': Server, a: Action, v: VmId)
    requires Shutdown(s, a) == Some(s') && v in s.vms && !Halts(a, v)
    ensures Same(s, s', v) && (!Disturbs(a, v) ==> (v in s'.machines <==> v in s.machines))
    ensures Settled(s, v) ==> Settled(s', v)
  {
    hide AllOver, AllStopped;
  }

  /** Goroutines change the state of a VM only when its start or its stop ends. */
  lemma WorkState(s: Server, s': Server, a: Action, v: VmId)
    requires !Accepts(a) && Work(s, a) == Some(s') && v in s.vms
    ensures v in s'.vms && s'.vms[v].starter == s.vms[v].starter
    ensures Same(s, s', v)
            || (s.vms[v].state == Starting && a.StartFinishes? && a.t in s.tasks && s.tasks[a.t].kind.Start? && s.tasks[a.t].vm == v)
            || Halter(s, a.t, v)
  {
    hide Finish, FirstPc;
  }

  lemma WorkSettled(s: Server, s': Server, a: Action, v: VmId)
    requires Inv(s) && !Accepts(a) && Work(s, a) == Some(s') && v in s.vms && v in s'.vms && s'.vms[v].starter == s.vms[v].starter
    ensures Settled(s, v) ==> Settled(s', v)
    ensures Settled(s, v) && (forall t :: !Halter(s, t, v)) ==> (v in s'.machines <==> v in s.machines)
    ensures a.StartFinishes? && a.t in s.tasks && s.tasks[a.t].kind.Start? && s.tasks[a.t].vm == v ==> Settled(s', v)
  {
    hide Work, Next, Ready, Inv;
    WorkIs(s, s', a);
    NextDone(s.tasks[a.t], a);
    WorkMachines(s, s', a);
    OwnPlace(s, a.t, v);
    if a.RegisterMachine? {
      Registers(s, s', a);
    } else {
      NoneAdded(s, s', a);
    }
    if a.StartFinishes? {
      StartDone(s, a);
    }
  }

  lemma NoneAdded(s: Server, s': Server, a: Action)
    requires Work(s, a) == Some(s') && !a.RegisterMachine? && !Accepts(a)
    ensures s'.machines <= s.machines
  {
  }

  lemma Registers(s: Server, s': Server, a: Action)
    requires Work(s, a) == Some(s') && a.RegisterMachine?
    ensures a.t in s.tasks && s.tasks[a.t].pc == Booting(false) && s'.machines == s.machines + {s.tasks[a.t].vm}
  {
  }

  lemma StartDone(s: Server, a: Action)
    requires a.StartFinishes? && a.t in s.tasks
    ensures Done(Next(s.tasks[a.t], a).pc)
  {
  }

  /** Places that only the boot goroutine, or a stop that has not ended, can be at. */
  lemma OwnPlace(s: Server, t: TaskId, v: VmId)
    requires Inv(s) && t in s.tasks && v in s.vms
    ensures s.tasks[t].vm == v && (s.tasks[t].pc == CleaningUp || s.tasks[t].pc == Booting(false)) ==> !Settled(s, v)
    ensures s.tasks[t].vm == v && s.tasks[t].pc == Halting ==> Halter(s, t, v)
    ensures s.tasks[t].kind.Start? && s.tasks[t].vm == v ==> s.vms[v].starter == t
  {
    hide VmsOk, Alone, ShutdownsOk, StopsOk, StateFits;
    assert TaskOk(s.tasks[t]);
  }

  /** A VM that neither starts nor stops stays as it is while it is left alone. */
  lemma StepSteady(s: Server, s': Server, a: Action, v: VmId)
    requires Inv(s) && OneStop(s) && Step(s, a) == Some(s') && v in s.vms && !Disturbs(a, v)
    requires s.vms[v].state != Starting && s.vms[v].state != Stopping
    ensures Same(s, s', v)
    ensures Settled(s, v) ==> Settled(s', v) && (v in s'.machines <==> v in s.machines)
  {
    hide Inv, Accept, Work, Shutdown, Settled;
    assert forall t :: !Halter(s, t, v);
    if Accepts(a) {
      AcceptSteady(s, s', a, v);
    } else if a.MonitorSeesExit? {
      MonitorSteady(s, s', a, v);
    } else if HasRequest(a) {
      RequestSteady(s, s', a, v);
    } else {
      WorkState(s, s', a, v);
      WorkSettled(s, s', a, v);
    }
  }

  lemma MonitorSteady(s: Server, s': Server, a: Action, v: VmId)
    requires Monitor(s, a) == Some(s') && v in s.vms && (a.v != v || s.vms[v].state != VmRunning)
    ensures Same(s, s', v) && (v in s'.machines <==> v in s.machines) && (Settled(s, v) ==> Settled(s', v))
  {
  }

  /** A VM that starts goes on starting until its boot goroutine is through, unless it is stopped. */
  lemma StepStarting(s: Server, s': Server, a: Action, v: VmId)
    requires Inv(s) && OneStop(s) && Step(s, a) == Some(s') && v in s.vms && !Halts(a, v)
    requires (s.vms[v].state == Starting && s.vms[v].owns) || Settled(s, v)
    ensures v in s'.vms && ((s'.vms[v].state == Starting && s'.vms[v].owns) || Settled(s', v))
  {
    hide Inv, Accept, Work, Shutdown, Settled;
    if Accepts(a) {
      AcceptSteady(s, s', a, v);
    } else if a.MonitorSeesExit? {
      MonitorSettled(s, s', a, v);
    } else if HasRequest(a) {
      RequestSteady(s, s', a, v);
    } else {
      WorkState(s, s', a, v);
      WorkSettled(s, s', a, v);
      assert s.vms[v].state == Starting ==> !Halter(s, a.t, v);
    }
  }

  lemma MonitorSettled(s: Server, s': Server, a: Action, v: VmId)
    requires Monitor(s, a) == Some(s') && v in s.vms
    ensures v in s'.vms && (Settled(s, v) ==> Settled(s', v))
    ensures s.vms[v].state == Starting ==> s'.vms[v] == s.vms[v]
  {
  }

  /* ------------------------------------------------------------------ */
  /* Along a run.                                                         */
  /* ------------------------------------------------------------------ */

  lemma {:induction false} RunFront(h: seq<Action>, n: nat)
    requires Run(h).Some? && n <= |h|
    ensures Run(h[..n]).Some?
    decreases |h| - n
  {
    if n < |h| {
      RunFront(h, n + 1);
      assert h[..n + 1][..n] == h[..n];
    } else {
      assert h[..n] == h;
    }
  }

  /** One event of a run. */
  lemma RunStep(h: seq<Action>, n: nat)
    requires Run(h).Some? && n < |h|
    ensures Run(h[..n]).Some? && Run(h[..n + 1]).Some? && Step(Run(h[..n]).value, h[n]) == Run(h[..n + 1])
    ensures Inv(Run(h[..n]).value) && OneStop(Run(h[..n]).value) && BootHas(Run(h[..n]).value)
  {
    hide Step, Inv, OneStop, BootHas;
    RunFront(h, n);
    RunFront(h, n + 1);
    assert h[..n + 1][..n] == h[..n];
    RunKeeps(h[..n]);
    RunStops(h[..n]);
  }

  lemma {:induction false} Remains(h: seq<Action>, n: nat, m: nat, v: VmId)
    requires Run(h).Some? && n <= m <= |h| && Run(h[..n]).Some?
    requires var s := Run(h[..n]).value; v in s.vms && s.vms[v].state != Starting && s.vms[v].state != Stopping
    requires forall k :: n <= k < m ==> !Disturbs(h[k], v)
    ensures Run(h[..m]).Some?
    ensures var s, s' := Run(h[..n]).value, Run(h[..m]).value;
            && Same(s, s', v)
            && (Settled(s, v) ==> Settled(s', v) && (v in s'.machines <==> v in s.machines))
    decreases m
  {
    hide Run, Step, Inv, OneStop, Settled, Disturbs;
    if m > n {
      Remains(h, n, m - 1, v);
      RunStep(h, m - 1);
      StepSteady(Run(h[..m - 1]).value, Run(h[..m]).value, h[m - 1], v);
    }
  }

  /** From the request on, a VM starts until its boot goroutine is through, unless it is stopped. */
  lemma {:induction false} Starts(h: seq<Action>, i: nat, m: nat, t: TaskId, v: VmId)
    requires Run(h).Some? && i < m <= |h| && h[i] == AcceptStart(t, v)
    requires forall k :: i < k < m ==> !Halts(h[k], v)
    ensures Run(h[..m]).Some?
    ensures var s := Run(h[..m]).value; v in s.vms && ((s.vms[v].state == Starting && s.vms[v].owns) || Settled(s, v))
    decreases m
  {
    hide Run, Step, Inv, OneStop, Settled, Halts;
    RunStep(h, m - 1);
    if m == i + 1 {
      JustAccepted(Run(h[..i]).value, t, v);
    } else {
      Starts(h, i, m - 1, t, v);
      StepStarting(Run(h[..m - 1]).value, Run(h[..m]).value, h[m - 1], v);
    }
  }

  lemma JustAccepted(s: Server, t: TaskId, v: VmId)
    requires Step(s, AcceptStart(t, v)).Some?
    ensures var s' := Step(s, AcceptStart(t, v)).value; v in s'.vms && s'.vms[v].state == Starting && s'.vms[v].owns
  {
    hide NoneOwns;
  }

  /** An event of the past is in the history. */
  lemma Happened(h: seq<Action>, i: nat, n: nat)
    requires i < n <= |h|
    ensures Has(h[..n], h[i])
  {
    assert h[..n][i] == h[i];
  }

  /** The end of a start of a VM that was not stopped meanwhile. */
  lemma StartEnds(h: seq<Action>, i: nat, j: nat, t: TaskId, v: VmId, cancelled: bool)
    requires Run(h).Some? && i < j < |h| && h[i] == AcceptStart(t, v) && h[j] == StartFinishes(t, cancelled)
    requires forall k :: i < k < j ==> !Halts(h[k], v)
    ensures Run(h[..j + 1]).Some?
    ensures var s, ok := Run(h[..j + 1]).value, Has(h[..j], StartReturns(t, true));
            && v in s.vms && t in s.tasks && s.tasks[t].state == Outcome(ok, cancelled) && Settled(s, v)
            && s.vms[v].state == (if ok then VmRunning else VmFailed)
            && (s.vms[v].owns <==> ok || !Has(h[..j], CleanupReturns(t, true)))
            && (ok ==> v in s.machines) && (!ok && Has(h[..j], CleanupReturns(t, true)) ==> v !in s.machines)
  {
    hide Run, Step, Inv, OneStop, BootHas, TasksTold, VmsTold, MachinesTold, Life, Has, Progress;
    Starts(h, i, j, t, v);
    RunStep(h, j);
    Happened(h, i, j);
    var s, s' := Run(h[..j]).value, Run(h[..j + 1]).value;
    HistoryTells(h[..j]);
    EndOfStart(s, s', h[..j], t, v, cancelled);
  }

  lemma EndOfStart(s: Server, s': Server, h: seq<Action>, t: TaskId, v: VmId, cancelled: bool)
    requires Inv(s) && BootHas(s) && Told(s, h) && Step(s, StartFinishes(t, cancelled)) == Some(s')
    requires Has(h, AcceptStart(t, v)) && v in s.vms && ((s.vms[v].state == Starting && s.vms[v].owns) || Settled(s, v))
    ensures var ok := Has(h, StartReturns(t, true));
            && v in s'.vms && t in s'.tasks && s'.tasks[t].state == Outcome(ok, cancelled) && Settled(s', v)
            && s'.vms[v].state == (if ok then VmRunning else VmFailed)
            && (s'.vms[v].owns <==> ok || !Has(h, CleanupReturns(t, true)))
            && (ok ==> v in s'.machines) && (!ok && Has(h, CleanupReturns(t, true)) ==> v !in s'.machines)
  {
    hide TasksTold, VmsTold, MachinesTold, Has, Progress, Unused, Inv, BootHas, Step, TaskTold;
    StartStepIs(s, s', t, cancelled);
    TaskSees(s, h, t);
    StartHeard(s.tasks[t], t, h, v);
    StartPlace(s, t, v);
  }

  lemma StartStepIs(s: Server, s': Server, t: TaskId, cancelled: bool)
    requires Step(s, StartFinishes(t, cancelled)) == Some(s')
    ensures t in s.tasks && s.tasks[t].kind.Start? && s.tasks[t].vm in s.vms
    ensures var task, v := s.tasks[t], s.tasks[t].vm;
            && (task.pc == Booted || task.pc.BootFailed?)
            && t in s'.tasks && s'.tasks[t].state == Outcome(task.pc == Booted, cancelled) && s'.tasks[t].pc == Ending
            && v in s'.vms && s'.vms[v].starter == s.vms[v].starter && s'.machines == s.machines
            && (s.vms[v].state == Starting ==>
                  && s'.vms[v].state == (if task.pc == Booted then VmRunning else VmFailed)
                  && (s'.vms[v].owns <==> if task.pc == Booted then s.vms[v].owns else task.pc != BootFailed(true)))
  {
  }

  lemma StartHeard(task: Task, t: TaskId, h: seq<Action>, v: VmId)
    requires TaskTold(task, t, h) && Has(h, AcceptStart(t, v)) && (task.pc == Booted || task.pc.BootFailed?)
    ensures task.vm == v && (task.pc == Booted <==> Has(h, StartReturns(t, true)))
    ensures task.pc.BootFailed? ==> (task.pc.released <==> Has(h, CleanupReturns(t, true)))
  {
    hide Has, Progress;
  }

  lemma StartPlace(s: Server, t: TaskId, v: VmId)
    requires Inv(s) && BootHas(s) && t in s.tasks && s.tasks[t].kind.Start? && s.tasks[t].vm == v && v in s.vms
    ensures s.vms[v].starter == t && (!Done(s.tasks[t].pc) ==> !Settled(s, v))
    ensures s.tasks[t].pc == Booted ==> v in s.machines
    ensures s.tasks[t].pc == BootFailed(true) ==> v !in s.machines
  {
    hide TasksOk, StopsOk, Alone, ShutdownsOk;
    assert VmOk(s, v);
  }

  /**
   A start that was not stopped meanwhile: if the driver booted the machine, the VM runs, owns its
   resources and has its machine in the table, for as long as nobody stops it, its guest is not seen
   to exit and no shutdown stops it. If the boot failed, the VM has failed, and owns its resources
   exactly when they could not be released.
   */
  lemma StartOutcome(h: seq<Action>, i: nat, j: nat, t: TaskId, v: VmId, cancelled: bool)
    requires Run(h).Some? && i < j < |h| && h[i] == AcceptStart(t, v) && h[j] == StartFinishes(t, cancelled)
    requires forall k :: i < k < j ==> !Halts(h[k], v)
    requires forall k :: j < k < |h| ==> !Disturbs(h[k], v)
    ensures var s, ok := Run(h).value, StartReturns(t, true) in h[..j];
            && v in s.vms && s.vms[v].state == (if ok then VmRunning else VmFailed)
            && (s.vms[v].owns <==> ok || CleanupReturns(t, true) !in h[..j])
            && (ok ==> v in s.machines) && (!ok && CleanupReturns(t, true) in h[..j] ==> v !in s.machines)
  {
    hide Run, Settled;
    StartEnds(h, i, j, t, v, cancelled);
    Remains(h, j + 1, |h|, v);
    assert h[..|h|] == h;
  }

  /** The end of a stop. */
  lemma EndOfStop(s: Server, s': Server, h: seq<Action>, t: TaskId, v: VmId, cancelled: bool)
    requires Inv(s) && OneStop(s) && Told(s, h) && Step(s, StopFinishes(t, cancelled)) == Some(s') && Has(h, AcceptStop(t, v))
    ensures var ok := Has(h, StopReturns(t, true));
            && v in s'.vms && t in s'.tasks && s'.tasks[t].state == Outcome(ok, cancelled)
            && s'.vms[v].state == (if ok then Stopped else VmFailed) && (s'.vms[v].owns <==> !ok)
            && (ok ==> v !in s'.machines && Settled(s', v))
  {
    hide TasksTold, VmsTold, MachinesTold, Has, Progress, Unused, Inv, OneStop, Step, TaskTold;
    StopStepIs(s, s', t, cancelled);
    TaskSees(s, h, t);
    StopHeard(s.tasks[t], t, h, v);
    if s.tasks[t].pc == Halted(true) {
      StopPlace(s, t);
    }
  }

  lemma StopStepIs(s: Server, s': Server, t: TaskId, cancelled: bool)
    requires Step(s, StopFinishes(t, cancelled)) == Some(s')
    ensures t in s.tasks && s.tasks[t].kind.Stop? && s.tasks[t].vm in s.vms && s.tasks[t].pc.Halted?
    ensures var v, ok := s.tasks[t].vm, s.tasks[t].pc.stopped;
            && t in s'.tasks && s'.tasks[t].state == Outcome(ok, cancelled) && s'.tasks == s.tasks[t := s'.tasks[t]]
            && v in s'.vms && s'.vms[v].starter == s.vms[v].starter && s'.machines == s.machines
            && s'.vms[v].state == (if ok then Stopped else VmFailed) && (s'.vms[v].owns <==> !ok)
  {
  }

  lemma StopHeard(task: Task, t: TaskId, h: seq<Action>, v: VmId)
    requires TaskTold(task, t, h) && Has(h, AcceptStop(t, v)) && task.pc.Halted?
    ensures task.vm == v && (task.pc.stopped <==> Has(h, StopReturns(t, true)))
  {
    hide Has, Progress;
  }

  lemma StopPlace(s: Server, t: TaskId)
    requires Inv(s) && t in s.tasks && s.tasks[t].kind.Stop? && s.tasks[t].pc == Halted(true)
    ensures s.tasks[t].vm in s.vms && Settled(s, s.tasks[t].vm) && s.tasks[t].vm !in s.machines
    ensures s.vms[s.tasks[t].vm].starter != t
  {
    hide TasksOk, VmsOk, Alone, ShutdownsOk;
    assert StopOk(s, t);
  }

  /**
   A stop that has ended: if the driver stopped the machine, the VM is stopped, owns nothing and has
   no machine; otherwise it has failed and still owns its resources. It stays like that until another
   stop is accepted or a shutdown records that everything has stopped.
   */
  lemma StopOutcome(h: seq<Action>, j: nat, t: TaskId, v: VmId, cancelled: bool)
    requires Run(h).Some? && j < |h| && h[j] == StopFinishes(t, cancelled) && AcceptStop(t, v) in h[..j]
    requires forall k :: j < k < |h| ==> !Disturbs(h[k], v)
    ensures var s, ok := Run(h).value, StopReturns(t, true) in h[..j];
            && v in s.vms && s.vms[v].state == (if ok then Stopped else VmFailed) && (s.vms[v].owns <==> !ok)
            && (ok ==> v !in s.machines)
  {
    hide Run, Step, Inv, OneStop, BootHas, TasksTold, VmsTold, MachinesTold, Settled;
    RunStep(h, j);
    HistoryTells(h[..j]);
    EndOfStop(Run(h[..j]).value, Run(h[..j + 1]).value, h[..j], t, v, cancelled);
    Remains(h, j + 1, |h|, v);
    assert h[..|h|] == h;
  }
}
