/** The interrupt line over whole runs of the NVMe controller. */
module NvmeLine {
  import opened NvmeIo
  import opened NvmeProtocol

  /** The line is high exactly when mask bit 0 is clear and an interrupt-enabled queue has pending completions. */
  predicate Follows(s: System) { s.line == Wanted(s) }

  /** A disabled controller has no queues and a low line. */
  predicate Kept(s: System) {
    ValidPage(s.dev.page) && (!Enabled(s.regs.cc) ==> s.queues == map[] && !s.line)
  }

  /** Some queue other than the admin queue asks for an interrupt. */
  predicate WantedByOthers(s: System) {
    !Masked(s.regs.intMask) && exists k :: k in s.queues && k != ADMIN_QUEUE && Raises(s.queues[k])
  }

  /**
   A write to CC with EN set replaces the admin queue without updating the line; this disturbs
   the line when it depended on completions pending there.
   */
  predicate Disturbs(s: System, e: Event) {
    e.Register? && e.offset == REG_CC && Enabled(e.value) && s.line != WantedByOthers(s)
  }

  lemma NewAdminQueue(s: System, value: bv32)
    requires Enabled(value)
    ensures Wanted(WriteCC(s, value)) == WantedByOthers(s)
  {
    hide Masked, Mps, PageSize;
    var t := WriteCC(s, value);
    assert !Raises(t.queues[ADMIN_QUEUE]);
    assert forall k :: k in s.queues ==> k in t.queues;
    assert forall k :: k in t.queues && k != ADMIN_QUEUE ==> k in s.queues && t.queues[k] == s.queues[k];
  }

  lemma StepKept(s: System, e: Event)
    requires Kept(s) && React(s, e).Finished?
    ensures Kept(React(s, e).value)
  {
    hide Process, PageSize, Enabled, MaskSet, MaskCleared, Mps, AdminQueue, AsUint32;
  }

  /** One event that returns leaves the line right exactly when it does not disturb it. */
  lemma StepFollowsIff(s: System, e: Event)
    requires Kept(s) && Follows(s) && React(s, e).Finished?
    ensures Follows(React(s, e).value) <==> !Disturbs(s, e)
  {
    hide Process, PageSize, Mps, AdminQueue, AsUint32, MaskSet, MaskCleared;
    if e.Register? && e.offset == REG_CC {
      CcFollowsIff(s, e);
    }
  }

  lemma CcFollowsIff(s: System, e: Event)
    requires Kept(s) && Follows(s) && e.Register? && e.offset == REG_CC
    ensures Follows(React(s, e).value) <==> !Disturbs(s, e)
  {
    hide PageSize, Mps, AdminQueue, Masked, Enabled;
    if Enabled(e.value) {
      NewAdminQueue(s, e.value);
    }
  }

  predicate Undisturbed(s: System, events: seq<Event>)
    requires ValidPage(s.dev.page)
    decreases |events|
  {
    events == [] ||
    (!Disturbs(s, events[0])
     && (React(s, events[0]).Finished? ==> Undisturbed(React(s, events[0]).value, events[1..])))
  }

  lemma {:induction false} RunFollowsFrom(s: System, events: seq<Event>)
    requires Kept(s) && Follows(s) && After(s, events).Finished? && Undisturbed(s, events)
    ensures Kept(After(s, events).value) && Follows(After(s, events).value)
    decreases |events|
  {
    hide React, Disturbs, Follows;
    if events != [] {
      StepKept(s, events[0]);
      StepFollowsIff(s, events[0]);
      RunFollowsFrom(React(s, events[0]).value, events[1..]);
    }
  }

  /**
   In every run of stores and register writes that return, in which no write sets EN again while
   the line depends on the old admin queue, the line follows the pending completions.
   */
  lemma RunFollows(dev: Device, events: seq<Event>)
    requires ValidPage(dev.page) && After(Started(dev), events).Finished? && Undisturbed(Started(dev), events)
    ensures var s := After(Started(dev), events).value;
            s.line <==> s.regs.intMask & 1 == 0 && exists k :: k in s.queues && s.queues[k].interrupts && s.queues[k].ring.cqPending != 0
  {
    RunFollowsFrom(Started(dev), events);
    hide After, Undisturbed;
    LineMeans(After(Started(dev), events).value);
  }

  lemma LineMeans(s: System)
    ensures Wanted(s)
       <==> s.regs.intMask & 1 == 0 && exists k :: k in s.queues && s.queues[k].interrupts && s.queues[k].ring.cqPending != 0
  {
    if exists k :: k in s.queues && s.queues[k].interrupts && s.queues[k].ring.cqPending != 0 {
      var k :| k in s.queues && s.queues[k].interrupts && s.queues[k].ring.cqPending != 0;
      assert Raises(s.queues[k]);
    }
    if exists k :: k in s.queues && Raises(s.queues[k]) {
      var k :| k in s.queues && Raises(s.queues[k]);
    }
  }

  /** Without a second EN nothing disturbs the line. */
  lemma FirstEnable(s: System, e: Event)
    requires Kept(s) && Disturbs(s, e)
    ensures Enabled(s.regs.cc)
  {
    hide Masked, Enabled;
  }

  /** Whatever disturbed it, a mask write or a doorbell of an existing queue puts the line right. */
  lemma LineComesBack(s: System, e: Event)
    requires ValidPage(s.dev.page) && e.Register? && React(s, e).Finished?
    requires e.offset == REG_INTMS || e.offset == REG_INTMC
             || (e.offset >= DOORBELL_BASE && Low16((e.offset - DOORBELL_BASE) / 4 / 2) in s.queues)
    ensures Follows(React(s, e).value)
  {
    hide Process, PageSize, Mps, AdminQueue, AsUint32, MaskSet, MaskCleared;
  }
}
