/** The hold controller never resumes with a setpoint latched before a custom controller ran. */
module HandOver {
  import opened Wrappers
  import opened Policies
  import opened ServerModel
  import opened ServerInvariants

  ghost predicate NoCustom(seen: seq<Seen>, lo: nat, hi: nat) {
    forall t :: lo <= t < hi && t < |seen| ==> !seen[t].custom
  }

  /** A call that raised before it changed anything. */
  predicate Vain(x: Seen) {
    x.outcome.Raises? && !x.outcome.late
  }

  /** All sections from `lo` below `hi` asked the default controller in vain. */
  ghost predicate AllVain(seen: seq<Seen>, lo: nat, hi: nat) {
    forall t :: lo <= t < hi && t < |seen| ==> !seen[t].custom && Vain(seen[t])
  }

  /** An entry records the state its section saw and the torque computed there; a hold torque was computed from the
      setpoint observed by `latch`, the first section after the last release that did not ask in vain, and no custom
      controller was asked from that section on. */
  ghost predicate EntryRight(seen: seq<Seen>, e: Entry) {
    && e.tick < |seen| && seen[e.tick].state == e.state && seen[e.tick].outcome.Computes?
    && e.torque == seen[e.tick].outcome.tau
    && (e.origin.FromCustom? <==> seen[e.tick].custom)
    && (e.origin.FromDefault? ==>
          && e.origin.release <= e.origin.latch <= e.tick && seen[e.origin.latch].state.q == e.origin.setpoint
          && AllVain(seen, e.origin.release, e.origin.latch) && !Vain(seen[e.origin.latch])
          && NoCustom(seen, e.origin.latch, e.tick + 1))
  }

  ghost predicate HoldRight(s: State) {
    s.status.Uninitialized? || s.status.Terminated? ==>
      && s.release <= |s.seen|
      && (s.hold.running ==>
            && s.release <= s.latch < |s.seen| && s.seen[s.latch].state.q == s.hold.setpoint
            && AllVain(s.seen, s.release, s.latch) && !Vain(s.seen[s.latch])
            && NoCustom(s.seen, s.latch, |s.seen|))
      && (!s.hold.running ==> AllVain(s.seen, s.release, |s.seen|))
  }

  ghost predicate HandedOver(s: State) {
    && HoldRight(s)
    && (forall j :: 0 <= j < |s.log| ==> EntryRight(s.seen, s.log[j]))
    && (forall i, j :: 0 <= i < j < |s.log| ==> s.log[i].tick < s.log[j].tick)
    && (s.pc.Computed? ==>
          && EntryRight(s.seen, s.pc.entry)
          && forall j :: 0 <= j < |s.log| ==> s.log[j].tick < s.pc.entry.tick)
  }

  lemma HandedOverKept(s: State, e: Event)
    requires Shape(s) && HandedOver(s) && Enabled(s, e)
    ensures HandedOver(Next(s, e))
  {
    match e {
      case Section(state, o) =>
        ShapeMarked(s);
        HandedOverComputing(Marked(s), state, o);
      case Append =>
      case Enter(_) => ClientStepFrame(s, e); HandedOverEnter(s, Next(s, e));
      case Tail(_) => ClientStepFrame(s, e); HandedOverTail(s, Next(s, e));
      case Install(_, _) => HandedOverInstall(s, e);
      case ApplyUpdate =>
      case _ => ServiceStepFrame(s, e); HandedOverService(s, Next(s, e));
    }
  }

  lemma HandedOverEnter(s: State, n: State)
    requires HandedOver(s) && EnterFrame(s, n)
    ensures HandedOver(n)
  {
  }

  lemma HandedOverTail(s: State, n: State)
    requires HandedOver(s) && TailFrame(s, n)
    ensures HandedOver(n)
  {
  }

  lemma HandedOverInstall(s: State, e: Event)
    requires HandedOver(s) && Enabled(s, e) && e.Install?
    ensures HandedOver(Next(s, e))
  {
  }

  lemma HandedOverService(s: State, n: State)
    requires HandedOver(s) && ServiceFrame(s, n)
    ensures HandedOver(n)
  {
  }

  lemma HandedOverComputing(s: State, state: RobotState, o: Outcome)
    requires HandedOver(s) && s.pc.Entered? && !s.status.Ready? && !s.status.Terminating?
    requires s.status.Running? ==> s.custom.Some?
    ensures HandedOver(Computing(s, state, o))
  {
    if s.status.Running? {
      HandedOverCustom(s, state, o);
    } else {
      HandedOverDefault(s, state, o);
    }
  }

  /** One more section leaves the entries right. */
  lemma EntryStays(seen: seq<Seen>, more: Seen, e: Entry)
    requires EntryRight(seen, e)
    ensures EntryRight(seen + [more], e)
  {
  }

  lemma EntriesStay(seen: seq<Seen>, more: Seen, log: seq<Entry>)
    requires forall j :: 0 <= j < |log| ==> EntryRight(seen, log[j])
    ensures forall j :: 0 <= j < |log| ==> EntryRight(seen + [more], log[j]) && log[j].tick < |seen|
  {
    forall j | 0 <= j < |log| ensures EntryRight(seen + [more], log[j]) && log[j].tick < |seen| {
      EntryStays(seen, more, log[j]);
    }
  }

  lemma HandedOverCustom(s: State, state: RobotState, o: Outcome)
    requires HandedOver(s) && s.pc.Entered? && s.status.Running? && s.custom.Some?
    ensures HandedOver(AskCustom(s, state, o))
  {
    EntriesStay(s.seen, Seen(state, true, o), s.log);
  }

  lemma HandedOverDefault(s: State, state: RobotState, o: Outcome)
    requires HandedOver(s) && s.pc.Entered? && (s.status.Uninitialized? || s.status.Terminated?)
    ensures HandedOver(AskDefault(s, state, o))
  {
    EntriesStay(s.seen, Seen(state, false, o), s.log);
  }

  /** The hold controller's torque right after a custom controller was asked uses the position of that
      very update. */
  lemma ResumesAtCurrentPosition(s: State, j: nat)
    requires HandedOver(s) && j < |s.log| && s.log[j].origin.FromDefault?
    requires s.log[j].tick > 0 && s.seen[s.log[j].tick - 1].custom
    ensures s.log[j].origin.setpoint == s.log[j].state.q
  {
    assert EntryRight(s.seen, s.log[j]);
  }
}
