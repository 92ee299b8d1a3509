/** Where in the log a parameter update takes effect. */
module ParameterUpdates {
  import opened Wrappers
  import opened Policies
  import opened ServerModel
  import opened ServerInvariants

  /** How origin `o` of log index `j` relates to update `m` of the same controller: older parameters
      below the returned index, newer ones above it, and at the index itself the older ones exactly
      when an update call was in flight. */
  ghost predicate Placed(m: Update, o: Origin, j: int) {
    o.FromCustom? && o.id == m.id ==>
      && (j < m.start ==> o.version <= m.version)
      && (j > m.start ==> o.version > m.version)
      && (j == m.start ==> (o.version <= m.version <==> m.inFlight))
      && (o.version == m.version ==> o.params == m.before)
      && (o.version == m.version + 1 ==> o.params == m.after)
  }

  ghost predicate UpdateBounds(s: State, m: Update) {
    && m.id < |s.episodes| && m.start <= |s.log|
    && m.after == Updated(m.before, m.dict).0
    && (m.version == 0 && m.id < |s.loaded| ==> m.before == s.loaded[m.id].params)
    && (m.id == |s.episodes| - 1 && s.custom.Some? ==>
          && m.version < s.version && (m.version + 1 == s.version ==> s.custom.value.params == m.after))
    && (m.start == |s.log| && m.inFlight ==>
          && s.pc.Computed? && s.pc.entry.origin.FromCustom? && s.pc.entry.origin.id == m.id)
  }

  ghost predicate VersionRight(s: State, o: Origin) {
    && (o.FromCustom? ==> o.id < |s.episodes|)
    && (o.FromCustom? && o.version == 0 && o.id < |s.loaded| ==> o.params == s.loaded[o.id].params)
    && (IsCurrent(s, o) && s.custom.Some? ==>
          o.version <= s.version && (o.version == s.version ==> o.params == s.custom.value.params))
  }

  /** A controller starts with its loaded parameters, and every update starts where the one before it ended. */
  ghost predicate Chained(s: State) {
    && (s.version == 0 && s.custom.Some? && |s.loaded| > 0 ==> s.custom.value.params == s.loaded[|s.loaded| - 1].params)
    && (forall i, k :: 0 <= i < |s.updates| && 0 <= k < |s.updates| ==> Follows(s.updates[i], s.updates[k]))
  }

  ghost predicate Follows(m: Update, n: Update) {
    m.id == n.id && n.version == m.version + 1 ==> n.before == m.after
  }

  ghost predicate Versioned(s: State) {
    && Chained(s)
    && (forall i :: 0 <= i < |s.updates| ==> UpdateBounds(s, s.updates[i]))
    && (forall j :: 0 <= j < |s.log| ==> VersionRight(s, s.log[j].origin))
    && (s.pc.Computed? ==> VersionRight(s, s.pc.entry.origin))
    && (forall i, j :: 0 <= i < |s.updates| && 0 <= j < |s.log| ==> Placed(s.updates[i], s.log[j].origin, j))
    && (s.pc.Computed? ==> forall i :: 0 <= i < |s.updates| ==> Placed(s.updates[i], s.pc.entry.origin, |s.log|))
  }

  lemma VersionedKept(s: State, e: Event)
    requires Shape(s) && Versioned(s) && Enabled(s, e)
    ensures Versioned(Next(s, e))
  {
    match e {
      case Section(state, o) => VersionedSection(s, state, o);
      case Append => VersionedAppend(s);
      case Install(policy, warmUp) => VersionedInstall(s, policy, warmUp);
      case ApplyUpdate => VersionedApplied(s);
      case Enter(_) => VersionedClient(s, e);
      case Tail(_) => VersionedClient(s, e);
      case _ => VersionedQuery(s, e);
    }
  }

  lemma VersionedSection(s: State, state: RobotState, o: Outcome)
    requires Shape(s) && Versioned(s) && s.pc.Entered?
    ensures Versioned(Computing(Marked(s), state, o))
  {
    ShapeMarked(s);
    VersionedMarked(s);
    VersionedComputing(Marked(s), state, o);
  }

  lemma VersionedInstall(s: State, policy: Policy, warmUp: seq<Outcome>)
    requires Shape(s) && Versioned(s) && Enabled(s, Install(policy, warmUp))
    ensures Versioned(Next(s, Install(policy, warmUp)))
  {
    if ForwardAll(policy, warmUp).Some? {
      VersionedInstalled(s, policy);
    } else {
      VersionedService(s, Respond(s, SetFailed));
    }
  }

  lemma VersionedClient(s: State, e: Event)
    requires Versioned(s) && Enabled(s, e) && (e.Enter? || e.Tail?)
    ensures Versioned(Next(s, e))
  {
    ClientStepFrame(s, e);
    if e.Enter? {
      VersionedEnter(s, Next(s, e));
    } else {
      VersionedTail(s, Next(s, e));
    }
  }

  lemma VersionedQuery(s: State, e: Event)
    requires Versioned(s) && Enabled(s, e) && IsServiceStep(e)
    ensures Versioned(Next(s, e))
  {
    ServiceStepFrame(s, e);
    VersionedService(s, Next(s, e));
  }

  lemma VersionedEnter(s: State, n: State)
    requires Versioned(s) && EnterFrame(s, n)
    ensures Versioned(n)
  {
  }

  lemma VersionedTail(s: State, n: State)
    requires Versioned(s) && TailFrame(s, n)
    ensures Versioned(n)
  {
  }

  lemma VersionedService(s: State, n: State)
    requires Versioned(s) && ServiceFrame(s, n)
    ensures Versioned(n)
  {
  }

  lemma VersionedMarked(s: State)
    requires Shape(s) && Versioned(s) && s.pc.Entered?
    ensures Versioned(Marked(s))
  {
    forall i | 0 <= i < |s.updates| ensures UpdateBounds(Marked(s), s.updates[i]) {
      assert UpdateBounds(s, s.updates[i]);
    }
    forall j | 0 <= j < |s.log| ensures VersionRight(Marked(s), s.log[j].origin) {
      assert VersionRight(s, s.log[j].origin);
    }
  }

  lemma VersionedComputing(s: State, state: RobotState, o: Outcome)
    requires Shape(s) && Versioned(s) && s.pc.Entered?
    ensures Versioned(Computing(s, state, o))
  {
    if s.status.Running? && s.custom.Some? {
      VersionedCustom(s, state, o);
    } else {
      VersionedDefault(s, state, o);
    }
  }

  lemma VersionedCustom(s: State, state: RobotState, o: Outcome)
    requires Shape(s) && Versioned(s) && s.pc.Entered? && s.status.Running? && s.custom.Some?
    ensures Versioned(AskCustom(s, state, o))
  {
    var next := AskCustom(s, state, o);
    forall i | 0 <= i < |s.updates|
      ensures UpdateBounds(next, s.updates[i])
      ensures next.pc.Computed? ==> Placed(s.updates[i], next.pc.entry.origin, |s.log|)
    {
      assert UpdateBounds(s, s.updates[i]);
    }
    forall j | 0 <= j < |s.log| ensures VersionRight(next, s.log[j].origin) {
      assert VersionRight(s, s.log[j].origin);
    }
  }

  lemma VersionedDefault(s: State, state: RobotState, o: Outcome)
    requires Versioned(s) && s.pc.Entered?
    ensures Versioned(AskDefault(s, state, o))
  {
    var next := AskDefault(s, state, o);
    forall i | 0 <= i < |s.updates| ensures UpdateBounds(next, s.updates[i]) {
      assert UpdateBounds(s, s.updates[i]);
    }
    forall j | 0 <= j < |s.log| ensures VersionRight(next, s.log[j].origin) {
      assert VersionRight(s, s.log[j].origin);
    }
  }

  lemma VersionedAppend(s: State)
    requires Versioned(s) && Enabled(s, Append)
    ensures Versioned(Next(s, Append))
  {
    var next := Next(s, Append);
    forall i | 0 <= i < |s.updates| ensures UpdateBounds(next, s.updates[i]) {
      assert UpdateBounds(s, s.updates[i]);
    }
    forall j | 0 <= j < |next.log| ensures VersionRight(next, next.log[j].origin) {
      if j < |s.log| {
        assert VersionRight(s, s.log[j].origin);
      }
    }
  }

  lemma VersionedInstalled(s: State, policy: Policy)
    requires Shape(s) && Versioned(s)
    ensures Versioned(Installed(s, policy))
  {
    var next := Installed(s, policy);
    forall i | 0 <= i < |s.updates| ensures UpdateBounds(next, s.updates[i]) {
      assert UpdateBounds(s, s.updates[i]);
    }
    forall j | 0 <= j < |s.log| ensures VersionRight(next, s.log[j].origin) {
      assert VersionRight(s, s.log[j].origin);
    }
  }

  lemma VersionedApplied(s: State)
    requires Shape(s) && Versioned(s) && s.service.Updating? && s.custom.Some?
    ensures Versioned(Applied(s))
  {
    var next := Applied(s);
    var m := next.updates[|s.updates|];
    forall i | 0 <= i < |next.updates| ensures UpdateBounds(next, next.updates[i]) {
      if i < |s.updates| {
        assert UpdateBounds(s, s.updates[i]);
      }
    }
    forall j | 0 <= j < |s.log| ensures VersionRight(next, s.log[j].origin) && Placed(m, s.log[j].origin, j) {
      assert VersionRight(s, s.log[j].origin);
    }
    forall i | 0 <= i < |s.updates| ensures Follows(s.updates[i], m) && Follows(m, s.updates[i]) {
      assert UpdateBounds(s, s.updates[i]);
    }
  }

  /** If a controller was updated once, its entries below the returned index used the parameters before
      the update and those above it the parameters after; at the index itself the old ones exactly when
      an update call was between its section and its append. */
  lemma UpdateTakesEffectAtStart(s: State, i: nat, j: nat)
    requires Versioned(s) && i < |s.updates| && j < |s.log|
    requires s.log[j].origin.FromCustom? && s.log[j].origin.id == s.updates[i].id
    requires s.updates[i].version == 0 && s.log[j].origin.version <= 1
    ensures var m := s.updates[i];
            s.log[j].origin.params == if j < m.start || (j == m.start && m.inFlight) then m.before else m.after
  {
    assert Placed(s.updates[i], s.log[j].origin, j);
  }
}
