/** The path of a gripper command from the user through the server's one-command cache to the polling client, as a
    step system (polymetis/python/polymetis/robot_servers/gripper_server.py and
    polymetis/src/clients/franka_panda_client/franka_hand_client.cpp). */
module GripperRelay {

  /** A command; `nanos` is the sub-second part of its time stamp, the only part the client compares. */
  datatype Command = Command(
    seconds: int, nanos: int, grasp: bool, width: real, speed: real, force: real, epsInner: real, epsOuter: real)

  /** The server's cache before the first command. */
  const EMPTY: Command := Command(0, 0, false, 0.0, 0.0, 0.0, 0.0, 0.0)

  datatype Event =
    | Issue(c: Command) // Goto on the server
    | Poll              // one turn of the client's loop
    | Begin             // a launched thread sets is_moving and takes its command
    | Finish            // a thread is done and clears is_moving

  /** `cmd`, `prev` and `moving` are the client's fields, `spawned` and `running` count its threads; `issued` and
      `executed` record the commands, `picked` which of the issued ones the executed ones are. */
  datatype State = State(
    cache: Command, cmd: Command, prev: int, moving: bool, spawned: nat, running: nat,
    issued: seq<Command>, cmdIndex: int, picked: seq<int>, executed: seq<Command>)

  function Init(prev: int): State {
    State(EMPTY, EMPTY, prev, false, 0, 0, [], -1, [], [])
  }

  predicate Enabled(s: State, e: Event) {
    match e
    case Begin => s.spawned > 0
    case Finish => s.running > 0
    case _ => true
  }

  predicate Launches(s: State) {
    !s.moving && s.cache.nanos != s.prev && s.cache.nanos != 0
  }

  function Next(s: State, e: Event): State
    requires Enabled(s, e)
  {
    match e
    case Issue(c) => s.(cache := c, issued := s.issued + [c])
    case Poll =>
      var t := s.(cmd := s.cache, cmdIndex := |s.issued| - 1);
      if Launches(s) then t.(spawned := s.spawned + 1, prev := s.cache.nanos) else t
    case Begin => s.(spawned := s.spawned - 1, running := s.running + 1, moving := true,
        picked := s.picked + [s.cmdIndex], executed := s.executed + [s.cmd])
    case Finish => s.(running := s.running - 1, moving := false)
  }

  predicate IsRun(prev: int, es: seq<Event>)
    decreases |es|, 0
  {
    if es == [] then true
    else
      var n := |es| - 1;
      IsRun(prev, es[..n]) && Enabled(Exec(prev, es[..n]), es[n])
  }

  function Exec(prev: int, es: seq<Event>): State
    requires IsRun(prev, es)
    decreases |es|, 1
  {
    if es == [] then Init(prev)
    else
      var n := |es| - 1;
      Next(Exec(prev, es[..n]), es[n])
  }

  /** Launching a thread, taking its command and setting is_moving happen at once. */
  ghost predicate Atomic(prev: int, es: seq<Event>)
    requires IsRun(prev, es)
  {
    es == [] || (
      var n := |es| - 1;
      Atomic(prev, es[..n]) && (Exec(prev, es[..n]).spawned > 0 ==> es[n].Begin?))
  }

  /** Stamps that tell the commands apart from each other and from the client's initial values. */
  predicate Distinct(prev: int, issued: seq<Command>) {
    && (forall i :: 0 <= i < |issued| ==> issued[i].nanos != 0 && issued[i].nanos != prev)
    && (forall i, j :: 0 <= i < j < |issued| ==> issued[i].nanos != issued[j].nanos)
  }

  // ----- Invariant -----

  predicate Increasing(picked: seq<int>, bound: int) {
    && (forall j :: 0 <= j < |picked| ==> 0 <= picked[j] < bound)
    && (forall j, k :: 0 <= j < k < |picked| ==> picked[j] < picked[k])
  }

  /** What ran is what was picked. */
  predicate Executed(s: State) {
    && |s.executed| == |s.picked|
    && forall j :: 0 <= j < |s.picked| ==> 0 <= s.picked[j] < |s.issued| && s.executed[j] == s.issued[s.picked[j]]
  }

  /** Index of the command launched last: pending or picked last; -1 if there is none. */
  function LastLaunched(s: State): int {
    if s.spawned > 0 then s.cmdIndex else if s.picked == [] then -1 else s.picked[|s.picked| - 1]
  }

  ghost predicate Inv(s: State, prev: int) {
    && s.cache == (if s.issued == [] then EMPTY else s.issued[|s.issued| - 1])
    && s.spawned + s.running <= 1 && (s.moving <==> s.running == 1)
    && Increasing(s.picked, |s.issued|) && Executed(s)
    && -1 <= s.cmdIndex < |s.issued| && s.cmd == (if s.cmdIndex == -1 then EMPTY else s.issued[s.cmdIndex])
    && (s.spawned > 0 ==>
          0 <= s.cmdIndex < |s.issued| && forall j :: 0 <= j < |s.picked| ==> s.picked[j] < s.cmdIndex)
    && -1 <= LastLaunched(s) < |s.issued|
    && s.prev == if LastLaunched(s) == -1 then prev else s.issued[LastLaunched(s)].nanos
  }

  lemma PollKeepsInv(s: State, prev: int)
    requires Inv(s, prev) && Distinct(prev, s.issued) && s.spawned == 0
    ensures Inv(Next(s, Poll), prev)
    ensures Launches(s) <==> !s.moving && LastLaunched(s) != |s.issued| - 1
    ensures !s.moving ==> LastLaunched(Next(s, Poll)) == |s.issued| - 1
  {
    var last := LastLaunched(s);
    if s.issued != [] && last != |s.issued| - 1 && last != -1 {
      assert s.issued[last].nanos != s.issued[|s.issued| - 1].nanos;
    }
  }

  lemma IssueKeepsInv(s: State, prev: int, c: Command)
    requires Inv(s, prev)
    ensures Inv(Next(s, Issue(c)), prev)
  {
  }

  lemma BeginKeepsInv(s: State, prev: int)
    requires Inv(s, prev) && s.spawned > 0
    ensures Inv(Next(s, Begin), prev)
  {
  }

  lemma FinishKeepsInv(s: State, prev: int)
    requires Inv(s, prev) && s.running > 0
    ensures Inv(Next(s, Finish), prev)
  {
  }

  lemma {:induction false} InvHolds(prev: int, es: seq<Event>)
    requires IsRun(prev, es) && Atomic(prev, es) && Distinct(prev, Exec(prev, es).issued)
    ensures Inv(Exec(prev, es), prev)
  {
    if es == [] {
    } else {
      var n := |es| - 1;
      var s, e := Exec(prev, es[..n]), es[n];
      assert Exec(prev, es) == Next(s, e);
      IssuedGrows(s, e, prev);
      InvHolds(prev, es[..n]);
      match e
      case Issue(c) => IssueKeepsInv(s, prev, c);
      case Poll => PollKeepsInv(s, prev);
      case Begin => BeginKeepsInv(s, prev);
      case Finish => FinishKeepsInv(s, prev);
    }
  }

  lemma IssuedGrows(s: State, e: Event, prev: int)
    requires Enabled(s, e)
    ensures s.issued <= Next(s, e).issued
    ensures Distinct(prev, Next(s, e).issued) ==> Distinct(prev, s.issued)
  {
    var issued := Next(s, e).issued;
    assert forall i :: 0 <= i < |s.issued| ==> s.issued[i] == issued[i];
  }

  /** The commands executed are issued ones, in the order of issue and none twice; at most one runs at a time, and
      none begins while another runs. */
  lemma OnceInOrder(prev: int, es: seq<Event>)
    requires IsRun(prev, es) && Atomic(prev, es) && Distinct(prev, Exec(prev, es).issued)
    ensures var s := Exec(prev, es);
            Increasing(s.picked, |s.issued|) && Executed(s) && s.running <= 1 && (s.spawned > 0 ==> s.running == 0)
  {
    InvHolds(prev, es);
  }

  // ----- Which commands are executed -----

  /** Turn `k` of the run polls with no thread about. */
  predicate IdlePoll(prev: int, es: seq<Event>, k: nat)
    requires IsRun(prev, es) && k < |es|
  {
    Prefix(prev, es, k);
    es[k].Poll? && !Exec(prev, es[..k]).moving
  }

  lemma {:induction false} Prefix(prev: int, es: seq<Event>, k: nat)
    requires IsRun(prev, es) && k <= |es|
    ensures IsRun(prev, es[..k])
    decreases |es|
  {
    if k == |es| {
      assert es[..k] == es;
    } else {
      var n := |es| - 1;
      Prefix(prev, es[..n], k);
      assert es[..n][..k] == es[..k];
    }
  }

  /** Command `i` was the latest when an idle client polled. */
  ghost predicate Seen(prev: int, es: seq<Event>, i: int)
    requires IsRun(prev, es)
  {
    exists k: nat :: k < |es| && IdlePoll(prev, es, k) && IssuedBy(prev, es, k) == i + 1
  }

  function IssuedBy(prev: int, es: seq<Event>, k: nat): nat
    requires IsRun(prev, es) && k <= |es|
  {
    Prefix(prev, es, k);
    |Exec(prev, es[..k]).issued|
  }

  predicate Launched(s: State, i: int) {
    i in s.picked || (s.spawned > 0 && i == s.cmdIndex)
  }

  lemma SeenStep(prev: int, es: seq<Event>, i: int)
    requires IsRun(prev, es) && es != []
    ensures var n := |es| - 1;
            Seen(prev, es, i) <==>
              Seen(prev, es[..n], i)
              || (es[n].Poll? && !Exec(prev, es[..n]).moving && |Exec(prev, es[..n]).issued| == i + 1)
  {
    var n := |es| - 1;
    var p := es[..n];
    forall k: nat | k < n
      ensures IdlePoll(prev, es, k) <==> IdlePoll(prev, p, k)
      ensures IssuedBy(prev, es, k) == IssuedBy(prev, p, k)
    {
      assert p[..k] == es[..k];
    }
    if Seen(prev, p, i) {
      var k: nat :| k < |p| && IdlePoll(prev, p, k) && IssuedBy(prev, p, k) == i + 1;
      assert IdlePoll(prev, es, k);
    }
    if es[n].Poll? && !Exec(prev, p).moving && |Exec(prev, p).issued| == i + 1 {
      assert IdlePoll(prev, es, n) && IssuedBy(prev, es, n) == i + 1;
    }
  }

  /** A command is executed (or just launched) exactly when an idle client polls before the next one is issued:
      commands that arrive while the gripper moves are deferred, and only the latest of them survives. */
  lemma {:induction false} ExecutedExactly(prev: int, es: seq<Event>, i: nat)
    requires IsRun(prev, es) && Atomic(prev, es) && Distinct(prev, Exec(prev, es).issued)
    ensures Launched(Exec(prev, es), i) <==> Seen(prev, es, i)
  {
    if es == [] {
    } else {
      var n := |es| - 1;
      var s, e := Exec(prev, es[..n]), es[n];
      assert Exec(prev, es) == Next(s, e);
      IssuedGrows(s, e, prev);
      InvHolds(prev, es[..n]);
      ExecutedExactly(prev, es[..n], i);
      SeenStep(prev, es, i);
      LaunchedStep(prev, s, e, i);
    }
  }

  lemma LaunchedStep(prev: int, s: State, e: Event, i: nat)
    requires Inv(s, prev) && Distinct(prev, s.issued) && Enabled(s, e) && (s.spawned > 0 ==> e.Begin?)
    ensures Launched(Next(s, e), i) <==> Launched(s, i) || (e.Poll? && !s.moving && |s.issued| == i + 1)
  {
    match e
    case Issue(_) =>
    case Poll => PollKeepsInv(s, prev);
    case Begin =>
    case Finish =>
  }

  /** Once issuing stops, the last command is executed as soon as an idle client polls and its thread begins. */
  lemma LastIsExecuted(prev: int, es: seq<Event>, k: nat)
    requires IsRun(prev, es) && Atomic(prev, es) && Distinct(prev, Exec(prev, es).issued)
    requires k < |es| && IdlePoll(prev, es, k) && Exec(prev, es).spawned == 0
    requires Exec(prev, es).issued != [] && IssuedBy(prev, es, k) == |Exec(prev, es).issued|
    ensures var s := Exec(prev, es); s.executed != [] && s.executed[|s.executed| - 1] == s.issued[|s.issued| - 1]
  {
    var last := |Exec(prev, es).issued| - 1;
    SeenAt(prev, es, k);
    ExecutedExactly(prev, es, last);
    InvHolds(prev, es);
    LatestIsLast(Exec(prev, es), prev);
  }

  lemma SeenAt(prev: int, es: seq<Event>, k: nat)
    requires IsRun(prev, es) && k < |es| && IdlePoll(prev, es, k)
    ensures Seen(prev, es, IssuedBy(prev, es, k) - 1)
  {
  }

  lemma LatestIsLast(s: State, prev: int)
    requires Inv(s, prev) && s.issued != [] && s.spawned == 0 && Launched(s, |s.issued| - 1)
    ensures s.executed != [] && s.executed[|s.executed| - 1] == s.issued[|s.issued| - 1]
  {
    var j :| 0 <= j < |s.picked| && s.picked[j] == |s.issued| - 1;
    LastPicked(s.picked, |s.issued|, j);
  }

  lemma LastPicked(picked: seq<int>, bound: int, j: nat)
    requires Increasing(picked, bound) && j < |picked| && picked[j] == bound - 1
    ensures picked[|picked| - 1] == bound - 1
  {
    var m := |picked| - 1;
    assert picked[j] <= picked[m];
  }

  // ----- The hypotheses are needed -----

  lemma ExecOne(prev: int, es: seq<Event>, e: Event)
    requires IsRun(prev, es) && Enabled(Exec(prev, es), e)
    ensures IsRun(prev, es + [e]) && Exec(prev, es + [e]) == Next(Exec(prev, es), e)
    ensures Atomic(prev, es) && (Exec(prev, es).spawned > 0 ==> e.Begin?) ==> Atomic(prev, es + [e])
  {
    assert (es + [e])[..|es|] == es;
  }

  /** Two commands stamped in the same nanosecond of different seconds: the second is never executed, however
      long the client polls. */
  lemma {:induction false} SameNanosDropped(prev: int, a: Command, b: Command, polls: nat)
    requires a.nanos == b.nanos && a.nanos != 0 && a.nanos != prev
    ensures exists es: seq<Event> :: IsRun(prev, es) && Atomic(prev, es) && |es| == 5 + polls
              && Exec(prev, es) == Dropped(prev, a, b, polls)
  {
    if polls == 0 {
      var es := FirstExecuted(prev, a, b);
    } else {
      SameNanosDropped(prev, a, b, polls - 1);
      var p: seq<Event> :| IsRun(prev, p) && Atomic(prev, p) && |p| == 5 + (polls - 1)
        && Exec(prev, p) == Dropped(prev, a, b, polls - 1);
      ExecOne(prev, p, Poll);
      var es := p + [Poll];
      assert IsRun(prev, es) && Atomic(prev, es) && |es| == 5 + polls;
    }
  }

  lemma FirstExecuted(prev: int, a: Command, b: Command) returns (es: seq<Event>)
    requires a.nanos != 0 && a.nanos != prev
    ensures IsRun(prev, es) && Atomic(prev, es) && |es| == 5 && Exec(prev, es) == Dropped(prev, a, b, 0)
  {
    es := [];
    ExecOne(prev, es, Issue(a));
    es := es + [Issue(a)];
    ExecOne(prev, es, Poll);
    es := es + [Poll];
    ExecOne(prev, es, Begin);
    es := es + [Begin];
    ExecOne(prev, es, Finish);
    es := es + [Finish];
    ExecOne(prev, es, Issue(b));
    es := es + [Issue(b)];
    assert Exec(prev, es).issued == [] + [a] + [b];
  }

  /** Both commands issued, the first one executed, and `polls` turns of the client since. */
  function Dropped(prev: int, a: Command, b: Command, polls: nat): State {
    State(b, if polls == 0 then a else b, a.nanos, false, 0, 0, [a, b], if polls == 0 then 0 else 1, [0], [a])
  }

  /** A run that issues exactly `cs`, launches its threads at once, and does not execute command `i` although an
      idle client polled while it was the latest. */
  ghost predicate Loses(prev: int, es: seq<Event>, cs: seq<Command>, i: nat) {
    && IsRun(prev, es) && Atomic(prev, es) && i < |cs| && Exec(prev, es).issued == cs
    && Seen(prev, es, i) && !Launched(Exec(prev, es), i)
  }

  /** Commands can be lost exactly when their stamps do not tell them apart from each other, from no stamp at all
      and from what the client starts with. */
  lemma StampsDecide(prev: int, cs: seq<Command>)
    ensures Distinct(prev, cs) <==> forall es: seq<Event>, i: nat :: !Loses(prev, es, cs, i)
  {
    if Distinct(prev, cs) {
      forall es: seq<Event>, i: nat ensures !Loses(prev, es, cs, i) {
        if Loses(prev, es, cs, i) {
          ExecutedExactly(prev, es, i);
        }
      }
    } else {
      var es, i := Losing(prev, cs);
      assert Loses(prev, es, cs, i);
    }
  }

  // ----- Schedules -----

  /** A run after which no thread is about. */
  ghost predicate AtRest(prev: int, es: seq<Event>, cs: seq<Command>, n: nat) {
    && IsRun(prev, es) && Atomic(prev, es) && n <= |cs|
    && var s := Exec(prev, es);
       && s.issued == cs[..n] && s.cache == (if n == 0 then EMPTY else cs[n - 1])
       && !s.moving && s.spawned == 0 && s.running == 0 && s.cmdIndex < n
  }

  lemma Extend(prev: int, es: seq<Event>, e: Event, i: int) returns (fs: seq<Event>)
    requires IsRun(prev, es) && Atomic(prev, es) && Enabled(Exec(prev, es), e)
    requires Exec(prev, es).spawned > 0 ==> e.Begin?
    ensures fs == es + [e] && IsRun(prev, fs) && Atomic(prev, fs) && Exec(prev, fs) == Next(Exec(prev, es), e)
    ensures Seen(prev, es, i) || (e.Poll? && !Exec(prev, es).moving && |Exec(prev, es).issued| == i + 1) ==>
              Seen(prev, fs, i)
  {
    fs := es + [e];
    ExecOne(prev, es, e);
    assert fs[..|fs| - 1] == es;
    SeenStep(prev, fs, i);
  }

  /** Issues the commands from the `m`-th up to the `n`-th. */
  lemma {:induction false} IssueUpTo(prev: int, es: seq<Event>, cs: seq<Command>, m: nat, n: nat, i: int)
    returns (fs: seq<Event>)
    requires AtRest(prev, es, cs, m) && m <= n <= |cs|
    ensures AtRest(prev, fs, cs, n)
    ensures Exec(prev, fs).prev == Exec(prev, es).prev && Exec(prev, fs).picked == Exec(prev, es).picked
    ensures Seen(prev, es, i) ==> Seen(prev, fs, i)
    decreases n - m
  {
    if m == n {
      fs := es;
    } else {
      fs := Extend(prev, es, Issue(cs[m]), i);
      assert cs[..m + 1] == cs[..m] + [cs[m]];
      fs := IssueUpTo(prev, fs, cs, m + 1, n, i);
    }
  }

  /** Polls, and if that launches a thread lets it run and finish. */
  lemma PollIdle(prev: int, es: seq<Event>, cs: seq<Command>, n: nat) returns (fs: seq<Event>)
    requires AtRest(prev, es, cs, n) && n > 0
    ensures AtRest(prev, fs, cs, n) && Seen(prev, fs, n - 1)
    ensures var s, t := Exec(prev, es), Exec(prev, fs);
            if Launches(s) then t.prev == cs[n - 1].nanos && t.picked == s.picked + [n - 1]
            else t.prev == s.prev && t.picked == s.picked
  {
    fs := Extend(prev, es, Poll, n - 1);
    if Launches(Exec(prev, es)) {
      fs := Extend(prev, fs, Begin, n - 1);
      fs := Extend(prev, fs, Finish, n - 1);
    }
  }

  /** A schedule that loses a command with an ambiguous stamp. */
  lemma Losing(prev: int, cs: seq<Command>) returns (es: seq<Event>, i: nat)
    requires !Distinct(prev, cs)
    ensures Loses(prev, es, cs, i)
  {
    if k: nat :| k < |cs| && (cs[k].nanos == 0 || cs[k].nanos == prev) {
      i := k;
      es := LosingFirst(prev, cs, k);
    } else {
      var j: nat, k: nat :| j < k < |cs| && cs[j].nanos == cs[k].nanos;
      i := k;
      es := LosingSecond(prev, cs, j, k);
    }
  }

  lemma LosingFirst(prev: int, cs: seq<Command>, k: nat) returns (es: seq<Event>)
    requires k < |cs| && (cs[k].nanos == 0 || cs[k].nanos == prev)
    ensures Loses(prev, es, cs, k)
  {
    es := IssueUpTo(prev, [], cs, 0, k + 1, k);
    es := PollIdle(prev, es, cs, k + 1);
    es := IssueRest(prev, es, cs, k);
  }

  lemma IssueRest(prev: int, es: seq<Event>, cs: seq<Command>, k: nat) returns (fs: seq<Event>)
    requires k < |cs| && AtRest(prev, es, cs, k + 1) && Seen(prev, es, k) && k !in Exec(prev, es).picked
    ensures Loses(prev, fs, cs, k)
  {
    fs := IssueUpTo(prev, es, cs, k + 1, |cs|, k);
    assert cs[..|cs|] == cs;
  }

  lemma FirstOfTwo(prev: int, cs: seq<Command>, j: nat, k: nat) returns (es: seq<Event>)
    requires j < k < |cs| && cs[j].nanos != 0 && cs[j].nanos != prev
    ensures AtRest(prev, es, cs, k + 1) && Exec(prev, es).prev == cs[j].nanos && Exec(prev, es).picked == [j]
  {
    es := IssueUpTo(prev, [], cs, 0, j + 1, k);
    es := PollIdle(prev, es, cs, j + 1);
    es := IssueUpTo(prev, es, cs, j + 1, k + 1, k);
  }

  lemma LosingSecond(prev: int, cs: seq<Command>, j: nat, k: nat) returns (es: seq<Event>)
    requires j < k < |cs| && cs[j].nanos == cs[k].nanos && cs[j].nanos != 0 && cs[j].nanos != prev
    ensures Loses(prev, es, cs, k)
  {
    es := FirstOfTwo(prev, cs, j, k);
    es := PollIdle(prev, es, cs, k + 1);
    es := IssueRest(prev, es, cs, k);
  }

  /** When a thread is slow to begin, a second one can be launched: both then execute the later command at the same
      time, and the earlier one is lost. */
  lemma SlowThreads(prev: int, a: Command, b: Command)
    requires Distinct(prev, [a, b])
    ensures exists es: seq<Event> ::
              IsRun(prev, es) && Exec(prev, es).issued == [a, b]
              && Exec(prev, es).running == 2 && Exec(prev, es).executed == [b, b]
  {
    assert [a, b][0] == a && [a, b][1] == b;
    ExecOne(prev, [], Issue(a));
    ExecOne(prev, [] + [Issue(a)], Poll);
    ExecOne(prev, [] + [Issue(a)] + [Poll], Issue(b));
    ExecOne(prev, [] + [Issue(a)] + [Poll] + [Issue(b)], Poll);
    ExecOne(prev, [] + [Issue(a)] + [Poll] + [Issue(b)] + [Poll], Begin);
    ExecOne(prev, [] + [Issue(a)] + [Poll] + [Issue(b)] + [Poll] + [Begin], Begin);
    var es := [] + [Issue(a)] + [Poll] + [Issue(b)] + [Poll] + [Begin] + [Begin];
    assert Exec(prev, es).issued == [] + [a] + [b] == [a, b];
    assert Exec(prev, es).executed == [] + [b] + [b] == [b, b];
  }
}
