/** The protocol around rotation runs and reboots: callers that register workers, a
    semaphore, a wait group, waiters and Shutdown, in every interleaving
    (internal/rotate/rotate.go, Rotate, Wait, Shutdown, run, acquire; the same protocol
    without the semaphore in internal/devops/reboot.go, start). */
module RotateWorkers {
  import opened Wrappers

  /** Where one Rotate call and the worker it may start stand. Everything up to Created is
      the caller; Waiting to Waking is the goroutine, with its deferred steps spelled out. */
  datatype Phase =
    | Checked | Refused
    | Created | Canceling | Canceled
    | Waiting | Jitter | Running
    | Ending(held: bool) | Ended(held: bool)
    | Delisted | Waking | Gone
  {
    predicate Worker() { Waiting? || Jitter? || Running? || Ending? || Ended? || Delisted? || Waking? }

    /** Holds a slot of the semaphore. */
    predicate Holds() { Jitter? || Running? || ((Ending? || Ended?) && held) }

    predicate Accepted() { Worker() || Gone? }

    predicate Unfinished() { Waiting? || Jitter? || Running? || Ending? }

    function Rank(): nat {
      match this
      case Waiting => 8
      case Jitter => 7
      case Running => 6
      case Ending(_) => 5
      case Ended(held) => if held then 4 else 3
      case Delisted => 2
      case Waking => 1
      case _ => 0
    }
  }

  /** The operation's row; another process may close a live row it takes for stalled. */
  datatype Row = NoRow | Live | Done | Stalled

  datatype Call = Call(subject: string, phase: Phase, row: Row, finishes: nat, listed: bool, woken: bool)

  datatype Shutdown = Draining | Drained | ReturnedNil | TimedOut

  datatype State = State(max: nat, closed: bool, sem: int, wg: int, calls: seq<Call>, shutdowns: seq<Shutdown>)

  function Start(max: nat): State { State(max, false, 0, 0, [], []) }

  datatype Action =
    | Enter(subject: string)
    | Refuse(i: nat)
    | CreateRow(i: nat)
    | Admit(i: nat)
    | TurnAway(i: nat)
    | CancelRow(i: nat, ok: bool)
    | Acquire(i: nat)
    | Abandon(i: nat)
    | EndJitter(i: nat, ok: bool)
    | Execute(i: nat)
    | Finish(i: nat, ok: bool)
    | Release(i: nat)
    | Delist(i: nat)
    | Wake(i: nat)
    | Depart(i: nat)
    | Stall(i: nat)
    | BeginShutdown
    | Drain(j: nat)
    | ReturnNil(j: nat)
    | GiveUp(j: nat)
  {
    predicate OfCall() { !Enter? && !BeginShutdown? && !Drain? && !ReturnNil? && !GiveUp? }
  }

  predicate SubjectLive(calls: seq<Call>, subject: string) {
    exists i :: 0 <= i < |calls| && calls[i].row.Live? && calls[i].subject == subject
  }

  function CloseRow(row: Row, ok: bool): Row { if ok && row.Live? then Done else row }

  /** What the caller or worker of call c does next, as far as the call itself goes. */
  function Move(c: Call, a: Action): Option<Call> {
    match a
    case Refuse(_) => if c.phase.Checked? then Some(c.(phase := Refused)) else None
    case CreateRow(_) => if c.phase.Checked? then Some(c.(phase := Created, row := Live)) else None
    case Admit(_) => if c.phase.Created? then Some(c.(phase := Waiting, listed := true)) else None
    case TurnAway(_) => if c.phase.Created? then Some(c.(phase := Canceling)) else None
    case CancelRow(_, ok) =>
      if c.phase.Canceling? then Some(c.(phase := Canceled, finishes := c.finishes + 1, row := CloseRow(c.row, ok))) else None
    case Acquire(_) => if c.phase.Waiting? then Some(c.(phase := Jitter)) else None
    case Abandon(_) => if c.phase.Waiting? then Some(c.(phase := Ending(false))) else None
    case EndJitter(_, ok) => if c.phase.Jitter? then Some(c.(phase := if ok then Running else Ending(false))) else None
    case Execute(_) => if c.phase.Running? then Some(c.(phase := Ending(true))) else None
    case Finish(_, ok) =>
      if c.phase.Ending? then Some(c.(phase := Ended(c.phase.held), finishes := c.finishes + 1, row := CloseRow(c.row, ok))) else None
    case Release(_) => if c.phase == Ended(true) then Some(c.(phase := Ended(false))) else None
    case Delist(_) => if c.phase == Ended(false) then Some(c.(phase := Delisted, listed := false)) else None
    case Wake(_) => if c.phase.Delisted? then Some(c.(phase := Waking, woken := true)) else None
    case Depart(_) => if c.phase.Waking? then Some(c.(phase := Gone)) else None
    case Stall(_) => if c.row.Live? then Some(c.(row := Stalled)) else None
    case _ => None
  }

  /** What the shared fields allow: the locked look at closed, the store's one live row
      per subject, and the semaphore's capacity. */
  predicate Allowed(s: State, c: Call, a: Action) {
    match a
    case CreateRow(_) => !SubjectLive(s.calls, c.subject)
    case Admit(_) => !s.closed
    case TurnAway(_) => s.closed
    case Acquire(_) => s.sem < s.max
    case _ => true
  }

  function Flag(b: bool): nat { if b then 1 else 0 }

  /** One atomic step; None when the action is not possible. */
  function Next(s: State, a: Action): Option<State> {
    match a
    case Enter(subject) =>
      if s.closed then None
      else Some(s.(calls := s.calls + [Call(subject, Checked, NoRow, 0, false, false)]))
    case BeginShutdown => Some(s.(closed := true, shutdowns := s.shutdowns + [Draining]))
    case Drain(j) =>
      if j < |s.shutdowns| && s.shutdowns[j].Draining? && s.wg == 0
      then Some(s.(shutdowns := s.shutdowns[j := Drained])) else None
    case ReturnNil(j) =>
      if j < |s.shutdowns| && s.shutdowns[j].Drained? then Some(s.(shutdowns := s.shutdowns[j := ReturnedNil])) else None
    case GiveUp(j) =>
      if j < |s.shutdowns| && (s.shutdowns[j].Draining? || s.shutdowns[j].Drained?)
      then Some(s.(shutdowns := s.shutdowns[j := TimedOut])) else None
    case _ =>
      if a.i >= |s.calls| || !Allowed(s, s.calls[a.i], a) then None
      else
        var c := s.calls[a.i];
        match Move(c, a)
        case None => None
        case Some(d) =>
          Some(s.(calls := s.calls[a.i := d],
                  sem := s.sem + Flag(d.phase.Holds()) - Flag(c.phase.Holds()),
                  wg := s.wg + Flag(a.Admit?) - Flag(a.Depart?)))
  }

  // ---- the invariant ----

  function Holders(calls: seq<Call>): nat {
    if calls == [] then 0 else Flag(calls[0].phase.Holds()) + Holders(calls[1..])
  }

  function Workers(calls: seq<Call>): nat {
    if calls == [] then 0 else Flag(calls[0].phase.Worker()) + Workers(calls[1..])
  }

  function Work(calls: seq<Call>): nat {
    if calls == [] then 0 else calls[0].phase.Rank() + Work(calls[1..])
  }

  lemma {:induction false} CountsOfUpdate(calls: seq<Call>, i: nat, c: Call)
    requires i < |calls|
    ensures Holders(calls[i := c]) == Holders(calls) - Flag(calls[i].phase.Holds()) + Flag(c.phase.Holds())
    ensures Workers(calls[i := c]) == Workers(calls) - Flag(calls[i].phase.Worker()) + Flag(c.phase.Worker())
    ensures Work(calls[i := c]) == Work(calls) - calls[i].phase.Rank() + c.phase.Rank()
  {
    if i == 0 {
      assert calls[i := c][1..] == calls[1..];
    } else {
      CountsOfUpdate(calls[1..], i - 1, c);
      assert calls[i := c][1..] == calls[1..][i - 1 := c];
    }
  }

  lemma {:induction false} CountsOfAppend(calls: seq<Call>, c: Call)
    requires !c.phase.Holds() && !c.phase.Worker()
    ensures Holders(calls + [c]) == Holders(calls) && Workers(calls + [c]) == Workers(calls)
  {
    if calls == [] {
      assert [c][1..] == [];
    } else {
      CountsOfAppend(calls[1..], c);
      assert (calls + [c])[1..] == calls[1..] + [c];
    }
  }

  lemma {:induction false} SomeWorker(calls: seq<Call>) returns (i: nat)
    requires Workers(calls) > 0
    ensures i < |calls| && calls[i].phase.Worker()
  {
    if calls[0].phase.Worker() {
      i := 0;
    } else {
      i := SomeWorker(calls[1..]);
      i := i + 1;
    }
  }

  lemma {:induction false} SomeHolder(calls: seq<Call>) returns (i: nat)
    requires Holders(calls) > 0
    ensures i < |calls| && calls[i].phase.Holds()
  {
    if calls[0].phase.Holds() {
      i := 0;
    } else {
      i := SomeHolder(calls[1..]);
      i := i + 1;
    }
  }

  lemma {:induction false} NoWorker(calls: seq<Call>, i: nat)
    requires Workers(calls) == 0 && i < |calls|
    ensures !calls[i].phase.Worker()
  {
    if i > 0 {
      NoWorker(calls[1..], i - 1);
    }
  }

  /** What is true of one call in each phase. */
  predicate CallOk(c: Call) {
    match c.phase
    case Checked => c.row.NoRow? && c.finishes == 0 && !c.listed && !c.woken
    case Refused => c.row.NoRow? && c.finishes == 0 && !c.listed && !c.woken
    case Created => (c.row.Live? || c.row.Stalled?) && c.finishes == 0 && !c.listed && !c.woken
    case Canceling => (c.row.Live? || c.row.Stalled?) && c.finishes == 0 && !c.listed && !c.woken
    case Canceled => c.finishes == 1 && !c.listed && !c.woken
    case Ended(_) => c.finishes == 1 && c.listed && !c.woken
    case Delisted => c.finishes == 1 && !c.listed && !c.woken
    case Waking => c.finishes == 1 && !c.listed && c.woken
    case Gone => c.finishes == 1 && !c.listed && c.woken
    case _ => (c.row.Live? || c.row.Stalled?) && c.finishes == 0 && c.listed && !c.woken
  }

  /** One live row per subject, as the store keeps it. */
  predicate LiveOnce(calls: seq<Call>) {
    forall i, j :: 0 <= i < j < |calls| && calls[i].row.Live? && calls[j].row.Live? ==> calls[i].subject != calls[j].subject
  }

  predicate Inv(s: State) {
    && (forall i :: 0 <= i < |s.calls| ==> CallOk(s.calls[i]))
    && s.sem == Holders(s.calls) && s.sem <= s.max
    && s.wg == Workers(s.calls)
    && LiveOnce(s.calls)
    && (s.shutdowns != [] ==> s.closed)
    && (forall j :: 0 <= j < |s.shutdowns| && (s.shutdowns[j].Drained? || s.shutdowns[j].ReturnedNil?) ==> s.wg == 0)
  }

  lemma MoveKeepsCall(c: Call, a: Action)
    requires CallOk(c) && Move(c, a).Some?
    ensures CallOk(Move(c, a).value) && Move(c, a).value.subject == c.subject
    ensures Move(c, a).value.row.Live? ==> c.row.Live? || a.CreateRow?
    ensures Flag(Move(c, a).value.phase.Worker()) == Flag(c.phase.Worker()) + Flag(a.Admit?) - Flag(a.Depart?)
    ensures Move(c, a).value.phase.Holds() && !c.phase.Holds() ==> a.Acquire?
  {
  }

  lemma CallMoves(s: State, a: Action) returns (c: Call, d: Call)
    requires a.OfCall() && Next(s, a).Some?
    ensures a.i < |s.calls| && c == s.calls[a.i] && Move(c, a) == Some(d) && Allowed(s, c, a)
    ensures Next(s, a).value.calls == s.calls[a.i := d]
    ensures Next(s, a).value.sem == s.sem + Flag(d.phase.Holds()) - Flag(c.phase.Holds())
    ensures Next(s, a).value.wg == s.wg + Flag(a.Admit?) - Flag(a.Depart?)
    ensures Next(s, a).value.max == s.max && Next(s, a).value.closed == s.closed && Next(s, a).value.shutdowns == s.shutdowns
  {
    hide Move, Allowed, Phase.Holds;
    c := s.calls[a.i];
    d := Move(c, a).value;
  }

  lemma AllowedFacts(s: State, c: Call, a: Action)
    requires Allowed(s, c, a)
    ensures a.Acquire? ==> s.sem < s.max
    ensures a.Admit? ==> !s.closed
    ensures a.CreateRow? ==> forall j :: 0 <= j < |s.calls| && s.calls[j].row.Live? ==> s.calls[j].subject != c.subject
  {
  }

  lemma CallStepKeepsInv(s: State, a: Action)
    requires Inv(s) && a.OfCall() && Next(s, a).Some?
    ensures Inv(Next(s, a).value)
  {
    var c, d := CallMoves(s, a);
    MoveKeepsCall(c, a);
    CountsOfUpdate(s.calls, a.i, d);
    AllowedFacts(s, c, a);
    LiveOnceKept(s.calls, a.i, d);
    hide CallOk, Move, Allowed, Next, LiveOnce, Holders, Workers, Work, Phase.Holds, Phase.Worker;
  }

  lemma LiveOnceKept(calls: seq<Call>, i: nat, d: Call)
    requires LiveOnce(calls) && i < |calls| && d.subject == calls[i].subject
    requires d.row.Live? ==> calls[i].row.Live? || forall j :: 0 <= j < |calls| && calls[j].row.Live? ==> calls[j].subject != d.subject
    ensures LiveOnce(calls[i := d])
  {
  }

  lemma StepKeepsInv(s: State, a: Action)
    requires Inv(s) && Next(s, a).Some?
    ensures Inv(Next(s, a).value)
  {
    if a.OfCall() {
      CallStepKeepsInv(s, a);
    } else {
      hide CallOk, Move, Allowed;
      if a.Enter? {
        var c := Call(a.subject, Checked, NoRow, 0, false, false);
        CountsOfAppend(s.calls, c);
        FreshCall(a.subject);
      }
    }
  }

  lemma FreshCall(subject: string)
    ensures CallOk(Call(subject, Checked, NoRow, 0, false, false))
  {
  }

  // ---- whole runs ----

  ghost predicate Steps(s: State, t: State) { exists a :: Next(s, a) == Some(t) }

  ghost predicate Run(run: seq<State>) {
    run != [] && forall k :: 0 < k < |run| ==> Steps(run[k - 1], run[k])
  }

  lemma StepsKeepInv(s: State, t: State)
    requires Inv(s) && Steps(s, t)
    ensures Inv(t) && t.max == s.max
  {
    hide Inv, Move, Allowed;
    var a :| Next(s, a) == Some(t);
    StepKeepsInv(s, a);
  }

  lemma {:induction false} RunKeepsInv(run: seq<State>, k: nat)
    requires Run(run) && Inv(run[0]) && k < |run|
    ensures Inv(run[k]) && run[k].max == run[0].max
  {
    if k > 0 {
      hide Inv, Steps;
      RunKeepsInv(run, k - 1);
      StepsKeepInv(run[k - 1], run[k]);
    }
  }

  /** In every state of every run: no more workers past the semaphore than it admits, every
      accepted operation finished exactly once before its waiters are let go, and two
      unfinished workers on one subject only if a row was closed under one of them. */
  lemma Safety(run: seq<State>, max: nat, k: nat)
    requires Run(run) && run[0] == Start(max) && k < |run|
    ensures Holders(run[k].calls) == run[k].sem <= max && run[k].wg >= 0
    ensures forall i :: 0 <= i < |run[k].calls| && run[k].calls[i].phase.Accepted() ==>
              var c := run[k].calls[i];
              && c.finishes <= 1
              && (c.woken || !c.listed ==> c.finishes == 1)
              && (c.phase.Gone? ==> c.finishes == 1 && c.woken)
    ensures forall i, j :: 0 <= i < j < |run[k].calls| ==>
              var c, d := run[k].calls[i], run[k].calls[j];
              c.phase.Unfinished() && d.phase.Unfinished() && c.subject == d.subject ==> c.row.Stalled? || d.row.Stalled?
  {
    RunKeepsInv(run, k);
    var calls := run[k].calls;
    forall i | 0 <= i < |calls| && calls[i].phase.Accepted() ensures CallOk(calls[i]) { }
  }

  /** A call on a subject without a live row gets through to a worker. */
  lemma LetIn(s: State, subject: string) returns (entered: State, created: State, admitted: State)
    requires !s.closed && !SubjectLive(s.calls, subject)
    ensures Steps(s, entered) && Steps(entered, created) && Steps(created, admitted)
    ensures admitted == s.(calls := s.calls + [Call(subject, Waiting, Live, 0, true, false)], wg := s.wg + 1)
  {
    var n := |s.calls|;
    entered := s.(calls := s.calls + [Call(subject, Checked, NoRow, 0, false, false)]);
    created := s.(calls := s.calls + [Call(subject, Created, Live, 0, false, false)]);
    admitted := s.(calls := s.calls + [Call(subject, Waiting, Live, 0, true, false)], wg := s.wg + 1);
    assert Next(s, Enter(subject)) == Some(entered);
    forall i | 0 <= i <= n ensures !(entered.calls[i].row.Live? && entered.calls[i].subject == subject) {
      assert i < n ==> entered.calls[i] == s.calls[i];
    }
    assert entered.calls[n := created.calls[n]] == created.calls && created.calls[n := admitted.calls[n]] == admitted.calls;
    assert Next(entered, CreateRow(n)) == Some(created);
    assert Next(created, Admit(n)) == Some(admitted);
  }

  lemma OneMore(run: seq<State>, t: State)
    requires Run(run) && Steps(run[|run| - 1], t)
    ensures Run(run + [t])
  {
    hide Steps;
  }

  lemma RunOn(run: seq<State>, subject: string) returns (more: seq<State>)
    requires Run(run) && !run[|run| - 1].closed && !SubjectLive(run[|run| - 1].calls, subject)
    ensures Run(more) && more[0] == run[0]
    ensures var s := run[|run| - 1];
            more[|more| - 1] == s.(calls := s.calls + [Call(subject, Waiting, Live, 0, true, false)], wg := s.wg + 1)
  {
    var a, b, c := LetIn(run[|run| - 1], subject);
    hide Steps, SubjectLive;
    OneMore(run, a);
    OneMore(run + [a], b);
    OneMore(run + [a] + [b], c);
    more := run + [a] + [b] + [c];
  }

  lemma StallOnly(s: State, c: Call)
    requires s.calls == [c] && c.row.Live?
    ensures Steps(s, s.(calls := [c.(row := Stalled)]))
    ensures forall subject :: !SubjectLive([c.(row := Stalled)], subject)
  {
    assert [c][0 := c.(row := Stalled)] == [c.(row := Stalled)];
    assert Next(s, Stall(0)) == Some(s.(calls := [c.(row := Stalled)]));
  }

  /** The exception is real: once the first worker's row was taken for stalled, a second
      worker is let in on the same subject while the first one still runs. */
  lemma StalledRowLetsAnotherIn() returns (run: seq<State>)
    ensures Run(run) && run[0] == Start(1)
    ensures var calls := run[|run| - 1].calls;
            |calls| == 2 && calls[0].subject == calls[1].subject && calls[0].phase.Unfinished() && calls[1].phase.Unfinished()
  {
    var c := Call("p", Waiting, Live, 0, true, false);
    run := RunOn([Start(1)], "p");
    var s := run[|run| - 1];
    assert s.calls == [c];
    StallOnly(s, c);
    hide Steps, SubjectLive, Next, Run;
    OneMore(run, s.(calls := [c.(row := Stalled)]));
    run := RunOn(run + [s.(calls := [c.(row := Stalled)])], "p");
  }

  /** No call of t is registered or accepted that was not so in s. */
  predicate NoneAdded(s: State, t: State) {
    && t.closed && |t.calls| == |s.calls| && t.wg <= s.wg
    && forall i :: 0 <= i < |s.calls| ==>
         && (t.calls[i].listed ==> s.calls[i].listed)
         && (t.calls[i].phase.Accepted() ==> s.calls[i].phase.Accepted())
  }

  lemma MoveAddsNone(c: Call, a: Action)
    requires Move(c, a).Some? && !a.Admit?
    ensures Move(c, a).value.listed ==> c.listed
    ensures Move(c, a).value.phase.Accepted() ==> c.phase.Accepted()
  {
  }

  lemma ClosedStep(s: State, t: State)
    requires s.closed && Steps(s, t)
    ensures NoneAdded(s, t)
  {
    var a :| Next(s, a) == Some(t);
    if a.OfCall() {
      var c, d := CallMoves(s, a);
      AllowedFacts(s, c, a);
      MoveAddsNone(c, a);
    }
    hide Move, Allowed, Phase.Holds, Phase.Accepted;
  }

  /** Once closed is set nobody is registered any more, for the rest of the run. */
  lemma {:induction false} NoneAfterClose(run: seq<State>, k: nat, m: nat)
    requires Run(run) && k <= m < |run| && run[k].closed
    ensures NoneAdded(run[k], run[m])
    decreases m
  {
    hide Steps, Phase.Accepted;
    if k < m {
      NoneAfterClose(run, k, m - 1);
      ClosedStep(run[m - 1], run[m]);
    }
  }

  /** When some Shutdown has returned nil, no worker is left and none will come. */
  lemma ShutdownMeansIdle(run: seq<State>, max: nat, k: nat, j: nat, m: nat)
    requires Run(run) && run[0] == Start(max) && k <= m < |run|
    requires j < |run[k].shutdowns| && run[k].shutdowns[j].ReturnedNil?
    ensures run[m].wg == 0
    ensures forall i :: 0 <= i < |run[m].calls| ==> !run[m].calls[i].phase.Worker()
  {
    RunKeepsInv(run, k);
    RunKeepsInv(run, m);
    NoneAfterClose(run, k, m);
    forall i | 0 <= i < |run[m].calls| ensures !run[m].calls[i].phase.Worker() {
      NoWorker(run[m].calls, i);
    }
  }

  // ---- progress ----

  /** The next step of a worker that need not wait for the semaphore. */
  function OwnStep(phase: Phase, i: nat): Action
    requires phase.Worker() && !phase.Waiting?
  {
    match phase
    case Jitter => EndJitter(i, true)
    case Running => Execute(i)
    case Ending(_) => Finish(i, true)
    case Ended(held) => if held then Release(i) else Delist(i)
    case Delisted => Wake(i)
    case Waking => Depart(i)
  }

  lemma {:induction false} HolderCounts(calls: seq<Call>, i: nat)
    requires i < |calls|
    ensures calls[i].phase.Holds() ==> Holders(calls) > 0
    ensures calls[i].phase.Worker() ==> Workers(calls) > 0
  {
    if i > 0 {
      HolderCounts(calls[1..], i - 1);
    }
  }

  /** As long as a worker is left some worker can move, without a cancelled context, and
      every such step brings the end nearer. */
  lemma WorkersMove(s: State) returns (a: Action)
    requires Inv(s) && s.max > 0 && s.wg > 0
    ensures Next(s, a).Some? && Work(Next(s, a).value.calls) < Work(s.calls)
    ensures Next(s, a).value.closed == s.closed && Next(s, a).value.max == s.max
  {
    var i := SomeWorker(s.calls);
    if s.calls[i].phase.Waiting? && s.sem >= s.max {
      i := SomeHolder(s.calls);
    }
    var c := s.calls[i];
    a := if c.phase.Waiting? then Acquire(i) else OwnStep(c.phase, i);
    HolderCounts(s.calls, i);
    OwnStepMoves(s, c, a, i);
    CountsOfUpdate(s.calls, i, Move(c, a).value);
    hide Move, Allowed, OwnStep, Holders, Workers, Phase.Rank, Phase.Holds, Phase.Worker;
  }

  lemma OwnStepMoves(s: State, c: Call, a: Action, i: nat)
    requires c.phase.Worker() && CallOk(c)
    requires a == if c.phase.Waiting? then Acquire(i) else OwnStep(c.phase, i)
    requires c.phase.Waiting? ==> s.sem < s.max
    ensures a.OfCall() && a.i == i && Move(c, a).Some? && Allowed(s, c, a)
    ensures Move(c, a).value.phase.Rank() < c.phase.Rank()
  {
  }

  /** So from every state some continuation drains all workers and Shutdown can return nil. */
  lemma {:induction false} CanDrain(s: State) returns (run: seq<State>)
    requires Inv(s) && s.max > 0
    ensures Run(run) && run[0] == s && run[|run| - 1].wg == 0 && run[|run| - 1].closed == s.closed
    decreases Work(s.calls)
  {
    if s.wg == 0 {
      run := [s];
    } else {
      var a := WorkersMove(s);
      StepKeepsInv(s, a);
      hide Next, Inv;
      var t := Next(s, a).value;
      assert Steps(s, t);
      var rest := CanDrain(t);
      hide Steps;
      run := [s] + rest;
      forall k | 0 < k < |run| ensures Steps(run[k - 1], run[k]) {
        if k > 1 {
          assert Steps(rest[k - 2], rest[k - 1]);
        }
      }
    }
  }
}
