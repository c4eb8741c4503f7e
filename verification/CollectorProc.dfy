/** The collector's own process: `ProcessCollector.start`/`stop` in the parent, `child_main` in the
    child, SIGTERM and sudden death at any moment. */
module CollectorProc {
  import opened Wrappers

  // ----- the two processes and the files between them

  /** Where `child_main` has got to.  A dead child keeps the place it died at. */
  datatype Phase = Booting | Armed | Sampling | Looping | Draining | Writing | Written {
    function Rank(): nat {
      match this
      case Booting => 0
      case Armed => 1
      case Sampling => 2
      case Looping => 3
      case Draining => 4
      case Writing => 5
      case Written => 6
    }
  }

  /** How a child ended: it returned, the default SIGTERM handler killed it, or it was killed outright
      (SIGKILL, an exception, the OOM killer). */
  datatype Life = Alive | Exited | Termed | Forced

  datatype Child = Child(phase: Phase, stopping: bool, life: Life) {
    /** The handlers are installed, sampling has begun and readiness was published. */
    predicate Begun() { phase.Rank() >= Looping.Rank() }

    function Term(): Child {
      if life != Alive then this
      else if phase == Booting then this.(life := Termed)
      else this.(stopping := true)
    }

    function Kill(): Child { if life == Alive then this.(life := Forced) else this }

    /** Dead, or past opening its summary file. */
    predicate Settled() { life == Alive ==> phase.Rank() >= Writing.Rank() }
  }

  /** The summary file, tagged with the run whose child opened it. */
  datatype File = Absent | Partial(run: nat) | Full(run: nat)

  /** What `stop` returns: a run's summary, one of the two error summaries, or `{}`. */
  datatype Answer = Data(run: nat) | Unparseable | NoSummary | Nothing

  /** Where the parent is inside `start` or `stop`; between calls, how the last one ended. */
  datatype Parent =
    | Idle
    | UnlinkingSummary | UnlinkingReady | Spawning | AtLoopHead | Polling
    | Started | StartRaised
    | Terminating | Waiting | Reading
    | Stopped(answer: Answer)

  /** `children` lists every child ever spawned, so a run is an index; `proc` and `cached` are
      `_proc` and `_summary`; `spawned` says that the latest `start` got as far as its child.  `calm`
      says that every earlier child was settled when the latest `start` was called, `clear` the same
      of the `start` that spawned the last child. */
  datatype State = State(parent: Parent, proc: Option<nat>, cached: Answer, children: seq<Child>,
                         summary: File, ready: Option<nat>, spawned: bool, calm: bool, clear: bool)
  {
    /** Inside `start`, before its child. */
    predicate SettingUp() { parent.UnlinkingSummary? || parent.UnlinkingReady? || parent.Spawning? }

    predicate InStop() { parent.Terminating? || parent.Waiting? || parent.Reading? }

    predicate InCall() { SettingUp() || parent.AtLoopHead? || parent.Polling? || InStop() }

    predicate HasProc() { proc.Some? && proc.value < |children| }

    predicate AllSettled() { forall i :: 0 <= i < |children| ==> children[i].Settled() }
  }

  const START := State(Idle, None, Nothing, [], Absent, None, false, true, true)

  datatype Event =
    | StartCall | UnlinkSummary | UnlinkReady | SetupFails | Spawn
    | CheckReady | CheckDead | StartTimeout
    | StopCall | Terminate | WaitEnds | WaitTimeout | Read
    | Advance(run: nat) | Sigterm(run: nat) | Death(run: nat)

  /** `Advance` is the child's next statement; only leaving the loop needs the flag. */
  predicate Enabled(s: State, e: Event) {
    match e
    case StartCall | StopCall => !s.InCall()
    case UnlinkSummary => s.parent.UnlinkingSummary?
    case UnlinkReady => s.parent.UnlinkingReady?
    case SetupFails => s.SettingUp()
    case Spawn => s.parent.Spawning?
    case CheckReady => s.parent.AtLoopHead?
    case CheckDead => s.parent.Polling? && s.HasProc()
    case StartTimeout => s.parent.AtLoopHead? && s.HasProc()
    case Terminate => s.parent.Terminating? && s.HasProc()
    case WaitEnds => s.parent.Waiting? && s.HasProc() && s.children[s.proc.value].life != Alive
    case WaitTimeout => s.parent.Waiting? && s.HasProc()
    case Read => s.parent.Reading?
    case Advance(r) =>
      && r < |s.children| && s.children[r].life == Alive
      && (s.children[r].phase == Looping ==> s.children[r].stopping)
    case Sigterm(r) => r < |s.children|
    case Death(r) => r < |s.children|
  }

  function AnswerOf(f: File): Answer {
    match f
    case Absent => NoSummary
    case Partial(_) => Unparseable
    case Full(r) => Data(r)
  }

  /** A child's next statement: install the handlers, begin sampling, publish readiness, leave the
      loop, open the summary, fill it, return. */
  function Moved(c: Child): Child {
    match c.phase
    case Booting => c.(phase := Armed)
    case Armed => c.(phase := Sampling)
    case Sampling => c.(phase := Looping)
    case Looping => c.(phase := Draining)
    case Draining => c.(phase := Writing)
    case Writing => c.(phase := Written)
    case Written => c.(life := Exited)
  }

  /** What that does to the summary file; a file unlinked in the meantime stays away. */
  function SummaryAfter(f: File, phase: Phase, r: nat): File {
    if phase == Draining then Partial(r) else if phase == Writing && f == Partial(r) then Full(r) else f
  }

  function Advanced(s: State, r: nat): State
    requires r < |s.children|
  {
    var phase := s.children[r].phase;
    s.(children := s.children[r := Moved(s.children[r])],
       ready := if phase == Sampling then Some(r) else s.ready,
       summary := SummaryAfter(s.summary, phase, r))
  }

  function WithProc(s: State, parent: Parent, c: Child): State
    requires s.HasProc()
  {
    s.(parent := parent, children := s.children[s.proc.value := c])
  }

  function Next(s: State, e: Event): State
    requires Enabled(s, e)
  {
    match e
    case StartCall => s.(parent := UnlinkingSummary, spawned := false, calm := s.AllSettled())
    case UnlinkSummary => s.(parent := UnlinkingReady, summary := Absent)
    case UnlinkReady => s.(parent := Spawning, ready := None)
    case SetupFails => s.(parent := StartRaised)
    case Spawn =>
      s.(parent := AtLoopHead, proc := Some(|s.children|), spawned := true, clear := s.calm,
         children := s.children + [Child(Booting, false, Alive)])
    case CheckReady => s.(parent := if s.ready.Some? then Started else Polling)
    case CheckDead => s.(parent := if s.children[s.proc.value].life != Alive then StartRaised else AtLoopHead)
    case StartTimeout => WithProc(s, StartRaised, s.children[s.proc.value].Kill())
    case StopCall => s.(parent := if s.proc.Some? then Terminating else Stopped(s.cached))
    case Terminate => WithProc(s, Waiting, s.children[s.proc.value].Term())
    case WaitEnds => s.(parent := Reading)
    case WaitTimeout => WithProc(s, Reading, s.children[s.proc.value].Kill())
    case Read => s.(parent := Stopped(AnswerOf(s.summary)), cached := AnswerOf(s.summary), proc := None)
    case Advance(r) => Advanced(s, r)
    case Sigterm(r) => s.(children := s.children[r := s.children[r].Term()])
    case Death(r) => s.(children := s.children[r := s.children[r].Kill()])
  }

  function Play(events: seq<Event>): Option<State> {
    if events == [] then Some(START) else
      var s := Play(events[..|events| - 1]);
      var e := events[|events| - 1];
      if s.Some? && Enabled(s.value, e) then Some(Next(s.value, e)) else None
  }

  lemma Extend(events: seq<Event>, s: State, e: Event) returns (later: seq<Event>, s': State)
    requires Play(events) == Some(s) && Enabled(s, e)
    ensures later == events + [e] && s' == Next(s, e) && Play(later) == Some(s')
  {
    later, s' := events + [e], Next(s, e);
    assert later[..|events|] == events;
  }

  /** The last step of a continuation. */
  lemma LastStep(head: seq<Event>, more: seq<Event>)
    requires more != [] && Play(head + more).Some?
    ensures var n := |more| - 1;
            && Play(head + more[..n]).Some? && Enabled(Play(head + more[..n]).value, more[n])
            && Play(head + more) == Some(Next(Play(head + more[..n]).value, more[n]))
  {
    var all := head + more;
    assert all[..|all| - 1] == head + more[..|more| - 1] && all[|all| - 1] == more[|more| - 1];
  }

  // ----- start: readiness

  /** SIGTERM kills only a child that has not armed its handlers; a child that returned had written. */
  ghost predicate Lives(c: Child) {
    && (c.life == Termed ==> c.phase == Booting)
    && (c.life == Exited ==> c.phase == Written)
  }

  ghost predicate Last(s: State, r: nat) { r + 1 == |s.children| }

  predicate OfChild(e: Event) { e.Advance? || e.Sigterm? || e.Death? }

  /** Only the child of the `start` in progress can be alive without having begun, so no other can
      publish readiness. */
  ghost predicate AliveHaveBegun(s: State) {
    forall i :: 0 <= i < |s.children| ==>
      || s.children[i].life != Alive || s.children[i].Begun()
      || (Last(s, i) && (s.parent.AtLoopHead? || s.parent.Polling?))
  }

  ghost predicate ReadyIsLast(s: State) {
    && (s.ready.Some? ==> Last(s, s.ready.value) && s.children[s.ready.value].Begun())
    && (s.parent.Spawning? ==> s.ready == None)
    && (s.parent.AtLoopHead? || s.parent.Polling? || s.parent.Started? ==> s.HasProc() && Last(s, s.proc.value))
    && (s.parent.Started? ==> s.children[s.proc.value].Begun())
  }

  ghost predicate Readiness(s: State) { AliveHaveBegun(s) && ReadyIsLast(s) }

  ghost predicate AllLive(s: State) { forall i :: 0 <= i < |s.children| ==> Lives(s.children[i]) }

  lemma AdvanceKeepsBegun(s: State, r: nat)
    requires AliveHaveBegun(s) && Enabled(s, Advance(r))
    ensures AliveHaveBegun(Advanced(s, r))
  {
  }

  lemma AdvanceKeepsReady(s: State, r: nat)
    requires Readiness(s) && Enabled(s, Advance(r))
    ensures ReadyIsLast(Advanced(s, r))
  {
    assert s.children[r].Begun() || Last(s, r);
  }

  lemma SignalKeepsReadiness(s: State, e: Event)
    requires Readiness(s) && Enabled(s, e) && (e.Sigterm? || e.Death?)
    ensures Readiness(Next(s, e))
  {
  }

  lemma ParentStepKeepsReadiness(s: State, e: Event)
    requires Readiness(s) && Enabled(s, e) && !OfChild(e)
    ensures Readiness(Next(s, e))
  {
  }

  lemma StepKeepsLives(s: State, e: Event)
    requires AllLive(s) && Enabled(s, e)
    ensures AllLive(Next(s, e))
  {
  }

  lemma {:induction false} EveryPlayKeeps(events: seq<Event>)
    requires Play(events).Some?
    ensures Readiness(Play(events).value) && AllLive(Play(events).value)
  {
    if events != [] {
      var before, e := events[..|events| - 1], events[|events| - 1];
      EveryPlayKeeps(before);
      StepKeepsLives(Play(before).value, e);
      if e.Advance? {
        AdvanceKeepsBegun(Play(before).value, e.run);
        AdvanceKeepsReady(Play(before).value, e.run);
      } else if OfChild(e) {
        SignalKeepsReadiness(Play(before).value, e);
      } else {
        ParentStepKeepsReadiness(Play(before).value, e);
      }
    }
  }

  /** In every interleaving: when `start` has returned, its own child has armed its handlers, begun
      sampling and published readiness; no file of an earlier run can have satisfied the wait. */
  lemma StartMeansReady(events: seq<Event>)
    requires Play(events).Some? && Play(events).value.parent.Started?
    ensures var s := Play(events).value;
            s.HasProc() && Last(s, s.proc.value) && s.children[s.proc.value].Begun()
  {
    EveryPlayKeeps(events);
  }

  /** SIGTERM ends a living child exactly while it is booting; once the handlers are armed no SIGTERM, however
      often it comes, kills it, and it is told to stop. */
  lemma {:induction false} ArmedSurvivesTerm(events: seq<Event>, r: nat)
    requires Play(events).Some? && r < |Play(events).value.children|
    ensures var c, after := Play(events).value.children[r], Next(Play(events).value, Sigterm(r)).children[r];
            && (c.life == Termed ==> c.phase == Booting)
            && (c.life == Alive ==> if c.phase == Booting then after == Child(Booting, c.stopping, Termed)
                                    else after == Child(c.phase, true, Alive))
  {
    EveryPlayKeeps(events);
  }

  /** A dead child stays as it died. */
  lemma DeadStays(s: State, e: Event, r: nat)
    requires Enabled(s, e) && r < |s.children| && s.children[r].life != Alive
    ensures r < |Next(s, e).children| && Next(s, e).children[r] == s.children[r]
  {
  }

  /** `start` and `stop` can be called exactly when none of them is under way. */
  lemma CallsAreWhole(s: State)
    ensures Enabled(s, StartCall) <==>
            s.parent.Idle? || s.parent.Started? || s.parent.StartRaised? || s.parent.Stopped?
    ensures Enabled(s, StopCall) <==> Enabled(s, StartCall)
  {
  }

  /** A child that is past its loop was told to stop. */
  ghost predicate ToldToStop(s: State) {
    forall i :: 0 <= i < |s.children| ==> s.children[i].phase in {Draining, Writing, Written} ==> s.children[i].stopping
  }

  lemma StepKeepsTold(s: State, e: Event)
    requires ToldToStop(s) && Enabled(s, e)
    ensures ToldToStop(Next(s, e))
  {
  }

  /** A SIGTERM from outside or the parent's own. */
  ghost predicate Terms(e: Event, r: nat) { e == Sigterm(r) || e == Terminate }

  lemma StepTells(s: State, e: Event, r: nat)
    requires Enabled(s, e) && r < |Next(s, e).children| && Next(s, e).children[r].stopping
    ensures Terms(e, r) || (r < |s.children| && s.children[r].stopping)
  {
  }

  /** A child leaves its loop only when told to stop, and is told so by nothing but a SIGTERM. */
  lemma {:induction false} LeavesOnlyWhenTold(events: seq<Event>, r: nat)
    requires Play(events).Some? && r < |Play(events).value.children|
    ensures ToldToStop(Play(events).value)
    ensures Play(events).value.children[r].stopping ==> exists e :: e in events && Terms(e, r)
  {
    if events != [] {
      var before, e := events[..|events| - 1], events[|events| - 1];
      var s := Play(before).value;
      AllToldToStop(before);
      StepKeepsTold(s, e);
      assert events == before + [e];
      if Play(events).value.children[r].stopping {
        StepTells(s, e, r);
        if Terms(e, r) { assert e in events; } else { LeavesOnlyWhenTold(before, r); }
      }
    }
  }

  lemma {:induction false} AllToldToStop(events: seq<Event>)
    requires Play(events).Some?
    ensures ToldToStop(Play(events).value)
  {
    if events != [] {
      AllToldToStop(events[..|events| - 1]);
      StepKeepsTold(Play(events[..|events| - 1]).value, events[|events| - 1]);
    }
  }

  /** A `start` that got its child and raised left it dead. */
  ghost predicate RaisedLeftDead(s: State) {
    s.parent.StartRaised? && s.spawned ==> s.children != [] && s.children[|s.children| - 1].life != Alive
  }

  lemma StepKeepsRaised(s: State, e: Event)
    requires RaisedLeftDead(s) && Enabled(s, e) && (s.spawned ==> !s.SettingUp())
    requires s.parent.AtLoopHead? || s.parent.Polling? ==> s.HasProc() && Last(s, s.proc.value)
    ensures RaisedLeftDead(Next(s, e))
  {
  }

  lemma {:induction false} RaisedMeansDead(events: seq<Event>)
    requires Play(events).Some?
    ensures RaisedLeftDead(Play(events).value) && (Play(events).value.SettingUp() ==> !Play(events).value.spawned)
  {
    if events != [] {
      RaisedMeansDead(events[..|events| - 1]);
      EveryPlayKeeps(events[..|events| - 1]);
      StepKeepsRaised(Play(events[..|events| - 1]).value, events[|events| - 1]);
    }
  }

  /** A `start` whose child died before it was ready notices that at its next look. */
  lemma StartNoticesDeath(events: seq<Event>)
    requires Play(events).Some? && Play(events).value.parent.AtLoopHead? && Play(events).value.ready.None?
    requires Play(events).value.HasProc() && Play(events).value.children[Play(events).value.proc.value].life != Alive
    ensures var later := events + [CheckReady] + [CheckDead];
            Play(later).Some? && Play(later).value.parent.StartRaised?
  {
    var e1, s1 := Extend(events, Play(events).value, CheckReady);
    var e2, s2 := Extend(e1, s1, CheckDead);
  }

  // ----- stop: whose summary

  /** If earlier children were settled when the last one's `start` was called, they still are. */
  ghost predicate OthersSettled(s: State) {
    && (s.clear ==> forall i :: 0 <= i < |s.children| - 1 ==> s.children[i].Settled())
    && (s.SettingUp() && s.calm ==> s.AllSettled())
  }

  /** Then the summary file came from the last child and shows how far it got. */
  ghost predicate SummaryIsLast(s: State) {
    && (s.clear && s.summary.Partial? ==> Last(s, s.summary.run) && s.children[s.summary.run].phase == Writing)
    && (s.clear && s.summary.Full? ==> Last(s, s.summary.run) && s.children[s.summary.run].phase == Written)
    && ((s.parent.UnlinkingReady? || s.parent.Spawning?) && s.calm ==> s.summary == Absent)
  }

  /** And if the latest `start` spawned it, the summary is there as far as it was written. */
  ghost predicate SummaryIsThere(s: State) {
    s.clear && s.spawned && s.children != [] ==>
      var r := |s.children| - 1;
      && (s.children[r].phase == Writing ==> s.summary == Partial(r))
      && (s.children[r].phase == Written ==> s.summary == Full(r))
  }

  ghost predicate LastIsDead(s: State) { s.children == [] || s.children[|s.children| - 1].life != Alive }

  ghost predicate ParentIsAt(s: State) {
    && (s.proc.Some? ==> Last(s, s.proc.value))
    && (s.SettingUp() ==> !s.spawned)
    && (s.spawned ==> s.children != [] && s.clear == s.calm)
    && (s.parent.AtLoopHead? || s.parent.Polling? || s.InStop() ==> s.proc.Some?)
    && (s.parent.AtLoopHead? || s.parent.Polling? || s.parent.Started? ==> s.spawned)
    && (s.parent.Reading? || s.proc.None? ==> LastIsDead(s))
  }

  /** An answer with data is the last child's, complete. */
  ghost predicate Truthful(s: State, a: Answer) {
    a.Data? ==> Last(s, a.run) && s.children[a.run].phase == Written
  }

  /** An answer shows how far the summary got: not opened, opened, or written whole. */
  ghost predicate Shows(a: Answer, phase: Phase) {
    && !a.Nothing? && (a == NoSummary <==> phase != Writing && phase != Written)
    && (a == Unparseable <==> phase == Writing) && (a.Data? <==> phase == Written)
  }

  ghost predicate Outcomes(s: State) {
    && (s.parent.Stopped? ==> s.proc.None? && s.parent.answer == s.cached)
    && (s.proc.None? && s.clear ==> Truthful(s, s.cached))
    && (s.proc.None? && s.clear && s.spawned && s.children != [] ==>
          Shows(s.cached, s.children[|s.children| - 1].phase))
  }

  ghost predicate Inv(s: State) {
    OthersSettled(s) && SummaryIsLast(s) && SummaryIsThere(s) && ParentIsAt(s) && Outcomes(s)
  }

  lemma ParentKeepsSettled(s: State, e: Event)
    requires Inv(s) && Enabled(s, e) && !OfChild(e)
    ensures OthersSettled(Next(s, e)) && ParentIsAt(Next(s, e))
  {
  }

  lemma ParentKeepsSummary(s: State, e: Event)
    requires Inv(s) && Enabled(s, e) && !OfChild(e)
    ensures SummaryIsLast(Next(s, e)) && SummaryIsThere(Next(s, e))
  {
  }

  lemma ParentKeepsOutcomes(s: State, e: Event)
    requires Inv(s) && Enabled(s, e) && !OfChild(e)
    ensures Outcomes(Next(s, e))
  {
  }

  lemma AdvanceKeepsSettled(s: State, r: nat)
    requires OthersSettled(s) && Enabled(s, Advance(r))
    ensures OthersSettled(Advanced(s, r))
  {
    assert s.children[r].Settled() ==> Advanced(s, r).children[r].Settled();
  }

  lemma SignalKeepsSettled(s: State, e: Event)
    requires OthersSettled(s) && Enabled(s, e) && (e.Sigterm? || e.Death?)
    ensures OthersSettled(Next(s, e))
  {
    assert s.children[e.run].Settled() ==> Next(s, e).children[e.run].Settled();
  }

  lemma AdvanceKeepsSummary(s: State, r: nat)
    requires OthersSettled(s) && SummaryIsLast(s) && Enabled(s, Advance(r))
    ensures SummaryIsLast(Advanced(s, r))
  {
  }

  lemma AdvanceKeepsThere(s: State, r: nat)
    requires OthersSettled(s) && SummaryIsLast(s) && SummaryIsThere(s) && Enabled(s, Advance(r))
    ensures SummaryIsThere(Advanced(s, r))
  {
  }

  lemma SignalKeepsSummary(s: State, e: Event)
    requires SummaryIsLast(s) && SummaryIsThere(s) && Enabled(s, e) && (e.Sigterm? || e.Death?)
    ensures SummaryIsLast(Next(s, e)) && SummaryIsThere(Next(s, e))
  {
  }

  lemma ChildKeepsParent(s: State, e: Event)
    requires ParentIsAt(s) && Enabled(s, e) && OfChild(e)
    ensures ParentIsAt(Next(s, e))
  {
  }

  lemma ChildKeepsOutcomes(s: State, e: Event)
    requires ParentIsAt(s) && Outcomes(s) && Enabled(s, e) && OfChild(e)
    ensures Outcomes(Next(s, e))
  {
  }

  lemma ChildStepKeeps(s: State, e: Event)
    requires Inv(s) && Enabled(s, e) && OfChild(e)
    ensures Inv(Next(s, e))
  {
    ChildKeepsParent(s, e);
    ChildKeepsOutcomes(s, e);
    if e.Advance? {
      AdvanceKeepsSettled(s, e.run);
      AdvanceKeepsSummary(s, e.run);
      AdvanceKeepsThere(s, e.run);
    } else {
      SignalKeepsSettled(s, e);
      SignalKeepsSummary(s, e);
    }
  }

  lemma ParentStepKeeps(s: State, e: Event)
    requires Inv(s) && Enabled(s, e) && !OfChild(e)
    ensures Inv(Next(s, e))
  {
    ParentKeepsSettled(s, e);
    ParentKeepsSummary(s, e);
    ParentKeepsOutcomes(s, e);
  }

  lemma {:induction false} PlayKeeps(events: seq<Event>)
    requires Play(events).Some?
    ensures Inv(Play(events).value)
  {
    if events != [] {
      var before, e := events[..|events| - 1], events[|events| - 1];
      PlayKeeps(before);
      if OfChild(e) { ChildStepKeeps(Play(before).value, e); } else { ParentStepKeeps(Play(before).value, e); }
    }
  }

  /** What `stop` may answer when the latest `start` spawned child c, run r. */
  ghost predicate Tells(a: Answer, r: nat, c: Child) {
    && (a.Data? ==> a == Data(r)) && Shows(a, c.phase)
    && (!a.Data? ==> c.life == Forced || (c.life == Termed && c.phase == Booting))
  }

  /** `stop` told the truth about the child of the latest `start`. */
  ghost predicate ToldTruth(s: State) {
    s.children != [] && s.parent.Stopped? && Tells(s.parent.answer, |s.children| - 1, s.children[|s.children| - 1])
  }

  /** In every run in which the last child's `start` found every earlier child settled: whatever `stop`
      returns as data is the complete summary of the last child ever spawned.  When the latest `start`
      spawned it, `stop` returns its data exactly if it was written whole, reports that it does not parse
      exactly if it was only opened, and that there is none exactly if it was not; a child that returned
      wrote it, and an error means that it was killed outright, or by a SIGTERM while it was still booting. */
  lemma StopTellsTheTruth(events: seq<Event>)
    requires Play(events).Some? && Play(events).value.parent.Stopped? && Play(events).value.clear
    ensures Truthful(Play(events).value, Play(events).value.parent.answer)
    ensures Play(events).value.spawned ==> ToldTruth(Play(events).value)
  {
    PlayKeeps(events);
    EveryPlayKeeps(events);
    TellsWhenStopped(Play(events).value);
  }

  lemma TellsWhenStopped(s: State)
    requires AllLive(s) && ParentIsAt(s) && Outcomes(s) && s.parent.Stopped? && s.clear
    ensures Truthful(s, s.parent.answer)
    ensures s.spawned ==> ToldTruth(s)
  {
    if s.spawned {
      var c := s.children[|s.children| - 1];
      assert Lives(c);
    }
  }

  /** When `start` failed before it had a child, `stop` repeats what the earlier `stop` returned, data
      of the earlier run included. */
  lemma FailedStartReplays(events: seq<Event>)
    requires Play(events).Some? && Play(events).value.parent.Stopped?
    ensures var later := events + [StartCall] + [SetupFails] + [StopCall];
            && Play(later).Some? && !Play(later).value.spawned
            && Play(later).value.parent == Play(events).value.parent
  {
    PlayKeeps(events);
    var e1, s1 := Extend(events, Play(events).value, StartCall);
    var e2, s2 := Extend(e1, s1, SetupFails);
    var e3, s3 := Extend(e2, s2, StopCall);
  }

  // ----- one session: start returned, then stop

  /** The child a session watches: never replaced, and it only moves on. */
  ghost predicate Watched(s: State, r: nat) {
    Last(s, r) && s.spawned && s.clear && s.children[r].Begun() && !s.SettingUp()
  }

  lemma StepWatches(s: State, e: Event, r: nat)
    requires Watched(s, r) && Enabled(s, e) && e != StartCall
    ensures Watched(Next(s, e), r)
  {
  }

  lemma {:induction false} SessionWatches(events: seq<Event>, session: seq<Event>, r: nat)
    requires Play(events).Some? && Play(events).value.parent.Started? && Play(events).value.clear
    requires Play(events).value.proc == Some(r)
    requires Play(events + session).Some? && StartCall !in session
    ensures Watched(Play(events + session).value, r)
  {
    if session == [] {
      PlayKeeps(events);
      EveryPlayKeeps(events);
      assert events + session == events;
    } else {
      var n := |session| - 1;
      LastStep(events, session);
      SessionWatches(events, session[..n], r);
      StepWatches(Play(events + session[..n]).value, session[n], r);
    }
  }

  /** What a `with` block gives: after `start` returned, and whatever SIGTERMs fall in between, `stop`
      returns the summary its child wrote, or an error because the child was killed outright. */
  lemma SessionEnds(events: seq<Event>, session: seq<Event>, r: nat)
    requires Play(events).Some? && Play(events).value.parent.Started? && Play(events).value.clear
    requires Play(events).value.proc == Some(r)
    requires Play(events + session).Some? && StartCall !in session
    requires Play(events + session).value.parent.Stopped?
    ensures var s := Play(events + session).value;
            && r < |s.children|
            && (s.parent.answer == Data(r)
                || (s.parent.answer in {NoSummary, Unparseable} && s.children[r].life == Forced))
  {
    SessionWatches(events, session, r);
    StopTellsTheTruth(events + session);
    WatchedEnds(Play(events + session).value, r);
  }

  lemma WatchedEnds(s: State, r: nat)
    requires Watched(s, r) && s.parent.Stopped? && Tells(s.parent.answer, r, s.children[r])
    ensures s.parent.answer == Data(r) || (s.parent.answer in {NoSummary, Unparseable} && s.children[r].life == Forced)
  {
  }

  // ----- an earlier child that is not settled

  /** `more` goes on from `head` without another `start`. */
  ghost predicate GoesOn(head: seq<Event>, more: seq<Event>, s: State) {
    StartCall !in more && Play(head + more) == Some(s)
  }

  lemma Continue(head: seq<Event>, more: seq<Event>, s: State, e: Event) returns (more': seq<Event>, s': State)
    requires GoesOn(head, more, s) && Enabled(s, e) && e != StartCall
    ensures more' == more + [e] && s' == Next(s, e) && GoesOn(head, more', s')
  {
    more', s' := more + [e], Next(s, e);
    assert (head + more')[..|head + more|] == head + more;
  }

  lemma SpawnsSession(head: seq<Event>, s: State) returns (more: seq<Event>, s': State)
    requires Play(head) == Some(s) && s.parent == UnlinkingSummary
    ensures GoesOn(head, more, s')
    ensures s'.parent == AtLoopHead && s'.spawned && s'.summary == Absent && s'.proc == Some(|s.children|)
    ensures s'.children == s.children + [Child(Booting, false, Alive)]
  {
    assert head + [] == head;
    more, s' := Continue(head, [], s, UnlinkSummary);
    more, s' := Continue(head, more, s', UnlinkReady);
    more, s' := Continue(head, more, s', Spawn);
  }

  lemma StartsSession(head: seq<Event>, more: seq<Event>, s: State, n: nat) returns (more': seq<Event>, s': State)
    requires GoesOn(head, more, s) && s.parent == AtLoopHead && |s.children| == n + 1
    requires s.children[n] == Child(Booting, false, Alive)
    ensures GoesOn(head, more', s')
    ensures s' == s.(parent := Started, children := s.children[n := Child(Looping, false, Alive)], ready := Some(n))
  {
    more', s' := Continue(head, more, s, Advance(n));
    more', s' := Continue(head, more', s', Advance(n));
    more', s' := Continue(head, more', s', Advance(n));
    more', s' := Continue(head, more', s', CheckReady);
  }

  lemma EarlierLeaves(head: seq<Event>, more: seq<Event>, s: State, r: nat) returns (more': seq<Event>, s': State)
    requires GoesOn(head, more, s) && r < |s.children| && s.children[r].life == Alive
    requires s.children[r].phase == Looping || s.children[r].phase == Draining
    ensures GoesOn(head, more', s') && s' == s.(children := s.children[r := Child(Draining, true, Alive)])
  {
    more', s' := Continue(head, more, s, Sigterm(r));
    if s.children[r].phase == Looping { more', s' := Continue(head, more', s', Advance(r)); }
  }

  /** A child that has begun can still write its summary. */
  lemma EarlierWrites(head: seq<Event>, more: seq<Event>, s: State, r: nat) returns (more': seq<Event>, s': State)
    requires GoesOn(head, more, s) && r < |s.children| && s.children[r].life == Alive
    requires s.children[r].phase == Looping || s.children[r].phase == Draining
    ensures GoesOn(head, more', s')
    ensures s' == s.(children := s.children[r := Child(Written, true, Alive)], summary := Full(r))
  {
    more', s' := EarlierLeaves(head, more, s, r);
    more', s' := Continue(head, more', s', Advance(r));
    more', s' := Continue(head, more', s', Advance(r));
  }

  lemma LatestDies(head: seq<Event>, more: seq<Event>, s: State, n: nat) returns (more': seq<Event>, s': State)
    requires GoesOn(head, more, s) && s.parent == Started && s.proc == Some(n) && n < |s.children|
    requires s.children[n] == Child(Looping, false, Alive)
    ensures GoesOn(head, more', s')
    ensures s'.parent == Stopped(AnswerOf(s.summary)) && s'.spawned == s.spawned && |s'.children| == |s.children|
  {
    more', s' := Continue(head, more, s, Death(n));
    more', s' := Continue(head, more', s', StopCall);
    more', s' := Continue(head, more', s', Terminate);
    more', s' := Continue(head, more', s', WaitEnds);
    more', s' := Continue(head, more', s', Read);
  }

  /** Whenever `start` is called while an earlier child is in its loop or leaving it, the run can go on
      so that `start` returns, the earlier child writes its summary, the new one is killed outright,
      and `stop` returns the earlier child's data as this run's. */
  lemma OverlapReturnsForeignData(events: seq<Event>, r: nat) returns (more: seq<Event>)
    requires Play(events).Some? && !Play(events).value.InCall()
    requires var s := Play(events).value;
             r < |s.children| && s.children[r].life == Alive && s.children[r].phase in {Looping, Draining}
    ensures StartCall !in more && Play(events + [StartCall] + more).Some?
    ensures var s := Play(events + [StartCall] + more).value;
            s.spawned && s.parent == Stopped(Data(r)) && |s.children| == |Play(events).value.children| + 1
  {
    var n := |Play(events).value.children|;
    var head, s := Extend(events, Play(events).value, StartCall);
    more, s := SpawnsSession(head, s);
    more, s := StartsSession(head, more, s, n);
    more, s := EarlierWrites(head, more, s, r);
    more, s := LatestDies(head, more, s, n);
  }

  /** Nothing is killed and nothing times out. */
  ghost predicate Undisturbed(more: seq<Event>) {
    forall e :: e in more ==> !e.Death? && !e.WaitTimeout? && !e.Sigterm?
  }

  lemma TellsChild(head: seq<Event>, s: State, r: nat) returns (more: seq<Event>, s': State)
    requires Play(head) == Some(s) && s.parent.Started? && s.proc == Some(r) && r < |s.children|
    requires s.children[r].life == Alive && s.children[r].phase == Looping
    ensures GoesOn(head, more, s') && Undisturbed(more)
    ensures s' == s.(parent := Waiting, children := s.children[r := Child(Looping, true, Alive)])
  {
    assert head + [] == head;
    more, s' := Continue(head, [], s, StopCall);
    more, s' := Continue(head, more, s', Terminate);
  }

  lemma ChildEnds(head: seq<Event>, more: seq<Event>, s: State, r: nat) returns (more': seq<Event>, s': State)
    requires GoesOn(head, more, s) && Undisturbed(more) && r < |s.children|
    requires s.children[r] == Child(Looping, true, Alive)
    ensures GoesOn(head, more', s') && Undisturbed(more')
    ensures s' == s.(children := s.children[r := Child(Written, true, Exited)], summary := Full(r))
  {
    more', s' := Continue(head, more, s, Advance(r));
    more', s' := Continue(head, more', s', Advance(r));
    more', s' := Continue(head, more', s', Advance(r));
    more', s' := Continue(head, more', s', Advance(r));
  }

  lemma ParentReads(head: seq<Event>, more: seq<Event>, s: State, r: nat) returns (more': seq<Event>, s': State)
    requires GoesOn(head, more, s) && Undisturbed(more) && s.parent.Waiting? && s.proc == Some(r) && r < |s.children|
    requires s.children[r].life == Exited && s.summary == Full(r)
    ensures GoesOn(head, more', s') && Undisturbed(more') && s'.parent == Stopped(Data(r))
  {
    more', s' := Continue(head, more, s, WaitEnds);
    more', s' := Continue(head, more', s', Read);
  }

  /** After `start` returned, and with its child in its loop, `stop` can return that child's data without
      anything being killed or timing out. */
  lemma UndisturbedSession(events: seq<Event>) returns (more: seq<Event>)
    requires Play(events).Some? && Play(events).value.parent.Started?
    requires var c := Play(events).value.children; c != [] && c[|c| - 1].life == Alive && c[|c| - 1].phase == Looping
    ensures StartCall !in more && Undisturbed(more) && Play(events + more).Some?
    ensures Play(events + more).value.parent == Stopped(Data(|Play(events).value.children| - 1))
  {
    StartMeansReady(events);
    var r := |Play(events).value.children| - 1;
    var s;
    more, s := TellsChild(events, Play(events).value, r);
    more, s := ChildEnds(events, more, s, r);
    more, s := ParentReads(events, more, s, r);
  }

  /** Such a state is reachable: right after a first `start` returned. */
  lemma OverlapIsReachable() returns (events: seq<Event>)
    ensures Play(events).Some? && !Play(events).value.InCall() && |Play(events).value.children| == 1
    ensures Play(events).value.children[0] == Child(Looping, false, Alive)
  {
    var head, s := Extend([], START, StartCall);
    var more;
    more, s := SpawnsSession(head, s);
    more, s := StartsSession(head, more, s, 0);
    events := head + more;
  }

  /** Whatever follows a `start` called now, up to the next one: if it spawned a child, `stop` tells
      the truth about that child. */
  ghost predicate NextStopIsTrue(events: seq<Event>) {
    forall more :: StartCall !in more && Play(events + [StartCall] + more).Some? ==>
      var s := Play(events + [StartCall] + more).value;
      s.parent.Stopped? && s.spawned ==> ToldTruth(s)
  }

  lemma {:induction false} CalmStays(head: seq<Event>, more: seq<Event>)
    requires Play(head).Some? && Play(head).value.calm
    requires Play(head + more).Some? && StartCall !in more
    ensures Play(head + more).value.calm
  {
    if more == [] {
      assert head + more == head;
    } else {
      var n := |more| - 1;
      LastStep(head, more);
      CalmStays(head, more[..n]);
    }
  }

  lemma SettledMakesTrue(events: seq<Event>)
    requires Play(events).Some? && !Play(events).value.InCall() && Play(events).value.AllSettled()
    ensures NextStopIsTrue(events)
  {
    var head, h := Extend(events, Play(events).value, StartCall);
    forall more | StartCall !in more && Play(head + more).Some?
      ensures var s := Play(head + more).value; s.parent.Stopped? && s.spawned ==> ToldTruth(s)
    {
      CalmStays(head, more);
      PlayKeeps(head + more);
      if Play(head + more).value.parent.Stopped? && Play(head + more).value.spawned { StopTellsTheTruth(head + more); }
    }
  }

  /** Whatever happened before, a `start` called now is sure of its `stop` exactly when every earlier
      child still alive has opened its summary already. */
  lemma StopIsTrueIff(events: seq<Event>)
    requires Play(events).Some? && !Play(events).value.InCall()
    ensures NextStopIsTrue(events) <==> Play(events).value.AllSettled()
  {
    var s := Play(events).value;
    if s.AllSettled() {
      SettledMakesTrue(events);
    } else {
      var r :| 0 <= r < |s.children| && !s.children[r].Settled();
      EveryPlayKeeps(events);
      assert s.children[r].Begun();
      var more := OverlapReturnsForeignData(events, r);
      assert !ToldTruth(Play(events + [StartCall] + more).value);
    }
  }

  // ----- a start that never gets its child

  /** The runs that the file and the cached answer speak of have been. */
  ghost predicate Known(s: State) {
    && (!s.summary.Absent? ==> s.summary.run < |s.children|)
    && (s.cached.Data? ==> s.cached.run < |s.children|)
  }

  lemma StepKnows(s: State, e: Event)
    requires Known(s) && Enabled(s, e)
    ensures Known(Next(s, e))
  {
  }

  lemma {:induction false} PlayKnows(events: seq<Event>)
    requires Play(events).Some?
    ensures Known(Play(events).value)
  {
    if events != [] {
      PlayKnows(events[..|events| - 1]);
      StepKnows(Play(events[..|events| - 1]).value, events[|events| - 1]);
    }
  }

  /** A step that leaves the latest `start` without a child found it so. */
  lemma UnspawnedBefore(s: State, e: Event)
    requires Enabled(s, e) && e != StartCall && !Next(s, e).spawned
    ensures !s.spawned && !e.Spawn? && |Next(s, e).children| == |s.children|
  {
  }

  /** The handle is empty, and `stop` answers what it answered before. */
  ghost predicate Repeats(s: State, a: Answer) {
    s.proc.None? && s.cached == a && !s.InStop() && (s.parent.Stopped? ==> s.parent.answer == a)
    && !s.parent.AtLoopHead? && !s.parent.Polling?
  }

  lemma StepRepeats(s: State, e: Event, a: Answer)
    requires Repeats(s, a) && Enabled(s, e) && e != StartCall && !Next(s, e).spawned
    ensures Repeats(Next(s, e), a)
  {
  }

  lemma {:induction false} UnspawnedRepeats(head: seq<Event>, more: seq<Event>, a: Answer)
    requires Play(head).Some? && Repeats(Play(head).value, a)
    requires StartCall !in more && Play(head + more).Some? && !Play(head + more).value.spawned
    ensures Repeats(Play(head + more).value, a)
  {
    if more == [] {
      assert head + more == head;
    } else {
      var n := |more| - 1;
      LastStep(head, more);
      UnspawnedBefore(Play(head + more[..n]).value, more[n]);
      UnspawnedRepeats(head, more[..n], a);
      StepRepeats(Play(head + more[..n]).value, more[n], a);
    }
  }

  /** With the handle empty, as a `stop` leaves it: however a `start` that never gets its child goes on,
      every later `stop` repeats the earlier answer. */
  lemma UnspawnedStopReplays(events: seq<Event>, more: seq<Event>)
    requires Play(events).Some? && !Play(events).value.InCall() && Play(events).value.proc.None?
    requires StartCall !in more && Play(events + [StartCall] + more).Some?
    requires var s := Play(events + [StartCall] + more).value; s.parent.Stopped? && !s.spawned
    ensures Play(events + [StartCall] + more).value.parent.answer == Play(events).value.cached
    ensures Play(events).value.parent.Stopped? ==>
              Play(events + [StartCall] + more).value.parent == Play(events).value.parent
  {
    var head, s := Extend(events, Play(events).value, StartCall);
    PlayKeeps(events);
    UnspawnedRepeats(head, more, Play(events).value.cached);
  }

  /** Some earlier child can still complete the summary file that lies there or open it. */
  predicate Yields(s: State) {
    exists r :: 0 <= r < |s.children| && s.children[r].life == Alive
                && (s.children[r].phase in {Looping, Draining}
                    || (s.children[r].phase == Writing && s.summary == Partial(r)))
  }

  /** What a `stop` without a new child can find: with the handle empty the cached answer, otherwise the
      summary file as it lies there or as an earlier child completes it. */
  predicate Leftover(s: State) {
    if s.proc.None? then s.cached.Data? else s.summary.Full? || Yields(s)
  }

  /** No data is there, and nobody is left to write any. */
  ghost predicate Dry(s: State) {
    && s.AllSettled() && !s.summary.Full? && !Yields(s)
    && (s.proc.None? ==> !s.cached.Data?) && (s.parent.Stopped? ==> s.proc.None? && s.parent.answer == s.cached)
    && !s.parent.AtLoopHead? && !s.parent.Polling?
  }

  lemma ChildStaysDry(s: State, e: Event)
    requires Dry(s) && Enabled(s, e) && OfChild(e)
    ensures Dry(Next(s, e))
  {
    var s' := Next(s, e);
    assert s.children[e.run].Settled();
    forall r | 0 <= r < |s'.children| ensures s'.children[r].Settled() { assert s.children[r].Settled(); }
  }

  lemma ParentStaysDry(s: State, e: Event)
    requires Dry(s) && Enabled(s, e) && !OfChild(e) && e != StartCall && !Next(s, e).spawned
    ensures Dry(Next(s, e))
  {
  }

  lemma {:induction false} UnspawnedStaysDry(head: seq<Event>, more: seq<Event>)
    requires Play(head).Some? && Dry(Play(head).value)
    requires StartCall !in more && Play(head + more).Some? && !Play(head + more).value.spawned
    ensures Dry(Play(head + more).value)
  {
    if more == [] {
      assert head + more == head;
    } else {
      var n := |more| - 1;
      LastStep(head, more);
      UnspawnedBefore(Play(head + more[..n]).value, more[n]);
      UnspawnedStaysDry(head, more[..n]);
      if OfChild(more[n]) {
        ChildStaysDry(Play(head + more[..n]).value, more[n]);
      } else {
        ParentStaysDry(Play(head + more[..n]).value, more[n]);
      }
    }
  }

  // ----- when `stop` can return data of an earlier run

  /** Some continuation of a `start` called now ends in a `stop` that returns the data of a run that was
      there before. */
  ghost predicate EarlierDataPossible(events: seq<Event>) {
    exists more :: ReturnsEarlier(events, more)
  }

  ghost predicate ReturnsEarlier(events: seq<Event>, more: seq<Event>) {
    && Play(events).Some? && StartCall !in more && Play(events + [StartCall] + more).Some?
    && var s := Play(events + [StartCall] + more).value;
       s.parent.Stopped? && s.parent.answer.Data? && s.parent.answer.run < |Play(events).value.children|
  }

  lemma StopsUnspawned(head: seq<Event>, more: seq<Event>, s: State) returns (more': seq<Event>, s': State)
    requires GoesOn(head, more, s) && s.SettingUp() && (s.proc.Some? ==> s.HasProc())
    ensures GoesOn(head, more', s')
    ensures s'.parent == Stopped(if s.proc.None? then s.cached else AnswerOf(s.summary))
  {
    more', s' := Continue(head, more, s, SetupFails);
    more', s' := Continue(head, more', s', StopCall);
    if s.proc.Some? {
      more', s' := Continue(head, more', s', Terminate);
      more', s' := Continue(head, more', s', WaitTimeout);
      more', s' := Continue(head, more', s', Read);
    }
  }

  /** An earlier child that can completes its summary. */
  lemma YieldsSummary(head: seq<Event>, s: State) returns (more: seq<Event>, s': State)
    requires Play(head) == Some(s) && Yields(s)
    ensures GoesOn(head, more, s') && s'.summary.Full? && s'.parent == s.parent && s'.proc == s.proc
    ensures |s'.children| == |s.children|
  {
    var r :| 0 <= r < |s.children| && s.children[r].life == Alive
             && (s.children[r].phase in {Looping, Draining}
                 || (s.children[r].phase == Writing && s.summary == Partial(r)));
    assert head + [] == head;
    if s.children[r].phase == Writing {
      more, s' := Continue(head, [], s, Advance(r));
    } else {
      more, s' := EarlierWrites(head, [], s, r);
    }
  }

  lemma LeftoverReturns(events: seq<Event>)
    requires Play(events).Some? && !Play(events).value.InCall() && Leftover(Play(events).value)
    ensures EarlierDataPossible(events)
  {
    var now := Play(events).value;
    PlayKeeps(events);
    var head, s := Extend(events, now, StartCall);
    var more: seq<Event> := [];
    assert head + [] == head;
    if now.proc.Some? && !now.summary.Full? { more, s := YieldsSummary(head, s); }
    PlayKnows(head + more);
    more, s := StopsUnspawned(head, more, s);
    assert ReturnsEarlier(events, more);
  }

  lemma UnsettledReturns(events: seq<Event>)
    requires Play(events).Some? && !Play(events).value.InCall() && !Play(events).value.AllSettled()
    ensures EarlierDataPossible(events)
  {
    var s := Play(events).value;
    var r :| 0 <= r < |s.children| && !s.children[r].Settled();
    EveryPlayKeeps(events);
    assert s.children[r].Begun();
    var more := OverlapReturnsForeignData(events, r);
    assert ReturnsEarlier(events, more);
  }

  /** One child more than the n before, if the latest `start` spawned one. */
  ghost predicate Counted(s: State, n: nat) {
    |s.children| == (if s.spawned then n + 1 else n) && (s.SettingUp() ==> !s.spawned)
  }

  lemma StepCounts(s: State, e: Event, n: nat)
    requires Counted(s, n) && Enabled(s, e) && e != StartCall
    ensures Counted(Next(s, e), n)
  {
  }

  /** A `start` gets at most one child. */
  lemma {:induction false} OneChildPerStart(head: seq<Event>, more: seq<Event>, n: nat)
    requires Play(head).Some? && Counted(Play(head).value, n)
    requires StartCall !in more && Play(head + more).Some?
    ensures Counted(Play(head + more).value, n)
  {
    if more == [] {
      assert head + more == head;
    } else {
      LastStep(head, more);
      OneChildPerStart(head, more[..|more| - 1], n);
      StepCounts(Play(head + more[..|more| - 1]).value, more[|more| - 1], n);
    }
  }

  /** With every earlier child settled and nothing left over, data can only be the new run's. */
  lemma DataIsNew(events: seq<Event>, more: seq<Event>)
    requires Play(events).Some? && !Play(events).value.InCall()
    requires Play(events).value.AllSettled() && !Leftover(Play(events).value)
    requires StartCall !in more && Play(events + [StartCall] + more).Some?
    ensures var s := Play(events + [StartCall] + more).value;
            s.parent.Stopped? && s.parent.answer.Data? ==> s.parent.answer.run >= |Play(events).value.children|
  {
    var head, h := Extend(events, Play(events).value, StartCall);
    var s := Play(head + more).value;
    OneChildPerStart(head, more, |Play(events).value.children|);
    if s.parent.Stopped? {
      if s.spawned {
        SettledMakesTrue(events);
      } else if h.proc.None? {
        UnspawnedStopReplays(events, more);
      } else {
        UnspawnedStaysDry(head, more);
      }
    }
  }

  /** A `stop` that follows a `start` called now can return data of an earlier run exactly when an earlier
      child still alive has not opened its summary, or the `start` may fail before it has a child and
      there is data left over: cached, with the handle empty; in the file, or about to be, otherwise. */
  lemma EarlierDataIff(events: seq<Event>)
    requires Play(events).Some? && !Play(events).value.InCall()
    ensures EarlierDataPossible(events) <==>
            !Play(events).value.AllSettled() || Leftover(Play(events).value)
  {
    var s := Play(events).value;
    if !s.AllSettled() {
      UnsettledReturns(events);
    } else if Leftover(s) {
      LeftoverReturns(events);
    } else {
      forall more | StartCall !in more && Play(events + [StartCall] + more).Some?
        ensures !ReturnsEarlier(events, more)
      {
        DataIsNew(events, more);
      }
    }
  }
}
