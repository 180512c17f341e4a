/**
 How long a processed STOP or DELETE lasts. The daemon's own START may be queued behind it, so
 it does not always last; it does exactly if nothing queued behind it starts the timer again.
 */
module TimerStop {
  import opened Ticks
  import opened TimerModel
  import opened TimerInvariant
  import opened TimerRuns
  import opened TimerDrain
  import opened TimerRoom

  /** The commands that start no timer. */
  predicate Harmless(c: Command) {
    c.Stop? || c.Delete? || c.Unknown?
  }

  /** The timer is in neither list, and no queued command will start it. */
  ghost predicate Quiet(s: Service, t: int) {
    Waiting(s, t) == [] && forall m <- Pending(s.queue, t) :: Harmless(m.command)
  }

  ghost predicate OthersOnly(run: seq<Event>, t: int) {
    forall i :: 0 <= i < |run| ==> LeftAlone(run[i], t)
  }

  /** At the end of the run the timer is in neither list and has not fired. */
  ghost predicate StaysStopped(s: Service, run: seq<Event>, t: int)
    requires Inv(s) && AllowedRun(s, run)
  {
    Waiting(After(s, run), t) == [] && Fired(After(s, run).log, t) == Fired(s.log, t)
  }

  lemma PendingMember(q: seq<Msg>, t: int, i: int)
    requires 0 <= i < |q| && q[i].timer == t
    ensures q[i] in Pending(q, t)
  {
    if i > 0 { PendingMember(q[1..], t, i - 1); }
  }

  lemma PendingIndex(q: seq<Msg>, t: int, m: Msg) returns (i: nat)
    requires m in Pending(q, t)
    ensures i < |q| && q[i] == m && m.timer == t
  {
    if q[0] == m && m.timer == t {
      i := 0;
    } else {
      var j := PendingIndex(q[1..], t, m);
      i := j + 1;
    }
  }

  // ----- a quiet timer stays quiet -----

  /** Receiving a harmless command takes its timer out of the lists, and nothing more. */
  lemma HarmlessReceived(s: Service, now: int, t: int)
    requires Inv(s) && Allowed(s, Accept(now))
    requires s.queue[0].timer == t && Harmless(s.queue[0].command)
    ensures Seen(Step(s, Accept(now)), t) == Seen(s, t).(waiting := [], pending := Pending(s.queue[1..], t))
  {
    DequeueSeen(s, t);
    AcceptParts(s, now);
    SampleLeavesAbsent(Dequeue(s), now, t);
  }

  lemma StepQuiet(s: Service, e: Event, t: int)
    requires Inv(s) && Allowed(s, e) && LeftAlone(e, t) && Quiet(s, t)
    ensures Quiet(Step(s, e), t) && Fired(Step(s, e).log, t) == Fired(s.log, t)
  {
    if e.Accept? && s.queue[0].timer == t {
      assert Pending(s.queue, t)[0] == s.queue[0];
      HarmlessReceived(s, e.now, t);
    } else {
      StepUntouched(s, e, t);
    }
  }

  /** A timer that is quiet neither waits nor fires until somebody posts another command for it. */
  lemma {:induction false} StoppedForGood(s: Service, run: seq<Event>, t: int)
    requires Inv(s) && AllowedRun(s, run) && OthersOnly(run, t) && Quiet(s, t)
    ensures Quiet(After(s, run), t) && StaysStopped(s, run, t)
    decreases |run|
  {
    if run != [] {
      StepQuiet(s, run[0], t);
      StepKeeps(s, run[0]);
      StoppedForGood(Step(s, run[0]), run[1..], t);
    }
  }

  // ----- and only a quiet one does -----

  lemma SampleKeepsQueued(s: Service, now: int)
    requires Inv(s)
    ensures |s.queue| <= |Sample(s, now).queue| && Sample(s, now).queue[..|s.queue|] == s.queue
  {
    if RolledOver(s, now) { DrainQueue(s, Rollover(s.last), now); }
  }

  /** Receiving a command leaves the rest of the queue in place. */
  lemma ReceiveQueue(s: Service, now: int)
    requires Inv(s) && Allowed(s, Accept(now))
    ensures var q := Step(s, Accept(now)).queue;
            |s.queue| - 1 <= |q| && q[..|s.queue| - 1] == s.queue[1..]
  {
    AcceptParts(s, now);
    var d := Sample(Dequeue(s), now);
    SampleKeepsQueued(Dequeue(s), now);
    ObeyQueue(d, s.queue[0], now);
    assert Dequeue(s).queue == s.queue[1..];
    hide Inv, Step, Sample, Obey, Dequeue, Allowed;
    var q := Step(s, Accept(now)).queue;
    assert q[..|s.queue| - 1] == q[..|d.queue|][..|s.queue| - 1];
  }

  lemma ObeyQueue(s: Service, m: Msg, now: int)
    requires m.timer in s.timers
    ensures |s.queue| <= |Obey(s, m, now).queue| && Obey(s, m, now).queue[..|s.queue|] == s.queue
  {
  }

  /** Receiving a START or a CHANGE_PERIOD makes the timer wait or fire. */
  lemma Wakes(s: Service, now: int, t: int)
    requires Inv(s) && Allowed(s, Accept(now)) && Waiting(s, t) == []
    requires s.queue[0].timer == t && !Harmless(s.queue[0].command)
    ensures var r := Step(s, Accept(now)); Waiting(r, t) != [] || Fired(r.log, t) != Fired(s.log, t)
  {
    var m := s.queue[0];
    DequeueSeen(s, t);
    AcceptParts(s, now);
    SampleLeavesAbsent(Dequeue(s), now, t);
    var d := Sample(Dequeue(s), now);
    hide Sample, Dequeue;
    ObeySeen(d, m, now, t);
    if m.command.ChangePeriod? {
      ActivateWaiting(d.(timers := d.timers[t := d.timers[t].(period := m.value)]), t, now, now, t);
    }
  }

  /** The run that receives commands up to message `i`, which starts the timer. */
  lemma {:induction false} WokenUp(s: Service, now: int, t: int, i: nat) returns (run: seq<Event>)
    requires Inv(s) && Prompt(s, now) && Waiting(s, t) == []
    requires i < |s.queue| && s.queue[i].timer == t && !Harmless(s.queue[i].command)
    ensures AllowedRun(s, run) && OthersOnly(run, t) && !StaysStopped(s, run, t)
    decreases i
  {
    hide Prompt, Inv, Allowed, Step;
    ReceivePrompt(s, now);
    StepKeeps(s, Accept(now));
    var r := Step(s, Accept(now));
    if s.queue[0].timer == t && !Harmless(s.queue[0].command) {
      Wakes(s, now, t);
      run := [Accept(now)];
      assert AllowedRun(r, run[1..]) && After(s, run) == r;
    } else {
      if s.queue[0].timer == t {
        HarmlessReceived(s, now, t);
      } else {
        StepUntouched(s, Accept(now), t);
      }
      ReceiveQueue(s, now);
      assert r.queue[i - 1] == r.queue[..|s.queue| - 1][i - 1];
      var rest := WokenUp(r, now, t, i - 1);
      run := [Accept(now)] + rest;
      assert run[1..] == rest;
    }
  }

  /**
   A timer that is in neither list stays stopped over every run in which nobody posts a command
   for it, if and only if every command already queued for it is a STOP, a DELETE or unknown.
   */
  lemma StaysStoppedExactly(s: Service, now: int, t: int)
    requires Inv(s) && Prompt(s, now) && Waiting(s, t) == []
    ensures (forall run :: AllowedRun(s, run) && OthersOnly(run, t) ==> StaysStopped(s, run, t))
            <==> forall m <- Pending(s.queue, t) :: Harmless(m.command)
  {
    if forall m <- Pending(s.queue, t) :: Harmless(m.command) {
      forall run | AllowedRun(s, run) && OthersOnly(run, t) ensures StaysStopped(s, run, t) {
        StoppedForGood(s, run, t);
      }
    } else {
      var m :| m in Pending(s.queue, t) && !Harmless(m.command);
      var i := PendingIndex(s.queue, t, m);
      var run := WokenUp(s, now, t, i);
    }
  }

  /** So a STOP or DELETE about to be received lasts exactly if nothing queued behind it starts the timer. */
  lemma StopLastsExactly(s: Service, now: int, t: int)
    requires Inv(s) && Prompt(s, now) && s.queue != []
    requires s.queue[0].timer == t && (s.queue[0].command.Stop? || s.queue[0].command.Delete?)
    ensures Allowed(s, Accept(now)) && Inv(Step(s, Accept(now)))
    ensures var r := Step(s, Accept(now));
            && Waiting(r, t) == [] && Fired(r.log, t) == Fired(s.log, t)
            && ((forall run :: AllowedRun(r, run) && OthersOnly(run, t) ==> StaysStopped(r, run, t))
                <==> forall m <- Pending(s.queue[1..], t) :: Harmless(m.command))
  {
    hide Prompt, Inv, Allowed, Step;
    ReceivePrompt(s, now);
    StepKeeps(s, Accept(now));
    HarmlessReceived(s, now, t);
    StaysStoppedExactly(Step(s, Accept(now)), now, t);
  }

  // ----- a STOP that does not last -----

  /** A rollover that finds one auto-reload timer, due again only after it. */
  lemma DrainSingle(s: Service, boundary: int, now: int, e: Entry)
    requires Drainable(s, boundary) && s.current == [e] && IsAuto(e.timer, s.timers)
    requires e.expiry + s.timers[e.timer].period >= boundary && |s.queue| < QUEUE_LENGTH
    ensures Drain(s, boundary, now)
            == s.(current := [], queue := s.queue + [Msg(Start, e.timer, e.expiry)],
                  log := s.log + [Firing(e.timer, e.expiry, now)])
  {
    DrainOneProgress(s, boundary, now);
    var d := DrainOne(s, boundary, now);
    assert d.current == [] && Drain(d, boundary, now) == d;
  }

  /** One auto-reload timer of period 5, due five ticks before the rollover. */
  const LONE: map<int, Attr> := map[0 := Attr(5, true)]

  /** The timer waits, and a user's STOP is queued. */
  const BEFORE_ROLLOVER: Service := Service([Entry(0, BEFORE + 5)], [], [Msg(Stop, 0, 0)], BEFORE, LONE, [])

  /** The rollover came first: the daemon's own START is queued behind the STOP. */
  const OVERTAKEN: Service :=
    Service([], [], [Msg(Stop, 0, 0), Msg(Start, 0, BEFORE + 5)], M, LONE, [Firing(0, BEFORE + 5, M)])

  /** The STOP has been received. */
  const STOPPED: Service := OVERTAKEN.(queue := [Msg(Start, 0, BEFORE + 5)])

  function StopRun(): seq<Event> {
    CrowdRun(1) + [Post(Msg(Stop, 0, 0))] + [Serve(M)]
  }

  lemma StopPosted()
    requires Inv(Crowd(1))
    ensures Allowed(Crowd(1), Post(Msg(Stop, 0, 0))) && Step(Crowd(1), Post(Msg(Stop, 0, 0))) == BEFORE_ROLLOVER
  {
    hide Inv;
    assert CrowdList(1) == [Entry(0, BEFORE + 5)];
    assert CrowdTimers(1) == LONE;
  }

  lemma StopRollsOver()
    requires Inv(BEFORE_ROLLOVER)
    ensures Allowed(BEFORE_ROLLOVER, Serve(M)) && Step(BEFORE_ROLLOVER, Serve(M)) == OVERTAKEN
  {
    var s := BEFORE_ROLLOVER;
    SoundDrainable(s, M);
    DrainSingle(s, M, M, Entry(0, BEFORE + 5));
    hide Inv, Drain;
    assert Sample(s, M) == OVERTAKEN;
  }

  lemma OvertakenAccepts()
    requires Inv(OVERTAKEN)
    ensures Allowed(OVERTAKEN, Accept(M)) && Step(OVERTAKEN, Accept(M)) == STOPPED && Inv(STOPPED)
  {
    AcceptAllowed(OVERTAKEN);
    AcceptParts(OVERTAKEN, M);
    hide Inv;
    assert Dequeue(OVERTAKEN) == STOPPED;
    assert Sample(STOPPED, M) == STOPPED;
  }

  lemma AcceptAllowed(s: Service)
    requires s.last == M && s.queue != [] && (s.queue[0].command.Start? ==> s.queue[0].value <= M < s.queue[0].value + M)
    ensures Allowed(s, Accept(M))
  {
  }

  lemma StoppedAccepts()
    requires Inv(STOPPED)
    ensures Allowed(STOPPED, Accept(M))
    ensures Step(STOPPED, Accept(M)).log == STOPPED.log + [Firing(0, M, M)]
  {
    AcceptAllowed(STOPPED);
    AcceptParts(STOPPED, M);
    hide Inv;
    var d := Dequeue(STOPPED);
    assert d == STOPPED.(queue := []);
    assert Sample(d, M) == d;
  }

  /** Reached from the empty service: the STOP is received, and after it the timer fires again. */
  lemma StopOvertaken()
    ensures Inv(EMPTY) && AllowedRun(EMPTY, StopRun()) && After(EMPTY, StopRun()) == OVERTAKEN
    ensures Inv(OVERTAKEN) && Allowed(OVERTAKEN, Accept(M)) && OVERTAKEN.queue[0].command.Stop?
    ensures var stopped := Step(OVERTAKEN, Accept(M));
            && Inv(stopped) && Waiting(stopped, 0) == [] && Fired(stopped.log, 0) == [BEFORE + 5]
            && Allowed(stopped, Accept(M)) && Fired(Step(stopped, Accept(M)).log, 0) == [BEFORE + 5, M]
  {
    CrowdGathers(1);
    StopReached();
    OvertakenAccepts();
    StoppedAccepts();
    assert Waiting(STOPPED, 0) == [] && Fired(STOPPED.log, 0) == [BEFORE + 5];
    hide Inv, Step, Allowed, AllowedRun, After;
    FiredAppend(STOPPED.log, Firing(0, M, M), 0);
  }

  lemma StopReached()
    requires Inv(EMPTY) && AllowedRun(EMPTY, CrowdRun(1)) && After(EMPTY, CrowdRun(1)) == Crowd(1)
    ensures AllowedRun(EMPTY, StopRun()) && After(EMPTY, StopRun()) == OVERTAKEN && Inv(OVERTAKEN)
  {
    hide Inv, Step, Allowed, CrowdRun, Crowd, AllowedRun;
    var run, post := CrowdRun(1), Post(Msg(Stop, 0, 0));
    StopPosted();
    AfterThen(EMPTY, run, post);
    StopRollsOver();
    AfterThen(EMPTY, run + [post], Serve(M));
  }
}
