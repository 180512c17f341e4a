/**
 What the settings of a timer mean: its period and whether it reloads, as they were given when
 it was created or by the last CHANGE_PERIOD, decide when it fires.
 */
module TimerSettings {
  import opened Ticks
  import opened TimerModel
  import opened TimerInvariant
  import opened TimerRuns
  import opened TimerCatchUp

  // ----- which steps change settings -----

  lemma ObeyTimers(s: Service, m: Msg, now: int)
    requires m.timer in s.timers
    ensures Obey(s, m, now).timers
            == if m.command.ChangePeriod? then s.timers[m.timer := Attr(m.value, s.timers[m.timer].autoReload)]
               else s.timers
  {
  }

  /** A command that sets the period of timer `t`. */
  predicate SetsPeriod(s: Service, e: Event, t: int) {
    e.Accept? && s.queue != [] && s.queue[0].command.ChangePeriod? && s.queue[0].timer == t
  }

  /**
   No step changes a timer's settings, START, STOP and DELETE included, but a received
   CHANGE_PERIOD its period. A created timer has the settings it was created with.
   */
  lemma SettingsExactly(s: Service, e: Event, t: int)
    requires Inv(s) && Allowed(s, e)
    ensures t in Step(s, e).timers <==> t in s.timers || (e.Create? && e.timer == t)
    ensures t in s.timers ==>
              Step(s, e).timers[t]
              == if SetsPeriod(s, e, t) then Attr(s.queue[0].value, s.timers[t].autoReload) else s.timers[t]
    ensures e.Create? && e.timer == t ==> Step(s, e).timers[t] == e.attr
  {
    match e
    case Serve(now) => SampleKeeps(s, now);
    case Accept(now) =>
      AcceptParts(s, now);
      ObeyTimers(Sample(Dequeue(s), now), s.queue[0], now);
    case Post(m) =>
    case Create(u, a) =>
  }

  // ----- one-shot timers -----

  /** The one expiry of a one-shot timer. */
  function Once(p: Plan): int {
    p.start + p.period
  }

  /** A one-shot timer has its START pending, or waits, or has fired once and is quiet. */
  ghost predicate OneShot(s: Service, p: Plan) {
    && p.timer in s.timers && s.timers[p.timer] == Attr(p.period, false)
    && var v := Seen(s, p.timer);
       || v == View([], [Msg(Start, p.timer, p.start)], p.before)
       || v == View([Once(p)], [], p.before)
       || v == View([], [], p.before + [Once(p)])
  }

  lemma DrainOneOnce(s: Service, boundary: int, now: int, p: Plan)
    requires Sound(s) && s.current != [] && OneShot(s, p)
    ensures OneShot(DrainOne(s, boundary, now), p)
  {
    DrainOneSeen(s, boundary, now, p.timer);
    if s.current[0].timer == p.timer { WaitingHead(s); }
  }

  lemma DrainOnce(s: Service, boundary: int, now: int, p: Plan)
    requires Sound(s) && Epochs(s, boundary) && OneShot(s, p)
    ensures OneShot(Drain(s, boundary, now), p)
    decreases TicksLeft(s.current, boundary)
  {
    if s.current != [] {
      hide OneShot;
      DrainOneOnce(s, boundary, now, p);
      DrainOneKeeps(s, boundary, now);
      DrainOneProgress(s, boundary, now);
      DrainOnce(DrainOne(s, boundary, now), boundary, now, p);
    }
  }

  lemma SampleOnce(s: Service, now: int, p: Plan)
    requires Inv(s) && OneShot(s, p)
    ensures OneShot(Sample(s, now), p)
  {
    SampleSeen(s, now, p.timer);
    DrainKeepsSampled(s, now);
    if RolledOver(s, now) { DrainOnce(s, Rollover(s.last), now, p); }
  }

  lemma ReceiveOnce(s: Service, now: int, p: Plan)
    requires Inv(s) && Allowed(s, Accept(now)) && OneShot(s, p)
    ensures OneShot(Step(s, Accept(now)), p)
  {
    var m, d := s.queue[0], Dequeue(s);
    DequeueSeen(s, p.timer);
    AcceptParts(s, now);
    ObeyTimers(Sample(d, now), m, now);
    if m.timer == p.timer {
      assert Pending(s.queue, p.timer)[0] == m;
      SampleLeavesAbsent(d, now, p.timer);
    } else {
      SampleOnce(d, now, p);
    }
    hide Inv, Sample, Dequeue, Obey;
    ObeySeen(Sample(d, now), m, now, p.timer);
  }

  lemma StepOnce(s: Service, e: Event, p: Plan)
    requires Inv(s) && Allowed(s, e) && LeftAlone(e, p.timer) && OneShot(s, p)
    ensures OneShot(Step(s, e), p)
  {
    match e
    case Serve(now) =>
      SampleOnce(s, now, p);
      SampleKeeps(s, now);
      if !RolledOver(s, now) && s.current != [] && s.current[0].expiry <= now {
        var r := Sample(s, now);
        ProcessExpiredSeen(r, now, p.timer);
        if r.current[0].timer == p.timer { WaitingHead(r); }
      }
    case Accept(now) => ReceiveOnce(s, now, p);
    case Post(m) => SendSeen(s, m, p.timer);
    case Create(u, a) => assert Seen(Step(s, e), p.timer) == Seen(s, p.timer);
  }

  /** Over every run left alone a one-shot timer fires once at most, and only at start + period. */
  lemma {:induction false} RunOnce(s: Service, run: seq<Event>, p: Plan)
    requires Inv(s) && AllowedRun(s, run) && OneShot(s, p)
    requires forall i :: 0 <= i < |run| ==> LeftAlone(run[i], p.timer)
    ensures OneShot(After(s, run), p)
    decreases |run|
  {
    if run != [] {
      hide OneShot;
      StepOnce(s, run[0], p);
      StepKeeps(s, run[0]);
      RunOnce(Step(s, run[0]), run[1..], p);
    }
  }

  lemma FiredBy(log: seq<Firing>, now: int, t: int)
    requires NoneEarly(log, now)
    ensures forall x <- Fired(log, t) :: x <= now
  {
    if log != [] { FiredBy(log[1..], now, t); }
  }

  /** And once the daemon has caught up it has fired exactly if that time has come. */
  lemma CaughtUpFiresOnce(s: Service, p: Plan)
    requires Inv(s) && OneShot(s, p) && CaughtUp(s) && NoneEarly(s.log, s.last)
    ensures Pending(s.queue, p.timer) == []
    ensures Fired(s.log, p.timer) == p.before + if Once(p) <= s.last then [Once(p)] else []
  {
    FiredBy(s.log, s.last, p.timer);
    DueAfterHead(s.current, p.timer, s.last);
    DueBounds(s.overflow, p.timer, Rollover(s.last));
    Split(s.last);
    hide Inv, Due, Fired;
    if Waiting(s, p.timer) != [] {
      assert Once(p) in Waiting(s, p.timer);
    } else {
      assert Pending(s.queue, p.timer) == [];
      assert Fired(s.log, p.timer) == p.before + [Once(p)];
      assert Fired(s.log, p.timer)[|p.before|] == Once(p) && Once(p) in Fired(s.log, p.timer);
    }
  }

  // ----- how such runs begin -----

  lemma UnknownSeen(s: Service, t: int)
    requires Inv(s) && t !in s.timers
    ensures Waiting(s, t) == [] && Pending(s.queue, t) == []
  {
    UnknownDue(s.current, s.timers, t);
    UnknownDue(s.overflow, s.timers, t);
    UnknownPending(s.queue, s.timers, t);
  }

  lemma UnknownDue(l: seq<Entry>, timers: map<int, Attr>, t: int)
    requires Known(l, timers) && t !in timers
    ensures Due(l, t) == []
  {
  }

  lemma UnknownPending(q: seq<Msg>, timers: map<int, Attr>, t: int)
    requires (forall i :: 0 <= i < |q| ==> GoodMsg(q[i], timers)) && t !in timers
    ensures Pending(q, t) == []
  {
  }

  /**
   A timer created with some settings and then started: an auto-reload timer is on schedule,
   and any other is to fire once.
   */
  lemma CreatedAndStarted(s: Service, t: int, a: Attr, start: int)
    requires Inv(s) && Allowed(s, Create(t, a)) && |s.queue| < QUEUE_LENGTH
    ensures Inv(Step(s, Create(t, a))) && Allowed(Step(s, Create(t, a)), Post(Msg(Start, t, start)))
    ensures var r := Step(Step(s, Create(t, a)), Post(Msg(Start, t, start)));
            var p := Plan(t, start, a.period, Fired(s.log, t));
            if a.autoReload then OnSchedule(r, p) else OneShot(r, p)
  {
    hide Inv, Known, GoodQueue;
    StepKeeps(s, Create(t, a));
    JustCreated(s, t, a);
    JustStarted(Step(s, Create(t, a)), t, start);
  }

  lemma JustCreated(s: Service, t: int, a: Attr)
    requires Inv(s) && Allowed(s, Create(t, a))
    ensures var r := Step(s, Create(t, a));
            Seen(r, t) == View([], [], Fired(s.log, t)) && t in r.timers && r.timers[t] == a && r.queue == s.queue
  {
    UnknownSeen(s, t);
    hide Inv, Due, Pending, Fired;
  }

  lemma JustStarted(s: Service, t: int, start: int)
    requires t in s.timers && Waiting(s, t) == [] && Pending(s.queue, t) == [] && |s.queue| < QUEUE_LENGTH
    ensures var r := Send(s, Msg(Start, t, start));
            var p := Plan(t, start, s.timers[t].period, Fired(s.log, t));
            if s.timers[t].autoReload then OnSchedule(r, p) else OneShot(r, p)
  {
    SendSeen(s, Msg(Start, t, start), t);
    var r := Send(s, Msg(Start, t, start));
    hide Send;
    if s.timers[t].autoReload { StartedOnSchedule(r, t, start); }
  }

  /**
   CHANGE_PERIOD P received at `now` starts the timer afresh: an auto-reload timer with nothing
   else pending is to fire at now + P, now + 2*P, and so on, and any other once at now + P.
   */
  lemma PeriodChanged(s: Service, now: int, t: int)
    requires Inv(s) && Allowed(s, Accept(now)) && SetsPeriod(s, Accept(now), t)
    requires Pending(s.queue[1..], t) == []
    ensures t in s.timers
    ensures var p := Plan(t, now, s.queue[0].value, Fired(s.log, t));
            if s.timers[t].autoReload then OnSchedule(Step(s, Accept(now)), p) else OneShot(Step(s, Accept(now)), p)
  {
    AcceptParts(s, now);
    assert Drainable(Dequeue(s), Rollover(Dequeue(s).last));
    DequeueSeen(s, t);
    SampleLeavesAbsent(Dequeue(s), now, t);
    var d := Sample(Dequeue(s), now);
    assert Seen(d, t) == View([], [], Fired(s.log, t)) && d.timers == s.timers && d.last == now;
    assert GoodMsg(s.queue[0], s.timers);
    hide Inv, Sample, Dequeue, Allowed, Step;
    PeriodObeyed(d, s.queue[0], now);
  }

  lemma PeriodObeyed(s: Service, m: Msg, now: int)
    requires m.timer in s.timers && m.command.ChangePeriod? && 0 < m.value && s.last == now
    requires Waiting(s, m.timer) == [] && Pending(s.queue, m.timer) == []
    ensures var p := Plan(m.timer, now, m.value, Fired(s.log, m.timer));
            var r := Obey(s, m, now);
            if s.timers[m.timer].autoReload then OnSchedule(r, p) else OneShot(r, p)
  {
    var t := m.timer;
    var d := s.(timers := s.timers[t := s.timers[t].(period := m.value)]);
    assert Seen(d, t) == Seen(s, t);
    ActivateSeen(d, t, now, now, t);
    assert Multiples(now, m.value, 0) == [];
    assert Fired(s.log, t) + [] == Fired(s.log, t);
    ObeyTimers(s, m, now);
  }
}
