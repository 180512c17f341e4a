/**
 Whole runs of the timer service: the daemon's steps, commands posted by other tasks at any
 point between them, timers created at any point, and time passing arbitrarily.
 */
module TimerRuns {
  import opened Ticks
  import opened TimerModel
  import opened TimerInvariant

  /** `Serve` is one pass of prvTimerTask's loop head, `Accept` one received command. */
  datatype Event =
    | Serve(now: int)
    | Accept(now: int)
    | Post(m: Msg)
    | Create(timer: int, attr: Attr)

  ghost predicate Allowed(s: Service, e: Event) {
    match e
    case Serve(now) => Timely(s, now)
    case Accept(now) => s.queue != [] && Timely(Dequeue(s), now) && TimelyCommand(s.queue[0], now)
    case Post(m) => GoodMsg(m, s.timers)
    case Create(t, a) => t !in s.timers && 0 < a.period < M
  }

  ghost function Step(s: Service, e: Event): (r: Service)
    requires Inv(s) && Allowed(s, e)
  {
    match e
    case Serve(now) => TimerOrBlock(s, now)
    case Accept(now) =>
      ReceiveKeeps(s, now);
      DequeueKeeps(s);
      Receive(s, now)
    case Post(m) => Send(s, m)
    case Create(t, a) => s.(timers := s.timers[t := a])
  }

  /** No timer is in two places, and every entry is in the list of its epoch, after any step. */
  lemma StepKeeps(s: Service, e: Event)
    requires Inv(s) && Allowed(s, e)
    ensures Inv(Step(s, e))
    ensures Step(s, e).last >= s.last
  {
    match e
    case Serve(now) => TimerOrBlockKeeps(s, now);
    case Accept(now) => ReceiveKeeps(s, now);
    case Post(m) => SendKeeps(s, m);
    case Create(t, a) => SettingKeeps(s, t, a);
  }

  /** Receiving a command, taken apart: it is obeyed in a sampled state without its timer. */
  lemma AcceptParts(s: Service, now: int)
    requires Inv(s) && Allowed(s, Accept(now))
    ensures var m := s.queue[0];
            && Inv(Dequeue(s)) && m.timer in s.timers
            && Sample(Dequeue(s), now).timers == s.timers && Sample(Dequeue(s), now).last == now
            && Inv(Sample(Dequeue(s), now))
            && Waiting(Sample(Dequeue(s), now), m.timer) == []
            && Step(s, Accept(now)) == Obey(Sample(Dequeue(s), now), m, now)
  {
    DequeueKeeps(s);
    SampleKeeps(Dequeue(s), now);
    SampleLeavesAbsent(Dequeue(s), now, s.queue[0].timer);
  }

  ghost predicate AllowedRun(s: Service, run: seq<Event>)
    requires Inv(s)
    decreases |run|
  {
    run == [] || (Allowed(s, run[0]) && (StepKeeps(s, run[0]); AllowedRun(Step(s, run[0]), run[1..])))
  }

  ghost function After(s: Service, run: seq<Event>): (r: Service)
    requires Inv(s) && AllowedRun(s, run)
    ensures Inv(r) && r.last >= s.last
    decreases |run|
  {
    if run == [] then s
    else
      StepKeeps(s, run[0]);
      After(Step(s, run[0]), run[1..])
  }

  lemma {:induction false} AfterThen(s: Service, run: seq<Event>, e: Event)
    requires Inv(s)
    ensures AllowedRun(s, run) && Allowed(After(s, run), e) ==>
              AllowedRun(s, run + [e]) && After(s, run + [e]) == Step(After(s, run), e)
    decreases |run|
  {
    if run == [] {
      assert run + [e] == [e];
      if Allowed(s, e) {
        StepKeeps(s, e);
        assert AllowedRun(Step(s, e), []);
      }
    } else if Allowed(s, run[0]) {
      StepKeeps(s, run[0]);
      assert (run + [e])[1..] == run[1..] + [e] && (run + [e])[0] == run[0];
      AfterThen(Step(s, run[0]), run[1..], e);
    }
  }

  lemma {:induction false} AfterAppend(s: Service, a: seq<Event>, b: seq<Event>)
    requires Inv(s) && AllowedRun(s, a) && AllowedRun(After(s, a), b)
    ensures AllowedRun(s, a + b) && After(s, a + b) == After(After(s, a), b)
    decreases |a|
  {
    if a == [] {
      assert a + b == b;
    } else {
      StepKeeps(s, a[0]);
      assert (a + b)[1..] == a[1..] + b && (a + b)[0] == a[0];
      AfterAppend(Step(s, a[0]), a[1..], b);
    }
  }

  // ----- an auto-reload timer left alone -----

  /** The k-th multiple of the period after the start. */
  function At(start: int, period: int, k: nat): int {
    if k == 0 then start else At(start, period, k - 1) + period
  }

  /** start + period, ..., start + k * period. */
  function Multiples(start: int, period: int, k: nat): (r: seq<int>)
    ensures |r| == k
  {
    if k == 0 then [] else Multiples(start, period, k - 1) + [At(start, period, k)]
  }

  /** What an auto-reload timer is to do from now on, after the firings `before`. */
  datatype Plan = Plan(timer: int, start: int, period: int, before: seq<int>)

  /** Multiple k, where k is how often the timer has fired since the start. */
  function Latest(v: View, p: Plan): int
    requires |p.before| <= |v.fired|
  {
    At(p.start, p.period, |v.fired| - |p.before|)
  }

  /** The timer has fired at exactly the first k multiples of its period. */
  ghost predicate FiredSo(v: View, p: Plan) {
    && |p.before| <= |v.fired|
    && v.fired == p.before + Multiples(p.start, p.period, |v.fired| - |p.before|)
  }

  /**
   It has fired at exactly the first k multiples, and is either waiting in one list for
   multiple k+1 or has one START pending that carries multiple k; never both.
   */
  ghost predicate OnTrack(v: View, p: Plan, now: int) {
    && FiredSo(v, p)
    && (|| (v.waiting == [Latest(v, p) + p.period] && v.pending == [] && Latest(v, p) <= now)
        || (v.waiting == [] && v.pending == [Msg(Start, p.timer, Latest(v, p))]))
  }

  /** It has fired at exactly the first k multiples, and nothing is left to make it fire again. */
  ghost predicate OffTrack(v: View, p: Plan) {
    FiredSo(v, p) && v.waiting == [] && v.pending == []
  }

  ghost predicate Planned(s: Service, p: Plan) {
    p.timer in s.timers && s.timers[p.timer] == Attr(p.period, true)
  }

  ghost predicate OnSchedule(s: Service, p: Plan) {
    Planned(s, p) && OnTrack(Seen(s, p.timer), p, s.last)
  }

  ghost predicate Lost(s: Service, p: Plan) {
    Planned(s, p) && OffTrack(Seen(s, p.timer), p)
  }

  ghost predicate TrackedBy(s: Service, p: Plan, now: int) {
    Planned(s, p) && (OnTrack(Seen(s, p.timer), p, now) || OffTrack(Seen(s, p.timer), p))
  }

  ghost predicate Tracked(s: Service, p: Plan) {
    TrackedBy(s, p, s.last)
  }

  /** From `s` to `r` the timer fires only as planned, and gets lost only by firing. */
  ghost predicate Follows(s: Service, r: Service, p: Plan, now: int) {
    var v, w := Seen(s, p.timer), Seen(r, p.timer);
    && TrackedBy(r, p, now) && |v.fired| <= |w.fired|
    && (OnTrack(v, p, now) && !OnTrack(w, p, now) ==> |v.fired| < |w.fired|)
  }

  /** One more firing, one period later, keeps the timer on track unless it then vanishes. */
  lemma OneMore(v: View, w: View, p: Plan, now: int)
    requires OnTrack(v, p, now)
    requires var due := Latest(v, p) + p.period;
             && due <= now
             && w.fired == v.fired + [due]
             && (|| (w.waiting == [due + p.period] && w.pending == [])
                 || (w.waiting == [] && w.pending == [Msg(Start, p.timer, due)])
                 || (w.waiting == [] && w.pending == []))
    ensures OnTrack(w, p, now) || OffTrack(w, p)
  {
    var k := |v.fired| - |p.before|;
    assert p.before + Multiples(p.start, p.period, k) + [At(p.start, p.period, k + 1)]
        == p.before + Multiples(p.start, p.period, k + 1);
  }

  lemma DrainOneTracked(s: Service, boundary: int, now: int, p: Plan)
    requires Sound(s) && Epochs(s, boundary) && s.current != [] && boundary <= now
    requires TrackedBy(s, p, now)
    ensures Follows(s, DrainOne(s, boundary, now), p, now)
  {
    DrainOneSeen(s, boundary, now, p.timer);
    if s.current[0].timer == p.timer {
      WaitingHead(s);
      OneMore(Seen(s, p.timer), Seen(DrainOne(s, boundary, now), p.timer), p, now);
    }
  }

  lemma DrainTracked(s: Service, boundary: int, now: int, p: Plan)
    requires Sound(s) && Epochs(s, boundary) && (s.current != [] ==> boundary <= now)
    requires TrackedBy(s, p, now)
    ensures Follows(s, Drain(s, boundary, now), p, now)
    decreases TicksLeft(s.current, boundary)
  {
    if s.current != [] {
      hide OnTrack, OffTrack, Sound;
      DrainOneTracked(s, boundary, now, p);
      DrainOneKeeps(s, boundary, now);
      DrainOneProgress(s, boundary, now);
      DrainTracked(DrainOne(s, boundary, now), boundary, now, p);
    }
  }

  lemma TrackedLater(s: Service, p: Plan, last: int, now: int)
    requires TrackedBy(s, p, last) && last <= now
    ensures TrackedBy(s, p, now)
    ensures OnTrack(Seen(s, p.timer), p, last) ==> OnTrack(Seen(s, p.timer), p, now)
  {
  }

  lemma SampleSeen(s: Service, now: int, t: int)
    requires Drainable(s, Rollover(s.last))
    ensures Seen(Sample(s, now), t)
            == if RolledOver(s, now) then Seen(Drain(s, Rollover(s.last), now), t) else Seen(s, t)
  {
    DrainKeepsTimers(s, Rollover(s.last), now);
  }

  lemma SampleTracked(s: Service, now: int, p: Plan)
    requires Inv(s) && Timely(s, now) && Tracked(s, p)
    ensures Follows(s, Sample(s, now), p, now)
    ensures OnSchedule(s, p) ==> OnTrack(Seen(s, p.timer), p, now)
  {
    var boundary := Rollover(s.last);
    TrackedLater(s, p, s.last, now);
    SampleSeen(s, now, p.timer);
    DrainKeepsSampled(s, now);
    if RolledOver(s, now) {
      if s.current != [] { RolloverSeen(s.last, now); Split(now); }
      hide OnTrack, OffTrack, Sound, Seen, Drain;
      DrainTracked(s, boundary, now, p);
    }
  }

  lemma ProcessExpiredTracked(s: Service, now: int, p: Plan)
    requires Inv(s) && s.last == now && s.current != [] && s.current[0].expiry <= now
    requires Tracked(s, p)
    ensures Follows(s, ProcessExpired(s, now), p, now)
  {
    ProcessExpiredSeen(s, now, p.timer);
    if s.current[0].timer == p.timer {
      WaitingHead(s);
      OneMore(Seen(s, p.timer), Seen(ProcessExpired(s, now), p.timer), p, now);
    }
  }

  /** The pending START is received: the timer waits again, or fires and is sent on. */
  lemma OwnStart(s: Service, now: int, p: Plan)
    requires Planned(s, p) && FiredSo(Seen(s, p.timer), p)
    requires Waiting(s, p.timer) == [] && Pending(s.queue, p.timer) == []
    requires Latest(Seen(s, p.timer), p) <= now
    ensures var r := Obey(s, Msg(Start, p.timer, Latest(Seen(s, p.timer), p)), now);
            && (OnTrack(Seen(r, p.timer), p, now) || OffTrack(Seen(r, p.timer), p))
            && (OnTrack(Seen(r, p.timer), p, now) || |Fired(s.log, p.timer)| < |Fired(r.log, p.timer)|)
            && |Fired(s.log, p.timer)| <= |Fired(r.log, p.timer)|
  {
    var latest := Latest(Seen(s, p.timer), p);
    var m := Msg(Start, p.timer, latest);
    ObeySeen(s, m, now, p.timer);
    if latest + p.period <= now {
      OneMore(Seen(s, p.timer).(pending := [m]), Seen(Obey(s, m, now), p.timer), p, now);
    }
  }

  lemma ReceiveOwnTracked(s: Service, now: int, p: Plan)
    requires Inv(s) && Allowed(s, Accept(now)) && s.queue[0].timer == p.timer
    requires Tracked(s, p)
    ensures Follows(s, Step(s, Accept(now)), p, now)
  {
    var m := s.queue[0];
    assert Pending(s.queue, p.timer)[0] == m;
    assert m == Msg(Start, p.timer, Latest(Seen(s, p.timer), p)) && Pending(s.queue[1..], p.timer) == [];
    hide Sound, Sample, Obey, Inv, Pending, Fired, Due;
    DequeueSeen(s, p.timer);
    AcceptParts(s, now);
    SampleLeavesAbsent(Dequeue(s), now, p.timer);
    OwnStart(Sample(Dequeue(s), now), now, p);
    ObeySettings(Sample(Dequeue(s), now), m, now, p.timer);
  }

  lemma ReceiveOtherTracked(s: Service, now: int, p: Plan)
    requires Inv(s) && Allowed(s, Accept(now)) && s.queue[0].timer != p.timer
    requires Tracked(s, p)
    ensures Follows(s, Step(s, Accept(now)), p, now)
  {
    DequeueSeen(s, p.timer);
    AcceptParts(s, now);
    SampleTracked(Dequeue(s), now, p);
    ObeySeen(Sample(Dequeue(s), now), s.queue[0], now, p.timer);
    ObeySettings(Sample(Dequeue(s), now), s.queue[0], now, p.timer);
  }

  lemma ObeySettings(s: Service, m: Msg, now: int, t: int)
    requires m.timer in s.timers && t in s.timers
    ensures Obey(s, m, now).last == s.last
    ensures t in Obey(s, m, now).timers
    ensures t != m.timer || m.command.Start? ==> Obey(s, m, now).timers[t] == s.timers[t]
  {
  }

  ghost predicate LeftAlone(e: Event, t: int) {
    e.Post? ==> e.m.timer != t
  }

  /** A step on which nobody else commands the timer makes it fire only as planned. */
  lemma StepTracked(s: Service, e: Event, p: Plan)
    requires Inv(s) && Allowed(s, e) && LeftAlone(e, p.timer) && Tracked(s, p)
    ensures Follows(s, Step(s, e), p, Step(s, e).last)
  {
    match e
    case Serve(now) =>
      SampleTracked(s, now, p);
      SampleKeeps(s, now);
      if !RolledOver(s, now) && s.current != [] && s.current[0].expiry <= now {
        ProcessExpiredTracked(Sample(s, now), now, p);
      }
    case Accept(now) =>
      AcceptParts(s, now);
      ObeySettings(Sample(Dequeue(s), now), s.queue[0], now, s.queue[0].timer);
      if s.queue[0].timer == p.timer {
        ReceiveOwnTracked(s, now, p);
      } else {
        ReceiveOtherTracked(s, now, p);
      }
    case Post(m) => SendSeen(s, m, p.timer);
    case Create(u, a) =>
  }

  /**
   Over every run in which nobody posts another command for it, an auto-reload timer whose
   START carries `start` fires at exactly start + period, start + 2*period, ..., with no gap,
   no duplicate and no drift, across any number of rollovers of the counter.  All the full
   queue can do to it is to end the sequence.
   */
  lemma {:induction false} RunTracked(s: Service, run: seq<Event>, p: Plan)
    requires Inv(s) && AllowedRun(s, run)
    requires forall i :: 0 <= i < |run| ==> LeftAlone(run[i], p.timer)
    requires Tracked(s, p)
    ensures OnSchedule(After(s, run), p) || Lost(After(s, run), p)
    decreases |run|
  {
    if run != [] {
      hide OnTrack, OffTrack;
      StepTracked(s, run[0], p);
      StepKeeps(s, run[0]);
      RunTracked(Step(s, run[0]), run[1..], p);
    }
  }

  /** Where such a run begins: a START is all there is of the timer. */
  lemma StartedOnSchedule(s: Service, t: int, start: int)
    requires t in s.timers && s.timers[t].autoReload
    requires Waiting(s, t) == [] && Pending(s.queue, t) == [Msg(Start, t, start)]
    ensures OnSchedule(s, Plan(t, start, s.timers[t].period, Fired(s.log, t)))
  {
    assert Fired(s.log, t) == Fired(s.log, t) + Multiples(start, s.timers[t].period, 0);
  }

  /** A step leaves a timer that is in neither list alone, unless it receives a command for it. */
  lemma StepUntouched(s: Service, e: Event, t: int)
    requires Inv(s) && Allowed(s, e) && LeftAlone(e, t) && Waiting(s, t) == []
    requires e.Accept? ==> s.queue[0].timer != t
    ensures Seen(Step(s, e), t) == Seen(s, t)
  {
    match e
    case Serve(now) =>
      SampleLeavesAbsent(s, now, t);
      SampleKeeps(s, now);
      if !RolledOver(s, now) && s.current != [] && s.current[0].expiry <= now {
        PopSeen(Sample(s, now), t);
        ProcessExpiredSeen(Sample(s, now), now, t);
      }
    case Accept(now) =>
      var m := s.queue[0];
      DequeueSeen(s, t);
      AcceptParts(s, now);
      SampleLeavesAbsent(Dequeue(s), now, t);
      ObeySeen(Sample(Dequeue(s), now), m, now, t);
    case Post(m) => SendSeen(s, m, t);
    case Create(u, a) => assert Seen(Step(s, e), t) == Seen(s, t);
  }

  // ----- no callback is early -----

  ghost predicate NoneEarly(log: seq<Firing>, now: int) {
    forall i :: 0 <= i < |log| ==> log[i].due <= log[i].at <= now
  }

  lemma DrainNoneEarly(s: Service, boundary: int, now: int)
    requires Sound(s) && Epochs(s, boundary) && (s.current != [] ==> boundary <= now) && NoneEarly(s.log, now)
    ensures NoneEarly(Drain(s, boundary, now).log, now)
    decreases TicksLeft(s.current, boundary)
  {
    if s.current != [] {
      DrainOneKeeps(s, boundary, now);
      DrainOneProgress(s, boundary, now);
      DrainNoneEarly(DrainOne(s, boundary, now), boundary, now);
    }
  }

  lemma SampleNoneEarly(s: Service, now: int)
    requires Inv(s) && Timely(s, now) && NoneEarly(s.log, s.last)
    ensures NoneEarly(Sample(s, now).log, now)
  {
    if RolledOver(s, now) {
      if s.current != [] { RolloverSeen(s.last, now); Split(now); }
      DrainNoneEarly(s, Rollover(s.last), now);
    }
  }

  lemma ObeyNoneEarly(s: Service, m: Msg, now: int)
    requires m.timer in s.timers && NoneEarly(s.log, now)
    ensures NoneEarly(Obey(s, m, now).log, now)
  {
  }

  lemma StepNoneEarly(s: Service, e: Event)
    requires Inv(s) && Allowed(s, e) && NoneEarly(s.log, s.last)
    ensures NoneEarly(Step(s, e).log, Step(s, e).last)
  {
    match e
    case Serve(now) =>
      SampleNoneEarly(s, now);
      SampleKeeps(s, now);
    case Accept(now) =>
      AcceptParts(s, now);
      ObeySettings(Sample(Dequeue(s), now), s.queue[0], now, s.queue[0].timer);
      SampleNoneEarly(Dequeue(s), now);
      ObeyNoneEarly(Sample(Dequeue(s), now), s.queue[0], now);
    case Post(m) =>
    case Create(u, a) =>
  }

  /** No callback of a run is made before the time it was due. */
  lemma {:induction false} RunNoneEarly(s: Service, run: seq<Event>)
    requires Inv(s) && AllowedRun(s, run) && NoneEarly(s.log, s.last)
    ensures NoneEarly(After(s, run).log, After(s, run).last)
    decreases |run|
  {
    if run != [] {
      StepNoneEarly(s, run[0]);
      StepKeeps(s, run[0]);
      RunNoneEarly(Step(s, run[0]), run[1..]);
    }
  }

  // ----- refinement of the ideal timer -----

  /** What a perfect periodic timer has done by `now`. */
  function IdealFirings(start: int, period: int, now: int): seq<int>
    requires 0 < period && start <= now
  {
    Multiples(start, period, (now - start) / period)
  }

  lemma AtIsProduct(start: int, period: int, k: nat)
    ensures At(start, period, k) == start + k * period
  {
    if k > 0 {
      AtIsProduct(start, period, k - 1);
      assert k * period == (k - 1) * period + period;
    }
  }

  lemma QuotientUnique(x: int, p: int, k: int)
    requires 0 < p && k * p <= x < k * p + p
    ensures x / p == k
  {
    var q := x / p;
    assert x == p * q + x % p;
    assert (q - k) * p == q * p - k * p;
    assert q - k >= 1 ==> (q - k) * p >= p;
    assert q - k <= -1 ==> (q - k) * p <= -p;
  }

  /**
   Whenever the daemon has caught up (no command for the timer is pending and the head of the
   current list is not yet due), the timer has fired exactly as often as a perfect timer.
   */
  lemma CaughtUpIsIdeal(s: Service, p: Plan)
    requires Inv(s) && OnSchedule(s, p)
    requires Pending(s.queue, p.timer) == []
    requires s.current != [] ==> s.last < s.current[0].expiry
    ensures p.start <= s.last && 0 < p.period
    ensures Fired(s.log, p.timer) == p.before + IdealFirings(p.start, p.period, s.last)
  {
    var t, k := p.timer, |Fired(s.log, p.timer)| - |p.before|;
    var next := At(p.start, p.period, k) + p.period;
    assert 0 < s.timers[t].period;
    assert Waiting(s, t) == [next];
    DueAfterHead(s.current, t, s.last);
    DueBounds(s.overflow, t, Rollover(s.last));
    Split(s.last);
    assert next in Waiting(s, t);
    assert s.last < next;
    AtIsProduct(p.start, p.period, k);
    assert k * p.period >= 0;
    QuotientUnique(s.last - p.start, p.period, k);
  }

  lemma DueAfterHead(l: seq<Entry>, t: int, now: int)
    requires Sorted(l) && (l != [] ==> now < l[0].expiry)
    ensures forall x :: x in Due(l, t) ==> now < x
  {
    if l != [] { DueBounds(l, t, l[0].expiry); }
  }
}
