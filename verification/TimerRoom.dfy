/**
 The daemon's sends to its own queue of ten. Nobody looks whether such a send was refused, and a
 timer whose START is refused is lost. When that happens is decided by the state before the step.
 */
module TimerRoom {
  import opened Ticks
  import opened TimerModel
  import opened TimerInvariant
  import opened TimerRuns
  import opened TimerDrain

  /** The reload of an expired entry would itself be expired, so a START must be sent instead. */
  predicate LateReload(e: Entry, timers: map<int, Attr>, now: int) {
    IsAuto(e.timer, timers) && e.expiry + timers[e.timer].period <= now
  }

  /** A received START of an auto-reload timer that has expired, so that another START must be sent. */
  predicate LateStart(m: Msg, timers: map<int, Attr>, now: int) {
    m.command.Start? && IsAuto(m.timer, timers) && m.value + timers[m.timer].period <= now
  }

  /** The STARTs that sampling the time has to send. */
  function SampleSends(s: Service, now: int): nat {
    if RolledOver(s, now) then Autos(s.current, s.timers) else 0
  }

  /** The queue has room for every START that the step has to send. */
  predicate Roomy(s: Service, e: Event) {
    match e
    case Serve(now) =>
      var late := !RolledOver(s, now) && s.current != [] && LateReload(s.current[0], s.timers, now);
      |s.queue| + SampleSends(s, now) + (if late then 1 else 0) <= QUEUE_LENGTH
    case Accept(now) =>
      s.queue != [] ==>
        var late := LateStart(s.queue[0], s.timers, now);
        |s.queue| - 1 + SampleSends(Dequeue(s), now) + (if late then 1 else 0) <= QUEUE_LENGTH
    case Post(_) => true
    case Create(_, _) => true
  }

  /** The messages that are in the queue before a step sends any of its own. */
  function Left(s: Service, e: Event): seq<Msg> {
    if e.Accept? && s.queue != [] then s.queue[1..] else s.queue
  }

  /** The step fires the auto-reload timer and leaves it in no list, with no START sent for it. */
  ghost predicate Loses(s: Service, e: Event, t: int)
    requires Inv(s) && Allowed(s, e)
  {
    var r := Step(s, e);
    && IsAuto(t, s.timers) && Fired(r.log, t) != Fired(s.log, t)
    && Waiting(r, t) == [] && Pending(r.queue, t) == Pending(Left(s, e), t)
  }

  // ----- sampling -----

  /** What sampling does to the queue's length. */
  lemma SampleQueue(s: Service, now: int)
    requires Inv(s)
    ensures |Sample(s, now).queue|
            == if |s.queue| + SampleSends(s, now) <= QUEUE_LENGTH then |s.queue| + SampleSends(s, now) else QUEUE_LENGTH
  {
    if RolledOver(s, now) { DrainSends(s, Rollover(s.last), now); }
  }

  /** Without room some auto-reload timer of the list fires and is gone. */
  lemma {:induction false} DrainLoses(s: Service, boundary: int, now: int) returns (t: int)
    requires Sound(s) && Epochs(s, boundary) && !RoomToDrain(s)
    ensures var d := Drain(s, boundary, now);
            && IsAuto(t, s.timers) && Due(s.current, t) != []
            && |Fired(s.log, t)| < |Fired(d.log, t)| && Pending(d.queue, t) == Pending(s.queue, t)
    decreases TicksLeft(s.current, boundary)
  {
    var e := s.current[0];
    var r := DrainOne(s, boundary, now);
    DrainOneKeeps(s, boundary, now);
    DrainOneProgress(s, boundary, now);
    DrainOneSends(s, boundary, now);
    if RoomToDrain(r) {
      t := e.timer;
      DrainOneDue(s, boundary, now, t);
      DrainOneSeen(s, boundary, now, t);
      DrainLeavesAbsent(r, boundary, now, t);
    } else {
      t := DrainLoses(r, boundary, now);
      DrainOneSeen(s, boundary, now, t);
      if t == e.timer { DrainOneDue(s, boundary, now, t); } else { OtherDue(s, boundary, now, t); }
    }
  }

  lemma OtherDue(s: Service, boundary: int, now: int, t: int)
    requires s.current != [] && s.current[0].timer != t && s.current[0].timer in s.timers
    ensures Due(DrainOne(s, boundary, now).current, t) == Due(s.current, t)
  {
    var e := s.current[0];
    DueInsert(s.current[1..], Entry(e.timer, e.expiry + s.timers[e.timer].period), t);
  }

  /** The same for a sample, and for a timer that is in one of the lists or in neither. */
  lemma SampleLoses(s: Service, now: int) returns (t: int)
    requires Inv(s) && |s.queue| + SampleSends(s, now) > QUEUE_LENGTH
    ensures var r := Sample(s, now);
            && IsAuto(t, s.timers) && Due(s.current, t) != []
            && Fired(r.log, t) != Fired(s.log, t) && Waiting(r, t) == [] && Pending(r.queue, t) == Pending(s.queue, t)
  {
    var boundary := Rollover(s.last);
    t := DrainLoses(s, boundary, now);
    DrainKeepsTimers(s, boundary, now);
    assert |Waiting(s, t)| <= 1;
  }

  lemma SampleLosesNone(s: Service, now: int, t: int)
    requires Inv(s) && |s.queue| + SampleSends(s, now) <= QUEUE_LENGTH && IsAuto(t, s.timers)
    ensures var r := Sample(s, now);
            Fired(r.log, t) == Fired(s.log, t) || Pending(r.queue, t) != Pending(s.queue, t)
  {
    if RolledOver(s, now) {
      if Due(s.current, t) != [] {
        DrainFires(s, Rollover(s.last), now, t);
      } else {
        DrainLeavesAbsent(s, Rollover(s.last), now, t);
      }
    }
  }

  // ----- whole steps -----

  lemma ServeLoses(s: Service, now: int) returns (t: int)
    requires Inv(s) && Allowed(s, Serve(now)) && !Roomy(s, Serve(now))
    ensures Loses(s, Serve(now), t)
  {
    if RolledOver(s, now) {
      t := SampleLoses(s, now);
    } else {
      t := s.current[0].timer;
      SampleKeeps(s, now);
      ProcessExpiredSeen(Sample(s, now), now, t);
    }
  }

  lemma AcceptLoses(s: Service, now: int) returns (t: int)
    requires Inv(s) && Allowed(s, Accept(now)) && !Roomy(s, Accept(now))
    ensures Loses(s, Accept(now), t)
  {
    var m, d := s.queue[0], Dequeue(s);
    AcceptParts(s, now);
    SampleQueue(d, now);
    DequeueKeeps(s);
    SampleLeavesAbsent(d, now, m.timer);
    hide Sound, Sample, Dequeue;
    if |d.queue| + SampleSends(d, now) > QUEUE_LENGTH {
      t := SampleLoses(d, now);
      ObeySeen(Sample(d, now), m, now, t);
    } else {
      t := m.timer;
      ObeySeen(Sample(d, now), m, now, t);
    }
  }

  lemma ServeLosesNone(s: Service, now: int, t: int)
    requires Inv(s) && Allowed(s, Serve(now)) && Roomy(s, Serve(now))
    ensures !Loses(s, Serve(now), t)
  {
    if IsAuto(t, s.timers) {
      SampleLosesNone(s, now, t);
      SampleKeeps(s, now);
      if !RolledOver(s, now) && s.current != [] && s.current[0].expiry <= now {
        ProcessExpiredSeen(Sample(s, now), now, t);
      }
    }
  }

  lemma AcceptLosesNone(s: Service, now: int, t: int)
    requires Inv(s) && Allowed(s, Accept(now)) && Roomy(s, Accept(now))
    ensures !Loses(s, Accept(now), t)
  {
    var m, d := s.queue[0], Dequeue(s);
    AcceptParts(s, now);
    SampleQueue(d, now);
    DequeueKeeps(s);
    SampleLeavesAbsent(d, now, m.timer);
    if IsAuto(t, s.timers) {
      SampleLosesNone(d, now, t);
      assert s.queue != [] && d.log == s.log && d.queue == s.queue[1..];
      hide Inv, Sound, Sample, Dequeue, Step, Autos, Allowed;
      ObeySeen(Sample(d, now), m, now, t);
    }
  }

  /**
   A step of the daemon loses no timer if and only if the queue has room for what the step has
   to send: for each auto-reload timer of the current list at a rollover, and for one late reload.
   */
  lemma RoomExactly(s: Service, e: Event)
    requires Inv(s) && Allowed(s, e)
    ensures Roomy(s, e) <==> forall t :: !Loses(s, e, t)
  {
    match e
    case Serve(now) =>
      if Roomy(s, e) {
        forall t ensures !Loses(s, e, t) { ServeLosesNone(s, now, t); }
      } else {
        var t := ServeLoses(s, now);
      }
    case Accept(now) =>
      if Roomy(s, e) {
        forall t ensures !Loses(s, e, t) { AcceptLosesNone(s, now, t); }
      } else {
        var t := AcceptLoses(s, now);
      }
    case Post(m) =>
    case Create(u, a) =>
  }

  // ----- runs -----

  ghost predicate NeverLoses(s: Service, run: seq<Event>, t: int)
    requires Inv(s) && AllowedRun(s, run)
    decreases |run|
  {
    run == [] ||
    (!Loses(s, run[0], t) && (StepKeeps(s, run[0]); NeverLoses(Step(s, run[0]), run[1..], t)))
  }

  ghost predicate AlwaysRoomy(s: Service, run: seq<Event>)
    requires Inv(s) && AllowedRun(s, run)
    decreases |run|
  {
    run == [] ||
    (Roomy(s, run[0]) && (StepKeeps(s, run[0]); AlwaysRoomy(Step(s, run[0]), run[1..])))
  }

  lemma AtAscends(start: int, period: int, j: nat, k: nat)
    requires 0 < period && j < k
    ensures At(start, period, j) < At(start, period, k)
    decreases k
  {
    if j < k - 1 { AtAscends(start, period, j, k - 1); }
  }

  lemma SameCountSameFirings(v: View, w: View, p: Plan)
    requires FiredSo(v, p) && FiredSo(w, p)
    ensures v.fired == w.fired <==> |v.fired| == |w.fired|
  {
  }

  /** A START that is still pending after the step's own receipt was nothing this step fired. */
  lemma LeftSeen(s: Service, e: Event, p: Plan)
    requires Inv(s) && Allowed(s, e) && LeftAlone(e, p.timer) && OnSchedule(s, p)
    ensures var q := Pending(Left(s, e), p.timer);
            || q == []
            || (q == [Msg(Start, p.timer, Latest(Seen(s, p.timer), p))] && Seen(Step(s, e), p.timer) == Seen(s, p.timer))
  {
    if Pending(Left(s, e), p.timer) != [] {
      StepUntouched(s, e, p.timer);
    }
  }

  /** A timer on schedule leaves it exactly by being lost. */
  lemma StaysExactly(s: Service, e: Event, p: Plan)
    requires Inv(s) && Allowed(s, e) && LeftAlone(e, p.timer) && OnSchedule(s, p)
    ensures OnSchedule(Step(s, e), p) <==> !Loses(s, e, p.timer)
    ensures Tracked(Step(s, e), p) && Inv(Step(s, e))
  {
    var r := Step(s, e);
    var v, w := Seen(s, p.timer), Seen(r, p.timer);
    assert 0 < s.timers[p.timer].period;
    StepTracked(s, e, p);
    StepKeeps(s, e);
    LeftSeen(s, e, p);
    SameCountSameFirings(v, w, p);
    TrackedLater(s, p, s.last, r.last);
    hide Inv, Allowed, Step, Sound;
    if |v.fired| < |w.fired| {
      AtAscends(p.start, p.period, |v.fired| - |p.before|, |w.fired| - |p.before|);
    }
  }

  /** Over a run, a timer stays on schedule if and only if no step loses it. */
  lemma {:induction false} RunStaysExactly(s: Service, run: seq<Event>, p: Plan)
    requires Inv(s) && AllowedRun(s, run)
    requires forall i :: 0 <= i < |run| ==> LeftAlone(run[i], p.timer)
    requires OnSchedule(s, p)
    ensures OnSchedule(After(s, run), p) <==> NeverLoses(s, run, p.timer)
    decreases |run|
  {
    if run != [] {
      hide Loses;
      StaysExactly(s, run[0], p);
      var r := Step(s, run[0]);
      if OnSchedule(r, p) {
        RunStaysExactly(r, run[1..], p);
      } else {
        StaysLost(r, run[1..], p);
      }
    }
  }

  /** A lost timer never fires again unless somebody commands it. */
  lemma {:induction false} StaysLost(s: Service, run: seq<Event>, p: Plan)
    requires Inv(s) && AllowedRun(s, run) && Lost(s, p)
    requires forall i :: 0 <= i < |run| ==> LeftAlone(run[i], p.timer)
    ensures Lost(After(s, run), p) && Fired(After(s, run).log, p.timer) == Fired(s.log, p.timer)
    ensures !OnSchedule(After(s, run), p)
    decreases |run|
  {
    if run != [] {
      StepUntouched(s, run[0], p.timer);
      StepTracked(s, run[0], p);
      StepKeeps(s, run[0]);
      StaysLost(Step(s, run[0]), run[1..], p);
    }
  }

  /**
   So with room in the queue at every step, an auto-reload timer fires at exactly start + period,
   start + 2*period, ... for as long as the run goes on.
   */
  lemma RunOnSchedule(s: Service, run: seq<Event>, p: Plan)
    requires Inv(s) && AllowedRun(s, run) && AlwaysRoomy(s, run)
    requires forall i :: 0 <= i < |run| ==> LeftAlone(run[i], p.timer)
    requires OnSchedule(s, p)
    ensures OnSchedule(After(s, run), p)
  {
    RoomyLosesNone(s, run, p.timer);
    RunStaysExactly(s, run, p);
  }

  lemma {:induction false} RoomyLosesNone(s: Service, run: seq<Event>, t: int)
    requires Inv(s) && AllowedRun(s, run) && AlwaysRoomy(s, run)
    ensures NeverLoses(s, run, t)
    decreases |run|
  {
    if run != [] {
      RoomExactly(s, run[0]);
      StepKeeps(s, run[0]);
      RoomyLosesNone(Step(s, run[0]), run[1..], t);
    }
  }

  // ----- eleven timers -----

  /** Ten ticks before the counter's first rollover. */
  const BEFORE: int := M - 10

  const EMPTY: Service := Service([], [], [], 0, map[], [])

  function CrowdList(n: nat): seq<Entry> {
    if n == 0 then [] else CrowdList(n - 1) + [Entry(n - 1, BEFORE + 5)]
  }

  function CrowdTimers(n: nat): map<int, Attr> {
    if n == 0 then map[] else CrowdTimers(n - 1)[n - 1 := Attr(5, true)]
  }

  /** `n` auto-reload timers of period 5, all started at BEFORE. */
  function Crowd(n: nat): Service {
    Service(CrowdList(n), [], [], BEFORE, CrowdTimers(n), [])
  }

  /** How they come about: each is created, started and its START received. */
  function CrowdRun(n: nat): seq<Event> {
    if n == 0 then [Serve(BEFORE)]
    else CrowdRun(n - 1) + [Create(n - 1, Attr(5, true))] + [Post(Msg(Start, n - 1, BEFORE))] + [Accept(BEFORE)]
  }

  lemma {:induction false} CrowdFacts(n: nat)
    ensures |CrowdList(n)| == n && Autos(CrowdList(n), CrowdTimers(n)) == n
    ensures forall t :: t in CrowdTimers(n) <==> 0 <= t < n
    ensures forall t :: 0 <= t < n ==> CrowdTimers(n)[t] == Attr(5, true) && Due(CrowdList(n), t) == [BEFORE + 5]
    ensures forall t :: !(0 <= t < n) ==> Due(CrowdList(n), t) == [] && Remove(CrowdList(n), t) == CrowdList(n)
    ensures forall i :: 0 <= i < n ==> CrowdList(n)[i].expiry == BEFORE + 5
  {
    if n > 0 {
      CrowdFacts(n - 1);
      var l, e := CrowdList(n - 1), Entry(n - 1, BEFORE + 5);
      AutosAppend(l, e, CrowdTimers(n - 1), CrowdTimers(n));
      forall t ensures Due(l + [e], t) == Due(l, t) + (if t == n - 1 then [BEFORE + 5] else []) {
        DueAppend(l, e, t);
      }
      forall t | !(0 <= t < n) ensures Remove(l + [e], t) == l + [e] {
        RemoveAppend(l, e, t);
      }
    }
  }

  lemma AutosAppend(l: seq<Entry>, e: Entry, timers: map<int, Attr>, more: map<int, Attr>)
    requires IsAuto(e.timer, more) && forall t :: IsAuto(t, timers) ==> IsAuto(t, more)
    requires Autos(l, timers) == |l|
    ensures Autos(l + [e], more) == |l| + 1
  {
    if l != [] {
      AutosAtMost(l[1..], timers);
      AutosAppend(l[1..], e, timers, more);
      assert (l + [e])[1..] == l[1..] + [e];
    }
  }

  lemma AutosAtMost(l: seq<Entry>, timers: map<int, Attr>)
    ensures Autos(l, timers) <= |l|
  {
  }

  lemma DueAppend(l: seq<Entry>, e: Entry, t: int)
    ensures Due(l + [e], t) == Due(l, t) + (if e.timer == t then [e.expiry] else [])
  {
    if l != [] {
      DueAppend(l[1..], e, t);
      assert (l + [e])[1..] == l[1..] + [e];
    }
  }

  lemma RemoveAppend(l: seq<Entry>, e: Entry, t: int)
    ensures Remove(l + [e], t) == Remove(l, t) + if e.timer == t then [] else [e]
  {
    if l != [] {
      RemoveAppend(l[1..], e, t);
      assert (l + [e])[1..] == l[1..] + [e];
    }
  }

  lemma InsertLast(l: seq<Entry>, e: Entry)
    requires forall i :: 0 <= i < |l| ==> l[i].expiry <= e.expiry
    ensures Insert(l, e) == l + [e]
  {
    if l != [] { InsertLast(l[1..], e); }
  }

  lemma EmptyInv()
    ensures Inv(EMPTY)
  {
  }

  /** One more timer is created, started, and its START received. */
  lemma JoinsCrowd(n: nat)
    requires Inv(Crowd(n))
    ensures var create, post := Create(n, Attr(5, true)), Post(Msg(Start, n, BEFORE));
            && Allowed(Crowd(n), create) && Inv(Step(Crowd(n), create))
            && Allowed(Step(Crowd(n), create), post) && Inv(Step(Step(Crowd(n), create), post))
            && Allowed(Step(Step(Crowd(n), create), post), Accept(BEFORE))
            && Step(Step(Step(Crowd(n), create), post), Accept(BEFORE)) == Crowd(n + 1)
  {
    CrowdFacts(n);
    var create, post := Create(n, Attr(5, true)), Post(Msg(Start, n, BEFORE));
    StepKeeps(Crowd(n), create);
    StepKeeps(Step(Crowd(n), create), post);
    assert Step(Step(Crowd(n), create), post) == Queued(n);
    hide Step, Crowd, Queued, Inv;
    AcceptsIntoCrowd(n);
  }

  function Queued(n: nat): Service {
    Crowd(n).(timers := CrowdTimers(n + 1), queue := [Msg(Start, n, BEFORE)])
  }

  lemma CrowdDequeued(n: nat)
    requires Inv(Queued(n))
    ensures Allowed(Queued(n), Accept(BEFORE))
    ensures Inv(Dequeue(Queued(n))) && Sample(Dequeue(Queued(n)), BEFORE) == Queued(n).(queue := [])
  {
    CrowdFacts(n);
    DequeueKeeps(Queued(n));
    hide CrowdList, CrowdTimers, Inv;
    assert Dequeue(Queued(n)) == Queued(n).(queue := []);
  }

  lemma CrowdObeys(n: nat)
    ensures n in CrowdTimers(n + 1)
    ensures Obey(Queued(n).(queue := []), Msg(Start, n, BEFORE), BEFORE) == Crowd(n + 1)
  {
    CrowdFacts(n);
    InsertLast(CrowdList(n), Entry(n, BEFORE + 5));
    assert CrowdTimers(n + 1)[n] == Attr(5, true);
    hide Insert;
  }

  lemma AcceptsIntoCrowd(n: nat)
    requires Inv(Queued(n))
    ensures Allowed(Queued(n), Accept(BEFORE)) && Step(Queued(n), Accept(BEFORE)) == Crowd(n + 1)
  {
    CrowdDequeued(n);
    CrowdObeys(n);
    hide Inv, Allowed, Step, Sample, Obey, Crowd;
    AcceptParts(Queued(n), BEFORE);
  }

  lemma CrowdStarts()
    ensures Inv(EMPTY) && AllowedRun(EMPTY, CrowdRun(0)) && After(EMPTY, CrowdRun(0)) == Crowd(0)
  {
    EmptyInv();
    var e := Serve(BEFORE);
    StepKeeps(EMPTY, e);
    assert Step(EMPTY, e) == Crowd(0);
    assert AllowedRun(Step(EMPTY, e), [e][1..]);
  }

  lemma {:induction false} CrowdGathers(n: nat)
    ensures Inv(EMPTY) && AllowedRun(EMPTY, CrowdRun(n)) && After(EMPTY, CrowdRun(n)) == Crowd(n)
  {
    CrowdStarts();
    if n > 0 {
      CrowdGathers(n - 1);
      var run := CrowdRun(n - 1);
      var create, post := Create(n - 1, Attr(5, true)), Post(Msg(Start, n - 1, BEFORE));
      assert CrowdRun(n) == run + [create] + [post] + [Accept(BEFORE)];
      hide Allowed, Inv, Step, CrowdRun, Crowd, AllowedRun;
      JoinsCrowd(n - 1);
      AfterThen(EMPTY, run, create);
      AfterThen(EMPTY, run + [create], post);
      AfterThen(EMPTY, run + [create] + [post], Accept(BEFORE));
    }
  }

  /** The rollover finds room for their STARTs if and only if they are ten at most. */
  lemma CrowdRolls(n: nat)
    requires Inv(Crowd(n))
    ensures Allowed(Crowd(n), Serve(M)) && (Roomy(Crowd(n), Serve(M)) <==> n <= QUEUE_LENGTH)
  {
    CrowdFacts(n);
    hide CrowdList, CrowdTimers, Inv;
  }

  lemma CrowdOnSchedule(n: nat, t: int)
    requires IsAuto(t, CrowdTimers(n))
    ensures OnSchedule(Crowd(n), Plan(t, BEFORE, 5, []))
  {
    CrowdFacts(n);
    hide CrowdList, CrowdTimers;
    assert Multiples(BEFORE, 5, 0) == [];
    assert Seen(Crowd(n), t) == View([BEFORE + 5], [], []);
  }

  /**
   Eleven auto-reload timers due before one rollover are too many, as is any larger number: the
   rollover takes one that was on schedule off it for good.
   */
  lemma ElevenAreTooMany(n: nat) returns (p: Plan)
    requires n >= 11
    ensures Inv(EMPTY) && AllowedRun(EMPTY, CrowdRun(n))
    ensures var s := After(EMPTY, CrowdRun(n));
            && OnSchedule(s, p) && Allowed(s, Serve(M)) && Lost(Step(s, Serve(M)), p)
  {
    CrowdGathers(n);
    var s := Crowd(n);
    CrowdRolls(n);
    RoomExactly(s, Serve(M));
    var t :| Loses(s, Serve(M), t);
    p := Plan(t, BEFORE, 5, []);
    CrowdOnSchedule(n, t);
    hide Roomy;
    StaysExactly(s, Serve(M), p);
  }
}
