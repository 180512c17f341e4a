/**
 With the clock standing still the daemon catches up: it makes only so many passes before it
 has nothing left to do and asks to be blocked. Then every timer is where an ideal one would be.
 */
module TimerCatchUp {
  import opened Ticks
  import opened TimerModel
  import opened TimerInvariant
  import opened TimerRuns
  import opened TimerDrain
  import opened TimerRoom

  // ----- what is left to do -----

  /** An expired entry is two pieces of work, and one more for each tick it is late. */
  function EntryWork(e: Entry, now: int): nat {
    if e.expiry <= now then 2 + now - e.expiry else 0
  }

  function ListWork(l: seq<Entry>, now: int): nat {
    if l == [] then 0 else EntryWork(l[0], now) + ListWork(l[1..], now)
  }

  /** The lateness of everything in both lists and in the queue. */
  function Backlog(s: Service, now: int): nat {
    ListWork(s.current, now) + ListWork(s.overflow, now) + Work(s.queue, now)
  }

  lemma ListWorkInsert(l: seq<Entry>, e: Entry, now: int)
    ensures ListWork(Insert(l, e), now) == ListWork(l, now) + EntryWork(e, now)
  {
    if l != [] && l[0].expiry <= e.expiry {
      ListWorkInsert(l[1..], e, now);
      assert Insert(l, e)[1..] == Insert(l[1..], e);
    } else {
      assert Insert(l, e)[1..] == l;
    }
  }

  lemma ListWorkRemove(l: seq<Entry>, t: int, now: int)
    ensures ListWork(Remove(l, t), now) <= ListWork(l, now)
  {
    if l != [] && l[0].timer != t {
      ListWorkRemove(l[1..], t, now);
      assert Remove(l, t)[1..] == Remove(l[1..], t);
    }
  }

  lemma WorkSend(s: Service, m: Msg, now: int)
    ensures Work(Send(s, m).queue, now) <= Work(s.queue, now) + 1 + Lateness(m, now)
  {
    WorkAppend(s.queue, m, now);
  }

  lemma DrainOneBacklog(s: Service, boundary: int, now: int)
    requires Sound(s) && s.current != [] && s.current[0].expiry <= now && boundary <= now
    ensures Backlog(DrainOne(s, boundary, now), now) < Backlog(s, now)
  {
    var e := s.current[0];
    assert 0 < s.timers[e.timer].period;
    hide Sound, Send, Insert;
    ListWorkInsert(s.current[1..], Entry(e.timer, e.expiry + s.timers[e.timer].period), now);
    var fired := Fire(s.(current := s.current[1..]), e.timer, e.expiry, now);
    WorkSend(fired, Msg(Start, e.timer, e.expiry), now);
  }

  lemma DrainBacklog(s: Service, boundary: int, now: int)
    requires Sound(s) && Epochs(s, boundary) && (s.current != [] ==> boundary <= now)
    ensures Backlog(Drain(s, boundary, now), now) <= Backlog(s, now)
    decreases TicksLeft(s.current, boundary)
  {
    if s.current != [] {
      DrainOneBacklog(s, boundary, now);
      DrainOneKeeps(s, boundary, now);
      DrainOneProgress(s, boundary, now);
      DrainBacklog(DrainOne(s, boundary, now), boundary, now);
    }
  }

  lemma SampleBacklog(s: Service, now: int)
    requires Inv(s) && Timely(s, now)
    ensures Backlog(Sample(s, now), now) <= Backlog(s, now)
  {
    if RolledOver(s, now) {
      if s.current != [] { RolloverSeen(s.last, now); Split(now); }
      DrainBacklog(s, Rollover(s.last), now);
      DrainKeepsTimers(s, Rollover(s.last), now);
    }
  }

  lemma ActivateBacklog(s: Service, t: int, command: int, now: int)
    requires t in s.timers && command <= now
    ensures Backlog(Activate(s, t, command, now), now) == Backlog(s, now)
  {
    var e := Entry(t, command + s.timers[t].period);
    Split(now);
    ListWorkInsert(s.current, e, now);
    ListWorkInsert(s.overflow, e, now);
  }

  /** Processing an expired timer reduces the backlog, even if it goes back to the queue. */
  lemma ProcessExpiredBacklog(s: Service, now: int)
    requires Inv(s) && s.current != [] && s.current[0].expiry <= now
    ensures Backlog(ProcessExpired(s, now), now) < Backlog(s, now)
  {
    var e := s.current[0];
    assert e.timer in s.timers;
    var rest := s.(current := s.current[1..]);
    hide Inv, Send, Activate;
    WorkSend(rest, Msg(Start, e.timer, e.expiry), now);
    ActivateBacklog(rest, e.timer, e.expiry, now);
  }

  lemma DequeueBacklog(s: Service, now: int)
    requires s.queue != []
    ensures Backlog(Dequeue(s), now) + 1 + Lateness(s.queue[0], now) <= Backlog(s, now)
  {
    ListWorkRemove(s.current, s.queue[0].timer, now);
    ListWorkRemove(s.overflow, s.queue[0].timer, now);
  }

  lemma ObeyBacklog(s: Service, m: Msg, now: int)
    requires m.timer in s.timers && 0 < s.timers[m.timer].period && TimelyCommand(m, now)
    ensures Backlog(Obey(s, m, now), now) <= Backlog(s, now) + Lateness(m, now)
  {
    match m.command
    case Start =>
      var due := m.value + s.timers[m.timer].period;
      hide Send, Activate;
      ActivateBacklog(s, m.timer, m.value, now);
      WorkSend(Fire(s, m.timer, due, now), Msg(Start, m.timer, due), now);
    case ChangePeriod =>
      var r := s.(timers := s.timers[m.timer := s.timers[m.timer].(period := m.value)]);
      ActivateBacklog(r, m.timer, now, now);
    case _ =>
  }

  // ----- busy steps -----

  /** A step of the daemon at `now` that does something, rather than ask to be blocked. */
  predicate Busy(s: Service, e: Event, now: int) {
    || e == Accept(now)
    || (e == Serve(now) && (RolledOver(s, now) || (s.current != [] && s.current[0].expiry <= now)))
  }

  /** Every busy step reduces the backlog, or samples a rollover, which cannot happen again. */
  lemma BusyReducesBacklog(s: Service, e: Event, now: int)
    requires Inv(s) && Allowed(s, e) && Busy(s, e, now)
    ensures var r := Step(s, e);
            && !RolledOver(r, now) && Backlog(r, now) <= Backlog(s, now)
            && (!RolledOver(s, now) ==> Backlog(r, now) < Backlog(s, now))
  {
    if e.Serve? {
      SampleBacklog(s, now);
      SampleKeeps(s, now);
      if !RolledOver(s, now) { ProcessExpiredBacklog(Sample(s, now), now); }
    } else {
      var m, d := s.queue[0], Dequeue(s);
      AcceptParts(s, now);
      DequeueBacklog(s, now);
      SampleBacklog(d, now);
      ReceiveReducesWork(s, now);
      var r := Sample(d, now);
      assert 0 < r.timers[m.timer].period;
      hide Inv, Sample, Dequeue, Step, Backlog, Obey;
      ObeyBacklog(r, m, now);
    }
  }

  ghost predicate AllBusy(s: Service, run: seq<Event>, now: int)
    requires Inv(s) && AllowedRun(s, run)
    decreases |run|
  {
    run == [] ||
    (Busy(s, run[0], now) && (StepKeeps(s, run[0]); AllBusy(Step(s, run[0]), run[1..], now)))
  }

  /** With the clock standing still, the daemon makes no more busy steps than the backlog, and one for a rollover. */
  lemma {:induction false} BusyRunEnds(s: Service, run: seq<Event>, now: int)
    requires Inv(s) && AllowedRun(s, run) && AllBusy(s, run, now)
    ensures |run| <= Backlog(s, now) + if RolledOver(s, now) then 1 else 0
    decreases |run|
  {
    if run != [] {
      hide Backlog, Busy;
      BusyReducesBacklog(s, run[0], now);
      StepKeeps(s, run[0]);
      BusyRunEnds(Step(s, run[0]), run[1..], now);
    }
  }

  // ----- caught up -----

  ghost predicate NothingDue(s: Service) {
    s.current != [] ==> s.last < s.current[0].expiry
  }

  /** Nothing is queued, and the head of the current list is not due. */
  ghost predicate CaughtUp(s: Service) {
    s.queue == [] && NothingDue(s)
  }

  /** A caught-up daemon that has always had room has fired every timer as often as an ideal one. */
  lemma CaughtUpRunIsIdeal(s: Service, run: seq<Event>, p: Plan)
    requires Inv(s) && OnSchedule(s, p)
    ensures AllowedRun(s, run) && AlwaysRoomy(s, run) && CaughtUp(After(s, run))
            && (forall i :: 0 <= i < |run| ==> LeftAlone(run[i], p.timer)) ==>
              var r := After(s, run);
              && p.start <= r.last && 0 < p.period
              && Fired(r.log, p.timer) == p.before + IdealFirings(p.start, p.period, r.last)
  {
    if AllowedRun(s, run) && AlwaysRoomy(s, run) && CaughtUp(After(s, run))
       && (forall i :: 0 <= i < |run| ==> LeftAlone(run[i], p.timer)) {
      RunOnSchedule(s, run, p);
      CaughtUpIsIdeal(After(s, run), p);
    }
  }

  lemma RemoveDue(l: seq<Entry>, t: int, now: int)
    requires Sorted(l) && (l != [] ==> now < l[0].expiry)
    ensures Remove(l, t) != [] ==> now < Remove(l, t)[0].expiry
  {
    RemoveMembers(l, t);
  }

  /** Commands received at a time already sampled make nothing due. */
  lemma ReceiveNothingDue(s: Service, now: int)
    requires Inv(s) && Allowed(s, Accept(now)) && s.last == now && NothingDue(s)
    ensures NothingDue(Step(s, Accept(now))) && Step(s, Accept(now)).last == now
  {
    var m := s.queue[0];
    AcceptParts(s, now);
    RemoveDue(s.current, m.timer, now);
    var d := Sample(Dequeue(s), now);
    assert d == Dequeue(s);
    assert GoodMsg(m, s.timers);
    hide Inv, Sample, Sound, Step, Insert;
    ObeyNothingDue(d, m, now);
    ObeySettings(d, m, now, m.timer);
  }

  lemma ObeyNothingDue(s: Service, m: Msg, now: int)
    requires m.timer in s.timers && s.last == now && NothingDue(s)
    requires m.command.ChangePeriod? ==> 0 < m.value
    ensures NothingDue(Obey(s, m, now))
  {
    Split(now);
  }

  // ----- the command loop -----

  /** One received command at each of the sampled times. */
  ghost function Accepts(times: seq<int>): (run: seq<Event>)
    ensures |run| == |times| && forall i :: 0 <= i < |run| ==> run[i] == Accept(times[i])
  {
    if times == [] then [] else [Accept(times[0])] + Accepts(times[1..])
  }

  /** The command loop, sampling these times, ends after the last of them with the queue empty. */
  ghost predicate Empties(s: Service, times: seq<int>)
    requires Inv(s)
  {
    AllowedRun(s, Accepts(times)) && After(s, Accepts(times)).queue == []
  }

  /** The loop goes on exactly as long as there are samples left. */
  lemma EmptiesStep(s: Service, times: seq<int>)
    requires Inv(s) && Empties(s, times)
    ensures s.queue == [] <==> times == []
    ensures times != [] ==>
              && Allowed(s, Accept(times[0])) && Inv(Step(s, Accept(times[0])))
              && Empties(Step(s, Accept(times[0])), times[1..])
              && After(s, Accepts(times)) == After(Step(s, Accept(times[0])), Accepts(times[1..]))
  {
    if times != [] {
      assert Accepts(times)[0] == Accept(times[0]) && Accepts(times)[1..] == Accepts(times[1..]);
      StepKeeps(s, Accept(times[0]));
    }
  }

  ghost predicate AllAt(times: seq<int>, now: int) {
    forall i :: 0 <= i < |times| ==> times[i] == now
  }

  /** With the clock standing still it does end. */
  lemma {:induction false} LoopEmpties(s: Service, now: int) returns (times: seq<int>)
    requires Inv(s) && Prompt(s, now)
    ensures AllAt(times, now) && Empties(s, times)
    decreases RolledOver(s, now), Work(s.queue, now)
  {
    if s.queue == [] {
      times := [];
    } else {
      ReceivePrompt(s, now);
      ReceiveReducesWork(s, now);
      StepKeeps(s, Accept(now));
      var rest := LoopEmpties(Step(s, Accept(now)), now);
      times := [now] + rest;
      assert times[1..] == rest && Accepts(times)[1..] == Accepts(rest);
    }
  }

  lemma {:induction false} LoopNothingDue(s: Service, times: seq<int>, now: int)
    requires Inv(s) && AllowedRun(s, Accepts(times)) && AllAt(times, now)
    requires s.last == now && NothingDue(s)
    ensures NothingDue(After(s, Accepts(times)))
    decreases |times|
  {
    if times != [] {
      assert Accepts(times)[1..] == Accepts(times[1..]);
      ReceiveNothingDue(s, now);
      StepKeeps(s, Accept(now));
      LoopNothingDue(Step(s, Accept(now)), times[1..], now);
    }
  }

  /** Serving keeps what the command loop needs at the same time. */
  lemma ServePrompt(s: Service, now: int)
    requires Inv(s) && Prompt(s, now)
    ensures Allowed(s, Serve(now)) && Prompt(Step(s, Serve(now)), now)
  {
    SamplePrompt(s, now);
    SampleKeeps(s, now);
    Split(now);
    var r := Sample(s, now);
    if !RolledOver(s, now) && s.current != [] && s.current[0].expiry <= now {
      ProcessPrompt(r, now);
    }
  }

  lemma ProcessPrompt(s: Service, now: int)
    requires s.current != [] && s.current[0].timer in s.timers && s.current[0].expiry <= now < s.current[0].expiry + M
    requires forall i :: 0 <= i < |s.queue| ==> TimelyCommand(s.queue[i], now)
    ensures var q := ProcessExpired(s, now).queue; forall i :: 0 <= i < |q| ==> TimelyCommand(q[i], now)
    ensures ProcessExpired(s, now).last == s.last
  {
  }

  // ----- passes of the daemon -----

  /**
   A pass at a time that stands still: one Serve, then commands until the queue is empty. If it
   did something it leaves a smaller backlog, and otherwise the daemon has caught up.
   */
  lemma PassAt(s: Service, now: int) returns (times: seq<int>, pass: seq<Event>)
    requires Inv(s) && Prompt(s, now)
    ensures Allowed(s, Serve(now)) && Inv(Step(s, Serve(now)))
    ensures AllAt(times, now) && Empties(Step(s, Serve(now)), times)
    ensures pass == [Serve(now)] + Accepts(times)
    ensures AllowedRun(s, pass) && After(s, pass) == After(Step(s, Serve(now)), Accepts(times))
    ensures forall e <- pass :: e == Serve(now) || e == Accept(now)
    ensures var r := After(s, pass);
            && Prompt(r, now)
            && (Busy(s, Serve(now), now) ==>
                  !RolledOver(r, now) && (RolledOver(s, now) || Backlog(r, now) < Backlog(s, now)))
            && (!Busy(s, Serve(now), now) ==> CaughtUp(r))
  {
    var e := Serve(now);
    ServePrompt(s, now);
    StepKeeps(s, e);
    var r := Step(s, e);
    ServeSamples(s, now);
    times := LoopEmpties(r, now);
    pass := [e] + Accepts(times);
    assert pass[1..] == Accepts(times);
    LoopPrompt(r, times, now);
    if Busy(s, e, now) {
      BusyReducesBacklog(s, e, now);
    } else {
      LoopNothingDue(r, times, now);
    }
  }

  lemma ServeSamples(s: Service, now: int)
    requires Inv(s) && Allowed(s, Serve(now))
    ensures Step(s, Serve(now)).last == now
    ensures !Busy(s, Serve(now), now) ==> NothingDue(Step(s, Serve(now)))
  {
    SampleKeeps(s, now);
  }

  lemma {:induction false} LoopPrompt(s: Service, times: seq<int>, now: int)
    requires Inv(s) && Prompt(s, now) && s.last == now && AllAt(times, now) && AllowedRun(s, Accepts(times))
    ensures var r := After(s, Accepts(times));
            Prompt(r, now) && r.last == now && Backlog(r, now) <= Backlog(s, now)
    decreases |times|
  {
    if times != [] {
      assert Accepts(times)[1..] == Accepts(times[1..]);
      hide Backlog, Prompt, Busy, Inv, Allowed;
      ReceivePrompt(s, now);
      BusyReducesBacklog(s, Accept(now), now);
      StepKeeps(s, Accept(now));
      AcceptSamples(s, now);
      LoopPrompt(Step(s, Accept(now)), times[1..], now);
    }
  }

  lemma AcceptSamples(s: Service, now: int)
    requires Inv(s) && Allowed(s, Accept(now))
    ensures Step(s, Accept(now)).last == now
  {
    AcceptParts(s, now);
    ObeySettings(Sample(Dequeue(s), now), s.queue[0], now, s.queue[0].timer);
  }
}
