/**
 What happens at a rollover of the tick counter, and why emptying the command queue ends.
 */
module TimerDrain {
  import opened Ticks
  import opened TimerModel
  import opened TimerInvariant
  import opened TimerRuns

  // ----- the callbacks of one rollover -----

  /** The expiry times of an auto-reload timer from `v` on that lie before `boundary`. */
  function Reloads(v: int, period: int, boundary: int): (r: seq<int>)
    requires 0 < period
    ensures r == [] <==> boundary <= v
    decreases boundary - v
  {
    if boundary <= v then [] else [v] + Reloads(v + period, period, boundary)
  }

  lemma AtShift(v: int, period: int, i: nat)
    ensures At(v + period, period, i) == At(v, period, i + 1)
  {
    if i > 0 { AtShift(v, period, i - 1); }
  }

  /** There are ceil((boundary - v) / period) of them, at v, v + period, and so on. */
  lemma {:induction false} ReloadsExact(v: int, period: int, boundary: int)
    requires 0 < period && v < boundary
    ensures var n := |Reloads(v, period, boundary)|;
            && n == (boundary - v + period - 1) / period
            && (forall i :: 0 <= i < n ==> Reloads(v, period, boundary)[i] == v + i * period)
            && v + (n - 1) * period < boundary <= v + n * period
    decreases boundary - v
  {
    ReloadsAreAt(v, period, boundary);
    var n := |Reloads(v, period, boundary)|;
    forall i | 0 <= i < n ensures Reloads(v, period, boundary)[i] == v + i * period {
      AtIsProduct(v, period, i);
    }
    AtIsProduct(v, period, n - 1);
    assert n * period == (n - 1) * period + period;
    QuotientUnique(boundary - v + period - 1, period, n);
  }

  lemma {:induction false} ReloadsAreAt(v: int, period: int, boundary: int)
    requires 0 < period && v < boundary
    ensures var r := Reloads(v, period, boundary);
            && (forall i :: 0 <= i < |r| ==> r[i] == At(v, period, i))
            && At(v, period, |r| - 1) < boundary <= At(v, period, |r| - 1) + period
    decreases boundary - v
  {
    var r := Reloads(v, period, boundary);
    if v + period < boundary {
      ReloadsAreAt(v + period, period, boundary);
      AtShift(v, period, |r| - 2);
      forall i | 0 < i < |r| ensures r[i] == At(v, period, i) {
        AtShift(v, period, i - 1);
      }
    }
  }

  // ----- the sends of one rollover -----

  predicate IsAuto(t: int, timers: map<int, Attr>) {
    t in timers && timers[t].autoReload
  }

  /** How many entries of the list are of auto-reload timers. */
  function Autos(l: seq<Entry>, timers: map<int, Attr>): nat {
    if l == [] then 0 else (if IsAuto(l[0].timer, timers) then 1 else 0) + Autos(l[1..], timers)
  }

  lemma AutosInsert(l: seq<Entry>, e: Entry, timers: map<int, Attr>)
    ensures Autos(Insert(l, e), timers) == Autos(l, timers) + if IsAuto(e.timer, timers) then 1 else 0
  {
    if l != [] && l[0].expiry <= e.expiry {
      AutosInsert(l[1..], e, timers);
      assert Insert(l, e)[1..] == Insert(l[1..], e);
    } else {
      assert Insert(l, e)[1..] == l;
    }
  }

  /** The queue has room for the STARTs of a rollover: one for each listed auto-reload timer. */
  predicate RoomToDrain(s: Service) {
    |s.queue| + Autos(s.current, s.timers) <= QUEUE_LENGTH
  }

  /** One round: an auto-reload timer stays to be sent for, or its START is sent if it finds room. */
  lemma DrainOneSends(s: Service, boundary: int, now: int)
    requires Sound(s) && s.current != []
    ensures var r := DrainOne(s, boundary, now);
            var stays := Autos(r.current, r.timers) == Autos(s.current, s.timers);
            && Autos(r.current, r.timers) <= Autos(s.current, s.timers) <= Autos(r.current, r.timers) + 1
            && (stays <==> !s.timers[s.current[0].timer].autoReload
                           || s.current[0].expiry + s.timers[s.current[0].timer].period < boundary)
            && r.queue == if stays then s.queue else s.queue + Sent(s, Msg(Start, s.current[0].timer, s.current[0].expiry))
  {
    var e := s.current[0];
    AutosInsert(s.current[1..], Entry(e.timer, e.expiry + s.timers[e.timer].period), s.timers);
  }

  /** A rollover sends one START for each auto-reload timer of the list, as far as there is room. */
  lemma {:induction false} DrainSends(s: Service, boundary: int, now: int)
    requires Sound(s) && Epochs(s, boundary)
    ensures |Drain(s, boundary, now).queue|
            == if RoomToDrain(s) then |s.queue| + Autos(s.current, s.timers) else QUEUE_LENGTH
    decreases TicksLeft(s.current, boundary)
  {
    if s.current != [] {
      DrainOneSends(s, boundary, now);
      DrainOneKeeps(s, boundary, now);
      DrainOneProgress(s, boundary, now);
      DrainSends(DrainOne(s, boundary, now), boundary, now);
    }
  }

  /** A timer due at `due` has been through everything up to `boundary`. */
  ghost predicate Through(v: View, w: View, t: int, a: Attr, due: int, boundary: int, room: bool)
    requires 0 < a.period
  {
    if a.autoReload then
      var fires := Reloads(due, a.period, boundary);
      && fires != []
      && w.fired == v.fired + fires
      && (|| w.pending == v.pending + [Msg(Start, t, fires[|fires| - 1])]
          || (!room && w.pending == v.pending))
    else
      w.fired == v.fired + [due] && w.pending == v.pending
  }

  ghost predicate FiredThrough(s: Service, d: Service, t: int, due: int, boundary: int)
    requires t in s.timers && 0 < s.timers[t].period
  {
    Through(Seen(s, t), Seen(d, t), t, s.timers[t], due, boundary, RoomToDrain(s))
  }

  /** The first firing of a timer, at `due`, and all that follow. */
  lemma ThroughHead(v: View, m: View, w: View, t: int, a: Attr, due: int, boundary: int, room: bool, later: bool)
    requires 0 < a.period && due < boundary && (room ==> later) && m.fired == v.fired + [due]
    requires
      if a.autoReload && due + a.period < boundary then
        m.pending == v.pending && Through(m, w, t, a, due + a.period, boundary, later)
      else
        && w.fired == m.fired && w.pending == m.pending
        && (|| m.pending == v.pending + (if a.autoReload then [Msg(Start, t, due)] else [])
            || (!room && m.pending == v.pending))
    ensures Through(v, w, t, a, due, boundary, room)
  {
    if a.autoReload {
      var rest := Reloads(due + a.period, a.period, boundary);
      assert Reloads(due, a.period, boundary) == [due] + rest;
      assert v.fired + [due] + rest == v.fired + ([due] + rest);
    }
  }

  /**
   A one-shot timer in the current list fires once.  An auto-reload timer fires at each of its
   expiries before the rollover, and one START is sent for it, carrying the last of them; if
   the queue has room for all of these STARTs, none is refused.
   */
  lemma {:induction false} DrainFires(s: Service, boundary: int, now: int, t: int)
    requires Sound(s) && Epochs(s, boundary) && Due(s.current, t) != []
    ensures t in s.timers && |Due(s.current, t)| == 1
    ensures FiredThrough(s, Drain(s, boundary, now), t, Due(s.current, t)[0], boundary)
    decreases TicksLeft(s.current, boundary)
  {
    assert |Waiting(s, t)| <= 1;
    DueKnown(s.current, t, s.timers, boundary);
    var r := DrainOne(s, boundary, now);
    DrainOneKeeps(s, boundary, now);
    DrainOneProgress(s, boundary, now);
    DrainOneDue(s, boundary, now, t);
    if Due(r.current, t) != [] {
      DrainFires(r, boundary, now, t);
    } else {
      DrainLeavesAbsent(r, boundary, now, t);
    }
    FiredThroughOne(s, Drain(s, boundary, now), boundary, now, t);
  }

  lemma FiredThroughOne(s: Service, d: Service, boundary: int, now: int, t: int)
    requires Sound(s) && Epochs(s, boundary) && s.current != [] && t in s.timers
    requires Due(s.current, t) != []
    requires var r := DrainOne(s, boundary, now);
             if Due(r.current, t) != [] then FiredThrough(r, d, t, Due(r.current, t)[0], boundary)
             else Fired(d.log, t) == Fired(r.log, t) && Pending(d.queue, t) == Pending(r.queue, t)
    ensures FiredThrough(s, d, t, Due(s.current, t)[0], boundary)
  {
    hide Due, Fired, Pending, RoomToDrain, Through, Insert;
    DueKnown(s.current, t, s.timers, boundary);
    var r, e := DrainOne(s, boundary, now), s.current[0];
    assert r.timers == s.timers && 0 < s.timers[t].period && e.expiry < boundary;
    hide Sound, Epochs, DrainOne;
    DrainOneDue(s, boundary, now, t);
    DrainOneSeen(s, boundary, now, t);
    RoomStays(s, boundary, now);
    if e.timer == t {
      ThroughHead(Seen(s, t), Seen(r, t), Seen(d, t), t, s.timers[t], e.expiry, boundary,
                  RoomToDrain(s), RoomToDrain(r));
    } else {
      ThroughRoom(Seen(s, t), Seen(d, t), t, s.timers[t], Due(s.current, t)[0], boundary,
                  RoomToDrain(s), RoomToDrain(r));
    }
  }

  lemma ThroughRoom(v: View, w: View, t: int, a: Attr, due: int, boundary: int, room: bool, later: bool)
    requires 0 < a.period && (room ==> later) && Through(v, w, t, a, due, boundary, later)
    ensures Through(v, w, t, a, due, boundary, room)
  {
  }

  lemma RoomStays(s: Service, boundary: int, now: int)
    requires Sound(s) && s.current != []
    ensures var e := s.current[0];
            RoomToDrain(s) ==>
              && RoomToDrain(DrainOne(s, boundary, now))
              && (s.timers[e.timer].autoReload && e.expiry + s.timers[e.timer].period >= boundary
                  ==> Sent(s, Msg(Start, e.timer, e.expiry)) == [Msg(Start, e.timer, e.expiry)])
  {
    DrainOneSends(s, boundary, now);
  }

  lemma DrainOneDue(s: Service, boundary: int, now: int, t: int)
    requires Sound(s) && s.current != [] && Due(s.current, t) != []
    ensures var e := s.current[0];
            Due(DrainOne(s, boundary, now).current, t)
            == if e.timer != t then Due(s.current, t)
               else if s.timers[t].autoReload && e.expiry + s.timers[t].period < boundary
               then [e.expiry + s.timers[t].period] else []
    ensures s.current[0].timer == t ==> Due(s.current, t) == [s.current[0].expiry]
  {
    var e := s.current[0];
    WaitingHead(s);
    DueInsert(s.current[1..], Entry(e.timer, e.expiry + s.timers[e.timer].period), t);
  }

  lemma DueKnown(l: seq<Entry>, t: int, timers: map<int, Attr>, boundary: int)
    requires Known(l, timers) && Due(l, t) != []
    requires forall i :: 0 <= i < |l| ==> l[i].expiry < boundary
    ensures t in timers && Due(l, t)[0] < boundary
  {
    if l[0].timer != t { DueKnown(l[1..], t, timers, boundary); }
  }

  /** The callbacks of one rollover are made in order of expiry, all before the rollover. */
  lemma {:induction false} DrainInOrder(s: Service, boundary: int, now: int)
    requires Sound(s) && Epochs(s, boundary)
    ensures var d := Drain(s, boundary, now);
            && |s.log| <= |d.log| && d.log[..|s.log|] == s.log
            && (forall i :: |s.log| <= i < |d.log| ==>
                  s.current != [] && s.current[0].expiry <= d.log[i].due < boundary && d.log[i].at == now)
            && (forall i, j :: |s.log| <= i < j < |d.log| ==> d.log[i].due <= d.log[j].due)
    decreases TicksLeft(s.current, boundary)
  {
    if s.current != [] {
      var r := DrainOne(s, boundary, now);
      DrainOneKeeps(s, boundary, now);
      DrainOneProgress(s, boundary, now);
      DrainInOrder(r, boundary, now);
      var e := s.current[0];
      InsertMembers(s.current[1..], Entry(e.timer, e.expiry + s.timers[e.timer].period));
      assert r.current != [] ==> e.expiry <= r.current[0].expiry;
      var d := Drain(s, boundary, now);
      assert d.log[..|s.log|] == d.log[..|r.log|][..|s.log|];
      assert d.log[|s.log|] == d.log[..|r.log|][|s.log|] == Firing(e.timer, e.expiry, now);
    }
  }

  /** The record only grows, by callbacks made at the time `now`. */
  ghost predicate FiresAt(before: seq<Firing>, after: seq<Firing>, now: int) {
    && |before| <= |after| && after[..|before|] == before
    && forall i :: |before| <= i < |after| ==> after[i].at == now
  }

  lemma SampleFiresNow(s: Service, now: int)
    requires Inv(s)
    ensures FiresAt(s.log, Sample(s, now).log, now)
  {
    if RolledOver(s, now) { DrainInOrder(s, Rollover(s.last), now); }
  }

  lemma FiresAtThen(a: seq<Firing>, b: seq<Firing>, c: seq<Firing>, now: int)
    requires FiresAt(a, b, now) && FiresAt(b, c, now)
    ensures FiresAt(a, c, now)
  {
    assert c[..|a|] == c[..|b|][..|a|];
  }

  lemma ObeyFiresNow(s: Service, m: Msg, now: int)
    requires m.timer in s.timers
    ensures FiresAt(s.log, Obey(s, m, now).log, now)
  {
  }

  /** Every step makes its callbacks at the time it samples, and none is forgotten. */
  lemma StepFiresNow(s: Service, e: Event)
    requires Inv(s) && Allowed(s, e)
    ensures FiresAt(s.log, Step(s, e).log, Step(s, e).last)
  {
    match e
    case Serve(now) =>
      SampleFiresNow(s, now);
      SampleKeeps(s, now);
      FiresAtThen(s.log, Sample(s, now).log, Step(s, e).log, now);
    case Accept(now) =>
      AcceptParts(s, now);
      SampleFiresNow(Dequeue(s), now);
      var d := Sample(Dequeue(s), now);
      ObeySettings(d, s.queue[0], now, s.queue[0].timer);
      hide Inv, Sample, Obey, FiresAt, Step, Allowed;
      ObeyFiresNow(d, s.queue[0], now);
      FiresAtThen(s.log, d.log, Obey(d, s.queue[0], now).log, now);
    case Post(m) =>
    case Create(u, a) =>
  }

  /** Draining only adds STARTs to the end of the queue. */
  lemma DrainQueue(s: Service, boundary: int, now: int)
    requires Sound(s) && Epochs(s, boundary)
    ensures var d := Drain(s, boundary, now);
            && |s.queue| <= |d.queue| && d.queue[..|s.queue|] == s.queue
            && (forall i :: |s.queue| <= i < |d.queue| ==>
                  d.queue[i].command.Start? && s.current != [] && s.current[0].expiry <= d.queue[i].value < boundary)
    decreases TicksLeft(s.current, boundary)
  {
    if s.current != [] {
      var r := DrainOne(s, boundary, now);
      DrainOneKeeps(s, boundary, now);
      DrainOneProgress(s, boundary, now);
      DrainQueue(r, boundary, now);
      var e := s.current[0];
      InsertMembers(s.current[1..], Entry(e.timer, e.expiry + s.timers[e.timer].period));
      assert r.current != [] ==> e.expiry <= r.current[0].expiry;
      var d := Drain(s, boundary, now);
      assert d.queue[..|s.queue|] == d.queue[..|r.queue|][..|s.queue|];
      forall i | |s.queue| <= i < |d.queue|
        ensures d.queue[i].command.Start? && e.expiry <= d.queue[i].value < boundary
      {
        if i < |r.queue| {
          assert d.queue[i] == d.queue[..|r.queue|][i];
        }
      }
    }
  }

  // ----- emptying the queue -----

  function Lateness(m: Msg, now: int): nat {
    if m.command.Start? && m.value < now then now - m.value else 0
  }

  /** One for each queued command, and for a START how late it is on top. */
  function Work(q: seq<Msg>, now: int): nat {
    if q == [] then 0 else 1 + Lateness(q[0], now) + Work(q[1..], now)
  }

  lemma WorkAppend(q: seq<Msg>, m: Msg, now: int)
    ensures Work(q + [m], now) == Work(q, now) + 1 + Lateness(m, now)
  {
    if q != [] {
      WorkAppend(q[1..], m, now);
      assert (q + [m])[1..] == q[1..] + [m];
    }
  }

  /**
   While the clock stands still, receiving a command either samples a rollover, which cannot
   happen again, or reduces the work in the queue, even when it sends a START back to it.
   */
  lemma ReceiveReducesWork(s: Service, now: int)
    requires Inv(s) && Allowed(s, Accept(now))
    ensures var r := Step(s, Accept(now));
            !RolledOver(r, now) && (!RolledOver(s, now) ==> Work(r.queue, now) < Work(s.queue, now))
  {
    AcceptParts(s, now);
    var m := s.queue[0];
    var d := Sample(Dequeue(s), now);
    ObeySettings(d, m, now, m.timer);
    assert 0 < d.timers[m.timer].period;
    ObeyWork(d, m, now);
  }

  lemma ObeyWork(s: Service, m: Msg, now: int)
    requires m.timer in s.timers && 0 < s.timers[m.timer].period
    ensures Work(Obey(s, m, now).queue, now) <= Work(s.queue, now) + Lateness(m, now)
  {
    WorkAppend(s.queue, Msg(Start, m.timer, m.value + s.timers[m.timer].period), now);
  }

  /**
   So with the clock standing still at a time already sampled and nobody else posting, the
   daemon receives no more commands than there is work in the queue.
   */
  lemma {:induction false} CommandLoopEnds(s: Service, run: seq<Event>, now: int)
    requires Inv(s) && AllowedRun(s, run) && !RolledOver(s, now)
    requires forall i :: 0 <= i < |run| ==> run[i] == Accept(now)
    ensures |run| + Work(After(s, run).queue, now) <= Work(s.queue, now)
    decreases |run|
  {
    if run != [] {
      ReceiveReducesWork(s, now);
      StepKeeps(s, run[0]);
      CommandLoopEnds(Step(s, run[0]), run[1..], now);
    }
  }

  /** Every queued START is timely, and would be if a rollover reloaded timers at `now`. */
  ghost predicate Prompt(s: Service, now: int) {
    && Timely(s, now)
    && (forall i :: 0 <= i < |s.queue| ==> TimelyCommand(s.queue[i], now))
    && (RolledOver(s, now) ==> forall i :: 0 <= i < |s.current| ==> now < s.current[i].expiry + M)
  }

  /** With the clock standing still, promptness is all the command loop ever needs. */
  lemma ReceivePrompt(s: Service, now: int)
    requires Inv(s) && s.queue != [] && Prompt(s, now)
    ensures Allowed(s, Accept(now)) && Prompt(Step(s, Accept(now)), now)
  {
    hide Obey, Drain, Work;
    var m := s.queue[0];
    var d := Dequeue(s);
    RemoveMembers(s.current, m.timer);
    RemoveMembers(s.overflow, m.timer);
    assert Allowed(s, Accept(now)) && Timely(d, now) && TimelyCommand(m, now);
    AcceptParts(s, now);
    var r := Sample(d, now);
    SamplePrompt(d, now);
    assert 0 < r.timers[m.timer].period && r.last == now;
    hide Inv, Sample, Dequeue, Step, Sound;
    ObeySettings(r, m, now, m.timer);
    ObeyPrompt(r, m, now);
  }

  lemma SamplePrompt(s: Service, now: int)
    requires Inv(s) && Timely(s, now)
    requires forall i :: 0 <= i < |s.queue| ==> TimelyCommand(s.queue[i], now)
    requires RolledOver(s, now) ==> forall i :: 0 <= i < |s.current| ==> now < s.current[i].expiry + M
    ensures var q := Sample(s, now).queue; forall i :: 0 <= i < |q| ==> TimelyCommand(q[i], now)
  {
    if RolledOver(s, now) {
      var boundary := Rollover(s.last);
      DrainQueue(s, boundary, now);
      if s.current != [] { RolloverSeen(s.last, now); Split(now); }
      var q := Drain(s, boundary, now).queue;
      forall i | 0 <= i < |q| ensures TimelyCommand(q[i], now) {
        if i < |s.queue| {
          assert q[i] == q[..|s.queue|][i];
        }
      }
    }
  }

  lemma ObeyPrompt(s: Service, m: Msg, now: int)
    requires m.timer in s.timers && 0 < s.timers[m.timer].period && TimelyCommand(m, now)
    requires forall i :: 0 <= i < |s.queue| ==> TimelyCommand(s.queue[i], now)
    ensures var q := Obey(s, m, now).queue; forall i :: 0 <= i < |q| ==> TimelyCommand(q[i], now)
  {
  }
}
