/**
 Every step of the timer daemon keeps its lists sorted, keeps every timer in at most one
 place, and keeps the current list in the wrap epoch of the last sample and the overflow
 list in the next one.
 */
module TimerInvariant {
  import opened Ticks
  import opened TimerModel

  // ----- list primitives -----

  lemma DueInsert(l: seq<Entry>, e: Entry, t: int)
    ensures e.timer != t ==> Due(Insert(l, e), t) == Due(l, t)
    ensures e.timer == t ==> |Due(Insert(l, e), t)| == |Due(l, t)| + 1
    ensures e.timer == t && Due(l, t) == [] ==> Due(Insert(l, e), t) == [e.expiry]
  {
    if l != [] && l[0].expiry <= e.expiry {
      DueInsert(l[1..], e, t);
      assert Insert(l, e)[1..] == Insert(l[1..], e);
    } else {
      assert Insert(l, e)[1..] == l;
    }
  }

  lemma DueRemove(l: seq<Entry>, u: int, t: int)
    ensures Due(Remove(l, u), t) == if t == u then [] else Due(l, t)
  {
    if l != [] {
      DueRemove(l[1..], u, t);
      if l[0].timer != u {
        assert Remove(l, u)[1..] == Remove(l[1..], u);
      }
    }
  }

  /** A timer is waiting in a list exactly when the list has an entry for it. */
  lemma DueHas(l: seq<Entry>, i: int)
    requires 0 <= i < |l|
    ensures l[i].expiry in Due(l, l[i].timer)
  {
    if i > 0 { DueHas(l[1..], i - 1); }
  }

  /** In a sorted list an entry goes behind all that expire no later, and in front of the rest. */
  lemma {:induction false} InsertExactly(l: seq<Entry>, e: Entry) returns (k: nat)
    requires Sorted(l)
    ensures k <= |l| && Insert(l, e) == l[..k] + [e] + l[k..]
    ensures forall i :: 0 <= i < |l| ==> (l[i].expiry <= e.expiry <==> i < k)
  {
    if l == [] || e.expiry < l[0].expiry {
      k := 0;
    } else {
      var j := InsertExactly(l[1..], e);
      k := j + 1;
      assert l == [l[0]] + l[1..];
    }
  }

  lemma InsertSorted(l: seq<Entry>, e: Entry)
    requires Sorted(l)
    ensures Sorted(Insert(l, e))
  {
    if l != [] && l[0].expiry <= e.expiry {
      InsertSorted(l[1..], e);
      InsertMembers(l[1..], e);
    }
  }

  lemma InsertWithin(l: seq<Entry>, e: Entry, lo: int, hi: int)
    requires Within(l, lo, hi) && lo <= e.expiry < hi
    ensures Within(Insert(l, e), lo, hi)
  {
    InsertMembers(l, e);
  }

  lemma InsertKnown(l: seq<Entry>, e: Entry, timers: map<int, Attr>)
    requires Known(l, timers) && e.timer in timers
    ensures Known(Insert(l, e), timers)
  {
    InsertMembers(l, e);
  }

  lemma RemoveSorted(l: seq<Entry>, t: int)
    requires Sorted(l)
    ensures Sorted(Remove(l, t))
  {
    if l != [] {
      RemoveSorted(l[1..], t);
      RemoveMembers(l[1..], t);
      ConsSorted(l[0], Remove(l[1..], t));
    }
  }

  lemma ConsSorted(e: Entry, l: seq<Entry>)
    requires Sorted(l) && forall i :: 0 <= i < |l| ==> e.expiry <= l[i].expiry
    ensures Sorted([e] + l)
  {
  }

  lemma RemoveKeeps(l: seq<Entry>, t: int, lo: int, hi: int, timers: map<int, Attr>)
    requires Sorted(l) && Within(l, lo, hi) && Known(l, timers)
    ensures Sorted(Remove(l, t)) && Within(Remove(l, t), lo, hi) && Known(Remove(l, t), timers)
  {
    RemoveSorted(l, t);
    RemoveMembers(l, t);
  }

  // ----- the parts of a step -----

  ghost predicate Epochs(s: Service, rollover: int) {
    && Within(s.current, rollover - M, rollover)
    && Within(s.overflow, rollover, rollover + M)
  }

  lemma WaitingHead(s: Service)
    requires Sound(s) && s.current != []
    ensures Waiting(s, s.current[0].timer) == [s.current[0].expiry]
    ensures Due(s.current[1..], s.current[0].timer) == [] && Due(s.overflow, s.current[0].timer) == []
  {
    assert |Waiting(s, s.current[0].timer)| <= 1;
  }

  lemma SoundDrainable(s: Service, rollover: int)
    requires Sound(s) && Epochs(s, rollover)
    ensures Drainable(s, rollover)
  {
  }

  lemma DrainOneKeeps(s: Service, boundary: int, now: int)
    requires Sound(s) && Epochs(s, boundary) && s.current != []
    ensures Sound(DrainOne(s, boundary, now)) && Epochs(DrainOne(s, boundary, now), boundary)
  {
    var r := DrainOne(s, boundary, now);
    var e := s.current[0];
    var a := s.timers[e.timer];
    var rest := s.current[1..];
    WaitingHead(s);
    if a.autoReload && e.expiry + a.period < boundary {
      var again := Entry(e.timer, e.expiry + a.period);
      InsertSorted(rest, again);
      InsertWithin(rest, again, boundary - M, boundary);
      InsertKnown(rest, again, s.timers);
    }
    forall t ensures |Waiting(r, t)| <= 1 {
      assert |Waiting(s, t)| <= 1;
      DueInsert(rest, Entry(e.timer, e.expiry + a.period), t);
    }
  }

  lemma DrainKeeps(s: Service, boundary: int, now: int)
    requires Sound(s) && Epochs(s, boundary)
    ensures Sound(Drain(s, boundary, now)) && Epochs(Drain(s, boundary, now), boundary)
    decreases TicksLeft(s.current, boundary)
  {
    if s.current != [] {
      DrainOneKeeps(s, boundary, now);
      DrainOneProgress(s, boundary, now);
      DrainKeeps(DrainOne(s, boundary, now), boundary, now);
    }
  }

  /** Swapping a drained current list with the overflow list, one epoch later. */
  lemma SwapKeeps(s: Service, now: int)
    requires Sound(s) && Epochs(s, Rollover(s.last)) && s.current == []
    requires s.overflow != [] ==> Rollover(now) == Rollover(s.last) + M
    ensures Inv(s.(current := s.overflow, overflow := s.current, last := now))
  {
    var r := s.(current := s.overflow, overflow := s.current, last := now);
    forall t ensures |Waiting(r, t)| <= 1 {
      assert |Waiting(s, t)| <= 1;
    }
  }

  lemma TimeKeeps(s: Service, now: int)
    requires Inv(s)
    requires s.current != [] || s.overflow != [] ==> Rollover(now) == Rollover(s.last)
    ensures Inv(s.(last := now))
  {
    var r := s.(last := now);
    forall t ensures |Waiting(r, t)| <= 1 {
      assert |Waiting(s, t)| <= 1;
    }
  }

  lemma SampleKeeps(s: Service, now: int)
    requires Inv(s) && Timely(s, now)
    ensures Inv(Sample(s, now))
    ensures Sample(s, now).last == now && Sample(s, now).timers == s.timers
  {
    var boundary := Rollover(s.last);
    if s.current != [] || s.overflow != [] {
      RolloverSeen(s.last, now);
    }
    if RolledOver(s, now) {
      DrainKeeps(s, boundary, now);
      DrainKeepsTimers(s, boundary, now);
      SwapKeeps(Drain(s, boundary, now), now);
    } else {
      TimeKeeps(s, now);
    }
  }

  lemma DequeueKeeps(s: Service)
    requires Inv(s) && s.queue != []
    ensures Inv(Dequeue(s))
    ensures Waiting(Dequeue(s), s.queue[0].timer) == []
    ensures s.queue[0].timer in s.timers
  {
    var t0 := s.queue[0].timer;
    assert GoodMsg(s.queue[0], s.timers);
    RemoveKeeps(s.current, t0, Rollover(s.last) - M, Rollover(s.last), s.timers);
    RemoveKeeps(s.overflow, t0, Rollover(s.last), Rollover(s.last) + M, s.timers);
    forall t ensures |Waiting(Dequeue(s), t)| <= 1 && (t == t0 ==> Waiting(Dequeue(s), t) == []) {
      assert |Waiting(s, t)| <= 1;
      DueRemove(s.current, t0, t);
      DueRemove(s.overflow, t0, t);
    }
  }

  lemma ActivateWaiting(s: Service, t: int, command: int, now: int, u: int)
    requires t in s.timers && Waiting(s, t) == []
    ensures Waiting(Activate(s, t, command, now), u)
            == if u != t then Waiting(s, u)
               else if Expired(s, t, command, now) then []
               else [command + s.timers[t].period]
  {
    hide Insert, Rollover;
    var e := Entry(t, command + s.timers[t].period);
    DueInsert(s.current, e, u);
    DueInsert(s.overflow, e, u);
  }

  lemma ActivateLists(s: Service, t: int, command: int, now: int)
    requires Inv(s) && s.last == now && t in s.timers && command <= now
    ensures var r := Activate(s, t, command, now);
            && Sorted(r.current) && Within(r.current, Rollover(now) - M, Rollover(now)) && Known(r.current, s.timers)
            && Sorted(r.overflow) && Within(r.overflow, Rollover(now), Rollover(now) + M) && Known(r.overflow, s.timers)
  {
    var e := Entry(t, command + s.timers[t].period);
    var turn := Rollover(now);
    Split(now);
    match Place(command, s.timers[t].period, now) {
      case ProcessNow =>
      case Current =>
        InsertSorted(s.current, e);
        InsertWithin(s.current, e, turn - M, turn);
        InsertKnown(s.current, e, s.timers);
      case Overflow =>
        InsertSorted(s.overflow, e);
        InsertWithin(s.overflow, e, turn, turn + M);
        InsertKnown(s.overflow, e, s.timers);
    }
  }

  /** Activating a timer that is in neither list puts it in the list of its expiry's epoch. */
  lemma ActivateKeeps(s: Service, t: int, command: int, now: int)
    requires Inv(s) && s.last == now && t in s.timers && Waiting(s, t) == []
    requires command <= now
    ensures Inv(Activate(s, t, command, now))
  {
    var r := Activate(s, t, command, now);
    ActivateLists(s, t, command, now);
    forall u ensures |Waiting(r, u)| <= 1 {
      assert |Waiting(s, u)| <= 1;
      ActivateWaiting(s, t, command, now, u);
    }
  }

  lemma PopKeeps(s: Service)
    requires Inv(s) && s.current != []
    ensures Inv(s.(current := s.current[1..]))
    ensures Waiting(s.(current := s.current[1..]), s.current[0].timer) == []
  {
    var rest := s.(current := s.current[1..]);
    WaitingHead(s);
    forall t ensures |Waiting(rest, t)| <= 1 {
      assert |Waiting(s, t)| <= 1;
    }
  }

  lemma ProcessExpiredKeeps(s: Service, now: int)
    requires Inv(s) && s.last == now && s.current != [] && s.current[0].expiry <= now
    ensures Inv(ProcessExpired(s, now))
  {
    var e := s.current[0];
    var rest := s.(current := s.current[1..]);
    PopKeeps(s);
    var reloaded := rest;
    if s.timers[e.timer].autoReload {
      if Expired(rest, e.timer, e.expiry, now) {
        SendKeeps(rest, Msg(Start, e.timer, e.expiry));
        reloaded := SendStart(rest, e.timer, e.expiry);
      } else {
        ActivateKeeps(rest, e.timer, e.expiry, now);
        reloaded := Activate(rest, e.timer, e.expiry, now);
      }
    }
    LogIrrelevant(reloaded, reloaded.log + [Firing(e.timer, e.expiry, now)]);
  }

  /** The invariant speaks of the lists, and of the rest only through what they need. */
  lemma Reframe(s: Service, r: Service)
    requires Inv(s)
    requires r.current == s.current && r.overflow == s.overflow && r.last == s.last
    requires s.timers.Keys <= r.timers.Keys
    requires GoodTimers(r.timers) && GoodQueue(r.queue, r.timers)
    ensures Inv(r)
  {
    forall t ensures |Waiting(r, t)| <= 1 {
      assert |Waiting(s, t)| <= 1;
    }
  }

  lemma QueueReframe(q: seq<Msg>, before: map<int, Attr>, after: map<int, Attr>)
    requires GoodQueue(q, before) && before.Keys <= after.Keys
    ensures GoodQueue(q, after)
  {
    forall i | 0 <= i < |q| ensures GoodMsg(q[i], after) {
      assert GoodMsg(q[i], before);
    }
  }

  lemma LogIrrelevant(s: Service, log: seq<Firing>)
    requires Inv(s)
    ensures Inv(s.(log := log))
  {
    Reframe(s, s.(log := log));
  }

  lemma SendKeeps(s: Service, m: Msg)
    requires Inv(s) && GoodMsg(m, s.timers)
    ensures Inv(Send(s, m))
  {
    Reframe(s, Send(s, m));
  }

  /** Creating a timer, or changing the period of one. */
  lemma SettingKeeps(s: Service, t: int, a: Attr)
    requires Inv(s) && 0 < a.period < M
    ensures Inv(s.(timers := s.timers[t := a]))
  {
    QueueReframe(s.queue, s.timers, s.timers[t := a]);
    Reframe(s, s.(timers := s.timers[t := a]));
  }

  lemma ObeyKeeps(s: Service, m: Msg, now: int)
    requires Inv(s) && s.last == now && GoodMsg(m, s.timers) && Waiting(s, m.timer) == []
    requires TimelyCommand(m, now)
    ensures Inv(Obey(s, m, now))
    ensures m.command.Stop? || m.command.Delete? ==> Waiting(Obey(s, m, now), m.timer) == []
  {
    match m.command
    case Start =>
      var t := m.timer;
      if Expired(s, t, m.value, now) {
        var due := m.value + s.timers[t].period;
        LogIrrelevant(s, s.log + [Firing(t, due, now)]);
        SendKeeps(Fire(s, t, due, now), Msg(Start, t, due));
      } else {
        ActivateKeeps(s, t, m.value, now);
      }
    case ChangePeriod =>
      SettingKeeps(s, m.timer, s.timers[m.timer].(period := m.value));
      var r := s.(timers := s.timers[m.timer := s.timers[m.timer].(period := m.value)]);
      assert Waiting(r, m.timer) == Waiting(s, m.timer);
      ActivateKeeps(r, m.timer, now, now);
    case _ =>
  }

  // ----- whole steps -----

  lemma TimerOrBlockKeeps(s: Service, now: int)
    requires Inv(s) && Timely(s, now)
    ensures Inv(TimerOrBlock(s, now))
    ensures TimerOrBlock(s, now).last == now
  {
    SampleKeeps(s, now);
    if !RolledOver(s, now) && s.current != [] && s.current[0].expiry <= now {
      ProcessExpiredKeeps(Sample(s, now), now);
    }
  }

  /**
   The daemon never asks to be blocked past the earliest expiry or the next rollover, wakes
   exactly at one of them, and blocks indefinitely only when no timer is active at all.
   */
  lemma BlockNeverLate(s: Service, now: int)
    requires Inv(s) && s.last == now && (s.current != [] ==> now < s.current[0].expiry)
    ensures var b := BlockRequest(s, now);
            && 0 <= b.ticks < M
            && (forall t, x :: x in Waiting(s, t) ==> now + b.ticks <= x)
            && now + b.ticks <= Rollover(now)
            && (b.ticks == 0 ==> s.current == [] && Wrap(now) == 0)
            && (s.current != [] ==> now + b.ticks in Waiting(s, s.current[0].timer))
            && (s.current == [] && b.ticks != 0 ==> now + b.ticks == Rollover(now))
            && (b.indefinitely <==> forall t :: Waiting(s, t) == [])
  {
    Split(now);
    var b := BlockRequest(s, now);
    forall t, x | x in Waiting(s, t) ensures now + b.ticks <= x {
      DueBounds(s.current, t, now + b.ticks);
      DueBounds(s.overflow, t, Rollover(now));
    }
    if s.current != [] { DueHas(s.current, 0); }
    if s.overflow != [] { DueHas(s.overflow, 0); }
    if !b.indefinitely {
      var e := if s.current != [] then s.current[0] else s.overflow[0];
      assert e.expiry in Waiting(s, e.timer);
    }
  }

  lemma DueBounds(l: seq<Entry>, t: int, lo: int)
    requires forall i :: 0 <= i < |l| ==> lo <= l[i].expiry
    ensures forall x :: x in Due(l, t) ==> lo <= x
  {
  }

  /** Sampling the time inserts no timer that was in neither list. */
  lemma {:induction false} DrainLeavesAbsent(s: Service, boundary: int, now: int, t: int)
    requires Drainable(s, boundary) && Due(s.current, t) == []
    ensures var d := Drain(s, boundary, now);
            Due(d.current, t) == [] && Fired(d.log, t) == Fired(s.log, t) && Pending(d.queue, t) == Pending(s.queue, t)
    decreases TicksLeft(s.current, boundary)
  {
    if s.current != [] {
      var e := s.current[0];
      var r := DrainOne(s, boundary, now);
      DueInsert(s.current[1..], Entry(e.timer, e.expiry + s.timers[e.timer].period), t);
      FiredAppend(s.log, Firing(e.timer, e.expiry, now), t);
      PendingAppend(s.queue, Msg(Start, e.timer, e.expiry), t);
      DrainOneProgress(s, boundary, now);
      DrainLeavesAbsent(r, boundary, now, t);
    }
  }

  lemma SampleLeavesAbsent(s: Service, now: int, t: int)
    requires Drainable(s, Rollover(s.last)) && Waiting(s, t) == []
    ensures var d := Sample(s, now);
            Waiting(d, t) == [] && Fired(d.log, t) == Fired(s.log, t) && Pending(d.queue, t) == Pending(s.queue, t)
  {
    DrainLeavesAbsent(s, Rollover(s.last), now, t);
    DrainKeepsTimers(s, Rollover(s.last), now);
  }

  lemma FiredAppend(log: seq<Firing>, f: Firing, t: int)
    ensures Fired(log + [f], t) == Fired(log, t) + (if f.timer == t then [f.due] else [])
  {
    if log != [] {
      FiredAppend(log[1..], f, t);
      assert (log + [f])[1..] == log[1..] + [f];
    }
  }

  lemma PendingAppend(q: seq<Msg>, m: Msg, t: int)
    ensures Pending(q + [m], t) == Pending(q, t) + (if m.timer == t then [m] else [])
  {
    if q != [] {
      PendingAppend(q[1..], m, t);
      assert (q + [m])[1..] == q[1..] + [m];
    }
  }

  /**
   Receiving any command keeps the invariant.  After a STOP or a DELETE its timer is in
   neither list, even when sampling the time in the same step swaps the lists and re-inserts
   other timers.
   */
  lemma ReceiveKeeps(s: Service, now: int)
    requires Inv(s) && s.queue != [] && Timely(Dequeue(s), now) && TimelyCommand(s.queue[0], now)
    ensures s.queue[0].timer in s.timers
    ensures Inv(Receive(s, now)) && Receive(s, now).last == now
    ensures s.queue[0].command.Stop? || s.queue[0].command.Delete?
            ==> Waiting(Receive(s, now), s.queue[0].timer) == []
  {
    var m := s.queue[0];
    DequeueKeeps(s);
    SampleKeeps(Dequeue(s), now);
    SampleLeavesAbsent(Dequeue(s), now, m.timer);
    assert GoodMsg(m, s.timers);
    ObeyKeeps(Sample(Dequeue(s), now), m, now);
  }

  // ----- a step seen from one timer -----

  datatype View = View(waiting: seq<int>, pending: seq<Msg>, fired: seq<int>)

  function Seen(s: Service, t: int): View {
    View(Waiting(s, t), Pending(s.queue, t), Fired(s.log, t))
  }

  /** What sending a message adds to the queue. */
  function Sent(s: Service, m: Msg): seq<Msg> {
    if |s.queue| < QUEUE_LENGTH then [m] else []
  }

  lemma FireSeen(s: Service, t: int, due: int, now: int, u: int)
    ensures Seen(Fire(s, t, due, now), u)
            == if u == t then Seen(s, u).(fired := Fired(s.log, u) + [due]) else Seen(s, u)
  {
    FiredAppend(s.log, Firing(t, due, now), u);
  }

  lemma SendSeen(s: Service, m: Msg, u: int)
    ensures Seen(Send(s, m), u)
            == if u == m.timer then Seen(s, u).(pending := Pending(s.queue, u) + Sent(s, m)) else Seen(s, u)
  {
    PendingAppend(s.queue, m, u);
  }

  lemma PopSeen(s: Service, u: int)
    requires Sound(s) && s.current != []
    ensures Seen(s.(current := s.current[1..]), u)
            == if u == s.current[0].timer then Seen(s, u).(waiting := []) else Seen(s, u)
    ensures Waiting(s, s.current[0].timer) == [s.current[0].expiry]
  {
    WaitingHead(s);
  }

  lemma ActivateSeen(s: Service, t: int, command: int, now: int, u: int)
    requires t in s.timers && Waiting(s, t) == []
    ensures Seen(Activate(s, t, command, now), u)
            == if u == t && !Expired(s, t, command, now) then Seen(s, u).(waiting := [command + s.timers[t].period])
               else Seen(s, u)
  {
    ActivateWaiting(s, t, command, now, u);
  }

  /** A round of draining fires its timer at its expiry and moves it one period on, or into the queue. */
  lemma DrainOneSeen(s: Service, boundary: int, now: int, u: int)
    requires Sound(s) && s.current != []
    ensures var e := s.current[0];
            var a := s.timers[e.timer];
            Seen(DrainOne(s, boundary, now), u)
            == if u != e.timer then Seen(s, u)
               else View(
                 if a.autoReload && e.expiry + a.period < boundary then [e.expiry + a.period] else [],
                 Pending(s.queue, u)
                   + if a.autoReload && e.expiry + a.period >= boundary then Sent(s, Msg(Start, u, e.expiry)) else [],
                 Fired(s.log, u) + [e.expiry])
  {
    var e := s.current[0];
    var a := s.timers[e.timer];
    var popped := s.(current := s.current[1..]);
    PopSeen(s, u);
    PopSeen(s, e.timer);
    FireSeen(popped, e.timer, e.expiry, now, u);
    SendSeen(Fire(popped, e.timer, e.expiry, now), Msg(Start, e.timer, e.expiry), u);
    DueInsert(s.current[1..], Entry(e.timer, e.expiry + a.period), u);
  }

  /** Processing an expired timer does the same, except that a late one goes into the queue. */
  lemma ProcessExpiredSeen(s: Service, now: int, u: int)
    requires Sound(s) && s.current != []
    ensures var e := s.current[0];
            var a := s.timers[e.timer];
            Seen(ProcessExpired(s, now), u)
            == if u != e.timer then Seen(s, u)
               else View(
                 if a.autoReload && now < e.expiry + a.period then [e.expiry + a.period] else [],
                 Pending(s.queue, u)
                   + if a.autoReload && e.expiry + a.period <= now then Sent(s, Msg(Start, u, e.expiry)) else [],
                 Fired(s.log, u) + [e.expiry])
  {
    var e := s.current[0];
    var popped := s.(current := s.current[1..]);
    PopSeen(s, u);
    PopSeen(s, e.timer);
    SendSeen(popped, Msg(Start, e.timer, e.expiry), u);
    ActivateSeen(popped, e.timer, e.expiry, now, u);
    var reloaded := if !s.timers[e.timer].autoReload then popped
                    else if Expired(popped, e.timer, e.expiry, now) then SendStart(popped, e.timer, e.expiry)
                    else Activate(popped, e.timer, e.expiry, now);
    FireSeen(reloaded, e.timer, e.expiry, now, u);
  }

  /** Obeying a command touches only its own timer; a START makes it wait, or fire and reload. */
  lemma ObeySeen(s: Service, m: Msg, now: int, u: int)
    requires m.timer in s.timers && Waiting(s, m.timer) == []
    ensures u != m.timer ==> Seen(Obey(s, m, now), u) == Seen(s, u)
    ensures u == m.timer && m.command.Start? ==>
              var due := m.value + s.timers[u].period;
              Seen(Obey(s, m, now), u)
              == if now < due then Seen(s, u).(waiting := [due])
                 else View([],
                           Pending(s.queue, u) + (if s.timers[u].autoReload then Sent(s, Msg(Start, u, due)) else []),
                           Fired(s.log, u) + [due])
  {
    match m.command
    case Start =>
      var due := m.value + s.timers[m.timer].period;
      ActivateSeen(s, m.timer, m.value, now, u);
      FireSeen(s, m.timer, due, now, u);
      SendSeen(Fire(s, m.timer, due, now), Msg(Start, m.timer, due), u);
    case ChangePeriod =>
      var r := s.(timers := s.timers[m.timer := s.timers[m.timer].(period := m.value)]);
      assert Seen(r, m.timer) == Seen(s, m.timer) && Seen(r, u) == Seen(s, u);
      ActivateSeen(r, m.timer, now, now, u);
    case _ =>
  }

  lemma DequeueSeen(s: Service, u: int)
    requires s.queue != []
    ensures Seen(Dequeue(s), u)
            == if u == s.queue[0].timer then Seen(s, u).(waiting := [], pending := Pending(s.queue[1..], u))
               else Seen(s, u)
  {
    DueRemove(s.current, s.queue[0].timer, u);
    DueRemove(s.overflow, s.queue[0].timer, u);
  }
}
