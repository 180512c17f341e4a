/**
 The timer daemon as it runs: timers, lists and queue updated in place, with all times on a
 32-bit counter.  Each method is proved to carry out the corresponding step of TimerModel,
 which the ghost field `model` follows.
 */
module TimerDaemon {
  import opened Ticks
  import opened TimerModel
  import opened TimerInvariant
  import opened TimerRuns
  import opened TimerDrain
  import opened TimerRoom
  import opened TimerCatchUp

  class TickList {
    var items: seq<Timer>

    constructor ()
      ensures items == []
    {
      items := [];
    }

    /** vListInsert: by item value, behind items of equal value. */
    method InsertItem(t: Timer)
      modifies this, t`container
      ensures items == InsertTimer(old(items), t)
      ensures t.container == this
    {
      items := InsertTimer(items, t);
      t.container := this;
    }
  }

  class Timer {
    const id: int
    const autoReload: bool
    var period: Tick           // xTimerPeriodInTicks
    var value: Tick            // the list item's value
    var container: TickList?   // the list the item is in, if any

    constructor (id: int, period: Tick, autoReload: bool)
      ensures this.id == id && this.period == period && this.autoReload == autoReload
      ensures container == null
    {
      this.id, this.period, this.autoReload := id, period, autoReload;
      value, container := 0, null;
    }

    /** uxListRemove */
    method RemoveFromList()
      requires container != null
      modifies this`container, container
      ensures old(container).items == RemoveTimer(old(container.items), this)
      ensures container == null
    {
      container.items := RemoveTimer(container.items, this);
      container := null;
    }
  }

  datatype Message = Message(command: Command, value: Tick, timer: Timer)

  function InsertTimer(items: seq<Timer>, t: Timer): seq<Timer>
    reads items`value, t`value
  {
    if items == [] || t.value < items[0].value then [t] + items
    else [items[0]] + InsertTimer(items[1..], t)
  }

  function RemoveTimer(items: seq<Timer>, t: Timer): seq<Timer> {
    if items == [] then []
    else if items[0] == t then RemoveTimer(items[1..], t)
    else [items[0]] + RemoveTimer(items[1..], t)
  }

  /** The timers of `entries`, by their identifiers. */
  ghost function Named(entries: seq<Entry>, registry: map<int, Timer>): (r: seq<Timer>)
    requires forall i :: 0 <= i < |entries| ==> entries[i].timer in registry
    ensures |r| == |entries|
    ensures forall i :: 0 <= i < |r| ==> r[i] == registry[entries[i].timer]
  {
    if entries == [] then [] else [registry[entries[0].timer]] + Named(entries[1..], registry)
  }

  /** Within one wrap epoch, inserting by counter value is inserting by absolute expiry. */
  lemma InsertNamed(entries: seq<Entry>, e: Entry, registry: map<int, Timer>, rollover: int)
    requires e.timer in registry && registry[e.timer].value == Wrap(e.expiry)
    requires forall i :: 0 <= i < |entries| ==>
               entries[i].timer in registry && registry[entries[i].timer].value == Wrap(entries[i].expiry)
    requires Within(entries, Rollover(rollover) - M, Rollover(rollover))
    requires Rollover(rollover) - M <= e.expiry < Rollover(rollover)
    ensures forall i :: 0 <= i < |Insert(entries, e)| ==> Insert(entries, e)[i].timer in registry
    ensures InsertTimer(Named(entries, registry), registry[e.timer]) == Named(Insert(entries, e), registry)
  {
    InsertMembers(entries, e);
    if entries != [] {
      OrderWithin(e.expiry, entries[0].expiry, rollover);
      if entries[0].expiry <= e.expiry {
        InsertNamed(entries[1..], e, registry, rollover);
      }
    }
  }

  lemma OrderWithin(a: int, b: int, rollover: int)
    requires Rollover(rollover) - M <= a < Rollover(rollover)
    requires Rollover(rollover) - M <= b < Rollover(rollover)
    ensures Wrap(a) < Wrap(b) <==> a < b
  {
    Split(a);
    Split(b);
    SameEpoch(a, b);
  }

  lemma RemoveNamed(entries: seq<Entry>, t: int, registry: map<int, Timer>)
    requires forall i :: 0 <= i < |entries| ==> entries[i].timer in registry
    requires forall id :: id in registry ==> registry[id].id == id
    requires t in registry
    ensures forall i :: 0 <= i < |Remove(entries, t)| ==> Remove(entries, t)[i].timer in registry
    ensures RemoveTimer(Named(entries, registry), registry[t]) == Named(Remove(entries, t), registry)
  {
    RemoveMembers(entries, t);
    if entries != [] {
      RemoveNamed(entries[1..], t, registry);
      assert registry[entries[0].timer].id == entries[0].timer && registry[t].id == t;
    }
  }

  lemma RemoveAbsent(l: seq<Entry>, t: int)
    requires forall i :: 0 <= i < |l| ==> l[i].timer != t
    ensures Remove(l, t) == l && Due(l, t) == []
  {
  }

  class TimerService {
    var current: TickList      // pxCurrentTimerList
    var overflow: TickList     // pxOverflowTimerList
    var queue: seq<Message>    // xTimerQueue
    var lastTime: Tick         // xLastTime of prvSampleTimeNow
    var calls: seq<Timer>      // the callbacks made, in order

    ghost var model: Service
    ghost var registry: map<int, Timer>

    // ----- how the fields represent the model -----

    ghost predicate Settings(timers: map<int, Attr>)
      reads this`registry, this`current, this`overflow, registry.Values`period, registry.Values`container
    {
      && registry.Keys == timers.Keys
      && (forall id :: id in registry ==>
            && registry[id].id == id
            && registry[id].period == timers[id].period
            && registry[id].autoReload == timers[id].autoReload
            && registry[id].container in {null, current, overflow})
    }

    ghost predicate Holds(l: TickList, entries: seq<Entry>)
      reads this`registry, l`items, registry.Values`value, registry.Values`container
    {
      && (forall i :: 0 <= i < |entries| ==>
            && entries[i].timer in registry
            && registry[entries[i].timer].value == Wrap(entries[i].expiry)
            && registry[entries[i].timer].container == l)
      && l.items == Named(entries, registry)
    }

    ghost predicate QueueHolds(messages: seq<Msg>)
      reads this`registry, this`queue
    {
      && |queue| == |messages|
      && (forall i :: 0 <= i < |queue| ==>
            && messages[i].timer in registry
            && queue[i] == Message(messages[i].command, Wrap(messages[i].value), registry[messages[i].timer]))
    }

    ghost predicate CallsHold(log: seq<Firing>)
      reads this`registry, this`calls
    {
      && |calls| == |log|
      && (forall i :: 0 <= i < |calls| ==> log[i].timer in registry && calls[i] == registry[log[i].timer])
    }

    ghost predicate Coupled()
      reads this, current, overflow, registry.Values
    {
      && current != overflow
      && Settings(model.timers)
      && Holds(current, model.current) && Holds(overflow, model.overflow)
      && QueueHolds(model.queue) && CallsHold(model.log)
      && lastTime == Wrap(model.last)
    }

    ghost predicate Valid()
      reads this, current, overflow, registry.Values
    {
      Coupled() && Inv(model)
    }

    /** prvCheckForValidListAndQueue, and xLastTime's initial value. */
    constructor ()
      ensures Valid() && fresh(current) && fresh(overflow)
      ensures model == EMPTY && registry == map[]
    {
      current := new TickList();
      overflow := new TickList();
      queue, lastTime, calls := [], 0, [];
      model := EMPTY;
      registry := map[];
      EmptyInv();
    }

    ghost predicate Registered(t: Timer)
      reads this
    {
      t.id in registry && registry[t.id] == t
    }

    // ----- lists, queue and callbacks -----

    lemma NotListed(t: Timer, l: TickList, entries: seq<Entry>)
      requires Holds(l, entries) && Registered(t) && t.container != l
      ensures Remove(entries, t.id) == entries && Due(entries, t.id) == []
      ensures forall i :: 0 <= i < |entries| ==> registry[entries[i].timer] != t
    {
      RemoveAbsent(entries, t.id);
    }

    /** Takes a listed timer out of the list `l`. */
    method UnlinkFrom(l: TickList, t: Timer, ghost entries: seq<Entry>)
      requires Holds(l, entries) && Registered(t) && t.container == l
      requires forall id :: id in registry ==> registry[id].id == id
      modifies l, t`container
      ensures Holds(l, Remove(entries, t.id)) && t.container == null
    {
      RemoveNamed(entries, t.id, registry);
      RemoveMembers(entries, t.id);
      t.RemoveFromList();
      assert forall i :: 0 <= i < |Remove(entries, t.id)| ==> registry[Remove(entries, t.id)[i].timer] != t;
    }

    method UnlinkCurrent(t: Timer)
      requires Coupled() && Registered(t) && t.container == current
      modifies this`model, current, t`container
      ensures Coupled() && t.container == null
      ensures model == old(model).(current := Remove(old(model).current, t.id))
    {
      hide Wrap, Rollover;
      NotListed(t, overflow, model.overflow);
      UnlinkFrom(current, t, model.current);
      assert Holds(overflow, model.overflow);
      assert Settings(model.timers);
      model := model.(current := Remove(model.current, t.id));
    }

    method UnlinkOverflow(t: Timer)
      requires Coupled() && Registered(t) && t.container == overflow
      modifies this`model, overflow, t`container
      ensures Coupled() && t.container == null
      ensures model == old(model).(overflow := Remove(old(model).overflow, t.id))
    {
      hide Wrap, Rollover;
      NotListed(t, current, model.current);
      UnlinkFrom(overflow, t, model.overflow);
      assert Holds(current, model.current);
      assert Settings(model.timers);
      model := model.(overflow := Remove(model.overflow, t.id));
    }

    /** Takes a timer out of whichever list it is in, if any. */
    method Unlink(t: Timer)
      requires Coupled() && Registered(t)
      modifies this`model, current, overflow, t`container
      ensures Coupled() && t.container == null
      ensures model == old(model).(current := Remove(old(model).current, t.id), overflow := Remove(old(model).overflow, t.id))
    {
      if t.container != overflow {
        NotListed(t, overflow, model.overflow);
      }
      if t.container != current {
        NotListed(t, current, model.current);
      }
      if t.container != null {
        if t.container == current {
          UnlinkCurrent(t);
        } else {
          UnlinkOverflow(t);
        }
      }
    }

    /** Puts an unlisted timer, whose item value is set, into the list `l`. */
    method LinkInto(l: TickList, t: Timer, ghost entries: seq<Entry>, ghost expiry: int, ghost epoch: int)
      requires Holds(l, entries) && Registered(t) && t.container == null && t.value == Wrap(expiry)
      requires Rollover(epoch) - M <= expiry < Rollover(epoch)
      requires Within(entries, Rollover(epoch) - M, Rollover(epoch))
      modifies l, t`container
      ensures Holds(l, Insert(entries, Entry(t.id, expiry))) && t.container == l
    {
      ghost var e := Entry(t.id, expiry);
      NotListed(t, l, entries);
      InsertNamed(entries, e, registry, epoch);
      InsertMembers(entries, e);
      l.InsertItem(t);
      forall i | 0 <= i < |Insert(entries, e)|
        ensures registry[Insert(entries, e)[i].timer].value == Wrap(Insert(entries, e)[i].expiry)
        ensures registry[Insert(entries, e)[i].timer].container == l
      {
        if Insert(entries, e)[i] != e {
          var j :| 0 <= j < |entries| && entries[j] == Insert(entries, e)[i];
        }
      }
    }

    method LinkCurrent(t: Timer, ghost expiry: int, ghost epoch: int)
      requires Coupled() && Registered(t) && t.container == null && t.value == Wrap(expiry)
      requires Rollover(epoch) - M <= expiry < Rollover(epoch)
      requires Within(model.current, Rollover(epoch) - M, Rollover(epoch))
      modifies this`model, current, t`container
      ensures Coupled()
      ensures model == old(model).(current := Insert(old(model).current, Entry(t.id, expiry)))
    {
      hide Wrap, Rollover;
      NotListed(t, overflow, model.overflow);
      LinkInto(current, t, model.current, expiry, epoch);
      assert Holds(overflow, model.overflow);
      assert Settings(model.timers);
      model := model.(current := Insert(model.current, Entry(t.id, expiry)));
    }

    method LinkOverflow(t: Timer, ghost expiry: int, ghost epoch: int)
      requires Coupled() && Registered(t) && t.container == null && t.value == Wrap(expiry)
      requires Rollover(epoch) - M <= expiry < Rollover(epoch)
      requires Within(model.overflow, Rollover(epoch) - M, Rollover(epoch))
      modifies this`model, overflow, t`container
      ensures Coupled()
      ensures model == old(model).(overflow := Insert(old(model).overflow, Entry(t.id, expiry)))
    {
      hide Wrap, Rollover;
      NotListed(t, current, model.current);
      LinkInto(overflow, t, model.overflow, expiry, epoch);
      assert Holds(current, model.current);
      assert Settings(model.timers);
      model := model.(overflow := Insert(model.overflow, Entry(t.id, expiry)));
    }

    /** listSET_LIST_ITEM_VALUE, on a timer that is in no list. */
    method SetItemValue(t: Timer, value: Tick)
      requires Coupled() && Registered(t) && t.container == null
      modifies t`value
      ensures Coupled() && t.value == value
    {
      NotListed(t, current, model.current);
      NotListed(t, overflow, model.overflow);
      t.value := value;
      assert Holds(current, model.current) && Holds(overflow, model.overflow);
    }

    /** xTimerGenericCommand: sends without waiting, and fails when the queue is full. */
    method GenericCommand(command: Command, value: Tick, t: Timer, ghost message: int) returns (ok: bool)
      requires Coupled() && Registered(t) && value == Wrap(message)
      modifies this`queue, this`model
      ensures Coupled() && ok == (|old(queue)| < QUEUE_LENGTH)
      ensures model == Send(old(model), Msg(command, t.id, message))
    {
      ok := |queue| < QUEUE_LENGTH;
      if ok {
        queue := queue + [Message(command, value, t)];
      }
      model := Send(model, Msg(command, t.id, message));
    }

    /** The timer's callback runs. */
    method CallBack(t: Timer, ghost due: int, ghost now: int)
      requires Coupled() && Registered(t)
      modifies this`calls, this`model
      ensures Coupled() && model == Fire(old(model), t.id, due, now)
    {
      calls := calls + [t];
      model := Fire(model, t.id, due, now);
    }

    // ----- the rollover -----

    lemma UnlistHead(s: Service)
      requires Sound(s) && s.current != []
      ensures var t := s.current[0].timer;
              Remove(s.current, t) == s.current[1..] && Remove(s.overflow, t) == s.overflow
    {
      var t := s.current[0].timer;
      WaitingHead(s);
      NotDue(s.current[1..], t);
      NotDue(s.overflow, t);
    }

    lemma NotDue(l: seq<Entry>, t: int)
      requires Due(l, t) == []
      ensures Remove(l, t) == l
    {
    }

    /** xReloadTime > xNextExpireTime on the counter: the reload comes before the rollover. */
    lemma ReloadTest(expiry: int, period: Tick, boundary: int)
      requires 0 < period && boundary - M <= expiry < boundary == Rollover(expiry)
      ensures Add(Wrap(expiry), period) > Wrap(expiry) <==> expiry + period < boundary
      ensures Add(Wrap(expiry), period) == Wrap(expiry + period)
    {
      WrapArithmetic(expiry, period);
      Split(expiry);
    }

    lemma EpochOf(expiry: int, last: int)
      requires Rollover(last) - M <= expiry < Rollover(last)
      ensures Rollover(expiry) == Rollover(last)
    {
    }

    /** A timer that has just fired is reloaded: into the current list, or through the queue. */
    method ReloadBeforeSwitch(t: Timer, nextExpireTime: Tick, ghost expiry: int)
      requires Coupled() && Registered(t) && t.container == null
      requires nextExpireTime == Wrap(expiry) && 0 < t.period
      requires Rollover(model.last) - M <= expiry < Rollover(model.last)
      requires Within(model.current, Rollover(model.last) - M, Rollover(model.last))
      modifies this`model, this`queue, current, t`value, t`container
      ensures Coupled()
      ensures model == if expiry + t.period < Rollover(old(model).last)
                       then old(model).(current := Insert(old(model).current, Entry(t.id, expiry + t.period)))
                       else SendStart(old(model), t.id, expiry)
    {
      EpochOf(expiry, model.last);
      ReloadTest(expiry, t.period, Rollover(model.last));
      var reloadTime := Add(nextExpireTime, t.period);
      if reloadTime > nextExpireTime {
        SetItemValue(t, reloadTime);
        LinkCurrent(t, expiry + t.period, model.last);
      } else {
        var _ := GenericCommand(Start, nextExpireTime, t, expiry);
      }
    }

    lemma HeadFacts()
      requires Coupled() && Sound(model) && model.current != []
      ensures var e := model.current[0];
              && e.timer in model.timers
              && current.items != [] && current.items[0].id == e.timer && Registered(current.items[0])
              && current.items[0].container == current && current.items[0].value == Wrap(e.expiry)
              && Attr(current.items[0].period, current.items[0].autoReload) == model.timers[e.timer]
              && 0 < current.items[0].period
    {
    }

    /** One round of the loop in prvSwitchTimerLists. */
    method DrainRound(ghost now: int)
      requires Coupled() && Sound(model) && Epochs(model, Rollover(model.last)) && model.current != []
      modifies this`model, this`queue, this`calls, current, registry.Values
      ensures Coupled() && model == DrainOne(old(model), Rollover(old(model).last), now)
      ensures forall id :: id in registry && old(registry[id].container) == null ==> registry[id].container == null
    {
      hide Coupled, Sound;
      ghost var e := model.current[0];
      HeadFacts();
      UnlistHead(model);
      var nextExpireTime := current.items[0].value;
      var t := current.items[0];
      UnlinkCurrent(t);
      CallBack(t, e.expiry, now);
      if t.autoReload {
        ReloadBeforeSwitch(t, nextExpireTime, e.expiry);
      }
    }

    lemma ListFacts()
      requires Coupled()
      ensures current.items == [] <==> model.current == []
      ensures overflow.items == [] <==> model.overflow == []
      ensures queue == [] <==> model.queue == []
      ensures |queue| == |model.queue|
      ensures lastTime == Wrap(model.last)
    {
    }

    method SwapLists()
      requires Coupled()
      modifies this`model, this`current, this`overflow
      ensures Coupled() && current == old(overflow) && overflow == old(current)
      ensures model == old(model).(current := old(model).overflow, overflow := old(model).current)
    {
      var temp := current;
      current := overflow;
      overflow := temp;
      model := model.(current := model.overflow, overflow := model.current);
    }

    method SetLastTime(timeNow: Tick, ghost now: int)
      requires Coupled() && timeNow == Wrap(now)
      modifies this`model, this`lastTime
      ensures Coupled() && model == old(model).(last := now)
    {
      lastTime := timeNow;
      model := model.(last := now);
    }

    /**
     prvSwitchTimerLists.  The loop ends because every round reduces the ticks that the entries
     of the current list have left before the rollover.
     */
    method SwitchTimerLists(ghost now: int)
      requires Coupled() && Sound(model) && Epochs(model, Rollover(model.last))
      modifies this`model, this`queue, this`calls, this`current, this`overflow, current, registry.Values
      ensures Coupled()
      ensures current == old(overflow) && overflow == old(current)
      ensures var d := Drain(old(model), Rollover(old(model).last), now);
              model == d.(current := d.overflow, overflow := d.current)
      ensures forall id :: id in registry && old(registry[id].container) == null ==> registry[id].container == null
    {
      hide Coupled, Sound;
      ghost var boundary := Rollover(model.last);
      ghost var start := model;
      ListFacts();
      SoundDrainable(model, boundary);
      while current.items != []
        invariant Coupled() && Sound(model) && Epochs(model, boundary)
        invariant current == old(current) && overflow == old(overflow)
        invariant model.last == start.last && (current.items == [] <==> model.current == [])
        invariant Drainable(model, boundary)
        invariant forall id :: id in registry && old(registry[id].container) == null ==> registry[id].container == null
        invariant Drain(model, boundary, now) == Drain(start, boundary, now)
        decreases TicksLeft(model.current, boundary)
      {
        DrainOneKeeps(model, boundary, now);
        DrainOneProgress(model, boundary, now);
        DrainRound(now);
        ListFacts();
      }
      DrainKeepsTimers(start, boundary, now);
      SwapLists();
    }

    /** prvSampleTimeNow; `tickCount` is what xTaskGetTickCount returns. */
    method SampleTimeNow(tickCount: Tick, ghost now: int) returns (timeNow: Tick, switched: bool)
      requires Valid() && Timely(model, now) && tickCount == Wrap(now)
      modifies this`model, this`queue, this`calls, this`current, this`overflow, this`lastTime, current, registry.Values
      ensures Valid() && model == Sample(old(model), now)
      ensures timeNow == tickCount && switched == RolledOver(old(model), now)
      ensures {current, overflow} == {old(current), old(overflow)}
      ensures !switched ==> current == old(current)
      ensures forall id :: id in registry && old(registry[id].container) == null ==> registry[id].container == null
    {
      hide Coupled, Sound;
      SampleKeeps(model, now);
      ListFacts();
      timeNow := tickCount;
      switched := timeNow < lastTime;
      if switched {
        SwitchTimerLists(now);
      }
      SetLastTime(timeNow, now);
    }

    // ----- expiry -----

    lemma UnlistedFacts(t: Timer)
      requires Valid() && Registered(t)
      ensures t.id in model.timers && t.period == model.timers[t.id].period && 0 < t.period
      ensures t.autoReload == model.timers[t.id].autoReload
      ensures t.container == null ==> Waiting(model, t.id) == []
    {
      if t.container == null {
        NotListed(t, current, model.current);
        NotListed(t, overflow, model.overflow);
      }
    }

    lemma EpochAfter(expiry: int, now: int)
      requires Rollover(now) <= expiry < Rollover(now) + M
      ensures Rollover(expiry) == Rollover(now) + M
    {
    }

    /**
     prvInsertTimerInActiveList, on a timer that is in no list.  The answer, and the list
     chosen, are decided by 32-bit comparisons.
     */
    method InsertTimerInActiveList(
        t: Timer, nextExpiryTime: Tick, timeNow: Tick, commandTime: Tick, ghost command: int, ghost now: int)
      returns (processNow: bool)
      requires Valid() && Registered(t) && t.container == null && model.last == now
      requires command <= now < command + M
      requires timeNow == Wrap(now) && commandTime == Wrap(command) && nextExpiryTime == Wrap(command + t.period)
      modifies this`model, current, overflow, t`value, t`container
      ensures Valid()
      ensures t.id in old(model).timers && model == Activate(old(model), t.id, command, now)
      ensures processNow == Expired(old(model), t.id, command, now)
      ensures processNow ==> t.container == null
    {
      hide Coupled, Sound, Wrap, Rollover;
      UnlistedFacts(t);
      ActivateKeeps(model, t.id, command, now);
      TickTestsExact(command, t.period, now);
      Split(now);
      ghost var expiry := command + t.period;
      processNow := false;
      SetItemValue(t, nextExpiryTime);
      if nextExpiryTime <= timeNow {
        if Sub(timeNow, commandTime) >= t.period {
          processNow := true;
        } else {
          EpochAfter(expiry, now);
          LinkOverflow(t, expiry, expiry);
        }
      } else {
        if timeNow < commandTime && nextExpiryTime >= commandTime {
          processNow := true;
        } else {
          LinkCurrent(t, expiry, now);
        }
      }
    }

    /** Reloads an auto-reload timer that has just been taken out of the current list. */
    method ReloadExpired(t: Timer, nextExpireTime: Tick, timeNow: Tick, ghost expiry: int, ghost now: int)
      requires Valid() && Registered(t) && t.container == null && model.last == now
      requires timeNow == Wrap(now) && nextExpireTime == Wrap(expiry) && expiry <= now < expiry + M
      requires t.id in model.timers
      modifies this`model, this`queue, current, overflow, t`value, t`container
      ensures Coupled()
      ensures model == if Expired(old(model), t.id, expiry, now) then SendStart(old(model), t.id, expiry)
                       else Activate(old(model), t.id, expiry, now)
    {
      hide Coupled, Sound;
      UnlistedFacts(t);
      WrapArithmetic(expiry, t.period);
      var late := InsertTimerInActiveList(t, Add(nextExpireTime, t.period), timeNow, nextExpireTime, expiry, now);
      if late {
        ListFacts();
        var _ := GenericCommand(Start, nextExpireTime, t, expiry);
      }
    }

    /** prvProcessExpiredTimer */
    method ProcessExpiredTimer(nextExpireTime: Tick, timeNow: Tick, ghost now: int)
      requires Valid() && model.last == now && model.current != [] && model.current[0].expiry <= now
      requires timeNow == Wrap(now) && nextExpireTime == Wrap(model.current[0].expiry)
      requires model.current[0].timer in model.timers
      modifies this`model, this`queue, this`calls, current, overflow, registry.Values
      ensures Valid() && model == ProcessExpired(old(model), now)
    {
      hide Coupled, Sound;
      ghost var e := model.current[0];
      HeadFacts();
      UnlistHead(model);
      PopKeeps(model);
      ProcessExpiredKeeps(model, now);
      Split(now);
      var t := current.items[0];
      UnlinkCurrent(t);
      if t.autoReload {
        ReloadExpired(t, nextExpireTime, timeNow, e.expiry, now);
      }
      CallBack(t, e.expiry, now);
    }

    /** prvGetNextExpireTime */
    method GetNextExpireTime() returns (nextExpireTime: Tick, listWasEmpty: bool)
      requires Valid()
      ensures listWasEmpty <==> model.current == []
      ensures nextExpireTime == if model.current == [] then 0 else Wrap(model.current[0].expiry)
    {
      listWasEmpty := current.items == [];
      if !listWasEmpty {
        nextExpireTime := current.items[0].value;
      } else {
        nextExpireTime := 0;
      }
    }

    // ----- the daemon's two stages -----

    /**
     prvProcessTimerOrBlockTask, right after prvGetNextExpireTime.  When it asks to be blocked,
     `block` is its request to vQueueWaitForMessageRestricted.
     */
    method ProcessTimerOrBlockTask(nextExpireTime: Tick, listWasEmpty: bool, tickCount: Tick, ghost now: int)
      returns (blocks: bool, block: Block)
      requires Valid() && Allowed(model, Serve(now)) && tickCount == Wrap(now)
      requires listWasEmpty <==> model.current == []
      requires nextExpireTime == if model.current == [] then 0 else Wrap(model.current[0].expiry)
      modifies this`model, this`queue, this`calls, this`current, this`overflow, this`lastTime
      modifies current, overflow, registry.Values
      ensures Valid() && model == Step(old(model), Serve(now))
      ensures {current, overflow} == {old(current), old(overflow)}
      ensures blocks <==> !RolledOver(old(model), now) && (model.current == [] || now < model.current[0].expiry)
                          && model == old(model).(last := now)
      ensures blocks ==> block == BlockRequest(model, now)
    {
      hide Coupled, Sound;
      ghost var start := model;
      StepKeeps(model, Serve(now));
      SampleKeeps(model, now);
      var timeNow, switched := SampleTimeNow(tickCount, now);
      blocks, block := false, Block(0, false);
      if !switched {
        ghost var sampled := model;
        HeadOrder(model, now);
        if !listWasEmpty && nextExpireTime <= timeNow {
          ProcessExpiredTimer(nextExpireTime, timeNow, now);
          LogGrew(sampled, now);
        } else {
          ListFacts();
          blocks := true;
          block := Block(Sub(nextExpireTime, timeNow), listWasEmpty && overflow.items == []);
        }
      }
    }

    lemma LogGrew(s: Service, now: int)
      requires s.current != [] && s.current[0].timer in s.timers
      ensures ProcessExpired(s, now) != s
    {
    }

    /** With no rollover, the counter says rightly whether the head of the list has expired. */
    lemma HeadOrder(s: Service, now: int)
      requires Inv(s) && s.last == now
      ensures s.current != [] ==>
                && s.current[0].timer in s.timers
                && (Wrap(s.current[0].expiry) <= Wrap(now) <==> s.current[0].expiry <= now)
                && (now < s.current[0].expiry ==> Sub(Wrap(s.current[0].expiry), Wrap(now)) == s.current[0].expiry - now)
    {
      if s.current != [] {
        EpochOf(s.current[0].expiry, now);
        SameEpoch(now, s.current[0].expiry);
      }
    }

    // ----- commands -----

    lemma FrontFacts()
      requires Coupled() && queue != []
      ensures var m := model.queue[0];
              && model.queue != [] && m.timer in registry && Registered(queue[0].timer)
              && queue[0] == Message(m.command, Wrap(m.value), registry[m.timer]) && queue[0].timer.id == m.timer
    {
    }

    /** xQueueReceive on a queue that is not empty. */
    method TakeMessage() returns (message: Message)
      requires Coupled() && queue != []
      modifies this`model, this`queue
      ensures Coupled() && message == old(queue[0])
      ensures model == old(model).(queue := old(model).queue[1..])
    {
      message := queue[0];
      queue := queue[1..];
      model := model.(queue := model.queue[1..]);
    }

    method SetPeriod(t: Timer, period: Tick)
      requires Coupled() && Registered(t) && t.id in model.timers
      modifies this`model, t`period
      ensures Coupled() && t.period == period
      ensures model == old(model).(timers := old(model).timers[t.id := old(model).timers[t.id].(period := period)])
    {
      t.period := period;
      model := model.(timers := model.timers[t.id := model.timers[t.id].(period := period)]);
    }

    /** The START case of prvProcessReceivedCommands. */
    method StartTimer(t: Timer, command: Tick, timeNow: Tick, ghost value: int, ghost now: int)
      requires Valid() && Registered(t) && t.container == null && model.last == now && t.id in model.timers
      requires timeNow == Wrap(now) && command == Wrap(value) && value <= now < value + M
      modifies this`model, this`queue, this`calls, current, overflow, t`value, t`container
      ensures Coupled() && model == ReceiveStart(old(model), t.id, value, now)
    {
      hide Coupled, Sound;
      UnlistedFacts(t);
      WrapArithmetic(value, t.period);
      var expired := InsertTimerInActiveList(t, Add(command, t.period), timeNow, command, value, now);
      if expired {
        CallBack(t, value + t.period, now);
        if t.autoReload {
          ListFacts();
          var _ := GenericCommand(Start, Add(command, t.period), t, value + t.period);
        }
      }
    }

    /** The CHANGE_PERIOD case of prvProcessReceivedCommands; the answer can be ignored. */
    method ChangeTimerPeriod(t: Timer, period: Tick, timeNow: Tick, ghost now: int)
      requires Valid() && Registered(t) && t.container == null && model.last == now && t.id in model.timers
      requires timeNow == Wrap(now) && 0 < period
      modifies this`model, current, overflow, t`value, t`container, t`period
      ensures Coupled() && model == Obey(old(model), Msg(ChangePeriod, t.id, period), now)
      ensures t.period == period
      ensures Waiting(model, t.id) == [now + period]
    {
      hide Coupled, Sound;
      UnlistedFacts(t);
      SettingKeeps(model, t.id, model.timers[t.id].(period := period));
      SetPeriod(t, period);
      UnlistedFacts(t);
      WrapArithmetic(now, period);
      ActivateWaiting(model, t.id, now, now, t.id);
      var processNow := InsertTimerInActiveList(t, Add(timeNow, t.period), timeNow, timeNow, now, now);
      assert !processNow;
    }

    /** What a received command does, after the time has been sampled. */
    method ObeyCommand(message: Message, timeNow: Tick, ghost m: Msg, ghost now: int)
      requires Valid() && Registered(message.timer) && message.timer.container == null && model.last == now
      requires m.timer == message.timer.id && m.timer in model.timers && GoodMsg(m, model.timers)
      requires message.command == m.command && message.value == Wrap(m.value)
      requires TimelyCommand(m, now) && timeNow == Wrap(now)
      modifies this`model, this`queue, this`calls, current, overflow
      modifies message.timer`value, message.timer`container, message.timer`period
      ensures Coupled() && model == Obey(old(model), m, now)
    {
      hide Coupled, Sound;
      match message.command {
        case Start => StartTimer(message.timer, message.value, timeNow, m.value, now);
        case Stop =>
        case ChangePeriod => ChangeTimerPeriod(message.timer, message.value, timeNow, now);
        case Delete =>
        case Unknown =>
      }
    }

    /** One iteration of the loop in prvProcessReceivedCommands. */
    method ProcessReceivedCommand(tickCount: Tick, ghost now: int)
      requires Valid() && queue != [] && Allowed(model, Accept(now)) && tickCount == Wrap(now)
      modifies this`model, this`queue, this`calls, this`current, this`overflow, this`lastTime
      modifies current, overflow, registry.Values
      ensures Valid() && model == Step(old(model), Accept(now))
      ensures {current, overflow} == {old(current), old(overflow)}
    {
      hide Coupled, Inv, Allowed, Timely, TimelyCommand, GoodMsg, Drainable;
      FrontFacts();
      ghost var m := model.queue[0];
      AcceptFacts(model, now);
      var message := TakeMessage();
      Unlink(message.timer);
      var timeNow, switched := SampleTimeNow(tickCount, now);
      ObeyCommand(message, timeNow, m, now);
    }

    /** Everything the parts of an iteration ask for, before it begins. */
    lemma AcceptFacts(s: Service, now: int)
      requires Inv(s) && Allowed(s, Accept(now))
      ensures var m := s.queue[0];
              var d := Dequeue(s);
              && Inv(d) && Timely(d, now) && Drainable(d, Rollover(d.last))
              && m.timer in s.timers && GoodMsg(m, s.timers) && TimelyCommand(m, now)
              && Inv(Sample(d, now)) && Sample(d, now).timers == s.timers && Sample(d, now).last == now
              && Step(s, Accept(now)) == Obey(Sample(d, now), m, now)
              && Inv(Step(s, Accept(now)))
    {
      AcceptParts(s, now);
      StepKeeps(s, Accept(now));
    }

    /**
     prvProcessReceivedCommands. The i-th time it samples, the counter shows clock(i), which may
     move; what the loop does is a run of received commands, one at each sampled time.
     */
    method ProcessReceivedCommands(clock: nat -> Tick, ghost times: seq<int>)
      requires Valid() && Empties(model, times)
      requires forall i :: 0 <= i < |times| ==> clock(i) == Wrap(times[i])
      modifies this`model, this`queue, this`calls, this`current, this`overflow, this`lastTime
      modifies current, overflow, registry.Values
      ensures Valid() && queue == [] && model == After(old(model), Accepts(times))
      ensures {current, overflow} == {old(current), old(overflow)}
    {
      hide Coupled, Inv, Allowed;
      var i := 0;
      ListFacts();
      EmptiesStep(model, times);
      while queue != []
        invariant Valid() && i <= |times| && Empties(model, times[i..])
        invariant After(model, Accepts(times[i..])) == After(old(model), Accepts(times))
        invariant queue == [] <==> i == |times|
        invariant {current, overflow} == {old(current), old(overflow)}
        decreases |times| - i
      {
        EmptiesStep(model, times[i..]);
        assert times[i..][1..] == times[i + 1..];
        ProcessReceivedCommand(clock(i), times[i]);
        i := i + 1;
        ListFacts();
        EmptiesStep(model, times[i..]);
      }
    }

    /** One pass of prvTimerTask's loop; the clock may move all the time. */
    method TimerTaskPass(serveTick: Tick, clock: nat -> Tick, ghost now: int, ghost times: seq<int>)
      returns (blocks: bool, block: Block)
      requires Valid() && Allowed(model, Serve(now)) && serveTick == Wrap(now)
      requires Inv(Step(model, Serve(now))) && Empties(Step(model, Serve(now)), times)
      requires forall i :: 0 <= i < |times| ==> clock(i) == Wrap(times[i])
      modifies this`model, this`queue, this`calls, this`current, this`overflow, this`lastTime
      modifies current, overflow, registry.Values
      ensures Valid() && queue == [] && {current, overflow} == {old(current), old(overflow)}
      ensures model == After(Step(old(model), Serve(now)), Accepts(times))
      ensures blocks <==> !Busy(old(model), Serve(now), now)
      ensures blocks ==> block == BlockRequest(old(model).(last := now), now)
    {
      hide Coupled, Inv, Allowed, Empties;
      var nextExpireTime, listWasEmpty := GetNextExpireTime();
      blocks, block := ProcessTimerOrBlockTask(nextExpireTime, listWasEmpty, serveTick, now);
      ProcessReceivedCommands(clock, times);
    }

    /**
     prvTimerTask's loop with the clock standing still and nobody else posting: after finitely
     many passes the daemon asks to be blocked. By then it has caught up, and what it has done
     is a run.
     */
    method TimerTaskUntilBlocked(tick: Tick, ghost now: int) returns (block: Block, ghost run: seq<Event>)
      requires Valid() && Prompt(model, now) && tick == Wrap(now)
      modifies this`model, this`queue, this`calls, this`current, this`overflow, this`lastTime
      modifies current, overflow, registry.Values
      ensures Valid() && CaughtUp(model)
      ensures AllowedRun(old(model), run) && model == After(old(model), run)
      ensures forall e <- run :: e == Serve(now) || e == Accept(now)
      ensures {current, overflow} == {old(current), old(overflow)}
    {
      hide Coupled, Inv, Allowed, Prompt, RolledOver, Backlog, Busy, CaughtUp, Empties;
      ghost var start := model;
      var blocks := false;
      block, run := Block(0, false), [];
      while !blocks
        invariant Valid() && (blocks ==> CaughtUp(model)) && (!blocks ==> Prompt(model, now))
        invariant AllowedRun(start, run) && model == After(start, run)
        invariant forall e <- run :: e == Serve(now) || e == Accept(now)
        invariant {current, overflow} == {old(current), old(overflow)}
        decreases !blocks, RolledOver(model, now), Backlog(model, now)
      {
        ghost var times, pass := PassAt(model, now);
        AfterAppend(start, run, pass);
        run := run + pass;
        blocks, block := TimerTaskPass(tick, _ => tick, now, times);
      }
    }

    // ----- what other tasks do -----

    /** xTimerGenericCommand, from another task: a full queue refuses the command. */
    method PostCommand(command: Command, value: Tick, t: Timer, ghost message: int) returns (ok: bool)
      requires Valid() && Registered(t) && value == Wrap(message)
      requires command.ChangePeriod? ==> 0 < message < M
      modifies this`queue, this`model
      ensures Valid() && ok == (|old(queue)| < QUEUE_LENGTH)
      ensures Allowed(old(model), Post(Msg(command, t.id, message)))
      ensures model == Step(old(model), Post(Msg(command, t.id, message)))
    {
      ghost var m := Msg(command, t.id, message);
      SendKeeps(model, m);
      hide Coupled, Sound;
      ok := GenericCommand(command, value, t, message);
    }

    /** xTimerCreate: a period of 0 is refused. */
    method CreateTimer(id: int, period: Tick, autoReload: bool) returns (t: Timer?)
      requires Valid() && id !in registry
      modifies this`registry, this`model
      ensures Valid() && (t == null <==> period == 0)
      ensures t == null ==> model == old(model) && registry == old(registry)
      ensures t != null ==> fresh(t) && registry == old(registry)[id := t]
      ensures t != null ==> Allowed(old(model), Create(id, Attr(period, autoReload)))
                            && model == Step(old(model), Create(id, Attr(period, autoReload)))
    {
      if period == 0 {
        t := null;
      } else {
        SettingKeeps(model, id, Attr(period, autoReload));
        hide Coupled, Inv;
        t := new Timer(id, period, autoReload);
        Register(t);
      }
    }

    method Register(t: Timer)
      requires Coupled() && t.id !in registry && t.container == null
      modifies this`registry, this`model
      ensures Coupled() && registry == old(registry)[t.id := t]
      ensures model == old(model).(timers := old(model).timers[t.id := Attr(t.period, t.autoReload)])
    {
      hide Wrap, Rollover;
      NamedMore(model.current, registry, t.id, t);
      NamedMore(model.overflow, registry, t.id, t);
      registry := registry[t.id := t];
      model := model.(timers := model.timers[t.id := Attr(t.period, t.autoReload)]);
    }

    lemma NamedMore(entries: seq<Entry>, registry: map<int, Timer>, id: int, t: Timer)
      requires forall i :: 0 <= i < |entries| ==> entries[i].timer in registry
      requires id !in registry
      ensures Named(entries, registry[id := t]) == Named(entries, registry)
    {
    }
  }
}
