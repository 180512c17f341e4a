/**
 The timer service on the unbounded clock: what one step of the daemon does to its two timer
 lists, its command queue and the record of callbacks.  Every time in here is absolute; the
 class TimerService in TimerDaemon.dfy computes the same steps on 32-bit counters.
 */
module TimerModel {
  import opened Ticks

  /** configTIMER_QUEUE_LENGTH */
  const QUEUE_LENGTH: nat := 10

  /** A timer waiting in a list, with the time it is due. */
  datatype Entry = Entry(timer: int, expiry: int)

  datatype Command = Start | Stop | ChangePeriod | Delete | Unknown

  /** `value` is the command time of a START and the new period of a CHANGE_PERIOD. */
  datatype Msg = Msg(command: Command, timer: int, value: int)

  datatype Attr = Attr(period: int, autoReload: bool)

  /** One callback: the timer, the time it was due, and the time at which it was called. */
  datatype Firing = Firing(timer: int, due: int, at: int)

  datatype Service = Service(
    current: seq<Entry>,
    overflow: seq<Entry>,
    queue: seq<Msg>,
    last: int,               // the time most recently sampled
    timers: map<int, Attr>,
    log: seq<Firing>)

  /** How the daemon asks to be blocked: for so many ticks, or until a command arrives. */
  datatype Block = Block(ticks: int, indefinitely: bool)

  // ----- lists, queue and log seen from one timer -----

  function Due(l: seq<Entry>, t: int): seq<int> {
    if l == [] then []
    else if l[0].timer == t then [l[0].expiry] + Due(l[1..], t)
    else Due(l[1..], t)
  }

  /** The expiry times at which `t` is waiting, in either list. */
  function Waiting(s: Service, t: int): seq<int> {
    Due(s.current, t) + Due(s.overflow, t)
  }

  function Pending(q: seq<Msg>, t: int): seq<Msg> {
    if q == [] then []
    else if q[0].timer == t then [q[0]] + Pending(q[1..], t)
    else Pending(q[1..], t)
  }

  function Fired(log: seq<Firing>, t: int): seq<int> {
    if log == [] then []
    else if log[0].timer == t then [log[0].due] + Fired(log[1..], t)
    else Fired(log[1..], t)
  }

  // ----- list primitives -----

  /** vListInsert: in expiry order, behind entries of equal expiry. */
  function Insert(l: seq<Entry>, e: Entry): seq<Entry> {
    if l == [] || e.expiry < l[0].expiry then [e] + l else [l[0]] + Insert(l[1..], e)
  }

  /** uxListRemove, for the entry of timer `t`. */
  function Remove(l: seq<Entry>, t: int): seq<Entry> {
    if l == [] then []
    else if l[0].timer == t then Remove(l[1..], t)
    else [l[0]] + Remove(l[1..], t)
  }

  ghost predicate Sorted(l: seq<Entry>) {
    forall i, j :: 0 <= i < j < |l| ==> l[i].expiry <= l[j].expiry
  }

  ghost predicate Within(l: seq<Entry>, lo: int, hi: int) {
    forall i :: 0 <= i < |l| ==> lo <= l[i].expiry < hi
  }

  ghost predicate Known(l: seq<Entry>, timers: map<int, Attr>) {
    forall i :: 0 <= i < |l| ==> l[i].timer in timers
  }

  ghost predicate GoodTimers(timers: map<int, Attr>) {
    forall t :: t in timers ==> 0 < timers[t].period < M
  }

  ghost predicate GoodMsg(m: Msg, timers: map<int, Attr>) {
    && m.timer in timers
    && (m.command.ChangePeriod? ==> 0 < m.value < M)
  }

  ghost predicate GoodQueue(q: seq<Msg>, timers: map<int, Attr>) {
    && |q| <= QUEUE_LENGTH
    && forall i :: 0 <= i < |q| ==> GoodMsg(q[i], timers)
  }

  // ----- parts of a step -----

  function Fire(s: Service, t: int, due: int, now: int): Service {
    s.(log := s.log + [Firing(t, due, now)])
  }

  /** xQueueSendToBack without waiting: a full queue refuses the message. */
  function Send(s: Service, m: Msg): (r: Service)
    ensures r == s.(queue := r.queue)
  {
    if |s.queue| < QUEUE_LENGTH then s.(queue := s.queue + [m]) else s
  }

  /** The daemon's command to itself; nobody looks whether it was refused. */
  function SendStart(s: Service, t: int, command: int): Service {
    Send(s, Msg(Start, t, command))
  }

  /** What all the work on the lists relies on, sampled or not. */
  ghost predicate Sound(s: Service) {
    && Sorted(s.current) && Sorted(s.overflow)
    && Known(s.current, s.timers) && Known(s.overflow, s.timers)
    && GoodTimers(s.timers) && GoodQueue(s.queue, s.timers)
    && (forall t :: |Waiting(s, t)| <= 1)
  }

  /** One round of prvSwitchTimerLists' loop, run before the rollover at `boundary` is honoured. */
  function DrainOne(s: Service, boundary: int, now: int): (r: Service)
    requires s.current != [] && s.current[0].timer in s.timers
  {
    var e := s.current[0];
    var fired := Fire(s.(current := s.current[1..]), e.timer, e.expiry, now);
    var a := s.timers[e.timer];
    if !a.autoReload then fired
    else if e.expiry + a.period < boundary then
      fired.(current := Insert(fired.current, Entry(e.timer, e.expiry + a.period)))
    else SendStart(fired, e.timer, e.expiry)
  }

  /** The ticks left before `boundary`, over all entries: what one round of draining reduces. */
  function TicksLeft(l: seq<Entry>, boundary: int): (r: nat)
    requires forall i :: 0 <= i < |l| ==> l[i].expiry < boundary
  {
    if l == [] then 0 else boundary - l[0].expiry + TicksLeft(l[1..], boundary)
  }

  lemma TicksLeftInsert(l: seq<Entry>, e: Entry, boundary: int)
    requires e.expiry < boundary
    requires forall i :: 0 <= i < |l| ==> l[i].expiry < boundary
    ensures forall i :: 0 <= i < |Insert(l, e)| ==> Insert(l, e)[i].expiry < boundary
    ensures TicksLeft(Insert(l, e), boundary) == TicksLeft(l, boundary) + boundary - e.expiry
  {
    if l != [] && l[0].expiry <= e.expiry {
      TicksLeftInsert(l[1..], e, boundary);
      assert Insert(l, e)[1..] == Insert(l[1..], e);
    } else {
      assert Insert(l, e)[1..] == l;
    }
  }

  ghost predicate Drainable(s: Service, boundary: int) {
    && (forall i :: 0 <= i < |s.current| ==> s.current[i].expiry < boundary)
    && Known(s.current, s.timers) && GoodTimers(s.timers)
  }

  lemma InsertMembers(l: seq<Entry>, e: Entry)
    ensures |Insert(l, e)| == |l| + 1
    ensures forall i :: 0 <= i < |Insert(l, e)| ==> Insert(l, e)[i] == e || Insert(l, e)[i] in l
  {
  }

  lemma DrainOneProgress(s: Service, boundary: int, now: int)
    requires s.current != [] && Drainable(s, boundary)
    ensures Drainable(DrainOne(s, boundary, now), boundary)
    ensures TicksLeft(DrainOne(s, boundary, now).current, boundary) < TicksLeft(s.current, boundary)
  {
    hide Send;
    var e := s.current[0];
    var a := s.timers[e.timer];
    assert 0 < a.period;
    if a.autoReload && e.expiry + a.period < boundary {
      var again := Entry(e.timer, e.expiry + a.period);
      TicksLeftInsert(s.current[1..], again, boundary);
      InsertMembers(s.current[1..], again);
    }
  }

  /** The whole loop of prvSwitchTimerLists: everything due before `boundary` fires. */
  ghost function Drain(s: Service, boundary: int, now: int): (r: Service)
    requires Drainable(s, boundary)
    decreases TicksLeft(s.current, boundary)
  {
    if s.current == [] then s
    else
      DrainOneProgress(s, boundary, now);
      Drain(DrainOne(s, boundary, now), boundary, now)
  }

  /** prvSampleTimeNow sees a rollover exactly when the counter has gone backwards. */
  predicate RolledOver(s: Service, now: int) {
    Wrap(now) < Wrap(s.last)
  }

  ghost function Sample(s: Service, now: int): (r: Service)
    requires Drainable(s, Rollover(s.last))
  {
    if RolledOver(s, now) then
      var d := Drain(s, Rollover(s.last), now);
      d.(current := d.overflow, overflow := d.current, last := now)
    else s.(last := now)
  }

  /** prvInsertTimerInActiveList, apart from its answer `command + period <= now`. */
  function Activate(s: Service, t: int, command: int, now: int): (r: Service)
    requires t in s.timers
  {
    var e := Entry(t, command + s.timers[t].period);
    match Place(command, s.timers[t].period, now)
    case ProcessNow => s
    case Current => s.(current := Insert(s.current, e))
    case Overflow => s.(overflow := Insert(s.overflow, e))
  }

  predicate Expired(s: Service, t: int, command: int, now: int)
    requires t in s.timers
  {
    command + s.timers[t].period <= now
  }

  /** prvProcessExpiredTimer, on the head of the current list. */
  function ProcessExpired(s: Service, now: int): (r: Service)
    requires s.current != [] && s.current[0].timer in s.timers
  {
    var e := s.current[0];
    var rest := s.(current := s.current[1..]);
    var reloaded :=
      if !s.timers[e.timer].autoReload then rest
      else if Expired(rest, e.timer, e.expiry, now) then SendStart(rest, e.timer, e.expiry)
      else Activate(rest, e.timer, e.expiry, now);
    Fire(reloaded, e.timer, e.expiry, now)
  }

  /** prvGetNextExpireTime followed by prvProcessTimerOrBlockTask. */
  ghost function TimerOrBlock(s: Service, now: int): (r: Service)
    requires Drainable(s, Rollover(s.last))
  {
    var sampled := Sample(s, now);
    if !RolledOver(s, now) && s.current != [] && s.current[0].expiry <= now
    then ProcessExpired(sampled, now)
    else sampled
  }

  /**
   What prvProcessTimerOrBlockTask asks for when it neither rolled over nor processed a timer:
   the ticks to the head of the current list, or if that is empty to the counter's next 0.
   */
  function BlockRequest(s: Service, now: int): Block {
    Block(if s.current != [] then s.current[0].expiry - now else Sub(0, Wrap(now)),
          s.current == [] && s.overflow == [])
  }

  /** Receiving a START whose timer has or has not already expired. */
  function ReceiveStart(s: Service, t: int, command: int, now: int): (r: Service)
    requires t in s.timers
  {
    if Expired(s, t, command, now) then
      var due := command + s.timers[t].period;
      var fired := Fire(s, t, due, now);
      if s.timers[t].autoReload then SendStart(fired, t, due) else fired
    else Activate(s, t, command, now)
  }

  /** A message is taken from the queue and its timer leaves whichever list it is in. */
  function Dequeue(s: Service): (r: Service)
    requires s.queue != []
  {
    s.(queue := s.queue[1..],
       current := Remove(s.current, s.queue[0].timer),
       overflow := Remove(s.overflow, s.queue[0].timer))
  }

  lemma RemoveMembers(l: seq<Entry>, t: int)
    ensures |Remove(l, t)| <= |l|
    ensures forall i :: 0 <= i < |Remove(l, t)| ==> Remove(l, t)[i] in l && Remove(l, t)[i].timer != t
  {
  }

  lemma DrainKeepsTimers(s: Service, boundary: int, now: int)
    requires Drainable(s, boundary)
    ensures var d := Drain(s, boundary, now);
            d.timers == s.timers && d.overflow == s.overflow && d.last == s.last && d.current == []
    decreases TicksLeft(s.current, boundary)
  {
    if s.current != [] {
      DrainOneProgress(s, boundary, now);
      DrainKeepsTimers(DrainOne(s, boundary, now), boundary, now);
    }
  }

  /** What the received command does once the time has been sampled. */
  function Obey(s: Service, m: Msg, now: int): (r: Service)
    requires m.timer in s.timers
  {
    match m.command
    case Start => ReceiveStart(s, m.timer, m.value, now)
    case ChangePeriod =>
      Activate(s.(timers := s.timers[m.timer := s.timers[m.timer].(period := m.value)]), m.timer, now, now)
    case Stop => s
    case Delete => s
    case Unknown => s
  }

  /** One iteration of prvProcessReceivedCommands. */
  ghost function Receive(s: Service, now: int): (r: Service)
    requires s.queue != [] && s.queue[0].timer in s.timers
    requires Drainable(s, Rollover(s.last))
  {
    var m := s.queue[0];
    RemoveMembers(s.current, m.timer);
    assert Drainable(Dequeue(s), Rollover(s.last));
    DrainKeepsSampled(Dequeue(s), now);
    Obey(Sample(Dequeue(s), now), m, now)
  }

  lemma DrainKeepsSampled(s: Service, now: int)
    requires Drainable(s, Rollover(s.last))
    ensures Sample(s, now).timers == s.timers
  {
    DrainKeepsTimers(s, Rollover(s.last), now);
  }

  // ----- invariant -----

  /** The current list holds this wrap epoch's expiries and the overflow list the next one's. */
  ghost predicate Inv(s: Service) {
    && Sound(s)
    && Within(s.current, Rollover(s.last) - M, Rollover(s.last))
    && Within(s.overflow, Rollover(s.last), Rollover(s.last) + M)
  }

  /**
   What the service asks of its surroundings when it samples the time `now`: time does not
   run backwards, and while any timer is active samples are less than 2^32 ticks apart.
   */
  ghost predicate Timely(s: Service, now: int) {
    && s.last <= now
    && (s.current != [] || s.overflow != [] ==> now < s.last + M)
  }

  /** A START must not be from the future, nor 2^32 or more ticks old, when it is received. */
  ghost predicate TimelyCommand(m: Msg, now: int) {
    m.command.Start? ==> m.value <= now < m.value + M
  }
}
