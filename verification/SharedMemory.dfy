/**
 The parent and the child handing messages to each other through one shared segment, under
 two named semaphores. Every interleaving of the two processes is a schedule; each move of a
 process is one of its three actions in a round: wait, access the segment, post.
 */
module SharedMemory {

  // ----- the segment -----

  const SEGMENT_SIZE: nat := 65536
  const STR_MAX_LEN: nat := 20

  type Byte = b: int | 0 <= b < 256

  datatype Message = Command(value: Byte) | Text(chars: seq<Byte>)
  {
    /** What the program can send: a byte, or a C string that fits its buffer. */
    ghost predicate Sendable() {
      Text? ==> |chars| < STR_MAX_LEN && 0 !in chars
    }
  }

  /** The mapped segment: a string in it ends before the length of the message buffers. */
  ghost predicate Mapped(segment: seq<Byte>) {
    |segment| == SEGMENT_SIZE && segment[STR_MAX_LEN - 1] == 0
  }

  /** What storing a message leaves in the segment: the byte, or the characters and a NUL. */
  function Stored(segment: seq<Byte>, m: Message): (r: seq<Byte>)
    requires |segment| == SEGMENT_SIZE && m.Sendable()
    ensures |r| == SEGMENT_SIZE
  {
    match m
    case Command(value) => segment[0 := value]
    case Text(chars) => chars + [0] + segment[|chars| + 1..]
  }

  /** The C string that starts at i. */
  function CharsFrom(segment: seq<Byte>, i: nat): seq<Byte>
    requires i <= |segment|
    decreases |segment| - i
  {
    if i == |segment| || segment[i] == 0 then [] else [segment[i]] + CharsFrom(segment, i + 1)
  }

  /** What a reader takes from the segment when it expects a message in the format of `format`. */
  function Loaded(segment: seq<Byte>, format: Message): Message
    requires |segment| == SEGMENT_SIZE
  {
    if format.Command? then Command(segment[0]) else Text(CharsFrom(segment, 0))
  }

  lemma CharsUpToNul(segment: seq<Byte>, i: nat, end: nat)
    requires i <= end < |segment| && segment[end] == 0
    requires forall k :: i <= k < end ==> segment[k] != 0
    ensures CharsFrom(segment, i) == segment[i..end]
    decreases end - i
  {
    if i < end { CharsUpToNul(segment, i + 1, end); }
  }

  lemma StoredKeepsMapped(segment: seq<Byte>, m: Message)
    requires Mapped(segment) && m.Sendable()
    ensures Mapped(Stored(segment, m))
  {
  }

  /** How many bytes of the segment a message takes: one, or its characters and a NUL. */
  function Extent(m: Message): nat {
    if m.Command? then 1 else |m.chars| + 1
  }

  /** Storing leaves the rest of the segment as it was. */
  lemma StoredKeepsRest(segment: seq<Byte>, m: Message, k: nat)
    requires |segment| == SEGMENT_SIZE && m.Sendable() && Extent(m) <= k < SEGMENT_SIZE
    ensures Stored(segment, m)[k] == segment[k]
  {
  }

  /** Whatever the segment held before, what was stored is what a reader of that format takes. */
  lemma LoadedIsStored(segment: seq<Byte>, m: Message)
    requires Mapped(segment) && m.Sendable()
    ensures Mapped(Stored(segment, m)) && Loaded(Stored(segment, m), m) == m
  {
    StoredKeepsMapped(segment, m);
    if m.Text? {
      var r := Stored(segment, m);
      forall k | 0 <= k < |m.chars| ensures r[k] == m.chars[k] && r[k] != 0 {
        assert m.chars[k] in m.chars;
      }
      CharsUpToNul(r, 0, |m.chars|);
      assert r[0..|m.chars|] == m.chars;
    }
  }

  // ----- the protocol -----

  /** The messages of each direction. Both programs know how many there are and their formats. */
  datatype Config = Config(toChild: seq<Message>, toParent: seq<Message>)
  {
    ghost predicate Valid() {
      && 1 <= |toChild| && 1 <= |toParent|
      && (forall m <- toChild + toParent :: m.Sendable())
    }

    /** Each program has one round for each message: round i is about message i. */
    function All(): (r: seq<Message>)
      ensures |r| == |toChild| + |toParent|
    {
      toChild + toParent
    }
  }

  datatype Who = Parent | Child

  datatype Stage = Outside | Entered | Accessed

  datatype Process = Process(round: nat, stage: Stage)

  /** One access to the segment: by whom, whether it was a store, and what the segment then held. */
  datatype Access = Access(who: Who, store: bool, segment: seq<Byte>)

  datatype State = State(
    semRead: nat, semWrite: nat, segment: seq<Byte>, parent: Process, child: Process,
    childGot: seq<Message>, parentGot: seq<Message>, log: seq<Access>)
  {
    function Of(who: Who): Process {
      if who.Parent? then parent else child
    }
  }

  /** The parent writes first and reads then; the child the other way round. */
  predicate Writes(c: Config, who: Who, round: nat) {
    who.Parent? <==> round < |c.toChild|
  }

  function Init(segment: seq<Byte>): State {
    State(0, 1, segment, Process(0, Outside), Process(0, Outside), [], [], [])
  }

  /** A process can move unless it is through, or waits on a semaphore that is 0. */
  predicate Enabled(c: Config, s: State, who: Who) {
    var p := s.Of(who);
    && p.round < |c.All()|
    && (p.stage.Outside? ==> (if Writes(c, who, p.round) then s.semWrite else s.semRead) > 0)
  }

  function Put(s: State, who: Who, p: Process): State {
    if who.Parent? then s.(parent := p) else s.(child := p)
  }

  function Enter(c: Config, s: State, who: Who): State
    requires Enabled(c, s, who) && s.Of(who).stage.Outside?
  {
    var p := s.Of(who);
    Put(if Writes(c, who, p.round) then s.(semWrite := s.semWrite - 1) else s.(semRead := s.semRead - 1),
        who, p.(stage := Entered))
  }

  function AccessSegment(c: Config, s: State, who: Who): State
    requires |s.segment| == SEGMENT_SIZE && s.Of(who).round < |c.All()| && c.Valid()
  {
    var p := s.Of(who);
    var m := c.All()[p.round];
    var t := Put(s, who, p.(stage := Accessed));
    if Writes(c, who, p.round) then
      t.(segment := Stored(s.segment, m), log := s.log + [Access(who, true, Stored(s.segment, m))])
    else if who.Parent? then
      t.(parentGot := s.parentGot + [Loaded(s.segment, m)], log := s.log + [Access(who, false, s.segment)])
    else
      t.(childGot := s.childGot + [Loaded(s.segment, m)], log := s.log + [Access(who, false, s.segment)])
  }

  function Leave(c: Config, s: State, who: Who): State {
    var p := s.Of(who);
    Put(if Writes(c, who, p.round) then s.(semRead := s.semRead + 1) else s.(semWrite := s.semWrite + 1),
        who, Process(p.round + 1, Outside))
  }

  function Step(c: Config, s: State, who: Who): State
    requires c.Valid() && |s.segment| == SEGMENT_SIZE && Enabled(c, s, who)
  {
    match s.Of(who).stage
    case Outside => Enter(c, s, who)
    case Entered => AccessSegment(c, s, who)
    case Accessed => Leave(c, s, who)
  }

  // ----- what every step keeps -----

  function Inside(p: Process): nat {
    if p.stage.Outside? then 0 else 1
  }

  function Through(p: Process): nat {
    if p.stage.Accessed? then 1 else 0
  }

  /** The parent has taken the token of its own last message. */
  predicate Stolen(c: Config, s: State) {
    s.child.round + 1 == |c.toChild| && s.parent.round + Inside(s.parent) == |c.toChild| + 1
  }

  /** Where the two processes can be, and where the one token is. */
  ghost predicate Shape(c: Config, s: State) {
    var k, p, q := |c.toChild|, s.parent, s.child;
    && p.round <= |c.All()| && q.round <= |c.All()|
    && s.semRead + s.semWrite + Inside(p) + Inside(q) == 1
    && if p.round == q.round then
         // the token is free to write, or with the writer
         && s.semRead == 0
         && (p.stage.Outside? || p.round < k)
         && (q.stage.Outside? || k <= q.round < |c.All()|)
       else if Stolen(c, s) then
         && s.semRead == 0 && q.stage.Outside?
         && (s.semWrite == 1 <==> p.stage.Outside?)
       else
         // one message is under way: the token is free to read, or with its reader
         && s.semWrite == 0
         && (|| (p.round == q.round + 1 && p.round <= k && p.stage.Outside?)
             || (q.round == p.round + 1 && k <= p.round && q.stage.Outside?))
  }

  /** Stores and loads alternate; load number j takes what store number j left, which is message j. */
  ghost predicate Alternates(c: Config, log: seq<Access>) {
    && |log| <= 2 * |c.All()|
    && (forall j :: 0 <= j < |log| ==> (log[j].store <==> j % 2 == 0) && Mapped(log[j].segment))
    && (forall j :: 0 <= j < |log| && j % 2 == 0 ==> Loaded(log[j].segment, c.All()[j / 2]) == c.All()[j / 2])
    && (forall j :: 0 < j < |log| && j % 2 == 1 ==> log[j].segment == log[j - 1].segment)
  }

  ghost predicate Logged(c: Config, s: State) {
    && Mapped(s.segment)
    && |s.log| == s.parent.round + s.child.round + Through(s.parent) + Through(s.child)
    && Alternates(c, s.log)
    && (|s.log| > 0 ==> s.segment == s.log[|s.log| - 1].segment)
  }

  function Min(a: int, b: int): int {
    if a <= b then a else b
  }

  function ChildTook(c: Config, s: State): nat {
    Min(s.child.round + Through(s.child), |c.toChild|)
  }

  function ParentTook(c: Config, s: State): nat {
    var n := s.parent.round + Through(s.parent);
    if n <= |c.toChild| then 0 else n - |c.toChild|
  }

  /**
   The child has exactly the first messages meant for it. So has the parent, unless it stole:
   then it has its own last message, taken for the first of the child's.
   */
  ghost predicate Received(c: Config, s: State) {
    && ChildTook(c, s) <= |c.toChild| && s.childGot == c.toChild[..ChildTook(c, s)]
    && ParentTook(c, s) <= |c.toParent|
    && if Stolen(c, s) then
         && |s.parentGot| == ParentTook(c, s) <= 1 && |s.segment| == SEGMENT_SIZE
         && Loaded(s.segment, c.toChild[|c.toChild| - 1]) == c.toChild[|c.toChild| - 1]
         && (|s.parentGot| == 1 ==> s.parentGot[0] == Loaded(s.segment, c.toParent[0]))
       else
         s.parentGot == c.toParent[..ParentTook(c, s)]
  }

  ghost predicate Inv(c: Config, s: State) {
    Shape(c, s) && Logged(c, s) && Received(c, s)
  }

  lemma ShapeKept(c: Config, s: State, who: Who)
    requires c.Valid() && Shape(c, s) && |s.segment| == SEGMENT_SIZE && Enabled(c, s, who)
    ensures Shape(c, Step(c, s, who))
  {
    hide Stored, Loaded;
  }

  /** In which of the two halves of an exchange the next access comes. */
  lemma AccessInTurn(c: Config, s: State, who: Who)
    requires c.Valid() && Shape(c, s) && Logged(c, s) && s.Of(who).stage.Entered?
    ensures s.Of(who).round < |c.All()| && |s.log| < 2 * |c.All()|
    ensures Writes(c, who, s.Of(who).round) <==> |s.log| % 2 == 0
    ensures Writes(c, who, s.Of(who).round) ==> s.Of(who).round == |s.log| / 2
    ensures !Writes(c, who, s.Of(who).round) && !Stolen(c, s) ==> s.Of(who).round == |s.log| / 2
    ensures Stolen(c, s) ==> who.Parent? && |s.log| == 2 * |c.toChild| - 1
  {
  }

  lemma AlternatesMore(c: Config, log: seq<Access>, a: Access)
    requires Alternates(c, log) && |log| < 2 * |c.All()|
    requires a.store <==> |log| % 2 == 0
    requires Mapped(a.segment)
    requires a.store ==> Loaded(a.segment, c.All()[|log| / 2]) == c.All()[|log| / 2]
    requires !a.store ==> a.segment == log[|log| - 1].segment
    ensures Alternates(c, log + [a])
  {
  }

  lemma LogKept(c: Config, s: State, who: Who)
    requires c.Valid() && Shape(c, s) && Logged(c, s) && Enabled(c, s, who)
    ensures Logged(c, Step(c, s, who))
  {
    hide Alternates;
    if s.Of(who).stage.Entered? {
      AccessInTurn(c, s, who);
      var m := c.All()[s.Of(who).round];
      assert m in c.toChild + c.toParent;
      LoadedIsStored(s.segment, m);
      var t := AccessSegment(c, s, who);
      hide Stored, Loaded, Mapped;
      AlternatesMore(c, s.log, t.log[|s.log|]);
    }
  }

  /** What a reader is about to take. */
  lemma LastStored(c: Config, s: State)
    requires Logged(c, s) && |s.log| % 2 == 1
    ensures |s.log| / 2 < |c.All()|
    ensures Loaded(s.segment, c.All()[|s.log| / 2]) == c.All()[|s.log| / 2]
  {
  }

  lemma ReceivedKept(c: Config, s: State, who: Who)
    requires c.Valid() && Inv(c, s) && Enabled(c, s, who)
    ensures Received(c, Step(c, s, who))
  {
    if s.Of(who).stage.Entered? {
      AccessInTurn(c, s, who);
    }
    if |s.log| % 2 == 1 {
      LastStored(c, s);
    }
    hide Stored, Loaded, Alternates;
  }

  lemma StepKeeps(c: Config, s: State, who: Who)
    requires c.Valid() && Inv(c, s) && Enabled(c, s, who)
    ensures Inv(c, Step(c, s, who))
  {
    ShapeKept(c, s, who);
    LogKept(c, s, who);
    ReceivedKept(c, s, who);
  }

  lemma InitInv(c: Config, segment: seq<Byte>)
    requires c.Valid() && Mapped(segment)
    ensures Inv(c, Init(segment))
  {
  }

  // ----- runs -----

  /** The state after a schedule; a process that is scheduled but cannot move stays where it is. */
  ghost function After(c: Config, s: State, schedule: seq<Who>): (r: State)
    requires c.Valid() && Inv(c, s)
    ensures Inv(c, r)
  {
    if schedule == [] then s
    else
      var last := |schedule| - 1;
      var t := After(c, s, schedule[..last]);
      if Enabled(c, t, schedule[last]) then
        StepKeeps(c, t, schedule[last]);
        Step(c, t, schedule[last])
      else t
  }

  /** Every move of the schedule is one its process can make. */
  ghost predicate Run(c: Config, s: State, schedule: seq<Who>)
    requires c.Valid() && Inv(c, s)
  {
    schedule == [] ||
    var last := |schedule| - 1;
    Run(c, s, schedule[..last]) && Enabled(c, After(c, s, schedule[..last]), schedule[last])
  }

  ghost predicate RunOf(c: Config, segment: seq<Byte>, schedule: seq<Who>)
    requires c.Valid() && Mapped(segment)
  {
    InitInv(c, segment);
    Run(c, Init(segment), schedule)
  }

  ghost function Outcome(c: Config, segment: seq<Byte>, schedule: seq<Who>): (r: State)
    requires c.Valid() && Mapped(segment)
    ensures Inv(c, r)
  {
    InitInv(c, segment);
    After(c, Init(segment), schedule)
  }

  /**
   In every interleaving: one token, in a semaphore or with the one process inside; stores and
   loads alternate, load j taking what store j left; and the child never has anything but the
   first messages sent to it.
   */
  lemma EveryInterleaving(c: Config, segment: seq<Byte>, schedule: seq<Who>)
    requires c.Valid() && Mapped(segment)
    ensures var s := Outcome(c, segment, schedule);
            && s.semRead + s.semWrite + Inside(s.parent) + Inside(s.child) == 1
            && (forall j :: 0 <= j < |s.log| ==> (s.log[j].store <==> j % 2 == 0))
            && (forall j :: 0 <= j < |s.log| / 2 ==> s.log[2 * j + 1].segment == s.log[2 * j].segment)
            && s.childGot <= c.toChild
  {
    hide Stored, Loaded, Mapped, After;
    var s := Outcome(c, segment, schedule);
    forall j | 0 <= j < |s.log| / 2 ensures s.log[2 * j + 1].segment == s.log[2 * j].segment {
      assert (2 * j + 1) % 2 == 1;
    }
  }

  function StageNumber(p: Process): nat {
    match p.stage case Outside => 0 case Entered => 1 case Accessed => 2
  }

  /** The moves made so far. */
  function Moves(s: State): nat {
    3 * (s.parent.round + s.child.round) + StageNumber(s.parent) + StageNumber(s.child)
  }

  /** The one move that both processes can be waiting for. */
  function Race(c: Config): int {
    6 * |c.toChild| - 3
  }

  lemma MovesCounted(c: Config, segment: seq<Byte>, schedule: seq<Who>)
    requires c.Valid() && Mapped(segment) && RunOf(c, segment, schedule)
    ensures Moves(Outcome(c, segment, schedule)) == |schedule|
  {
    hide Inv, Stored, Loaded;
    if schedule != [] {
      MovesCounted(c, segment, schedule[..|schedule| - 1]);
    }
  }

  /** Both processes can move in one state only: before the parent's first load, the child's last one due. */
  lemma OneRace(c: Config, s: State)
    requires c.Valid() && Shape(c, s)
    ensures Enabled(c, s, Parent) && Enabled(c, s, Child) <==> Moves(s) == Race(c)
  {
  }

  ghost predicate Ended(c: Config, s: State) {
    !Enabled(c, s, Parent) && !Enabled(c, s, Child)
  }

  /** A state in which nobody can move: both are through, or the parent has stolen. */
  lemma EndsAt(c: Config, s: State)
    requires c.Valid() && Shape(c, s)
    ensures Ended(c, s) <==> Moves(s) == if Stolen(c, s) then 6 * |c.toChild| else 6 * |c.All()|
    ensures Ended(c, s) && !Stolen(c, s) ==> s.parent.round == s.child.round == |c.All()|
    ensures Ended(c, s) && Stolen(c, s) ==>
              && s.semRead == 0 && s.semWrite == 1
              && s.parent == Process(|c.toChild| + 1, Outside) && s.child == Process(|c.toChild| - 1, Outside)
    ensures Moves(s) <= 6 * |c.All()|
  {
  }

  lemma StealStep(c: Config, s: State, who: Who)
    requires c.Valid() && Inv(c, s) && Enabled(c, s, who)
    ensures Stolen(c, Step(c, s, who)) <==> Stolen(c, s) || (Moves(s) == Race(c) && who == Parent)
    ensures Stolen(c, s) ==> Moves(s) > Race(c)
  {
    hide Logged, Received, Stored, Loaded;
  }

  /** The token is stolen exactly if the parent makes the move that is raced for. */
  lemma {:induction false} StolenExactly(c: Config, segment: seq<Byte>, schedule: seq<Who>)
    requires c.Valid() && Mapped(segment) && RunOf(c, segment, schedule)
    ensures Stolen(c, Outcome(c, segment, schedule)) <==> |schedule| > Race(c) && schedule[Race(c)] == Parent
  {
    hide Inv, Stored, Loaded, Stolen;
    if schedule != [] {
      var last := |schedule| - 1;
      var t := Outcome(c, segment, schedule[..last]);
      StolenExactly(c, segment, schedule[..last]);
      MovesCounted(c, segment, schedule[..last]);
      StealStep(c, t, schedule[last]);
    } else {
      NotStolenYet(c, segment);
    }
  }

  lemma NotStolenYet(c: Config, segment: seq<Byte>)
    ensures !Stolen(c, Init(segment))
  {
  }

  /**
   How runs end. Every run that can go no further has delivered all messages in order, both
   ways, and both processes are through; unless the parent made the move that is raced for.
   Then the child waits for ever for its last message, the parent has taken that message for
   the first of the child's, and the write semaphore holds the token.
   */
  lemma HowRunsEnd(c: Config, segment: seq<Byte>, schedule: seq<Who>)
    requires c.Valid() && Mapped(segment) && RunOf(c, segment, schedule)
    requires Ended(c, Outcome(c, segment, schedule))
    ensures |schedule| > Race(c)
    ensures var s := Outcome(c, segment, schedule);
            if schedule[Race(c)] == Child then
              && s.childGot == c.toChild && s.parentGot == c.toParent
              && s.parent.round == s.child.round == |c.All()|
              && |schedule| == 6 * |c.All()|
            else
              && s.childGot == c.toChild[..|c.toChild| - 1] && |s.parentGot| == 1
              && Loaded(s.segment, c.toChild[|c.toChild| - 1]) == c.toChild[|c.toChild| - 1]
              && s.parentGot[0] == Loaded(s.segment, c.toParent[0])
              && s.parent == Process(|c.toChild| + 1, Outside) && s.child == Process(|c.toChild| - 1, Outside)
              && s.semRead == 0 && s.semWrite == 1
              && |schedule| == 6 * |c.toChild|
  {
    var s := Outcome(c, segment, schedule);
    MovesCounted(c, segment, schedule);
    StolenExactly(c, segment, schedule);
    EndsAt(c, s);
    hide Stored, Loaded, Outcome, RunOf, Alternates;
  }

  ghost predicate AgreeOnRace(c: Config, a: seq<Who>, b: seq<Who>) {
    |a| == |b| && (0 <= Race(c) < |a| ==> a[Race(c)] == b[Race(c)])
  }

  /** Apart from the one race the processes take turns: runs that agree on it are the same run. */
  lemma {:induction false} OnlyTheRaceIsOpen(c: Config, segment: seq<Byte>, a: seq<Who>, b: seq<Who>)
    requires c.Valid() && Mapped(segment)
    ensures RunOf(c, segment, a) && RunOf(c, segment, b) && AgreeOnRace(c, a, b) ==> a == b
    decreases |a|
  {
    hide Run, RunOf, Outcome, Shape, Enabled;
    if a != [] && RunOf(c, segment, a) && RunOf(c, segment, b) && AgreeOnRace(c, a, b) {
      var last := |a| - 1;
      LastMove(c, segment, a);
      LastMove(c, segment, b);
      OnlyTheRaceIsOpen(c, segment, a[..last], b[..last]);
      MovesCounted(c, segment, a[..last]);
      var t := Outcome(c, segment, a[..last]);
      OneRace(c, t);
      assert a[last] != b[last] ==> Enabled(c, t, Parent) && Enabled(c, t, Child);
      assert a == a[..last] + [a[last]] && b == b[..last] + [b[last]];
    }
  }

  lemma LastMove(c: Config, segment: seq<Byte>, schedule: seq<Who>)
    requires c.Valid() && Mapped(segment) && RunOf(c, segment, schedule) && schedule != []
    ensures var t := Outcome(c, segment, schedule[..|schedule| - 1]);
            && RunOf(c, segment, schedule[..|schedule| - 1])
            && Shape(c, t) && Enabled(c, t, schedule[|schedule| - 1])
  {
  }

  lemma OneMoreMove(c: Config, segment: seq<Byte>, schedule: seq<Who>, who: Who)
    requires c.Valid() && Mapped(segment) && RunOf(c, segment, schedule)
    requires Enabled(c, Outcome(c, segment, schedule), who)
    ensures RunOf(c, segment, schedule + [who])
  {
    assert (schedule + [who])[..|schedule|] == schedule;
  }

  ghost predicate EndsWon(c: Config, segment: seq<Byte>, schedule: seq<Who>, winner: Who)
    requires c.Valid() && Mapped(segment)
  {
    && RunOf(c, segment, schedule) && Ended(c, Outcome(c, segment, schedule))
    && |schedule| > Race(c) && schedule[Race(c)] == winner
  }

  lemma NextMove(c: Config, s: State, winner: Who) returns (who: Who)
    requires c.Valid() && Shape(c, s) && !Ended(c, s)
    ensures Enabled(c, s, who) && (Moves(s) == Race(c) ==> who == winner)
    ensures Moves(s) < 6 * |c.All()|
  {
    OneRace(c, s);
    EndsAt(c, s);
    who := if Enabled(c, s, winner) then winner else if winner.Parent? then Child else Parent;
  }

  lemma ShapeOfOutcome(c: Config, segment: seq<Byte>, schedule: seq<Who>)
    requires c.Valid() && Mapped(segment)
    ensures Shape(c, Outcome(c, segment, schedule))
  {
  }

  /** No run goes on for ever: any run can be carried on to an end, whoever wins the race if it is still open. */
  lemma {:induction false} RunsReachAnEnd(c: Config, segment: seq<Byte>, schedule: seq<Who>, winner: Who)
    requires c.Valid() && Mapped(segment) && RunOf(c, segment, schedule)
    requires |schedule| > Race(c) ==> schedule[Race(c)] == winner
    ensures |schedule| <= 6 * |c.All()|
    ensures exists r :: EndsWon(c, segment, r, winner) && schedule <= r
    decreases 6 * |c.All()| - |schedule|
  {
    hide RunOf, Outcome, Stolen, Shape, Enabled, Ended, Moves;
    var s := Outcome(c, segment, schedule);
    MovesCounted(c, segment, schedule);
    ShapeOfOutcome(c, segment, schedule);
    EndsAt(c, s);
    if Ended(c, s) {
      HowRunsEnd(c, segment, schedule);
      assert EndsWon(c, segment, schedule, winner);
    } else {
      var who := NextMove(c, s, winner);
      OneMoreMove(c, segment, schedule, who);
      RunsReachAnEnd(c, segment, schedule + [who], winner);
      hide EndsWon;
      var r :| EndsWon(c, segment, r, winner) && schedule + [who] <= r;
      assert schedule <= r;
    }
  }

  /** So the program can deliver everything, and it can get stuck; which of the two is up to the scheduler. */
  lemma BothEndsHappen(c: Config, segment: seq<Byte>, winner: Who)
    requires c.Valid() && Mapped(segment)
    ensures exists r :: EndsWon(c, segment, r, winner)
                        && (winner == Child <==> Outcome(c, segment, r).parentGot == c.toParent
                                                 && Outcome(c, segment, r).childGot == c.toChild)
  {
    hide Inv, Ended, Stored, Loaded;
    RunsReachAnEnd(c, segment, [], winner);
    var r :| EndsWon(c, segment, r, winner);
    HowRunsEnd(c, segment, r);
  }

  // ----- the program -----

  class Handoff {
    const config: Config
    const shm: array<Byte>
    var shmRead: nat
    var shmWrite: nat
    var parent: Process
    var child: Process
    var childGot: seq<Message>
    var parentGot: seq<Message>
    ghost var log: seq<Access>

    ghost function View(): State
      reads this, shm
    {
      State(shmRead, shmWrite, shm[..], parent, child, childGot, parentGot, log)
    }

    ghost predicate Valid()
      reads this, shm
    {
      config.Valid() && shm.Length == SEGMENT_SIZE && Inv(config, View())
    }

    /** get_shared_memory: a segment full of zeros, and the two semaphores at 0 and 1. */
    constructor (c: Config)
      requires c.Valid()
      ensures Valid() && config == c && fresh(shm)
      ensures View() == Init(shm[..]) && Mapped(shm[..])
    {
      config := c;
      shm := new Byte[SEGMENT_SIZE](_ => 0);
      shmRead, shmWrite := 0, 1;
      parent, child := Process(0, Outside), Process(0, Outside);
      childGot, parentGot, log := [], [], [];
      new;
      InitInv(c, shm[..]);
    }

    /** sprintf into the segment: one character at a time, then the NUL. */
    method StoreText(chars: seq<Byte>)
      requires shm.Length == SEGMENT_SIZE && Text(chars).Sendable()
      modifies shm
      ensures shm[..] == Stored(old(shm[..]), Text(chars))
    {
      var i := 0;
      while i < |chars|
        invariant i <= |chars|
        invariant forall k :: 0 <= k < i ==> shm[k] == chars[k]
        invariant forall k :: i <= k < shm.Length ==> shm[k] == old(shm[k])
      {
        shm[i] := chars[i];
        i := i + 1;
      }
      shm[i] := 0;
    }

    /** The %s that reads the segment: up to the first NUL. */
    method LoadText() returns (chars: seq<Byte>)
      requires Mapped(shm[..])
      ensures Text(chars) == Loaded(shm[..], Text([]))
      ensures Text(chars).Sendable()
    {
      chars := [];
      while shm[|chars|] != 0
        invariant |chars| < STR_MAX_LEN && 0 !in chars
        invariant CharsFrom(shm[..], 0) == chars + CharsFrom(shm[..], |chars|)
        decreases STR_MAX_LEN - |chars|
      {
        chars := chars + [shm[|chars|]];
      }
    }

    /** The body of a writer's section. */
    method Write(m: Message)
      requires shm.Length == SEGMENT_SIZE && m.Sendable()
      modifies shm
      ensures shm[..] == Stored(old(shm[..]), m)
    {
      match m
      case Command(value) => shm[0] := value;
      case Text(chars) => StoreText(chars);
    }

    /** The body of a reader's section. */
    method Read(format: Message) returns (m: Message)
      requires Mapped(shm[..])
      ensures m == Loaded(shm[..], format)
    {
      match format
      case Command(_) => m := Command(shm[0]);
      case Text(_) => var chars := LoadText(); m := Text(chars);
    }

    method SetProcess(who: Who, p: Process)
      modifies `parent, `child
      ensures View() == Put(old(View()), who, p)
    {
      if who.Parent? { parent := p; } else { child := p; }
    }

    /** The access between sem_wait and sem_post. */
    method Section(who: Who, p: Process, writes: bool)
      requires config.Valid() && Mapped(shm[..]) && p.round < |config.All()|
      requires p == View().Of(who) && writes == Writes(config, who, p.round)
      modifies this, shm
      ensures View() == AccessSegment(config, old(View()), who)
    {
      var m := config.All()[p.round];
      assert m in config.toChild + config.toParent;
      if writes {
        Write(m);
      } else {
        var got := Read(m);
        if who.Parent? { parentGot := parentGot + [got]; } else { childGot := childGot + [got]; }
      }
      log := log + [Access(who, writes, shm[..])];
      SetProcess(who, p.(stage := Accessed));
    }

    method SemWait(who: Who, p: Process, writes: bool)
      requires Enabled(config, View(), who) && p.stage.Outside?
      requires p == View().Of(who) && writes == Writes(config, who, p.round)
      modifies this
      ensures View() == Enter(config, old(View()), who)
    {
      if writes { shmWrite := shmWrite - 1; } else { shmRead := shmRead - 1; }
      SetProcess(who, p.(stage := Entered));
    }

    method SemPost(who: Who, p: Process, writes: bool)
      requires p == View().Of(who) && writes == Writes(config, who, p.round)
      modifies this
      ensures View() == Leave(config, old(View()), who)
    {
      if writes { shmRead := shmRead + 1; } else { shmWrite := shmWrite + 1; }
      SetProcess(who, Process(p.round + 1, Outside));
    }

    function Current(who: Who): (p: Process)
      reads this, shm
      ensures p == View().Of(who)
    {
      if who.Parent? then parent else child
    }

    predicate CanMove(who: Who)
      reads this, shm
      ensures CanMove(who) == Enabled(config, View(), who)
    {
      var p := Current(who);
      && p.round < |config.All()|
      && (p.stage.Outside? ==> (if Writes(config, who, p.round) then shmWrite else shmRead) > 0)
    }

    /** sem_wait, the access, or sem_post: what process `who` does next, if it can. */
    method Advance(who: Who) returns (moved: bool)
      requires Valid()
      modifies this, shm
      ensures Valid() && moved == Enabled(config, old(View()), who)
      ensures View() == if moved then Step(config, old(View()), who) else old(View())
    {
      moved := CanMove(who);
      if moved {
        StepKeeps(config, View(), who);
        Move(who);
      }
    }

    method Move(who: Who)
      requires config.Valid() && Mapped(shm[..]) && Enabled(config, View(), who)
      modifies this, shm
      ensures View() == Step(config, old(View()), who)
    {
      var p := Current(who);
      var writes := Writes(config, who, p.round);
      assert p.round < |config.All()|;
      hide Enabled, Writes, Enter, AccessSegment, Leave, View;
      match p.stage
      case Outside => SemWait(who, p, writes);
      case Entered => Section(who, p, writes);
      case Accessed => SemPost(who, p, writes);
    }
  }
}
