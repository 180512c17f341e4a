/**
 Process groups and sessions: setpgid and setsid of the kernel, with fork, execve and exit as
 steps of the surroundings.  Processes are thread groups, named by their leader's pid.
 */
module Sessions {

  const EPERM := 1
  const ESRCH := 3
  const EACCES := 13
  const EINVAL := 22

  /** `forkNoExec` is PF_FORKNOEXEC: the process has not called execve since it was forked. */
  datatype Proc = Proc(pgrp: int, session: int, leader: bool, parent: int, forkNoExec: bool)

  /** `threads` maps the tid of every thread other than a group leader to its process. */
  datatype Table = Table(procs: map<int, Proc>, threads: map<int, int>)

  // ----- the calls, on values -----

  ghost predicate InGroup(t: Table, pgid: int, p: int) {
    p in t.procs && t.procs[p].pgrp == pgid
  }

  /** pid_task(find_vpid(pgid), PIDTYPE_PGID): some member `g` of the group, if it has any. */
  ghost predicate PicksMember(t: Table, pgid: int, g: Found) {
    match g
    case NoTask => forall p :: !InGroup(t, pgid, p)
    case Task(p) => InGroup(t, pgid, p)
  }

  datatype Found = NoTask | Task(pid: int)

  ghost function SomeMember(t: Table, pgid: int): (g: Found)
    ensures PicksMember(t, pgid, g)
  {
    if exists p :: InGroup(t, pgid, p) then var p :| InGroup(t, pgid, p); Task(p) else NoTask
  }

  /** The answer of setpgid for the already defaulted `pid` and `pgid`. */
  ghost function SetpgidAnswer(t: Table, caller: int, pid: int, pgid: int, g: Found, lsm: int): (err: int)
    requires caller in t.procs && (g.Task? ==> g.pid in t.procs)
  {
    if pgid < 0 then -EINVAL
    else if pid !in t.procs then (if pid in t.threads then -EINVAL else -ESRCH)
    else if t.procs[pid].parent == caller && t.procs[pid].session != t.procs[caller].session then -EPERM
    else if t.procs[pid].parent == caller && !t.procs[pid].forkNoExec then -EACCES
    else if t.procs[pid].parent != caller && pid != caller then -ESRCH
    else if t.procs[pid].leader then -EPERM
    else if pgid != pid && (g.NoTask? || t.procs[g.pid].session != t.procs[caller].session) then -EPERM
    else lsm
  }

  function MoveTo(t: Table, pid: int, pgid: int): Table
    requires pid in t.procs
  {
    t.(procs := t.procs[pid := t.procs[pid].(pgrp := pgid)])
  }

  function StartSession(t: Table, pid: int): Table
    requires pid in t.procs
  {
    t.(procs := t.procs[pid := t.procs[pid].(pgrp := pid, session := pid, leader := true)])
  }

  /** `pid` still names a process, a thread, a process group or a session. */
  ghost predicate InUse(t: Table, pid: int) {
    || pid in t.procs || pid in t.threads
    || exists p :: p in t.procs && (t.procs[p].pgrp == pid || t.procs[p].session == pid)
  }

  // ----- the invariant -----

  ghost predicate OneSessionPerGroup(t: Table) {
    forall p, q :: p in t.procs && q in t.procs && t.procs[p].pgrp == t.procs[q].pgrp
                   ==> t.procs[p].session == t.procs[q].session
  }

  ghost predicate LeadersLead(t: Table) {
    forall p :: p in t.procs && t.procs[p].leader ==> t.procs[p].pgrp == p && t.procs[p].session == p
  }

  /** A live process shares the session of every member of the group that its pid names. */
  ghost predicate NamesakesShare(t: Table) {
    forall p, q :: p in t.procs && q in t.procs && t.procs[q].pgrp == p
                   ==> t.procs[q].session == t.procs[p].session
  }

  /** A live process whose pid names a session leads it. */
  ghost predicate SessionsLed(t: Table) {
    forall p, q :: p in t.procs && q in t.procs && t.procs[q].session == p ==> t.procs[p].leader
  }

  ghost predicate Inv(t: Table) {
    && OneSessionPerGroup(t) && LeadersLead(t) && NamesakesShare(t) && SessionsLed(t)
    && t.procs.Keys !! t.threads.Keys
    && (forall p :: p in t.procs ==> 0 < p && t.procs[p].parent != p)
  }

  // ----- steps -----

  datatype Event =
    | Setpgid(caller: int, pid: int, pgid: int, g: Found, lsm: int)
    | Setsid(caller: int)
    | Fork(parent: int, child: int)
    | NewThread(proc: int, tid: int)
    | Execve(proc: int)
    | Exit(proc: int, reaper: int)

  /** The pid and group that setpgid's zero arguments stand for. */
  function Pid(caller: int, pid: int): int {
    if pid == 0 then caller else pid
  }

  function Pgid(caller: int, pid: int, pgid: int): int {
    if pgid == 0 then Pid(caller, pid) else pgid
  }

  /** What the kernel makes sure of: the caller is alive, a new pid is not in use, no process is its own parent. */
  ghost predicate Allowed(t: Table, e: Event) {
    match e
    case Setpgid(caller, pid, pgid, g, lsm) =>
      caller in t.procs && lsm <= 0 && PicksMember(t, Pgid(caller, pid, pgid), g)
    case Setsid(caller) => caller in t.procs
    case Fork(parent, child) => parent in t.procs && 0 < child && !InUse(t, child)
    case NewThread(proc, tid) => proc in t.procs && !InUse(t, tid)
    case Execve(proc) => proc in t.procs
    case Exit(proc, reaper) =>
      proc in t.procs && forall p :: p in t.procs && t.procs[p].parent == proc ==> p != reaper
  }

  /** setsid fails for a session leader, and while its pid names a process group. */
  ghost predicate MaySetsid(t: Table, caller: int)
    requires caller in t.procs
  {
    !t.procs[caller].leader && forall p :: !InGroup(t, caller, p)
  }

  ghost function Step(t: Table, e: Event): Table
    requires Allowed(t, e)
  {
    match e
    case Setpgid(caller, pid, pgid, g, lsm) =>
      if SetpgidAnswer(t, caller, Pid(caller, pid), Pgid(caller, pid, pgid), g, lsm) == 0
      then MoveTo(t, Pid(caller, pid), Pgid(caller, pid, pgid)) else t
    case Setsid(caller) => if MaySetsid(t, caller) then StartSession(t, caller) else t
    case Fork(parent, child) =>
      t.(procs := t.procs[child := t.procs[parent].(leader := false, parent := parent, forkNoExec := true)])
    case NewThread(proc, tid) => t.(threads := t.threads[tid := proc])
    case Execve(proc) => t.(procs := t.procs[proc := t.procs[proc].(forkNoExec := false)])
    case Exit(proc, reaper) =>
      Table(map p | p in t.procs && p != proc ::
              if t.procs[p].parent == proc then t.procs[p].(parent := reaper) else t.procs[p],
            map tid | tid in t.threads && t.threads[tid] != proc :: t.threads[tid])
  }

  lemma SetpgidKeeps(t: Table, caller: int, pid: int, pgid: int, g: Found, lsm: int)
    requires Inv(t) && caller in t.procs && PicksMember(t, pgid, g)
    requires SetpgidAnswer(t, caller, pid, pgid, g, lsm) == 0 && lsm <= 0
    ensures Inv(MoveTo(t, pid, pgid))
  {
    var r := MoveTo(t, pid, pgid);
    var s := t.procs[pid].session;
    assert s == t.procs[caller].session;
    // Whoever is in the group already, its namesake included, is in the session of `pid`.
    forall q | InGroup(t, pgid, q) ensures t.procs[q].session == s {
      if pgid != pid {
        assert InGroup(t, pgid, g.pid);
      }
    }
    assert pgid in t.procs ==> t.procs[pgid].session == s;
  }

  /**
   Every step keeps all members of a process group in one session, every session leader at
   pid = pgid = sid, and every process in the session of the group that its pid names.
   */
  lemma StepKeeps(t: Table, e: Event)
    requires Inv(t) && Allowed(t, e)
    ensures Inv(Step(t, e))
  {
    match e
    case Setpgid(caller, pid, pgid, g, lsm) =>
      if Step(t, e) != t {
        SetpgidKeeps(t, caller, Pid(caller, pid), Pgid(caller, pid, pgid), g, lsm);
      }
    case Setsid(caller) =>
      assert forall p :: p in t.procs && t.procs[p].pgrp == caller ==> InGroup(t, caller, p);
    case Fork(parent, child) =>
    case NewThread(proc, tid) =>
    case Execve(proc) =>
    case Exit(proc, reaper) =>
  }

  ghost predicate AllowedRun(t: Table, run: seq<Event>)
    decreases |run|
  {
    run == [] || (Allowed(t, run[0]) && AllowedRun(Step(t, run[0]), run[1..]))
  }

  ghost function After(t: Table, run: seq<Event>): Table
    requires AllowedRun(t, run)
    decreases |run|
  {
    if run == [] then t else After(Step(t, run[0]), run[1..])
  }

  /** The first process, before anybody has started a session. */
  const BOOT := Table(map[1 := Proc(0, 0, false, 0, false)], map[])

  lemma {:induction false} RunKeeps(t: Table, run: seq<Event>)
    requires Inv(t) && AllowedRun(t, run)
    ensures Inv(After(t, run))
    decreases |run|
  {
    if run != [] {
      StepKeeps(t, run[0]);
      RunKeeps(Step(t, run[0]), run[1..]);
    }
  }

  /** In every state reached from boot, all members of a process group are in one session. */
  lemma GroupsWithinSessions(run: seq<Event>, p: int, q: int)
    requires AllowedRun(BOOT, run)
    requires p in After(BOOT, run).procs && q in After(BOOT, run).procs
    ensures var t := After(BOOT, run);
            && (t.procs[p].pgrp == t.procs[q].pgrp ==> t.procs[p].session == t.procs[q].session)
            && (t.procs[p].leader ==> t.procs[p].pgrp == p && t.procs[p].session == p)
  {
    RunKeeps(BOOT, run);
  }

  /**
   setsid succeeds exactly for a process that leads no process group, and then its session and
   its process group contain the caller and nobody else.
   */
  lemma SetsidCreatesAlone(t: Table, caller: int)
    requires Inv(t) && caller in t.procs
    ensures MaySetsid(t, caller) <==> forall p :: !InGroup(t, caller, p)
    ensures MaySetsid(t, caller) ==>
              var r := Step(t, Setsid(caller));
              forall p :: p in r.procs ==>
                && (r.procs[p].session == caller <==> p == caller)
                && (r.procs[p].pgrp == caller <==> p == caller)
  {
    if t.procs[caller].leader {
      assert InGroup(t, caller, caller);
    }
    if MaySetsid(t, caller) {
      assert forall p :: p in t.procs && t.procs[p].pgrp == caller ==> InGroup(t, caller, p);
    }
  }

  /** setsid changes the caller's session, group and leadership only, or nothing if it fails. */
  lemma SetsidChanges(t: Table, caller: int)
    requires Inv(t) && caller in t.procs
    ensures var r := Step(t, Setsid(caller));
            && r.threads == t.threads && r.procs.Keys == t.procs.Keys
            && (forall p :: p in t.procs && p != caller ==> r.procs[p] == t.procs[p])
            && (if exists p :: InGroup(t, caller, p) then r == t
                else r.procs[caller] == Proc(caller, caller, true, t.procs[caller].parent, t.procs[caller].forkNoExec))
  {
    SetsidCreatesAlone(t, caller);
  }

  // ----- when setpgid succeeds -----

  /** A process may move itself, and a child in its session that has not called execve. */
  ghost predicate Movable(t: Table, caller: int, target: int)
    requires caller in t.procs
  {
    && target in t.procs
    && (|| target == caller
        || (&& t.procs[target].parent == caller && t.procs[target].forkNoExec
            && t.procs[target].session == t.procs[caller].session))
  }

  /** A process may start a group of its own, or join one that somebody in the caller's session is in. */
  ghost predicate Joinable(t: Table, caller: int, target: int, pgid: int)
    requires caller in t.procs
  {
    pgid == target || exists q :: InGroup(t, pgid, q) && t.procs[q].session == t.procs[caller].session
  }

  /** What the looked-up member tells setpgid is true of the group as a whole. */
  lemma MemberTells(t: Table, caller: int, target: int, pgid: int, g: Found)
    requires Inv(t) && caller in t.procs && PicksMember(t, pgid, g)
    ensures g.Task? ==> g.pid in t.procs
    ensures Joinable(t, caller, target, pgid)
            <==> pgid == target || (g.Task? && t.procs[g.pid].session == t.procs[caller].session)
  {
    if g.Task? { assert InGroup(t, pgid, g.pid); }
  }

  /** setpgid succeeds exactly if the target may be moved, leads no session and may join the group. */
  lemma SetpgidSucceedsExactly(t: Table, caller: int, target: int, pgid: int, g: Found, lsm: int)
    requires Inv(t) && caller in t.procs && PicksMember(t, pgid, g)
    ensures g.Task? ==> g.pid in t.procs
    ensures SetpgidAnswer(t, caller, target, pgid, g, lsm) == 0
            <==> 0 <= pgid && Movable(t, caller, target) && !t.procs[target].leader
                 && Joinable(t, caller, target, pgid) && lsm == 0
  {
    MemberTells(t, caller, target, pgid, g);
  }

  /** And each error has its own cause, as long as the LSM consents. */
  lemma SetpgidFailsExactly(t: Table, caller: int, target: int, pgid: int, g: Found)
    requires Inv(t) && caller in t.procs && PicksMember(t, pgid, g)
    ensures g.Task? ==> g.pid in t.procs
    ensures var err := SetpgidAnswer(t, caller, target, pgid, g, 0);
            && (err == -EINVAL <==> pgid < 0 || (target !in t.procs && target in t.threads))
            && (err == -ESRCH <==> 0 <= pgid && target !in t.threads &&
                                   (target in t.procs ==> target != caller && t.procs[target].parent != caller))
            && (err == -EACCES <==> && 0 <= pgid && target in t.procs && t.procs[target].parent == caller
                                    && t.procs[target].session == t.procs[caller].session
                                    && !t.procs[target].forkNoExec)
            && (err == -EPERM <==> && 0 <= pgid && target in t.procs
                                   && (|| (&& t.procs[target].parent == caller
                                           && t.procs[target].session != t.procs[caller].session)
                                       || (&& Movable(t, caller, target)
                                           && (t.procs[target].leader || !Joinable(t, caller, target, pgid)))))
            && err in {0, -EINVAL, -ESRCH, -EACCES, -EPERM}
  {
    MemberTells(t, caller, target, pgid, g);
  }

  /** A successful setpgid puts the target into the group and changes nothing else; a failed one, nothing. */
  lemma SetpgidMoves(t: Table, caller: int, target: int, pgid: int, g: Found, lsm: int)
    requires Inv(t) && Allowed(t, Setpgid(caller, target, pgid, g, lsm)) && target != 0 && pgid != 0
    ensures var r := Step(t, Setpgid(caller, target, pgid, g, lsm));
            if 0 <= pgid && Movable(t, caller, target) && !t.procs[target].leader
               && Joinable(t, caller, target, pgid) && lsm == 0
            then
              && r.threads == t.threads && r.procs.Keys == t.procs.Keys && r.procs[target].pgrp == pgid
              && r.procs[target] == t.procs[target].(pgrp := r.procs[target].pgrp)
              && (forall p :: p in t.procs && p != target ==> r.procs[p] == t.procs[p])
            else r == t
  {
    SetpgidSucceedsExactly(t, caller, target, pgid, g, lsm);
  }

  /**
   A forked child begins in its parent's group and session. Its parent may put it into a group
   of its own, but no longer once it has called execve.
   */
  lemma ChildMovableUntilExecve(t: Table, parent: int, child: int, g: Found, h: Found)
    requires Inv(t) && Allowed(t, Fork(parent, child))
    requires PicksMember(Step(t, Fork(parent, child)), child, g)
    requires PicksMember(Step(Step(t, Fork(parent, child)), Execve(child)), child, h)
    ensures var r := Step(t, Fork(parent, child));
            && r.procs[child].pgrp == t.procs[parent].pgrp && r.procs[child].session == t.procs[parent].session
            && (g.Task? ==> g.pid in r.procs) && SetpgidAnswer(r, parent, child, child, g, 0) == 0
            && var u := Step(r, Execve(child));
               (h.Task? ==> h.pid in u.procs) && SetpgidAnswer(u, parent, child, child, h, 0) == -EACCES
  {
    var r := Step(t, Fork(parent, child));
    StepKeeps(t, Fork(parent, child));
    StepKeeps(r, Execve(child));
    SetpgidSucceedsExactly(r, parent, child, child, g, 0);
    SetpgidFailsExactly(Step(r, Execve(child)), parent, child, child, h);
  }

  /** A target of 0 is the caller, and a group of 0 is the one named by the target. */
  lemma SetpgidZeroes(t: Table, caller: int, target: int, pgid: int, g: Found, lsm: int)
    requires Inv(t) && Allowed(t, Setpgid(caller, target, pgid, g, lsm))
    ensures target == 0 ==>
              && Allowed(t, Setpgid(caller, caller, pgid, g, lsm))
              && Step(t, Setpgid(caller, target, pgid, g, lsm)) == Step(t, Setpgid(caller, caller, pgid, g, lsm))
    ensures target != 0 && pgid == 0 ==>
              && Allowed(t, Setpgid(caller, target, target, g, lsm))
              && Step(t, Setpgid(caller, target, pgid, g, lsm)) == Step(t, Setpgid(caller, target, target, g, lsm))
  {
    assert caller != 0;
  }

  /** What setpgid asks does not depend on which member of the group the kernel looks at. */
  lemma AnyMemberWillDo(t: Table, caller: int, pid: int, pgid: int, g: Found, h: Found, lsm: int)
    requires Inv(t) && caller in t.procs && PicksMember(t, pgid, g) && PicksMember(t, pgid, h)
    ensures SetpgidAnswer(t, caller, pid, pgid, g, lsm) == SetpgidAnswer(t, caller, pid, pgid, h, lsm)
  {
    if g.Task? {
      assert InGroup(t, pgid, g.pid);
    }
    if h.Task? {
      assert InGroup(t, pgid, h.pid);
    }
  }

  /** Only setsid moves a process to another session, and only into its own. */
  lemma SessionsChangeBySetsid(t: Table, e: Event, p: int)
    requires Inv(t) && Allowed(t, e) && p in t.procs && p in Step(t, e).procs
    ensures Step(t, e).procs[p].session != t.procs[p].session
            ==> e == Setsid(p) && Step(t, e).procs[p].session == p
    ensures t.procs[p].leader ==>
              var q := Step(t, e).procs[p];
              q.leader && q.pgrp == p && q.session == p
  {
    StepKeeps(t, e);
  }

  /** Once a session leader, always one: it never changes its group or session again. */
  lemma {:induction false} LeaderForLife(t: Table, run: seq<Event>, p: int)
    requires Inv(t) && AllowedRun(t, run) && p in t.procs && t.procs[p].leader
    requires forall i :: 0 <= i < |run| ==> !(run[i].Exit? && run[i].proc == p)
    ensures p in After(t, run).procs
    ensures var q := After(t, run).procs[p]; q.leader && q.pgrp == p && q.session == p
    decreases |run|
  {
    if run != [] {
      StepKeeps(t, run[0]);
      SessionsChangeBySetsid(t, run[0], p);
      LeaderForLife(Step(t, run[0]), run[1..], p);
    }
  }

  // ----- the calls, in place -----

  class Process {
    const pid: int
    var pgrp: int
    var session: int
    var leader: bool
    var parent: int
    var forkNoExec: bool

    constructor (pid: int, p: Proc)
      ensures this.pid == pid && Value() == p
    {
      this.pid := pid;
      pgrp, session, leader, parent, forkNoExec := p.pgrp, p.session, p.leader, p.parent, p.forkNoExec;
    }

    function Value(): Proc
      reads this
    {
      Proc(pgrp, session, leader, parent, forkNoExec)
    }
  }

  class ProcessTable {
    var procs: map<int, Process>
    var threads: map<int, int>

    ghost predicate Valid()
      reads this, procs.Values
    {
      && (forall p :: p in procs ==> procs[p].pid == p)
      && Inv(View())
    }

    ghost function View(): Table
      reads this, procs.Values
    {
      Table(map p | p in procs :: procs[p].Value(), threads)
    }

    constructor ()
      ensures Valid() && View() == BOOT && fresh(procs.Values)
    {
      var init := new Process(1, BOOT.procs[1]);
      procs := map[1 := init];
      threads := map[];
    }

    /** find_vpid and pid_task: a process of the group, if there is one. */
    method FindMember(pgid: int) returns (g: Found)
      requires forall p :: p in procs ==> procs[p].pid == p
      ensures PicksMember(View(), pgid, g)
    {
      if p :| p in procs && procs[p].pgrp == pgid {
        g := Task(p);
        assert InGroup(View(), pgid, p);
      } else {
        g := NoTask;
      }
    }

    /** Everything setpgid checks before it moves the process. */
    method CheckSetpgid(caller: int, target: int, group: int, lsm: int) returns (err: int, ghost g: Found)
      requires (forall p :: p in procs ==> procs[p].pid == p) && caller in procs && lsm <= 0
      ensures PicksMember(View(), group, g)
      ensures err == SetpgidAnswer(View(), caller, target, group, g, lsm)
      ensures err == 0 ==> target in procs
    {
      g := SomeMember(View(), group);
      if group < 0 {
        return -EINVAL, g;
      }
      if target !in procs {
        return if target in threads then -EINVAL else -ESRCH, g;
      }
      var p := procs[target];
      if p.parent == caller {
        if p.session != procs[caller].session {
          return -EPERM, g;
        }
        if !p.forkNoExec {
          return -EACCES, g;
        }
      } else if target != caller {
        return -ESRCH, g;
      }
      if p.leader {
        return -EPERM, g;
      }
      if group != target {
        var member := FindMember(group);
        g := member;
        if member.NoTask? || procs[member.pid].session != procs[caller].session {
          return -EPERM, g;
        }
      }
      err := lsm;
    }

    /** The setpgid system call; `lsm` is the answer of security_task_setpgid. */
    method SetpgidCall(caller: int, pid: int, pgid: int, lsm: int) returns (err: int, ghost g: Found)
      requires Valid() && caller in procs && lsm <= 0
      modifies procs.Values
      ensures Valid() && procs == old(procs) && threads == old(threads)
      ensures Allowed(old(View()), Setpgid(caller, pid, pgid, g, lsm))
      ensures View() == Step(old(View()), Setpgid(caller, pid, pgid, g, lsm))
      ensures err == SetpgidAnswer(old(View()), caller, Pid(caller, pid), Pgid(caller, pid, pgid), g, lsm)
      ensures var target := if pid == 0 then caller else pid;
              var group := if pgid == 0 then target else pgid;
              err == 0 <==> && 0 <= group && Movable(old(View()), caller, target) && !old(View()).procs[target].leader
                            && Joinable(old(View()), caller, target, group) && lsm == 0
    {
      hide Inv, SetpgidAnswer, PicksMember, Movable, Joinable;
      ghost var before := View();
      var target := if pid == 0 then caller else pid;
      var group := if pgid == 0 then target else pgid;
      err, g := CheckSetpgid(caller, target, group, lsm);
      StepKeeps(before, Setpgid(caller, pid, pgid, g, lsm));
      SetpgidSucceedsExactly(before, caller, target, group, g, lsm);
      if err == 0 {
        ChangeGroup(target, group);
      }
    }

    /** change_pid(p, PIDTYPE_PGID, pgrp), where it is needed. */
    method ChangeGroup(pid: int, group: int)
      requires (forall p :: p in procs ==> procs[p].pid == p) && pid in procs
      modifies procs[pid]
      ensures View() == MoveTo(old(View()), pid, group)
    {
      ghost var before := View();
      var p := procs[pid];
      assert forall q :: q in procs && q != pid ==> procs[q].pid == q && procs[q] != p;
      if p.pgrp != group {
        p.pgrp := group;
      }
      assert View() == MoveTo(before, pid, group);
    }

    /** set_special_pids */
    method SetSpecialPids(p: Process)
      requires p.pid in procs && procs[p.pid] == p
      modifies p
      ensures p.session == p.pid && p.pgrp == p.pid
      ensures p.leader == old(p.leader) && p.parent == old(p.parent) && p.forkNoExec == old(p.forkNoExec)
    {
      if p.session != p.pid {
        p.session := p.pid;
      }
      if p.pgrp != p.pid {
        p.pgrp := p.pid;
      }
    }

    /** The setsid system call: the new session's id, or -EPERM and nothing has changed. */
    method SetsidCall(caller: int) returns (err: int)
      requires Valid() && caller in procs
      modifies procs.Values
      ensures Valid() && procs == old(procs) && threads == old(threads)
      ensures View() == Step(old(View()), Setsid(caller))
      ensures err == if MaySetsid(old(View()), caller) then caller else -EPERM
    {
      ghost var before := View();
      StepKeeps(before, Setsid(caller));
      var p := procs[caller];
      if p.leader {
        return -EPERM;
      }
      var member := FindMember(caller);
      if member.Task? {
        assert InGroup(before, caller, member.pid);
        return -EPERM;
      }
      BecomeLeader(caller);
      err := caller;
    }

    method BecomeLeader(pid: int)
      requires (forall p :: p in procs ==> procs[p].pid == p) && pid in procs
      modifies procs[pid]
      ensures View() == StartSession(old(View()), pid)
    {
      ghost var before := View();
      assert forall q :: q in procs && q != pid ==> procs[q].pid == q && procs[q] != procs[pid];
      procs[pid].leader := true;
      SetSpecialPids(procs[pid]);
      assert View() == StartSession(before, pid);
    }
  }
}
