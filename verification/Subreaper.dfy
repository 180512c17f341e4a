/**
 prctl(PR_SET_CHILD_SUBREAPER): the walk over a process tree that marks descendants, and
 why it may skip the subtrees of tasks that are marked already.
 */
module Subreaper {

  /** Who is whose child, and which tasks are the child reapers of their pid namespaces. */
  datatype Links = Links(children: map<int, seq<int>>, reapers: set<int>)

  /** `subreapers` is is_child_subreaper and `flagged` is has_child_subreaper. */
  datatype Tree = Tree(links: Links, subreapers: set<int>, flagged: set<int>)

  function Kids(l: Links, p: int): seq<int> {
    if p in l.children then l.children[p] else []
  }

  ghost predicate Wellformed(l: Links) {
    forall p, c :: p in l.children && c in l.children[p] ==> c in l.children
  }

  /** A path down from a child of `a` on which no task is a child reaper or in `avoid`. */
  ghost predicate Path(l: Links, a: int, path: seq<int>, avoid: set<int>)
    decreases |path|
  {
    && path != [] && path[0] in Kids(l, a) && path[0] !in l.reapers && path[0] !in avoid
    && (|path| == 1 || Path(l, path[0], path[1..], avoid))
  }

  function Last(path: seq<int>): int
    requires path != []
  {
    path[|path| - 1]
  }

  ghost predicate Reached(l: Links, a: int, b: int, avoid: set<int>) {
    exists path :: Path(l, a, path, avoid) && Last(path) == b
  }

  /** A descendant of `a` that is not behind a child reaper. */
  ghost predicate Exposed(l: Links, a: int, b: int) {
    Reached(l, a, b, {})
  }

  /** What a walk that skips nothing would mark. */
  ghost function FullWalk(l: Links, me: int): set<int> {
    set b | b in l.children && Exposed(l, me, b)
  }

  // ----- paths -----

  lemma PathEnd(l: Links, a: int, path: seq<int>, avoid: set<int>)
    requires Wellformed(l) && Path(l, a, path, avoid)
    ensures Last(path) in l.children && Last(path) !in l.reapers && Last(path) !in avoid
    decreases |path|
  {
    if |path| > 1 {
      PathEnd(l, path[0], path[1..], avoid);
      assert Last(path) == Last(path[1..]);
    }
  }

  lemma OneFurther(l: Links, a: int, path: seq<int>, c: int, avoid: set<int>)
    requires Path(l, a, path, avoid) && c in Kids(l, Last(path)) && c !in l.reapers && c !in avoid
    ensures Path(l, a, path + [c], avoid)
    decreases |path|
  {
    assert (path + [c])[1..] == path[1..] + [c];
    if |path| > 1 {
      assert Last(path) == Last(path[1..]);
      OneFurther(l, path[0], path[1..], c, avoid);
    } else {
      assert Path(l, path[0], [c], avoid);
    }
  }

  lemma AvoidLess(l: Links, a: int, path: seq<int>, larger: set<int>, avoid: set<int>)
    requires Path(l, a, path, larger) && avoid <= larger
    ensures Path(l, a, path, avoid)
    decreases |path|
  {
    if |path| > 1 { AvoidLess(l, path[0], path[1..], larger, avoid); }
  }

  /** What is reached from a child is reached from its parent. */
  lemma ThroughChild(l: Links, a: int, c: int, b: int, avoid: set<int>, larger: set<int>)
    requires c in Kids(l, a) && c !in l.reapers && c !in avoid
    requires Reached(l, c, b, larger) && avoid <= larger
    ensures Reached(l, a, b, avoid)
  {
    var path :| Path(l, c, path, larger) && Last(path) == b;
    AvoidLess(l, c, path, larger, avoid);
    assert ([c] + path)[1..] == path;
    assert Path(l, a, [c] + path, avoid) && Last([c] + path) == b;
  }

  // ----- closure -----

  /** All children of `a` are in `s`, child reapers apart. */
  ghost predicate Covered(l: Links, a: int, s: set<int>) {
    forall c :: c in Kids(l, a) && c !in l.reapers ==> c in s
  }

  /** Below a task of `s`, everything not behind a child reaper is in `s` too. */
  ghost predicate Closed(l: Links, s: set<int>) {
    forall p :: p in s ==> Covered(l, p, s)
  }

  lemma {:induction false} CoveredAllTheWay(l: Links, a: int, path: seq<int>, s: set<int>, avoid: set<int>)
    requires Path(l, a, path, avoid) && Covered(l, a, s)
    requires forall p :: p in s && p !in avoid ==> Covered(l, p, s)
    ensures Last(path) in s
    decreases |path|
  {
    if |path| > 1 {
      CoveredAllTheWay(l, path[0], path[1..], s, avoid);
      assert Last(path) == Last(path[1..]);
    }
  }

  /** With what is skipped closed, a path that meets it stays in it, and any other is walked. */
  lemma {:induction false} MeetsOrAvoids(l: Links, a: int, path: seq<int>, skipped: set<int>)
    requires Closed(l, skipped) && Path(l, a, path, {})
    ensures Last(path) in skipped || Path(l, a, path, skipped)
    decreases |path|
  {
    if |path| > 1 {
      assert Last(path) == Last(path[1..]);
      if path[0] in skipped {
        CoveredAllTheWay(l, path[0], path[1..], skipped, {});
      } else {
        MeetsOrAvoids(l, path[0], path[1..], skipped);
      }
    }
  }

  /** If what is skipped is closed, a walk that skips it leaves exactly what a full walk would. */
  lemma PrunedIsFull(l: Links, me: int, flagged: set<int>, after: set<int>)
    requires Wellformed(l) && Closed(l, flagged)
    requires forall b :: b in after <==> b in flagged || Reached(l, me, b, flagged)
    ensures after == flagged + FullWalk(l, me)
  {
    forall b | b in after ensures b in flagged + FullWalk(l, me) {
      if b !in flagged {
        var path :| Path(l, me, path, flagged) && Last(path) == b;
        AvoidLess(l, me, path, flagged, {});
        PathEnd(l, me, path, {});
      }
    }
    forall b | b in FullWalk(l, me) ensures b in after {
      var path :| Path(l, me, path, {}) && Last(path) == b;
      MeetsOrAvoids(l, me, path, flagged);
    }
    assert forall b :: b in flagged ==> b in after;
  }

  /** Without closure pruning loses tasks: here 3, below the flagged 2, below 1. */
  lemma PruningNeedsClosure()
    ensures var l := Links(map[1 := [2], 2 := [3], 3 := []], {});
            Exposed(l, 1, 3) && !Reached(l, 1, 3, {2})
  {
    var l := Links(map[1 := [2], 2 := [3], 3 := []], {});
    assert Path(l, 2, [3], {});
    assert [2, 3][1..] == [3];
    assert Path(l, 1, [2, 3], {}) && Last([2, 3]) == 3;
  }

  /** What has been flagged satisfies this between any two steps of the system. */
  ghost predicate Inv(t: Tree) {
    && Wellformed(t.links)
    && Closed(t.links, t.flagged)
    && (forall s :: s in t.subreapers ==> Covered(t.links, s, t.flagged))
  }

  /** Then every exposed descendant of a flagged task or of a subreaper is flagged. */
  lemma ExposedFlagged(t: Tree, a: int, b: int)
    requires Inv(t) && (a in t.flagged || a in t.subreapers) && Exposed(t.links, a, b)
    ensures b in t.flagged
  {
    var path :| Path(t.links, a, path, {}) && Last(path) == b;
    CoveredAllTheWay(t.links, a, path, t.flagged, {});
  }

  // ----- runs -----

  datatype Event =
    | SetSubreaper(me: int)
    | ClearSubreaper(me: int)
    | Fork(parent: int, child: int)
    | Exit(task: int, heir: int)

  /** Orphans go to an ancestor with no child reaper in between, as find_new_reaper picks one. */
  ghost predicate Allowed(t: Tree, e: Event) {
    var tasks := t.links.children;
    match e
    case SetSubreaper(me) => me in tasks
    case ClearSubreaper(me) => me in tasks
    case Fork(parent, child) =>
      parent in tasks && child !in tasks && child !in t.flagged && child !in t.subreapers
    case Exit(task, heir) =>
      task in tasks && heir in tasks && heir != task && (tasks[task] != [] ==> Exposed(t.links, heir, task))
  }

  function Forked(l: Links, parent: int, child: int): Links
    requires parent in l.children
  {
    l.(children := l.children[parent := l.children[parent] + [child]][child := []])
  }

  function Exited(l: Links, task: int, heir: int): Links
    requires task in l.children
  {
    l.(children := map p | p in l.children && p != task ::
         Without(l.children[p] + (if p == heir then l.children[task] else []), task))
  }

  function Without(s: seq<int>, x: int): (r: seq<int>)
    ensures forall y :: y in r <==> y in s && y != x
  {
    if s == [] then [] else (if s[0] == x then [] else [s[0]]) + Without(s[1..], x)
  }

  /** A new process inherits the flag, and gets it below a subreaper. */
  ghost function Step(t: Tree, e: Event): Tree
    requires Allowed(t, e)
  {
    match e
    case SetSubreaper(me) =>
      Tree(t.links, t.subreapers + {me}, t.flagged + FullWalk(t.links, me))
    case ClearSubreaper(me) => t.(subreapers := t.subreapers - {me})
    case Fork(parent, child) =>
      Tree(Forked(t.links, parent, child), t.subreapers,
           if parent in t.flagged || parent in t.subreapers then t.flagged + {child} else t.flagged)
    case Exit(task, heir) => Tree(Exited(t.links, task, heir), t.subreapers - {task}, t.flagged - {task})
  }

  lemma FullWalkCloses(l: Links, me: int, flagged: set<int>)
    requires Wellformed(l) && Closed(l, flagged)
    ensures Closed(l, flagged + FullWalk(l, me)) && Covered(l, me, flagged + FullWalk(l, me))
  {
    var all := flagged + FullWalk(l, me);
    forall p | p in all ensures Covered(l, p, all) {
      if p !in flagged {
        var path :| Path(l, me, path, {}) && Last(path) == p;
        forall c | c in Kids(l, p) && c !in l.reapers ensures c in all {
          OneFurther(l, me, path, c, {});
          assert Last(path + [c]) == c;
        }
      }
    }
    forall c | c in Kids(l, me) && c !in l.reapers ensures c in all {
      assert Path(l, me, [c], {}) && Last([c]) == c;
    }
  }

  lemma CoveredMore(l: Links, a: int, s: set<int>, larger: set<int>)
    requires Covered(l, a, s) && s <= larger
    ensures Covered(l, a, larger)
  {
  }

  lemma ForkKeeps(t: Tree, parent: int, child: int)
    requires Inv(t) && Allowed(t, Fork(parent, child))
    ensures Inv(Step(t, Fork(parent, child)))
  {
    var r := Step(t, Fork(parent, child));
    forall p | p in r.flagged || p in r.subreapers ensures Covered(r.links, p, r.flagged) {
      if p != child {
        assert Covered(t.links, p, t.flagged);
      }
    }
  }

  lemma ExitKeeps(t: Tree, task: int, heir: int)
    requires Inv(t) && Allowed(t, Exit(task, heir))
    ensures Inv(Step(t, Exit(task, heir)))
  {
    var r := Step(t, Exit(task, heir));
    forall p | p in r.flagged || p in r.subreapers ensures Covered(r.links, p, r.flagged) {
      assert Covered(t.links, p, t.flagged);
      if p == heir && t.links.children[task] != [] {
        ExposedFlagged(t, heir, task);
        assert Covered(t.links, task, t.flagged);
      }
    }
  }

  /** Marking, clearing, forking and exiting all keep the closure that makes pruning safe. */
  lemma StepKeeps(t: Tree, e: Event)
    requires Inv(t) && Allowed(t, e)
    ensures Inv(Step(t, e))
  {
    match e
    case SetSubreaper(me) =>
      FullWalkCloses(t.links, me, t.flagged);
      forall s | s in t.subreapers ensures Covered(t.links, s, Step(t, e).flagged) {
        CoveredMore(t.links, s, t.flagged, Step(t, e).flagged);
      }
    case ClearSubreaper(me) =>
    case Fork(parent, child) => ForkKeeps(t, parent, child);
    case Exit(task, heir) => ExitKeeps(t, task, heir);
  }

  /** Setting makes the caller a subreaper and flags exactly its exposed descendants besides; clearing flags nobody. */
  lemma PrctlExactly(t: Tree, me: int, arg: bool)
    requires Inv(t) && me in t.links.children
    ensures var r := Step(t, if arg then SetSubreaper(me) else ClearSubreaper(me));
            && r.links == t.links
            && (forall p :: p in r.subreapers <==> if p == me then arg else p in t.subreapers)
            && (forall b :: b in r.flagged <==> b in t.flagged || (arg && Exposed(t.links, me, b)))
  {
    forall b | Exposed(t.links, me, b) ensures b in t.links.children {
      var path :| Path(t.links, me, path, {}) && Last(path) == b;
      PathEnd(t.links, me, path, {});
    }
  }

  /** A new process is flagged exactly below a flagged task or a subreaper; nobody else's flag changes. */
  lemma ForkExactly(t: Tree, parent: int, child: int)
    requires Inv(t) && Allowed(t, Fork(parent, child))
    ensures var r := Step(t, Fork(parent, child));
            && r.subreapers == t.subreapers && child in Kids(r.links, parent)
            && (forall b :: b in r.flagged
                  <==> if b == child then parent in t.flagged || parent in t.subreapers else b in t.flagged)
  {
  }

  ghost predicate AllowedRun(t: Tree, run: seq<Event>)
    decreases |run|
  {
    run == [] || (Allowed(t, run[0]) && AllowedRun(Step(t, run[0]), run[1..]))
  }

  ghost function After(t: Tree, run: seq<Event>): Tree
    requires AllowedRun(t, run)
    decreases |run|
  {
    if run == [] then t else After(Step(t, run[0]), run[1..])
  }

  /** In every reachable state the exposed descendants of every subreaper are flagged. */
  lemma {:induction false} RunKeeps(t: Tree, run: seq<Event>)
    requires Inv(t) && AllowedRun(t, run)
    ensures var r := After(t, run);
            && Inv(r)
            && forall s, b :: s in r.subreapers && Exposed(r.links, s, b) ==> b in r.flagged
    decreases |run|
  {
    if run != [] {
      StepKeeps(t, run[0]);
      RunKeeps(Step(t, run[0]), run[1..]);
    } else {
      forall s, b | s in t.subreapers && Exposed(t.links, s, b) ensures b in t.flagged {
        ExposedFlagged(t, s, b);
      }
    }
  }

  /** Whatever the processes are, with nothing flagged and no subreaper yet the closure holds. */
  lemma NothingFlagged(l: Links)
    requires Wellformed(l)
    ensures Inv(Tree(l, {}, {}))
  {
  }

  /** The first process, which is the child reaper of its namespace. */
  const BOOT := Tree(Links(map[1 := []], {1}), {}, {})

  /** So it holds in every state reached from boot. */
  lemma RunFromBoot(run: seq<Event>)
    requires AllowedRun(BOOT, run)
    ensures var r := After(BOOT, run);
            Inv(r) && forall s, b :: s in r.subreapers && Exposed(r.links, s, b) ==> b in r.flagged
  {
    NothingFlagged(BOOT.links);
    RunKeeps(BOOT, run);
  }

  // ----- the walk, in place -----

  class Kernel {
    var links: Links
    var subreapers: set<int>
    var flagged: set<int>

    ghost function View(): Tree
      reads this
    {
      Tree(links, subreapers, flagged)
    }

    /** propagate_has_child_subreaper: marks the visited process and asks to descend, or asks to skip it. */
    method PropagateHasChildSubreaper(p: int) returns (res: int)
      modifies this`flagged
      ensures res == if p in old(flagged) || p in links.reapers then 0 else 1
      ensures flagged == if res == 0 then old(flagged) else old(flagged) + {p}
    {
      if p in flagged || p in links.reapers {
        return 0;
      }
      flagged := flagged + {p};
      res := 1;
    }

    /**
     walk_process_tree with that visitor.  It marks exactly the descendants of `top` that a path
     reaches on which no task is a child reaper or was marked before.
     */
    method WalkProcessTree(top: int)
      requires Wellformed(links) && top in links.children
      modifies this`flagged
      ensures old(flagged) <= flagged
      ensures forall b :: b in flagged <==> b in old(flagged) || Reached(links, top, b, old(flagged))
      decreases links.children.Keys - flagged
    {
      ghost var first := flagged;
      var kids := links.children[top];
      var i := 0;
      while i < |kids|
        invariant 0 <= i <= |kids| && first <= flagged
        invariant forall b :: b in flagged ==> b in first || Reached(links, top, b, first)
        invariant forall j :: 0 <= j < i && kids[j] !in links.reapers ==> kids[j] in flagged
        invariant forall p :: p in flagged && p !in first ==> Covered(links, p, flagged)
      {
        ghost var before := flagged;
        var res := PropagateHasChildSubreaper(kids[i]);
        if res > 0 {
          assert Path(links, top, [kids[i]], first) && Last([kids[i]]) == kids[i];
          ghost var marked := flagged;
          WalkProcessTree(kids[i]);
          NestedWalk(links, top, kids[i], first, marked, flagged);
          forall p | p in before && p !in first ensures Covered(links, p, flagged) {
            CoveredMore(links, p, before, flagged);
          }
        }
        i := i + 1;
      }
      forall b | Reached(links, top, b, first) ensures b in flagged {
        var path :| Path(links, top, path, first) && Last(path) == b;
        CoveredAllTheWay(links, top, path, flagged, first);
      }
    }

    /** What walking below the newly marked child `c` adds to the walk below `top`. */
    static lemma NestedWalk(l: Links, top: int, c: int, first: set<int>, marked: set<int>, after: set<int>)
      requires first <= marked && c in Kids(l, top) && c !in l.reapers && c !in first
      requires forall b :: b in after <==> b in marked || Reached(l, c, b, marked)
      requires forall b :: b in marked ==> b in first || Reached(l, top, b, first)
      ensures forall b :: b in after ==> b in first || Reached(l, top, b, first)
      ensures Covered(l, c, after)
      ensures forall p :: p in after && p !in marked ==> Covered(l, p, after)
    {
      forall b | b in after && b !in marked ensures Reached(l, top, b, first) {
        ThroughChild(l, top, c, b, first, marked);
      }
      forall k | k in Kids(l, c) && k !in l.reapers ensures k in after {
        if k !in marked {
          assert Path(l, c, [k], marked) && Last([k]) == k;
        }
      }
      forall p | p in after && p !in marked ensures Covered(l, p, after) {
        var path :| Path(l, c, path, marked) && Last(path) == p;
        forall k | k in Kids(l, p) && k !in l.reapers && k !in marked ensures k in after {
          OneFurther(l, c, path, k, marked);
          assert Last(path + [k]) == k;
        }
      }
    }

    /** prctl(PR_SET_CHILD_SUBREAPER): the pruned walk leaves what a full one would. */
    method SetChildSubreaper(me: int, arg: bool)
      requires Inv(View()) && me in links.children
      modifies this`subreapers, this`flagged
      ensures Inv(View())
      ensures View() == Step(old(View()), if arg then SetSubreaper(me) else ClearSubreaper(me))
      ensures (me in subreapers <==> arg) && links == old(links)
      ensures forall b :: b in flagged <==> b in old(flagged) || (arg && Exposed(links, me, b))
    {
      PrctlExactly(View(), me, arg);
      StepKeeps(View(), if arg then SetSubreaper(me) else ClearSubreaper(me));
      subreapers := if arg then subreapers + {me} else subreapers - {me};
      if !arg {
        return;
      }
      ghost var before := flagged;
      WalkProcessTree(me);
      PrunedIsFull(links, me, before, flagged);
    }
  }
}
