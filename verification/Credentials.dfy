/**
 The set*uid and set*gid system calls: which ids a process may take, and what becomes of its
 credential and of the references to user structs on every path.
 */
module Credentials {
  import opened Options

  const EPERM := 1
  const EAGAIN := 11
  const ENOMEM := 12
  const EINVAL := 22

  /** (uid_t) -1: leave this id as it is. */
  const KEEP: int := 0xFFFF_FFFF

  /** Real, effective, saved and filesystem id; of users or of groups. */
  datatype Ids = Ids(rid: int, eid: int, sid: int, fid: int)

  /** An argument of a call after make_kuid: nothing to set, an id, or no valid id. */
  datatype Arg = Keep | To(id: int) | Invalid

  function MakeArg(ns: map<int, int>, id: int): Arg {
    if id == KEEP then Keep else if id in ns then To(ns[id]) else Invalid
  }

  function Or(a: Arg, id: int): int {
    if a.To? then a.id else id
  }

  // ----- which ids a call may set; the user and the group calls share these rules -----

  predicate MayBe(a: Arg, allowed: set<int>, capable: bool) {
    a.To? ==> a.id in allowed || capable
  }

  function SetRe(ids: Ids, r: Arg, e: Arg, capable: bool): Option<Ids> {
    if MayBe(r, {ids.rid, ids.eid}, capable)
       && MayBe(e, {ids.rid, ids.eid, ids.sid}, capable) then
      var effective := Or(e, ids.eid);
      var saved := if r.To? || (e.To? && e.id != ids.rid) then effective else ids.sid;
      Some(Ids(Or(r, ids.rid), effective, saved, effective))
    else None
  }

  function SetOne(ids: Ids, id: int, capable: bool): Option<Ids> {
    if capable then Some(Ids(id, id, id, id))
    else if id in {ids.rid, ids.sid} then Some(ids.(eid := id, fid := id))
    else None
  }

  function SetRes(ids: Ids, r: Arg, e: Arg, s: Arg, capable: bool): Option<Ids> {
    var mine := {ids.rid, ids.eid, ids.sid};
    if MayBe(r, mine, capable) && MayBe(e, mine, capable) && MayBe(s, mine, capable) then
      var effective := Or(e, ids.eid);
      Some(Ids(Or(r, ids.rid), effective, Or(s, ids.sid), effective))
    else None
  }

  function SetFs(ids: Ids, id: int, capable: bool): Option<Ids> {
    if id in {ids.rid, ids.eid, ids.sid, ids.fid} || capable then Some(ids.(fid := id)) else None
  }

  datatype Call =
    | Re(r: Arg, e: Arg)
    | One(id: int)
    | Res(r: Arg, e: Arg, s: Arg)
    | Fs(id: int)

  function Permitted(ids: Ids, c: Call, capable: bool): Option<Ids> {
    match c
    case Re(r, e) => SetRe(ids, r, e, capable)
    case One(id) => SetOne(ids, id, capable)
    case Res(r, e, s) => SetRes(ids, r, e, s, capable)
    case Fs(id) => SetFs(ids, id, capable)
  }

  // ----- runs without the set-id capability -----

  function Held(ids: Ids): set<int> {
    {ids.rid, ids.eid, ids.sid}
  }

  /** One call: `succeeds` is false when memory, a user struct or the LSM refused it. */
  datatype Attempt = Attempt(call: Call, succeeds: bool)

  function Try(ids: Ids, a: Attempt): Ids {
    var p := Permitted(ids, a.call, false);
    if a.succeeds && p.Some? then p.value else ids
  }

  function After(ids: Ids, run: seq<Attempt>): Ids
    decreases |run|
  {
    if run == [] then ids else After(Try(ids, run[0]), run[1..])
  }

  /**
   Without the capability no sequence of calls gains the process an id it did not hold, and its
   filesystem id stays among the four it began with.
   */
  lemma {:induction false} NothingGained(ids: Ids, run: seq<Attempt>)
    ensures Held(After(ids, run)) <= Held(ids)
    ensures After(ids, run).fid in Held(ids) + {ids.fid}
    decreases |run|
  {
    if run != [] {
      NothingGained(Try(ids, run[0]), run[1..]);
    }
  }

  /** Exactly the ids held can be made effective, now or ever after. */
  lemma ReachableExactly(ids: Ids, id: int)
    ensures (exists run :: After(ids, run).eid == id) <==> id in Held(ids)
  {
    if id in Held(ids) {
      var a := Attempt(Res(Keep, To(id), Keep), true);
      assert After(Try(ids, a), []).eid == id;
      assert After(ids, [a]).eid == id;
    }
    forall run | After(ids, run).eid == id ensures id in Held(ids) {
      NothingGained(ids, run);
    }
  }

  /** A successful set*re(x, x) gives up every other id for the rest of the run. */
  lemma DroppedForGood(ids: Ids, x: int, capable: bool, run: seq<Attempt>)
    requires SetRe(ids, To(x), To(x), capable).Some?
    ensures SetRe(ids, To(x), To(x), capable).value == Ids(x, x, x, x)
    ensures After(Ids(x, x, x, x), run) == Ids(x, x, x, x)
  {
    NothingGained(Ids(x, x, x, x), run);
  }

  // ----- what the calls set -----

  /**
   set*re: each id may be one that the process holds (the real one not the saved one), or any
   with the capability. The saved id follows the effective one if the real id was given at all,
   or the effective one moved away from the real id. The filesystem id always follows.
   */
  lemma SetReExactly(ids: Ids, r: Arg, e: Arg, capable: bool)
    ensures SetRe(ids, r, e, capable).Some?
            <==> capable || ((r.To? ==> r.id == ids.rid || r.id == ids.eid) && (e.To? ==> e.id in Held(ids)))
    ensures SetRe(ids, r, e, capable).Some? ==>
              var n := SetRe(ids, r, e, capable).value;
              && (r.To? ==> n.rid == r.id) && (!r.To? ==> n.rid == ids.rid)
              && (e.To? ==> n.eid == e.id) && (!e.To? ==> n.eid == ids.eid)
              && n.fid == n.eid
              && (r.To? || (e.To? && e.id != ids.rid) ==> n.sid == n.eid)
              && (!r.To? && (!e.To? || e.id == ids.rid) ==> n.sid == ids.sid)
  {
  }

  /** Real and effective id can be exchanged, and exchanged back. */
  lemma ExchangedAndBack(ids: Ids)
    ensures var once := SetRe(ids, To(ids.eid), To(ids.rid), false);
            && once == Some(Ids(ids.eid, ids.rid, ids.rid, ids.rid))
            && SetRe(once.value, To(ids.rid), To(ids.eid), false) == Some(Ids(ids.rid, ids.eid, ids.eid, ids.eid))
  {
  }

  /** set*id without the capability: only the real or saved id, and only as effective and filesystem id. */
  lemma SetOneExactly(ids: Ids, x: int)
    ensures SetOne(ids, x, false).Some? <==> x == ids.rid || x == ids.sid
    ensures SetOne(ids, x, false).Some? ==> SetOne(ids, x, false).value == Ids(ids.rid, x, ids.sid, x)
  {
  }

  /** With the capability it gives up every other id for the rest of any run without the capability. */
  lemma SetForGood(ids: Ids, x: int, run: seq<Attempt>)
    ensures SetOne(ids, x, true) == Some(Ids(x, x, x, x))
    ensures After(Ids(x, x, x, x), run) == Ids(x, x, x, x)
  {
    NothingGained(Ids(x, x, x, x), run);
  }

  /** setfs*: exactly the four ids at hand may be set without the capability, and nothing else changes. */
  lemma SetFsExactly(ids: Ids, x: int, capable: bool)
    ensures SetFs(ids, x, capable).Some? <==> capable || x in Held(ids) + {ids.fid}
    ensures SetFs(ids, x, capable).Some? ==> SetFs(ids, x, capable).value == Ids(ids.rid, ids.eid, ids.sid, x)
  {
  }

  // ----- the calls, on a task's credential -----

  /** An id to set that is neither the real nor the effective nor the saved one. */
  predicate Foreign(a: Arg, ids: Ids) {
    a.To? && a.id != ids.rid && a.id != ids.eid && a.id != ids.sid
  }

  /** What the surroundings answer during a call. */
  datatype Oracles = Oracles(
    capable: bool,     // ns_capable(CAP_SETUID or CAP_SETGID)
    prepares: bool,    // prepare_creds finds memory
    allocates: bool,   // alloc_uid finds memory
    lsm: int)          // security_task_fix_setuid

  lemma ForeignRefused(ids: Ids, r: Arg, e: Arg, s: Arg, capable: bool)
    ensures SetRes(ids, r, e, s, capable)
            == if !capable && (Foreign(r, ids) || Foreign(e, ids) || Foreign(s, ids)) then None
               else Some(Ids(Or(r, ids.rid), Or(e, ids.eid), Or(s, ids.sid), Or(e, ids.eid)))
  {
  }

  class Cred {
    var uid: int
    var euid: int
    var suid: int
    var fsuid: int
    var gid: int
    var egid: int
    var sgid: int
    var fsgid: int
    var user: int      // the uid of the user struct it refers to

    constructor (u: Ids, g: Ids, user: int)
      ensures Users() == u && Groups() == g && this.user == user
    {
      uid, euid, suid, fsuid := u.rid, u.eid, u.sid, u.fid;
      gid, egid, sgid, fsgid := g.rid, g.eid, g.sid, g.fid;
      this.user := user;
    }

    function Users(): Ids
      reads this
    {
      Ids(uid, euid, suid, fsuid)
    }

    function Groups(): Ids
      reads this
    {
      Ids(gid, egid, sgid, fsgid)
    }
  }

  /** What one call leaves behind: its return value and the new ids. */
  datatype Outcome = Outcome(ret: int, ids: Ids)

  /** A user call: the order in which it can fail, and what it sets if it does not. */
  function UserOutcome(ids: Ids, args: set<Arg>, wanted: Option<Ids>, o: Oracles): Outcome {
    if Invalid in args then Outcome(-EINVAL, ids)
    else if !o.prepares then Outcome(-ENOMEM, ids)
    else if wanted.None? then Outcome(-EPERM, ids)
    else if wanted.value.rid != ids.rid && !o.allocates then Outcome(-EAGAIN, ids)
    else if o.lsm < 0 then Outcome(o.lsm, ids)
    else Outcome(0, wanted.value)
  }

  function GroupOutcome(ids: Ids, args: set<Arg>, wanted: Option<Ids>, o: Oracles): Outcome {
    if Invalid in args then Outcome(-EINVAL, ids)
    else if !o.prepares then Outcome(-ENOMEM, ids)
    else if wanted.None? then Outcome(-EPERM, ids)
    else Outcome(0, wanted.value)
  }

  /** A setfs* call reports no error: it sets the id, or nothing. `fixed` is the LSM's consent. */
  function FsOutcome(ids: Ids, a: Arg, fixed: bool, o: Oracles): Ids {
    if !a.To? || !o.prepares || !fixed then ids
    else
      var p := SetFs(ids, a.id, o.capable);
      if p.Some? then p.value else ids
  }

  /** The references to a user struct; without any it does not exist. */
  function Refs(users: map<int, nat>, uid: int): nat {
    if uid in users then users[uid] else 0
  }

  function GetUser(users: map<int, nat>, uid: int): map<int, nat> {
    users[uid := Refs(users, uid) + 1]
  }

  function FreeUser(users: map<int, nat>, uid: int): map<int, nat>
    requires Refs(users, uid) > 0
  {
    if users[uid] == 1 then map u | u in users && u != uid :: users[u] else users[uid := users[uid] - 1]
  }

  /** One reference if `held` is `uid`. */
  function Ref(held: int, uid: int): nat {
    if held == uid then 1 else 0
  }

  /** Whatever a call answers without the capability, it is one attempt of such a run. */
  lemma OutcomesAreAttempts(ids: Ids, c: Call, args: set<Arg>, o: Oracles)
    requires !o.capable
    ensures var u := UserOutcome(ids, args, Permitted(ids, c, o.capable), o);
            u.ids == Try(ids, Attempt(c, u.ret == 0))
    ensures var g := GroupOutcome(ids, args, Permitted(ids, c, o.capable), o);
            g.ids == Try(ids, Attempt(c, g.ret == 0))
  {
  }

  /**
   A user call succeeds exactly if its ids are valid and permitted, there is memory for the
   credential and, where the uid changes, for the user struct, and the LSM consents. Then the
   ids are those permitted; otherwise none has changed, and the error names the first refusal.
   */
  lemma UserOutcomeExactly(ids: Ids, args: set<Arg>, wanted: Option<Ids>, o: Oracles)
    requires o.lsm <= 0
    ensures var valid := forall a <- args :: !a.Invalid?;
            var served := wanted.Some? && (wanted.value.rid == ids.rid || o.allocates);
            var u := UserOutcome(ids, args, wanted, o);
            && (u.ret == 0 <==> valid && o.prepares && served && o.lsm == 0)
            && (if u.ret == 0 then wanted == Some(u.ids) else u.ids == ids)
            && (!valid ==> u.ret == -EINVAL)
            && (valid && !o.prepares ==> u.ret == -ENOMEM)
            && (valid && o.prepares && wanted.None? ==> u.ret == -EPERM)
            && (valid && o.prepares && wanted.Some? && !served ==> u.ret == -EAGAIN)
            && (valid && o.prepares && served ==> u.ret == o.lsm)
  {
  }

  lemma GroupOutcomeExactly(ids: Ids, args: set<Arg>, wanted: Option<Ids>, o: Oracles)
    ensures var valid := forall a <- args :: !a.Invalid?;
            var g := GroupOutcome(ids, args, wanted, o);
            && (g.ret == 0 <==> valid && o.prepares && wanted.Some?)
            && (if g.ret == 0 then wanted == Some(g.ids) else g.ids == ids)
            && (!valid ==> g.ret == -EINVAL)
            && (valid && !o.prepares ==> g.ret == -ENOMEM)
            && (valid && o.prepares && wanted.None? ==> g.ret == -EPERM)
  {
  }

  /** A setfs* call sets the id exactly if it is valid and permitted and nobody refuses. */
  lemma FsOutcomeExactly(ids: Ids, a: Arg, fixed: bool, o: Oracles)
    ensures var sets := a.To? && o.prepares && fixed && (o.capable || a.id in Held(ids) + {ids.fid});
            FsOutcome(ids, a, fixed, o) == if sets then Ids(ids.rid, ids.eid, ids.sid, a.id) else ids
  {
  }

  /** An argument of -1 asks for nothing, any other for the id it maps to, if it maps to one. */
  lemma ArgExactly(ns: map<int, int>, id: int)
    ensures MakeArg(ns, id).Keep? <==> id == KEEP
    ensures forall k :: MakeArg(ns, id) == To(k) <==> id != KEEP && id in ns && ns[id] == k
  {
  }

  /** So is a setfs* call, which may set the id that was asked for. */
  lemma FsOutcomesAreAttempts(ids: Ids, a: Arg, fixed: bool, o: Oracles)
    requires !o.capable
    ensures FsOutcome(ids, a, fixed, o) == Try(ids, Attempt(Fs(Or(a, ids.fid)), a.To? && o.prepares && fixed))
    ensures FsOutcome(ids, a, fixed, o).fid in Held(ids) + {ids.fid}
    ensures FsOutcome(ids, a, fixed, o) == ids.(fid := FsOutcome(ids, a, fixed, o).fid)
  {
  }

  class Task {
    var cred: Cred
    var users: map<int, nat>           // the reference counts of the user structs
    ghost var elsewhere: map<int, nat> // what others than this task's credential hold of them
    const ns: map<int, int>

    /** References are conserved: this task's credential holds one, and `elsewhere` the rest. */
    ghost predicate Conserved()
      reads this`users, this`elsewhere, this`cred, cred`user
    {
      forall u :: Refs(users, u) == Refs(elsewhere, u) + Ref(cred.user, u)
    }

    /** The same while `n` is being prepared, which holds one of its own. */
    ghost predicate ConservedWith(n: Cred)
      reads this`users, this`elsewhere, this`cred, cred`user, n`user
    {
      forall u :: Refs(users, u) == Refs(elsewhere, u) + Ref(cred.user, u) + Ref(n.user, u)
    }

    /** Moreover the credential's user struct is the one of its uid. */
    ghost predicate Valid()
      reads this, cred
    {
      Conserved() && cred.user == cred.uid
    }

    constructor (ns: map<int, int>, u: Ids, g: Ids, elsewhere: map<int, nat>)
      ensures Valid() && fresh(cred) && cred.Users() == u && cred.Groups() == g && this.elsewhere == elsewhere
    {
      cred := new Cred(u, g, u.rid);
      users := GetUser(elsewhere, u.rid);
      this.elsewhere := elsewhere;
      this.ns := ns;
    }

    /** A copy of the credential that holds its own reference to the user struct. */
    method PrepareCreds() returns (n: Cred)
      requires Conserved()
      modifies this`users
      ensures fresh(n) && ConservedWith(n)
      ensures n.Users() == cred.Users() && n.Groups() == cred.Groups() && n.user == cred.user
    {
      n := new Cred(cred.Users(), cred.Groups(), cred.user);
      users := GetUser(users, cred.user);
    }

    method AbortCreds(n: Cred)
      requires ConservedWith(n)
      modifies this`users
      ensures Conserved()
    {
      users := FreeUser(users, n.user);
    }

    method CommitCreds(n: Cred) returns (ret: int)
      requires ConservedWith(n)
      modifies this`users, this`cred
      ensures Conserved() && cred == n && ret == 0
    {
      users := FreeUser(users, cred.user);
      cred := n;
      ret := 0;
    }

    /** set_user: exchanges the reference for one to the user struct of the new uid. */
    method SetUser(n: Cred, allocates: bool) returns (ret: int)
      requires ConservedWith(n) && n != cred
      modifies this`users, n`user
      ensures ConservedWith(n)
      ensures ret == if allocates then 0 else -EAGAIN
      ensures n.user == if allocates then n.uid else old(n.user)
    {
      if !allocates {
        return -EAGAIN;
      }
      assert Refs(users, n.user) > 0;
      users := GetUser(users, n.uid);
      users := FreeUser(users, n.user);
      n.user := n.uid;
      ret := 0;
    }

    /** set_user where the uid has changed, giving the credential up if it fails. */
    method FollowUid(n: Cred, allocates: bool) returns (ret: int)
      requires ConservedWith(n) && n != cred && n.user == cred.user == cred.uid
      modifies this`users, n`user
      ensures ret == if n.uid != cred.uid && !allocates then -EAGAIN else 0
      ensures if ret == 0 then ConservedWith(n) && n.user == n.uid else Conserved()
    {
      hide Conserved, ConservedWith;
      ret := 0;
      if n.uid != cred.uid {
        ret := SetUser(n, allocates);
        if ret < 0 {
          AbortCreds(n);
        }
      }
    }

    /** The end of the user calls: the LSM may still refuse. */
    method FixAndCommit(n: Cred, lsm: int) returns (ret: int)
      requires ConservedWith(n) && n.user == n.uid && cred.user == cred.uid && lsm <= 0
      modifies this`users, this`cred
      ensures Valid() && ret == lsm
      ensures cred == if lsm < 0 then old(cred) else n
    {
      hide Conserved, ConservedWith;
      if lsm < 0 {
        AbortCreds(n);
        return lsm;
      }
      ret := CommitCreds(n);
    }

    method Setreuid(ruid: int, euid: int, o: Oracles) returns (ret: int)
      requires Valid() && o.lsm <= 0
      modifies this`cred, this`users
      ensures Valid() && (cred == old(cred) || fresh(cred)) && unchanged(old(cred))
      ensures cred.Groups() == old(cred.Groups())
      ensures var r, e := MakeArg(ns, ruid), MakeArg(ns, euid);
              Outcome(ret, cred.Users())
              == UserOutcome(old(cred.Users()), {r, e}, SetRe(old(cred.Users()), r, e, o.capable), o)
    {
      hide Conserved, ConservedWith;
      var kruid, keuid := MakeArg(ns, ruid), MakeArg(ns, euid);
      if kruid.Invalid? || keuid.Invalid? {
        return -EINVAL;
      }
      if !o.prepares {
        return -ENOMEM;
      }
      var n := PrepareCreds();
      var permitted := AssignRe(n, kruid, keuid, o.capable);
      if !permitted {
        AbortCreds(n);
        return -EPERM;
      }
      ret := FollowUid(n, o.allocates);
      if ret < 0 {
        return;
      }
      if kruid.To? || (keuid.To? && keuid.id != cred.uid) {
        n.suid := n.euid;
      }
      n.fsuid := n.euid;
      ret := FixAndCommit(n, o.lsm);
    }

    /** Sets the ids that setreuid was given, as far as it may. */
    method AssignRe(n: Cred, kruid: Arg, keuid: Arg, capable: bool) returns (permitted: bool)
      requires n != cred && n.Users() == cred.Users() && !kruid.Invalid? && !keuid.Invalid?
      modifies n`uid, n`euid
      ensures permitted <==> SetRe(cred.Users(), kruid, keuid, capable).Some?
      ensures permitted ==> n.uid == Or(kruid, cred.uid) && n.euid == Or(keuid, cred.euid)
    {
      if kruid.To? {
        n.uid := kruid.id;
        if cred.uid != kruid.id && cred.euid != kruid.id && !capable {
          return false;
        }
      }
      if keuid.To? {
        n.euid := keuid.id;
        if cred.uid != keuid.id && cred.euid != keuid.id && cred.suid != keuid.id && !capable {
          return false;
        }
      }
      permitted := true;
    }

    method Setuid(uid: int, o: Oracles) returns (ret: int)
      requires Valid() && o.lsm <= 0
      modifies this`cred, this`users
      ensures Valid() && (cred == old(cred) || fresh(cred)) && unchanged(old(cred))
      ensures cred.Groups() == old(cred.Groups())
      ensures var u := if uid in ns then To(ns[uid]) else Invalid;
              Outcome(ret, cred.Users())
              == UserOutcome(old(cred.Users()), {u}, SetOne(old(cred.Users()), Or(u, 0), o.capable), o)
      ensures ret == 0 && o.capable ==> uid in ns && cred.Users() == Ids(ns[uid], ns[uid], ns[uid], ns[uid])
    {
      hide Conserved, ConservedWith;
      if uid !in ns {
        return -EINVAL;
      }
      var kuid := ns[uid];
      if !o.prepares {
        return -ENOMEM;
      }
      var n := PrepareCreds();
      if o.capable {
        n.suid, n.uid := kuid, kuid;
        ret := FollowUid(n, o.allocates);
        if ret < 0 {
          return;
        }
      } else if kuid != cred.uid && kuid != n.suid {
        AbortCreds(n);
        return -EPERM;
      }
      n.fsuid, n.euid := kuid, kuid;
      ret := FixAndCommit(n, o.lsm);
    }

    method Setresuid(ruid: int, euid: int, suid: int, o: Oracles) returns (ret: int)
      requires Valid() && o.lsm <= 0
      modifies this`cred, this`users
      ensures Valid() && (cred == old(cred) || fresh(cred)) && unchanged(old(cred))
      ensures cred.Groups() == old(cred.Groups())
      ensures var r, e, s := MakeArg(ns, ruid), MakeArg(ns, euid), MakeArg(ns, suid);
              Outcome(ret, cred.Users())
              == UserOutcome(old(cred.Users()), {r, e, s}, SetRes(old(cred.Users()), r, e, s, o.capable), o)
    {
      hide Conserved, ConservedWith, SetRes, Foreign;
      var kruid, keuid, ksuid := MakeArg(ns, ruid), MakeArg(ns, euid), MakeArg(ns, suid);
      if kruid.Invalid? || keuid.Invalid? || ksuid.Invalid? {
        return -EINVAL;
      }
      if !o.prepares {
        return -ENOMEM;
      }
      ForeignRefused(cred.Users(), kruid, keuid, ksuid, o.capable);
      var n := PrepareCreds();
      if !o.capable {
        if Foreign(kruid, cred.Users()) || Foreign(keuid, cred.Users()) || Foreign(ksuid, cred.Users()) {
          AbortCreds(n);
          return -EPERM;
        }
      }
      if kruid.To? {
        n.uid := kruid.id;
      }
      ret := FollowUid(n, o.allocates);
      if ret < 0 {
        return;
      }
      if keuid.To? {
        n.euid := keuid.id;
      }
      if ksuid.To? {
        n.suid := ksuid.id;
      }
      n.fsuid := n.euid;
      ret := FixAndCommit(n, o.lsm);
    }

    /** setfsuid reports no error: it returns the old filesystem uid whatever happens. */
    method Setfsuid(uid: int, o: Oracles) returns (oldFsuid: int)
      requires Valid()
      modifies this`cred, this`users
      ensures Valid() && (cred == old(cred) || fresh(cred)) && unchanged(old(cred))
      ensures cred.Groups() == old(cred.Groups()) && oldFsuid == old(cred.fsuid)
      ensures cred.Users()
              == FsOutcome(old(cred.Users()), if uid in ns then To(ns[uid]) else Invalid, o.lsm == 0, o)
    {
      hide Conserved, ConservedWith;
      oldFsuid := cred.fsuid;
      if uid !in ns || !o.prepares {
        return;
      }
      var kuid := ns[uid];
      var n := PrepareCreds();
      if kuid == cred.uid || kuid == cred.euid || kuid == cred.suid || kuid == cred.fsuid || o.capable {
        if kuid != cred.fsuid {
          n.fsuid := kuid;
          if o.lsm == 0 {
            var _ := CommitCreds(n);
            return;
          }
        }
      }
      AbortCreds(n);
    }

    method Setregid(rgid: int, egid: int, o: Oracles) returns (ret: int)
      requires Valid()
      modifies this`cred, this`users
      ensures Valid() && (cred == old(cred) || fresh(cred)) && unchanged(old(cred))
      ensures cred.Users() == old(cred.Users())
      ensures var r, e := MakeArg(ns, rgid), MakeArg(ns, egid);
              Outcome(ret, cred.Groups())
              == GroupOutcome(old(cred.Groups()), {r, e}, SetRe(old(cred.Groups()), r, e, o.capable), o)
    {
      hide Conserved, ConservedWith;
      var krgid, kegid := MakeArg(ns, rgid), MakeArg(ns, egid);
      if krgid.Invalid? || kegid.Invalid? {
        return -EINVAL;
      }
      if !o.prepares {
        return -ENOMEM;
      }
      var n := PrepareCreds();
      if krgid.To? {
        if cred.gid == krgid.id || cred.egid == krgid.id || o.capable {
          n.gid := krgid.id;
        } else {
          AbortCreds(n);
          return -EPERM;
        }
      }
      if kegid.To? {
        if cred.gid == kegid.id || cred.egid == kegid.id || cred.sgid == kegid.id || o.capable {
          n.egid := kegid.id;
        } else {
          AbortCreds(n);
          return -EPERM;
        }
      }
      if krgid.To? || (kegid.To? && kegid.id != cred.gid) {
        n.sgid := n.egid;
      }
      n.fsgid := n.egid;
      ret := CommitCreds(n);
    }

    method Setgid(gid: int, o: Oracles) returns (ret: int)
      requires Valid()
      modifies this`cred, this`users
      ensures Valid() && (cred == old(cred) || fresh(cred)) && unchanged(old(cred))
      ensures cred.Users() == old(cred.Users())
      ensures var g := if gid in ns then To(ns[gid]) else Invalid;
              Outcome(ret, cred.Groups())
              == GroupOutcome(old(cred.Groups()), {g}, SetOne(old(cred.Groups()), Or(g, 0), o.capable), o)
      ensures ret == 0 && o.capable ==> gid in ns && cred.Groups() == Ids(ns[gid], ns[gid], ns[gid], ns[gid])
    {
      hide Conserved, ConservedWith;
      if gid !in ns {
        return -EINVAL;
      }
      var kgid := ns[gid];
      if !o.prepares {
        return -ENOMEM;
      }
      var n := PrepareCreds();
      if o.capable {
        n.gid, n.egid, n.sgid, n.fsgid := kgid, kgid, kgid, kgid;
      } else if kgid == cred.gid || kgid == cred.sgid {
        n.egid, n.fsgid := kgid, kgid;
      } else {
        AbortCreds(n);
        return -EPERM;
      }
      ret := CommitCreds(n);
    }

    method Setresgid(rgid: int, egid: int, sgid: int, o: Oracles) returns (ret: int)
      requires Valid()
      modifies this`cred, this`users
      ensures Valid() && (cred == old(cred) || fresh(cred)) && unchanged(old(cred))
      ensures cred.Users() == old(cred.Users())
      ensures var r, e, s := MakeArg(ns, rgid), MakeArg(ns, egid), MakeArg(ns, sgid);
              Outcome(ret, cred.Groups())
              == GroupOutcome(old(cred.Groups()), {r, e, s}, SetRes(old(cred.Groups()), r, e, s, o.capable), o)
    {
      hide Conserved, ConservedWith, SetRes, Foreign;
      var krgid, kegid, ksgid := MakeArg(ns, rgid), MakeArg(ns, egid), MakeArg(ns, sgid);
      if krgid.Invalid? || kegid.Invalid? || ksgid.Invalid? {
        return -EINVAL;
      }
      if !o.prepares {
        return -ENOMEM;
      }
      ForeignRefused(cred.Groups(), krgid, kegid, ksgid, o.capable);
      var n := PrepareCreds();
      if !o.capable {
        if Foreign(krgid, cred.Groups()) || Foreign(kegid, cred.Groups()) || Foreign(ksgid, cred.Groups()) {
          AbortCreds(n);
          return -EPERM;
        }
      }
      if krgid.To? {
        n.gid := krgid.id;
      }
      if kegid.To? {
        n.egid := kegid.id;
      }
      if ksgid.To? {
        n.sgid := ksgid.id;
      }
      n.fsgid := n.egid;
      ret := CommitCreds(n);
    }

    method Setfsgid(gid: int, o: Oracles) returns (oldFsgid: int)
      requires Valid()
      modifies this`cred, this`users
      ensures Valid() && (cred == old(cred) || fresh(cred)) && unchanged(old(cred))
      ensures cred.Users() == old(cred.Users()) && oldFsgid == old(cred.fsgid)
      ensures cred.Groups()
              == FsOutcome(old(cred.Groups()), if gid in ns then To(ns[gid]) else Invalid, true, o)
    {
      hide Conserved, ConservedWith;
      oldFsgid := cred.fsgid;
      if gid !in ns || !o.prepares {
        return;
      }
      var kgid := ns[gid];
      var n := PrepareCreds();
      if kgid == cred.gid || kgid == cred.egid || kgid == cred.sgid || kgid == cred.fsgid || o.capable {
        if kgid != cred.fsgid {
          n.fsgid := kgid;
          var _ := CommitCreds(n);
          return;
        }
      }
      AbortCreds(n);
    }
  }
}
