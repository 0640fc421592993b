/**
 * Web Locks and sync access handles of the opfs-wl proxy
 * (src/vector/sqlite/assets/sqlite3-opfs-async-proxy.js). Operations run one at a time; whether the
 * browser grants a handle and whether closing one throws are arbitrary.
 */
module OpfsLock {
  import opened Prelude

  const LOCK_NONE: int := 0
  const LOCK_SHARED: int := 1
  const LOCK_RESERVED: int := 2
  const LOCK_EXCLUSIVE: int := 4

  datatype Mode = Shared | Exclusive

  /** `xLock` is 0 when the property is missing. `asap`: give implicit locks up after each operation. */
  datatype File = File(xLock: int, handle: bool, asap: bool)

  datatype Proxy = Proxy(openFiles: map<nat, File>, implicitLocks: set<nat>, webLocks: map<nat, Mode>)

  const EMPTY: Proxy := Proxy(map[], {}, map[])

  datatype Step =
    | Open(fid: nat, asap: bool)
    | CloseFile(fid: nat)
    | Access(fid: nat, granted: bool)                       // xRead, xWrite, xTruncate, xFileSize
    | Lock(fid: nat, lockType: int, granted: bool, closeThrows: bool)
    | Unlock(fid: nat, lockType: int, granted: bool, closeThrows: bool)
    | Idle

  // -------------------------------------------------------------------- the code

  function CloseSyncHandle(p: Proxy, fid: nat): Proxy
    requires fid in p.openFiles
  {
    if p.openFiles[fid].handle then
      p.(openFiles := p.openFiles[fid := p.openFiles[fid].(handle := false, xLock := 0)],
         implicitLocks := p.implicitLocks - {fid})
    else p
  }

  /** A handle acquired while `xLock` is unset is an implicit lock. */
  function GetSyncHandle(p: Proxy, fid: nat, granted: bool): Proxy
    requires fid in p.openFiles
  {
    var f := p.openFiles[fid];
    if f.handle || !granted then p
    else
      p.(openFiles := p.openFiles[fid := f.(handle := true)],
         implicitLocks := if f.xLock == 0 then p.implicitLocks + {fid} else p.implicitLocks)
  }

  function SetLock(p: Proxy, fid: nat, lockType: int): Proxy
    requires fid in p.openFiles
  {
    p.(openFiles := p.openFiles[fid := p.openFiles[fid].(xLock := lockType)])
  }

  function AccessStep(p: Proxy, fid: nat, granted: bool): Proxy
    requires fid in p.openFiles
  {
    var q := GetSyncHandle(p, fid, granted);
    if q.openFiles[fid].asap && fid in q.implicitLocks then CloseSyncHandle(q, fid) else q
  }

  function ModeOf(lockType: int): Mode {
    if lockType >= LOCK_RESERVED then Exclusive else Shared
  }

  /** The Web Lock callback: with `xLock` set first, so that the handle is not an implicit one. */
  function Grant(p: Proxy, fid: nat, lockType: int, granted: bool): Proxy
    requires fid in p.openFiles
  {
    var previous := p.openFiles[fid].xLock;
    var q := SetLock(p.(implicitLocks := p.implicitLocks - {fid}), fid, lockType);
    var t := GetSyncHandle(q, fid, granted);
    if t.openFiles[fid].handle then t.(webLocks := t.webLocks[fid := ModeOf(lockType)])
    else SetLock(t, fid, previous)
  }

  function LockStep(p: Proxy, fid: nat, lockType: int, granted: bool, closeThrows: bool): Proxy
    requires fid in p.openFiles
  {
    if fid !in p.webLocks then Grant(p, fid, lockType, granted)
    else if p.webLocks[fid] == ModeOf(lockType) || p.webLocks[fid].Exclusive? then SetLock(p, fid, lockType)
    else
      // upgrade: the shared lock and the handle go first
      var q := CloseSyncHandle(p, fid);
      if closeThrows && p.openFiles[fid].handle then q
      else Grant(q.(webLocks := q.webLocks - {fid}), fid, lockType, granted)
  }

  function UnlockStep(p: Proxy, fid: nat, lockType: int, granted: bool, closeThrows: bool): Proxy
    requires fid in p.openFiles
  {
    var q := CloseSyncHandle(p, fid);
    if fid !in p.webLocks then q
    else if lockType == LOCK_NONE then SetLock(q.(webLocks := q.webLocks - {fid}), fid, lockType)
    else if lockType == LOCK_SHARED && p.webLocks[fid].Exclusive? then
      if closeThrows && p.openFiles[fid].handle then q
      else LockStep(SetLock(q.(webLocks := q.webLocks - {fid}), fid, lockType), fid, lockType, granted, closeThrows)
    else p
  }

  function CloseStep(p: Proxy, fid: nat): Proxy {
    p.(openFiles := p.openFiles - {fid}, implicitLocks := p.implicitLocks - {fid})
  }

  /** Every implicit lock's handle is closed; nothing else is touched. */
  function Released(p: Proxy): Proxy {
    var files := map fid | fid in p.openFiles ::
      if fid in p.implicitLocks && p.openFiles[fid].handle
      then p.openFiles[fid].(handle := false, xLock := 0) else p.openFiles[fid];
    var unreleased := set fid | fid in p.implicitLocks && fid in p.openFiles && !p.openFiles[fid].handle;
    Proxy(files, unreleased, p.webLocks)
  }

  /** The file has a Web Lock, recorded with that lock type. */
  predicate Has(p: Proxy, fid: nat, lockType: int) {
    fid in p.webLocks && fid in p.openFiles && p.openFiles[fid].xLock == lockType
  }

  predicate Enabled(p: Proxy, e: Step) {
    match e
    case Open(fid, _) => fid !in p.openFiles && fid !in p.webLocks
    case CloseFile(fid) => fid in p.openFiles
    case Access(fid, _) => fid in p.openFiles
    case Lock(fid, lockType, _, _) => fid in p.openFiles && LOCK_SHARED <= lockType <= LOCK_EXCLUSIVE
    case Unlock(fid, lockType, _, _) => fid in p.openFiles && LOCK_NONE <= lockType <= LOCK_SHARED
    case Idle => true
  }

  function Next(p: Proxy, e: Step): Proxy
    requires Enabled(p, e)
  {
    match e
    case Open(fid, asap) => p.(openFiles := p.openFiles[fid := File(0, false, asap)])
    case CloseFile(fid) => CloseStep(p, fid)
    case Access(fid, granted) => AccessStep(p, fid, granted)
    case Lock(fid, lockType, granted, closeThrows) => LockStep(p, fid, lockType, granted, closeThrows)
    case Unlock(fid, lockType, granted, closeThrows) => UnlockStep(p, fid, lockType, granted, closeThrows)
    case Idle => Released(p)
  }

  function After(run: seq<Step>): Proxy {
    if run == [] then EMPTY
    else
      var before := After(run[..|run| - 1]);
      if Enabled(before, run[|run| - 1]) then Next(before, run[|run| - 1]) else before
  }

  class AsyncProxy {
    var openFiles: map<nat, File>
    var implicitLocks: set<nat>
    var webLocks: map<nat, Mode>

    ghost function Value(): Proxy
      reads this
    {
      Proxy(openFiles, implicitLocks, webLocks)
    }

    constructor ()
      ensures Value() == EMPTY
    {
      openFiles, implicitLocks, webLocks := map[], {}, map[];
    }

    method CloseHandle(fid: nat)
      requires fid in openFiles
      modifies this
      ensures Value() == CloseSyncHandle(old(Value()), fid)
    {
      if openFiles[fid].handle {
        openFiles := openFiles[fid := openFiles[fid].(handle := false, xLock := 0)];
        implicitLocks := implicitLocks - {fid};
      }
    }

    method AcquireHandle(fid: nat, granted: bool) returns (ok: bool)
      requires fid in openFiles
      modifies this
      ensures Value() == GetSyncHandle(old(Value()), fid, granted)
      ensures fid in openFiles && ok == openFiles[fid].handle
    {
      if openFiles[fid].handle {
        return true;
      }
      if !granted {
        return false;
      }
      openFiles := openFiles[fid := openFiles[fid].(handle := true)];
      if openFiles[fid].xLock == 0 {
        implicitLocks := implicitLocks + {fid};
      }
      return true;
    }

    method XAccess(fid: nat, granted: bool) returns (ok: bool)
      requires fid in openFiles
      modifies this
      ensures Value() == AccessStep(old(Value()), fid, granted)
      ensures ok <==> old(openFiles)[fid].handle || granted
    {
      ok := AcquireHandle(fid, granted);
      if openFiles[fid].asap && fid in implicitLocks {
        CloseHandle(fid);
      }
    }

    method RequestWebLock(fid: nat, lockType: int, granted: bool) returns (ok: bool)
      requires fid in openFiles
      modifies this
      ensures Value() == Grant(old(Value()), fid, lockType, granted)
      ensures ok <==> old(openFiles)[fid].handle || granted
      ensures fid !in old(webLocks) ==> (ok <==> Has(Value(), fid, lockType))
    {
      var oldLockType := openFiles[fid].xLock;
      implicitLocks := implicitLocks - {fid};
      openFiles := openFiles[fid := openFiles[fid].(xLock := lockType)];
      ok := AcquireHandle(fid, granted);
      if ok {
        webLocks := webLocks[fid := ModeOf(lockType)];
      } else {
        openFiles := openFiles[fid := openFiles[fid].(xLock := oldLockType)];
      }
    }

    method XLock(fid: nat, lockType: int, granted: bool, closeThrows: bool) returns (ok: bool)
      requires fid in openFiles
      modifies this
      ensures Value() == LockStep(old(Value()), fid, lockType, granted, closeThrows)
      ensures lockType != LOCK_NONE ==> (ok <==> Has(Value(), fid, lockType))
    {
      if fid in webLocks {
        if webLocks[fid] == ModeOf(lockType) || webLocks[fid].Exclusive? {
          openFiles := openFiles[fid := openFiles[fid].(xLock := lockType)];
          return true;
        }
        var throws := closeThrows && openFiles[fid].handle;
        CloseHandle(fid);
        if throws {
          return false;
        }
        webLocks := webLocks - {fid};
      }
      ok := RequestWebLock(fid, lockType, granted);
    }

    method XUnlock(fid: nat, lockType: int, granted: bool, closeThrows: bool) returns (ok: bool)
      requires fid in openFiles
      modifies this
      ensures Value() == UnlockStep(old(Value()), fid, lockType, granted, closeThrows)
      ensures lockType == LOCK_NONE ==> (ok <==> !(closeThrows && old(openFiles)[fid].handle))
      ensures lockType == LOCK_SHARED && fid in old(webLocks) && old(webLocks)[fid].Exclusive? ==>
                (ok <==> Has(Value(), fid, lockType))
    {
      var throws := closeThrows && openFiles[fid].handle;
      if fid !in webLocks {
        CloseHandle(fid);
        return !throws;
      }
      if lockType == LOCK_NONE {
        CloseHandle(fid);
        webLocks := webLocks - {fid};
        openFiles := openFiles[fid := openFiles[fid].(xLock := lockType)];
        return !throws;
      }
      if lockType == LOCK_SHARED && webLocks[fid].Exclusive? {
        CloseHandle(fid);
        if throws {
          return false;
        }
        openFiles := openFiles[fid := openFiles[fid].(xLock := lockType)];
        webLocks := webLocks - {fid};
        ok := XLock(fid, lockType, granted, closeThrows);
        return;
      }
      return true;
    }

    /** The idle pass over the set of implicit locks, each of them an open file. */
    method ReleaseImplicitLocks()
      requires forall fid <- implicitLocks :: fid in openFiles
      modifies this
      ensures Value() == Released(old(Value()))
    {
      var rest := implicitLocks;
      while rest != {}
        invariant rest <= old(implicitLocks) && webLocks == old(webLocks)
        invariant openFiles.Keys == old(openFiles).Keys
        invariant forall fid <- rest :: openFiles[fid] == old(openFiles[fid]) && fid in implicitLocks
        invariant forall fid <- openFiles :: fid !in rest ==>
                    openFiles[fid] == Released(old(Value())).openFiles[fid]
                    && (fid in implicitLocks <==> fid in Released(old(Value())).implicitLocks)
        invariant implicitLocks <= old(implicitLocks)
        decreases |rest|
      {
        var fid :| fid in rest;
        CloseHandle(fid);
        rest := rest - {fid};
      }
    }
  }

  // -------------------------------------------------------------------- invariant

  /** The Golden Rule: who has the Web Lock has the handle, and idle time will not take it away. */
  predicate Golden(p: Proxy) {
    forall fid <- p.webLocks :: fid in p.openFiles && p.openFiles[fid].handle && fid !in p.implicitLocks
  }

  /** An implicit lock is an open file's handle that nothing else recorded. */
  predicate ImplicitOk(p: Proxy) {
    forall fid <- p.implicitLocks :: fid in p.openFiles && p.openFiles[fid].handle && fid !in p.webLocks
  }

  predicate Sound(p: Proxy) {
    Golden(p) && ImplicitOk(p)
  }

  /** What breaks the rule: closing a file still locked, or a close that throws between two locks. */
  predicate Breaks(p: Proxy, e: Step) {
    match e
    case CloseFile(fid) => fid in p.webLocks
    case Lock(fid, lockType, _, closeThrows) =>
      closeThrows && fid in p.webLocks && p.webLocks[fid].Shared? && ModeOf(lockType).Exclusive?
    case Unlock(fid, lockType, _, closeThrows) =>
      closeThrows && fid in p.webLocks && p.webLocks[fid].Exclusive? && lockType == LOCK_SHARED
    case _ => false
  }

  lemma GrantIsSound(p: Proxy, fid: nat, lockType: int, granted: bool)
    requires Sound(p) && fid in p.openFiles && fid !in p.webLocks && lockType >= LOCK_SHARED
    ensures Sound(Grant(p, fid, lockType, granted))
  {
  }

  lemma CloseHandleKeepsOthers(p: Proxy, fid: nat)
    requires Sound(p) && fid in p.openFiles
    ensures Sound(CloseSyncHandle(p, fid).(webLocks := p.webLocks - {fid}))
    ensures CloseSyncHandle(p, fid).openFiles.Keys == p.openFiles.Keys
    ensures !CloseSyncHandle(p, fid).openFiles[fid].handle && fid !in CloseSyncHandle(p, fid).implicitLocks
  {
  }

  lemma LockKeepsTheRule(p: Proxy, fid: nat, lockType: int, granted: bool, closeThrows: bool)
    requires Sound(p) && Enabled(p, Lock(fid, lockType, granted, closeThrows))
    ensures Sound(LockStep(p, fid, lockType, granted, closeThrows)) <==>
            !Breaks(p, Lock(fid, lockType, granted, closeThrows))
  {
    CloseHandleKeepsOthers(p, fid);
    if fid !in p.webLocks {
      GrantIsSound(p, fid, lockType, granted);
    } else if p.webLocks[fid] == ModeOf(lockType) || p.webLocks[fid].Exclusive? {
    } else if closeThrows {
      assert fid in LockStep(p, fid, lockType, granted, closeThrows).webLocks;
    } else {
      GrantIsSound(CloseSyncHandle(p, fid).(webLocks := p.webLocks - {fid}), fid, lockType, granted);
    }
  }

  lemma UnlockKeepsTheRule(p: Proxy, fid: nat, lockType: int, granted: bool, closeThrows: bool)
    requires Sound(p) && Enabled(p, Unlock(fid, lockType, granted, closeThrows))
    ensures Sound(UnlockStep(p, fid, lockType, granted, closeThrows)) <==>
              !Breaks(p, Unlock(fid, lockType, granted, closeThrows))
  {
    CloseHandleKeepsOthers(p, fid);
    var q := CloseSyncHandle(p, fid);
    if fid !in p.webLocks {
      assert p.webLocks - {fid} == p.webLocks;
    } else if lockType == LOCK_SHARED && p.webLocks[fid].Exclusive? {
      if closeThrows {
        assert fid in UnlockStep(p, fid, lockType, granted, closeThrows).webLocks;
      } else {
        var t := SetLock(q.(webLocks := q.webLocks - {fid}), fid, lockType);
        assert Sound(t) && fid !in t.webLocks;
        GrantIsSound(t, fid, lockType, granted);
      }
    }
  }

  lemma AccessKeepsTheRule(p: Proxy, fid: nat, granted: bool)
    requires Sound(p) && fid in p.openFiles
    requires p.openFiles[fid].handle || p.openFiles[fid].xLock == 0 || fid !in p.webLocks
    ensures Sound(AccessStep(p, fid, granted))
  {
  }

  /** The rule survives a step exactly when the step is not one of the three that break it. */
  lemma TheRuleHoldsExactly(p: Proxy, e: Step)
    requires Sound(p) && Enabled(p, e)
    ensures Sound(Next(p, e)) <==> !Breaks(p, e)
  {
    match e
    case Open(fid, asap) =>
    case CloseFile(fid) =>
      if fid in p.webLocks { assert fid in Next(p, e).webLocks; }
    case Access(fid, granted) => AccessKeepsTheRule(p, fid, granted);
    case Lock(fid, lockType, granted, closeThrows) => LockKeepsTheRule(p, fid, lockType, granted, closeThrows);
    case Unlock(fid, lockType, granted, closeThrows) => UnlockKeepsTheRule(p, fid, lockType, granted, closeThrows);
    case Idle =>
  }

  predicate Orderly(run: seq<Step>) {
    run == [] || (Orderly(run[..|run| - 1]) && !Breaks(After(run[..|run| - 1]), run[|run| - 1]))
  }

  /** In every run without such a step the Golden Rule holds between operations. */
  lemma {:induction false} GoldenRule(run: seq<Step>)
    requires Orderly(run)
    ensures Sound(After(run))
  {
    if run != [] {
      GoldenRule(run[..|run| - 1]);
      if Enabled(After(run[..|run| - 1]), run[|run| - 1]) {
        TheRuleHoldsExactly(After(run[..|run| - 1]), run[|run| - 1]);
      }
    }
  }

  /** Idle time closes every implicit lock's handle and never a handle that has a Web Lock. */
  lemma IdleKeepsLockedHandles(run: seq<Step>)
    requires Orderly(run)
    ensures var p := After(run);
            && Released(p).implicitLocks == {}
            && (forall fid <- p.webLocks :: fid in p.openFiles && Released(p).openFiles[fid] == p.openFiles[fid]
                                            && Released(p).openFiles[fid].handle)
            && (forall fid <- p.implicitLocks :: fid in p.openFiles && !Released(p).openFiles[fid].handle)
  {
    GoldenRule(run);
  }

  /** Unlocking to NONE gives everything up, whether or not the close throws. */
  lemma UnlockGivesEverythingUp(p: Proxy, fid: nat, granted: bool, closeThrows: bool)
    requires Sound(p) && fid in p.webLocks
    ensures var q := UnlockStep(p, fid, LOCK_NONE, granted, closeThrows);
            fid !in q.webLocks && fid !in q.implicitLocks && q.openFiles[fid] == File(0, false, p.openFiles[fid].asap)
  {
  }

  // ------------------------------------------------------------- the converse of the rule

  /** Every handle is accounted for, and a lock type is recorded only beside a Web Lock. */
  predicate Accounted(p: Proxy) {
    forall fid <- p.openFiles ::
      && (p.openFiles[fid].handle ==> fid in p.webLocks || fid in p.implicitLocks)
      && (p.openFiles[fid].xLock != 0 ==> fid in p.webLocks)
  }

  /** A downgrade whose shared lock cannot be had: its handle was closed and none is granted again. */
  predicate LosesTrack(p: Proxy, e: Step) {
    e.Unlock? && e.lockType == LOCK_SHARED && e.fid in p.webLocks && p.webLocks[e.fid].Exclusive? && !e.granted
  }

  lemma GrantAccounts(p: Proxy, fid: nat, lockType: int, granted: bool)
    requires Sound(p) && Accounted(p) && fid in p.openFiles && fid !in p.webLocks
    ensures Accounted(Grant(p, fid, lockType, granted))
  {
  }

  /** A downgrade: the exclusive lock is gone, the shared type is recorded, then the lock is asked for. */
  lemma DowngradeAccounts(p: Proxy, fid: nat, granted: bool)
    requires Sound(p) && Accounted(p) && fid in p.openFiles && fid in p.webLocks && p.webLocks[fid].Exclusive?
    ensures Accounted(UnlockStep(p, fid, LOCK_SHARED, granted, false)) <==> granted
  {
    var q := UnlockStep(p, fid, LOCK_SHARED, granted, false);
    if granted {
      assert fid in q.webLocks;
    } else {
      assert fid in q.openFiles && q.openFiles[fid].xLock == LOCK_SHARED && fid !in q.webLocks;
    }
  }

  lemma LockAccounts(p: Proxy, fid: nat, lockType: int, granted: bool)
    requires Sound(p) && Accounted(p) && fid in p.openFiles
    ensures Accounted(LockStep(p, fid, lockType, granted, false))
  {
    CloseHandleKeepsOthers(p, fid);
    if fid !in p.webLocks {
      GrantAccounts(p, fid, lockType, granted);
    } else if p.webLocks[fid] == ModeOf(lockType) || p.webLocks[fid].Exclusive? {
    } else {
      var q := CloseSyncHandle(p, fid).(webLocks := p.webLocks - {fid});
      assert Accounted(q);
      GrantAccounts(q, fid, lockType, granted);
    }
  }

  /** A step that keeps the rule keeps every handle accounted for, exactly unless a downgrade is refused. */
  lemma HandlesStayAccountedExactly(p: Proxy, e: Step)
    requires Sound(p) && Accounted(p) && Enabled(p, e) && !Breaks(p, e)
    ensures Accounted(Next(p, e)) <==> !LosesTrack(p, e)
  {
    match e
    case Open(fid, asap) =>
    case CloseFile(fid) =>
    case Access(fid, granted) =>
    case Lock(fid, lockType, granted, closeThrows) =>
      LockAccounts(p, fid, lockType, granted);
      assert Next(p, e) == LockStep(p, fid, lockType, granted, false);
    case Unlock(fid, lockType, granted, closeThrows) =>
      assert Next(p, e) == UnlockStep(p, fid, lockType, granted, false);
      if fid in p.webLocks && lockType == LOCK_SHARED && p.webLocks[fid].Exclusive? {
        DowngradeAccounts(p, fid, granted);
      }
    case Idle =>
  }

  /**
   * After a refused downgrade even unlocking to NONE leaves the lock type behind, so the next read
   * takes a handle that no lock accounts for and no idle pass gives up.
   */
  lemma ARefusedDowngradeLeavesAHandle(p: Proxy, fid: nat)
    requires Sound(p) && Accounted(p) && fid in p.webLocks && p.webLocks[fid].Exclusive? && !p.openFiles[fid].asap
    ensures var refused := UnlockStep(p, fid, LOCK_SHARED, false, false);
            var unlocked := UnlockStep(refused, fid, LOCK_NONE, false, false);
            var q := Released(AccessStep(unlocked, fid, true));
            q.openFiles[fid].handle && fid !in q.webLocks && fid !in q.implicitLocks
  {
  }

  // -------------------------------------------------------------------- modes and effects

  /** Every other file is as it was. */
  ghost predicate OthersStay(p: Proxy, q: Proxy, fid: nat) {
    forall g: nat :: g != fid ==>
      && (g in p.openFiles <==> g in q.openFiles) && (g in p.openFiles ==> q.openFiles[g] == p.openFiles[g])
      && (g in p.webLocks <==> g in q.webLocks) && (g in p.webLocks ==> q.webLocks[g] == p.webLocks[g])
      && (g in p.implicitLocks <==> g in q.implicitLocks)
  }

  /** The lock is there already, in a mode that is enough. */
  predicate Suffices(p: Proxy, fid: nat, lockType: int) {
    fid in p.webLocks && (p.webLocks[fid].Exclusive? || lockType < LOCK_RESERVED)
  }

  /**
   * A lock is had, with the type asked for and with the handle, if and only if it was there already or the
   * browser granted it (or an idle handle stood open); its mode is then exclusive exactly from RESERVED on or
   * if it was before. A refusal leaves no Web Lock.
   */
  lemma LocksAsAsked(p: Proxy, fid: nat, lockType: int, granted: bool)
    requires Sound(p) && Enabled(p, Lock(fid, lockType, granted, false))
    ensures var q := LockStep(p, fid, lockType, granted, false);
            && OthersStay(p, q, fid)
            && (fid in q.webLocks <==>
                  Suffices(p, fid, lockType) || granted || (fid !in p.webLocks && p.openFiles[fid].handle))
            && (fid in q.webLocks ==>
                  && Has(q, fid, lockType) && q.openFiles[fid].handle
                  && (q.webLocks[fid].Exclusive? <==>
                        lockType >= LOCK_RESERVED || (fid in p.webLocks && p.webLocks[fid].Exclusive?)))
  {
  }

  /** A downgrade that is granted leaves a shared lock with its handle; a refused one none. */
  lemma DowngradesAsAsked(p: Proxy, fid: nat, granted: bool)
    requires Sound(p) && fid in p.webLocks && p.webLocks[fid].Exclusive?
    ensures var q := UnlockStep(p, fid, LOCK_SHARED, granted, false);
            && OthersStay(p, q, fid)
            && (fid in q.webLocks <==> granted)
            && (granted ==> q.webLocks[fid].Shared? && Has(q, fid, LOCK_SHARED) && q.openFiles[fid].handle)
  {
  }

  /** Unlocking a file without a Web Lock closes its handle; unlocking to NONE gives up the Web Lock too; both
      leave every other file alone. */
  lemma UnlocksAsAsked(p: Proxy, fid: nat, granted: bool, closeThrows: bool)
    requires Sound(p) && fid in p.openFiles
    ensures var q := UnlockStep(p, fid, LOCK_NONE, granted, closeThrows);
            && OthersStay(p, q, fid)
            && fid !in q.webLocks && fid !in q.implicitLocks && !q.openFiles[fid].handle
  {
  }

  /** An access has a handle if there is one or the browser grants it, keeps it unless the file gives implicit
      locks up at once, and touches no other file. */
  lemma AccessTakesAHandle(p: Proxy, fid: nat, granted: bool)
    requires Sound(p) && Accounted(p) && fid in p.openFiles
    ensures var q, f := AccessStep(p, fid, granted), p.openFiles[fid];
            && OthersStay(p, q, fid) && q.webLocks == p.webLocks
            && (q.openFiles[fid].handle <==>
                  (f.handle || granted) && (fid in p.webLocks || !f.asap))
            && (q.openFiles[fid].handle && fid !in p.webLocks ==> fid in q.implicitLocks)
  {
  }

  /** An opened file has neither handle nor lock; a closed one is gone with its implicit lock; no other file is
      touched by either. */
  lemma FilesComeAndGo(p: Proxy, fid: nat, asap: bool)
    requires Sound(p)
    ensures Enabled(p, Open(fid, asap)) ==>
              var q := Next(p, Open(fid, asap));
              OthersStay(p, q, fid) && fid in q.openFiles && q.openFiles[fid] == File(0, false, asap)
              && fid !in q.webLocks && fid !in q.implicitLocks
    ensures Enabled(p, CloseFile(fid)) ==>
              var q := Next(p, CloseFile(fid));
              OthersStay(p, q, fid) && fid !in q.openFiles && fid !in q.implicitLocks
  {
  }

  /** A recorded type of RESERVED or above stands beside an exclusive Web Lock, and files that give implicit
      locks up at once have none between operations. */
  predicate Tidy(p: Proxy) {
    && (forall fid <- p.webLocks :: fid in p.openFiles && p.openFiles[fid].xLock >= LOCK_RESERVED ==>
          p.webLocks[fid].Exclusive?)
    && (forall fid <- p.implicitLocks :: fid in p.openFiles ==> !p.openFiles[fid].asap)
  }

  lemma AccessIsTidy(p: Proxy, fid: nat, granted: bool)
    requires Sound(p) && Tidy(p) && fid in p.openFiles
    ensures Tidy(AccessStep(p, fid, granted))
  {
  }

  lemma LockIsTidy(p: Proxy, fid: nat, lockType: int, granted: bool, closeThrows: bool)
    requires Sound(p) && Tidy(p) && fid in p.openFiles && lockType >= LOCK_SHARED
    ensures Tidy(LockStep(p, fid, lockType, granted, closeThrows))
  {
  }

  lemma UnlockIsTidy(p: Proxy, fid: nat, lockType: int, granted: bool, closeThrows: bool)
    requires Sound(p) && Tidy(p) && fid in p.openFiles && LOCK_NONE <= lockType <= LOCK_SHARED
    ensures Tidy(UnlockStep(p, fid, lockType, granted, closeThrows))
  {
  }

  lemma NextIsTidy(p: Proxy, e: Step)
    requires Sound(p) && Tidy(p) && Enabled(p, e)
    ensures Tidy(Next(p, e))
  {
    match e
    case Access(fid, granted) => AccessIsTidy(p, fid, granted);
    case Lock(fid, lockType, granted, closeThrows) => LockIsTidy(p, fid, lockType, granted, closeThrows);
    case Unlock(fid, lockType, granted, closeThrows) => UnlockIsTidy(p, fid, lockType, granted, closeThrows);
    case _ =>
  }

  /** So in every orderly run whoever may write holds the file exclusively. */
  lemma {:induction false} WritersAreExclusive(run: seq<Step>)
    requires Orderly(run)
    ensures Tidy(After(run))
  {
    if run != [] {
      WritersAreExclusive(run[..|run| - 1]);
      GoldenRule(run[..|run| - 1]);
      if Enabled(After(run[..|run| - 1]), run[|run| - 1]) {
        NextIsTidy(After(run[..|run| - 1]), run[|run| - 1]);
      }
    }
  }
}
