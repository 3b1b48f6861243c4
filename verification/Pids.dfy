/**
  Process identifiers: get_pid of ucore/kern/process/proc.c with its cached gap
  of free identifiers, its restarts and its wrap-around.
 */
module Pids {
  import opened Lists

  const MAX_PROCESS: nat := 4096
  const MAX_PID: nat := 8192

  // No listed process has an identifier strictly between a and b.
  predicate Gap(pids: seq<nat>, a: nat, b: nat) {
    forall i :: 0 <= i < |pids| ==> !(a < pids[i] < b)
  }

  // How far the search at last is from f, going up and round.
  function Distance(last: nat, f: nat): int
    requires 1 <= last < MAX_PID && 1 <= f < MAX_PID
  {
    if last <= f then f - last else f - last + (MAX_PID - 1)
  }

  // Fewer identifiers than there are leave one unused.
  lemma SomeFree(pids: seq<nat>) returns (f: nat)
    requires |pids| < MAX_PID - 1
    ensures 1 <= f < MAX_PID && f !in pids
  {
    if forall p :: 1 <= p < MAX_PID ==> p in pids {
      AllListed(pids, 1, MAX_PID - 1);
      assert false;
    }
    f :| 1 <= f < MAX_PID && f !in pids;
  }

  class PidTable {
    var lastPid: nat
    var nextSafe: nat
    var pids: seq<nat>
    var nrProcess: nat

    // proc_init: idleproc is counted, but is not on the list.
    constructor ()
      ensures Ok() && pids == []
    {
      lastPid, nextSafe, pids, nrProcess := MAX_PID, MAX_PID, [], 1;
    }

    // The identifiers in use differ, and the cached gap above the last one holds none of them.
    predicate Ok()
      reads this
    {
      && Distinct(pids) && (forall i :: 0 <= i < |pids| ==> 1 <= pids[i] < MAX_PID)
      && nrProcess == |pids| + 1 <= MAX_PROCESS
      && 1 <= lastPid <= MAX_PID && nextSafe <= MAX_PID && Gap(pids, lastPid, nextSafe)
    }

    method GetPid() returns (pid: nat)
      requires 1 <= lastPid <= MAX_PID && nextSafe <= MAX_PID && Gap(pids, lastPid, nextSafe) && |pids| < MAX_PID - 1
      modifies `lastPid, `nextSafe
      ensures 1 <= pid < MAX_PID && pid !in pids && lastPid == pid
      ensures pid < nextSafe <= MAX_PID && Gap(pids, lastPid, nextSafe)
    {
      lastPid := lastPid + 1;
      if lastPid >= MAX_PID {
        lastPid := 1;
        Search();
      } else if lastPid >= nextSafe {
        Search();
      }
      pid := lastPid;
    }

    // From `inside:` on: every listed identifier met so far lies below lastPid or from nextSafe on.
    method Search()
      requires 1 <= lastPid < MAX_PID && |pids| < MAX_PID - 1
      modifies `lastPid, `nextSafe
      ensures 1 <= lastPid < nextSafe <= MAX_PID && lastPid !in pids && Gap(pids, lastPid, nextSafe)
    {
      ghost var f := SomeFree(pids);
      nextSafe := MAX_PID;
      var i := 0;
      while i < |pids|
        invariant 0 <= i <= |pids| && 1 <= lastPid < nextSafe <= MAX_PID
        invariant forall j :: 0 <= j < i ==> pids[j] < lastPid || nextSafe <= pids[j]
        decreases Distance(lastPid, f), |pids| - i
      {
        if pids[i] == lastPid {
          lastPid := lastPid + 1;
          if lastPid >= nextSafe {
            if lastPid >= MAX_PID {
              lastPid := 1;
            }
            nextSafe := MAX_PID;
            i := 0;
            continue;
          }
        } else if pids[i] > lastPid && nextSafe > pids[i] {
          nextSafe := pids[i];
        }
        i := i + 1;
      }
    }

    // do_fork: none is given out when the table is full, else a new one is, and listed first.
    method Fork() returns (ok: bool, pid: nat)
      requires Ok()
      modifies this
      ensures Ok() && ok == (old(|pids|) < MAX_PROCESS - 1)
      ensures ok ==> pid !in old(pids) && pids == [pid] + old(pids)
      ensures !ok ==> pids == old(pids)
    {
      ok, pid := nrProcess < MAX_PROCESS, 0;
      if ok {
        pid := GetPid();
        pids, nrProcess := [pid] + pids, nrProcess + 1;
      }
    }

    // do_wait's end: the process leaves the list.
    method Reap(k: nat)
      requires Ok() && k < |pids|
      modifies `pids, `nrProcess
      ensures Ok() && pids == old(pids)[..k] + old(pids)[k + 1..]
    {
      pids, nrProcess := pids[..k] + pids[k + 1..], nrProcess - 1;
    }
  }
}
