/** Killing the process behind an event (`src-tauri/src/kill_process.rs`): by pid when the pid
    still names the same program, otherwise by a unique program name. */
module KillProcess {
  import opened Common
  import opened Seqs

  /** One running process as the system's process table lists it. */
  datatype Process = Process(pid: nat, name: string)

  /** `KillProcessResponse`, plus which process a kill was attempted on. */
  datatype KillResponse = KillResponse(success: bool, message: string, killed: Option<nat>)

  /** The process with the given pid, if any (`sys.process(pid)`). */
  function FindPid(procs: seq<Process>, pid: nat): (r: Option<Process>)
    ensures r.Some? ==> r.value in procs && r.value.pid == pid
    ensures r.None? ==> forall i :: 0 <= i < |procs| ==> procs[i].pid != pid
  {
    if procs == [] then None
    else if procs[0].pid == pid then Some(procs[0])
    else FindPid(procs[1..], pid)
  }

  /** `try_kill_by_name`: kills only when exactly one process has the name. */
  function KillByName(procs: seq<Process>, name: string, kills: nat -> bool): KillResponse
  {
    var matching := Filter(procs, (p: Process) => p.name == name);
    if |matching| == 0 then KillResponse(false, "Failed (Process not found)", None)
    else if |matching| == 1 then
      if kills(matching[0].pid) then KillResponse(true, "Success! (PID Changed)", Some(matching[0].pid))
      else KillResponse(false, "Failed (Insufficient permissions)", Some(matching[0].pid))
    else KillResponse(false, "Failed (PID Changed, multiple " + name + "s found)", None)
  }

  /** `handle_kill_process`; `kills(pid)` is what `Process::kill` answers for that process. The
      command always returns `Ok`. */
  function HandleKillProcess(procs: seq<Process>, pid: nat, name: string, kills: nat -> bool): KillResponse
  {
    match FindPid(procs, pid)
    case Some(p) =>
      if p.name == name then
        if kills(pid) then KillResponse(true, "Success!", Some(pid))
        else KillResponse(false, "Failed (Insufficient permissions)", Some(pid))
      else KillByName(procs, name, kills)
    case None => KillByName(procs, name, kills)
  }

  /** Success means a kill was attempted and it worked; a kill is only ever attempted on a
      process carrying the requested name. */
  lemma KillSoundness(procs: seq<Process>, pid: nat, name: string, kills: nat -> bool)
    ensures var r := HandleKillProcess(procs, pid, name, kills);
      (r.success <==> r.killed.Some? && kills(r.killed.value)) &&
      (r.killed.Some? ==> exists i :: 0 <= i < |procs| && procs[i].pid == r.killed.value && procs[i].name == name)
  {
    var r := HandleKillProcess(procs, pid, name, kills);
    var matching := Filter(procs, (p: Process) => p.name == name);
    if r.killed.Some? {
      match FindPid(procs, pid)
      case Some(p) =>
        if p.name != name {
          assert matching[0] in procs;
        }
      case None =>
        assert matching[0] in procs;
    }
  }

  /** When the pid still names the requested program, exactly that pid is killed. */
  lemma KillByPid(procs: seq<Process>, pid: nat, name: string, kills: nat -> bool)
    requires exists i :: 0 <= i < |procs| && procs[i].pid == pid && procs[i].name == name
    requires forall i, j :: 0 <= i < j < |procs| ==> procs[i].pid != procs[j].pid
    ensures HandleKillProcess(procs, pid, name, kills).killed == Some(pid)
    ensures HandleKillProcess(procs, pid, name, kills).message ==
      (if kills(pid) then "Success!" else "Failed (Insufficient permissions)")
  {
    var p := FindPid(procs, pid);
    var i :| 0 <= i < |procs| && procs[i].pid == pid && procs[i].name == name;
    assert p.Some?;
    var k :| 0 <= k < |procs| && procs[k] == p.value;
    assert k == i;
  }

  /** Falling back to the name: no process with it means no kill and "not found"; several mean
      no kill and a message naming the program. */
  lemma KillByNameOutcomes(procs: seq<Process>, name: string, kills: nat -> bool)
    ensures (forall i :: 0 <= i < |procs| ==> procs[i].name != name) ==>
      KillByName(procs, name, kills) == KillResponse(false, "Failed (Process not found)", None)
    ensures (exists i, j :: 0 <= i < j < |procs| && procs[i].name == name && procs[j].name == name) ==>
      KillByName(procs, name, kills) ==
        KillResponse(false, "Failed (PID Changed, multiple " + name + "s found)", None)
  {
    if forall i :: 0 <= i < |procs| ==> procs[i].name != name {
      NoneNamed(procs, name);
    }
    if exists i, j :: 0 <= i < j < |procs| && procs[i].name == name && procs[j].name == name {
      var i, j :| 0 <= i < j < |procs| && procs[i].name == name && procs[j].name == name;
      FilterCountsAtLeastTwo(procs, name, i, j);
    }
  }

  lemma {:induction false} NoneNamed(procs: seq<Process>, name: string)
    requires forall i :: 0 <= i < |procs| ==> procs[i].name != name
    ensures Filter(procs, (p: Process) => p.name == name) == []
  {
    if procs != [] {
      NoneNamed(procs[1..], name);
    }
  }

  lemma {:induction false} FilterCountsAtLeastTwo(procs: seq<Process>, name: string, i: nat, j: nat)
    requires i < j < |procs| && procs[i].name == name && procs[j].name == name
    ensures |Filter(procs, (p: Process) => p.name == name)| >= 2
  {
    if i == 0 {
      assert procs[1..][j - 1] == procs[j];
      assert |Filter(procs[1..], (p: Process) => p.name == name)| >= 1 by {
        assert procs[j] in Filter(procs[1..], (p: Process) => p.name == name);
      }
    } else {
      FilterCountsAtLeastTwo(procs[1..], name, i - 1, j - 1);
    }
  }
}
