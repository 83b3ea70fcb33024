/** ProcessMonitorService: the set of known process keys, one polling pass over a
    snapshot of the running processes, the forbidden-program check, and the start/stop
    guards. */
module ProcessMonitor {
  import opened Wrappers
  import opened Lists
  import opened Text
  import opened Workers

  /** What a pass reads of a process: its name, its id, and the file name of its main
      module (None when the module is unavailable or access to it fails). */
  datatype ProcessInfo = ProcessInfo(name: string, id: nat, mainModule: Option<string>)

  /** ProcessLogEntry without its timestamp. */
  datatype ProcessLogEntry = ProcessLogEntry(processName: string, processPath: string, wasBlocked: bool)

  /** The key of a process: its lower-cased name, '_', its id. */
  function ProcessKey(p: ProcessInfo): string {
    Lower(p.name) + "_" + Decimal(p.id)
  }

  /** A key names one process: equal keys mean equal ids and names equal up to case. */
  lemma {:induction false} KeyDeterminesProcess(p: ProcessInfo, q: ProcessInfo)
    requires ProcessKey(p) == ProcessKey(q)
    ensures Lower(p.name) == Lower(q.name) && p.id == q.id
  {
    var k := ProcessKey(p);
    var a, d := Lower(p.name), Decimal(p.id);
    var b, e := Lower(q.name), Decimal(q.id);
    assert k == a + "_" + d && k == b + "_" + e;
    assert forall i :: 0 <= i < |d| ==> k[|a| + 1 + i] == d[i];
    assert forall i :: 0 <= i < |e| ==> k[|b| + 1 + i] == e[i];
    assert k[|a|] == '_' && k[|b|] == '_';
    assert |d| == |e|;
    assert d == k[|a| + 1..] == e;
    assert a == k[..|a|] == b;
    DecimalValue(p.id);
    DecimalValue(q.id);
  }

  /** GetProcessPath: the main module's file name, or "Unknown". */
  function GetProcessPath(p: ProcessInfo): string {
    match p.mainModule
    case Some(f) => f
    case None => "Unknown"
  }

  /** `_forbiddenPrograms.Any(...)` over the lower-cased name and path. */
  function IsForbidden(name: string, path: string, programs: seq<string>): bool {
    if programs == [] then false
    else
      var fp := Lower(programs[0]);
      Contains(Lower(name), fp) || Contains(Lower(path), fp) || IsForbidden(name, path, programs[1..])
  }

  /** A process is forbidden exactly when some program, lower-cased, occurs in its
      lower-cased name or in its lower-cased path. */
  lemma {:induction false} IsForbiddenSpec(name: string, path: string, programs: seq<string>)
    ensures IsForbidden(name, path, programs) <==>
              exists k :: 0 <= k < |programs| &&
                (Contains(Lower(name), Lower(programs[k])) || Contains(Lower(path), Lower(programs[k])))
  {
    if programs != [] {
      var tail := programs[1..];
      IsForbiddenSpec(name, path, tail);
      if IsForbidden(name, path, tail) {
        var j :| 0 <= j < |tail| &&
                 (Contains(Lower(name), Lower(tail[j])) || Contains(Lower(path), Lower(tail[j])));
        assert programs[j + 1] == tail[j];
      }
      assert forall k :: 0 < k < |programs| ==> programs[k] == tail[k - 1];
    }
  }

  /** A process without a readable main module has the path "Unknown", so a forbidden
      program that occurs in "unknown" (such as "known") blocks every such process. */
  lemma {:induction false} UnknownPathMatches(p: ProcessInfo, programs: seq<string>, k: nat)
    requires p.mainModule.None? && k < |programs|
    requires Contains("unknown", Lower(programs[k]))
    ensures IsForbidden(p.name, GetProcessPath(p), programs)
  {
    assert Lower("Unknown") == "unknown";
    IsForbiddenSpec(p.name, GetProcessPath(p), programs);
  }

  /** The entry a new process gets. */
  function EntryFor(p: ProcessInfo, programs: seq<string>, moderation: bool): ProcessLogEntry {
    var path := GetProcessPath(p);
    ProcessLogEntry(p.name, path, IsForbidden(p.name, path, programs) && moderation)
  }

  /** An entry is blocked exactly when moderation is on and some forbidden program occurs
      in the process's name or path. */
  lemma {:induction false} WasBlockedSpec(p: ProcessInfo, programs: seq<string>, moderation: bool)
    ensures EntryFor(p, programs, moderation).wasBlocked <==>
              moderation && exists k :: (0 <= k < |programs| &&
                (Contains(Lower(p.name), Lower(programs[k])) ||
                 Contains(Lower(GetProcessPath(p)), Lower(programs[k]))))
  {
    IsForbiddenSpec(p.name, GetProcessPath(p), programs);
  }

  /** `.Where(p => !string.IsNullOrEmpty(p.ProcessName))`. */
  function Named(processes: seq<ProcessInfo>): seq<ProcessInfo> {
    if processes == [] then []
    else
      var p := processes[|processes| - 1];
      Named(processes[..|processes| - 1]) + (if p.name != [] then [p] else [])
  }

  /** The snapshot keeps exactly the processes with a non-empty name. */
  lemma {:induction false} NamedSpec(processes: seq<ProcessInfo>)
    ensures forall p :: p in Named(processes) <==> p in processes && p.name != []
  {
    if processes != [] {
      var front := processes[..|processes| - 1];
      NamedSpec(front);
      assert processes == front + [processes[|processes| - 1]];
    }
  }

  /** The keys of a snapshot. */
  function KeySet(s: seq<ProcessInfo>): set<string> {
    if s == [] then {} else KeySet(s[..|s| - 1]) + {ProcessKey(s[|s| - 1])}
  }

  /** Every process of a snapshot has its key in the snapshot's key set. */
  lemma {:induction false} InKeySet(s: seq<ProcessInfo>, i: nat)
    requires i < |s|
    ensures ProcessKey(s[i]) in KeySet(s)
  {
    if i < |s| - 1 {
      InKeySet(s[..|s| - 1], i);
    }
  }

  function KeysOf(s: seq<ProcessInfo>): (r: seq<string>)
    ensures |r| == |s|
    ensures forall i :: 0 <= i < |s| ==> r[i] == ProcessKey(s[i])
  {
    if s == [] then [] else KeysOf(s[..|s| - 1]) + [ProcessKey(s[|s| - 1])]
  }

  /** The processes of a snapshot that a pass starting from `known` treats as new: each
      whose key is neither known nor the key of an earlier process of the snapshot. */
  function NewProcesses(known: set<string>, s: seq<ProcessInfo>): seq<ProcessInfo> {
    if s == [] then []
    else
      var front := s[..|s| - 1];
      var p := s[|s| - 1];
      if ProcessKey(p) in known || ProcessKey(p) in KeySet(front) then NewProcesses(known, front)
      else NewProcesses(known, front) + [p]
  }

  /** How the new processes grow by one snapshot position. */
  lemma {:induction false} NewProcessesSnoc(known: set<string>, s: seq<ProcessInfo>, i: nat)
    requires i < |s|
    ensures KeySet(s[..i + 1]) == KeySet(s[..i]) + {ProcessKey(s[i])}
    ensures NewProcesses(known, s[..i + 1]) ==
              if ProcessKey(s[i]) in known + KeySet(s[..i]) then NewProcesses(known, s[..i])
              else NewProcesses(known, s[..i]) + [s[i]]
  {
    var t := s[..i + 1];
    assert t[..|t| - 1] == s[..i];
    assert t == s[..i] + [s[i]];
  }

  /** The new processes come from the snapshot and have unknown keys. */
  lemma {:induction false} NewProcessesFromSnapshot(known: set<string>, s: seq<ProcessInfo>)
    ensures forall p :: p in NewProcesses(known, s) ==> p in s && ProcessKey(p) !in known
  {
    if s != [] {
      var front := s[..|s| - 1];
      NewProcessesFromSnapshot(known, front);
      assert forall p :: p in front ==> p in s;
    }
  }

  /** The keys of the new processes are the snapshot's keys that are not known. */
  lemma {:induction false} NewProcessesKeys(known: set<string>, s: seq<ProcessInfo>)
    ensures KeySet(NewProcesses(known, s)) == KeySet(s) - known
  {
    if s != [] {
      var front := s[..|s| - 1];
      var p := s[|s| - 1];
      NewProcessesKeys(known, front);
      var n := NewProcesses(known, front);
      if !(ProcessKey(p) in known || ProcessKey(p) in KeySet(front)) {
        var m := n + [p];
        assert m[..|m| - 1] == n;
      }
    }
  }

  /** No key is reported twice in one pass. */
  lemma {:induction false} NewProcessesDistinct(known: set<string>, s: seq<ProcessInfo>)
    ensures NoDuplicates(KeysOf(NewProcesses(known, s)))
  {
    if s != [] {
      var front := s[..|s| - 1];
      var p := s[|s| - 1];
      NewProcessesDistinct(known, front);
      var n := NewProcesses(known, front);
      if !(ProcessKey(p) in known || ProcessKey(p) in KeySet(front)) {
        NewProcessesKeys(known, front);
        KeysOfSnoc(n, p);
        forall i | 0 <= i < |n| ensures ProcessKey(n[i]) != ProcessKey(p) {
          InKeySet(n, i);
        }
      }
    }
  }

  lemma {:induction false} KeysOfSnoc(n: seq<ProcessInfo>, p: ProcessInfo)
    ensures KeysOf(n + [p]) == KeysOf(n) + [ProcessKey(p)]
  {
    var m := n + [p];
    assert m[..|m| - 1] == n;
  }

  /** The entries the pass creates for the new processes, in snapshot order. */
  function Entries(ps: seq<ProcessInfo>, programs: seq<string>, moderation: bool): seq<ProcessLogEntry> {
    if ps == [] then [] else Entries(ps[..|ps| - 1], programs, moderation) + [EntryFor(ps[|ps| - 1], programs, moderation)]
  }

  /** One entry per new process, for that process. */
  lemma {:induction false} EntriesSpec(ps: seq<ProcessInfo>, programs: seq<string>, moderation: bool)
    ensures |Entries(ps, programs, moderation)| == |ps|
    ensures forall i :: 0 <= i < |ps| ==> Entries(ps, programs, moderation)[i] == EntryFor(ps[i], programs, moderation)
  {
    if ps != [] {
      EntriesSpec(ps[..|ps| - 1], programs, moderation);
    }
  }

  /** The blocked entries among `es`, in order. */
  function Blocked(es: seq<ProcessLogEntry>): seq<ProcessLogEntry> {
    if es == [] then []
    else Blocked(es[..|es| - 1]) + (if es[|es| - 1].wasBlocked then [es[|es| - 1]] else [])
  }

  /** Blocked keeps exactly the entries marked as blocked. */
  lemma {:induction false} BlockedSpec(es: seq<ProcessLogEntry>)
    ensures forall e :: e in Blocked(es) <==> e in es && e.wasBlocked
  {
    if es != [] {
      var front := es[..|es| - 1];
      BlockedSpec(front);
      assert es == front + [es[|es| - 1]];
    }
  }

  /** Without moderation nothing is blocked. */
  lemma {:induction false} NothingBlockedWithoutModeration(ps: seq<ProcessInfo>, programs: seq<string>)
    ensures Blocked(Entries(ps, programs, false)) == []
  {
    if ps != [] {
      var front := ps[..|ps| - 1];
      NothingBlockedWithoutModeration(front, programs);
    }
  }

  lemma {:induction false} EntriesSnoc(ps: seq<ProcessInfo>, p: ProcessInfo, programs: seq<string>, moderation: bool)
    ensures Entries(ps + [p], programs, moderation) == Entries(ps, programs, moderation) + [EntryFor(p, programs, moderation)]
  {
    var m := ps + [p];
    assert m[..|m| - 1] == ps;
  }

  lemma {:induction false} BlockedSnoc(es: seq<ProcessLogEntry>, e: ProcessLogEntry)
    ensures Blocked(es + [e]) == Blocked(es) + (if e.wasBlocked then [e] else [])
  {
    var m := es + [e];
    assert m[..|m| - 1] == es;
  }

  /** What a pass has built so far: the known keys and the entries logged and blocked. */
  datatype PassState = PassState(known: set<string>, logged: seq<ProcessLogEntry>, blocked: seq<ProcessLogEntry>)

  /** The body of the pass for one process: nothing for a known key; otherwise the key is
      added and the entry blocked when forbidden under moderation, logged under statistics. */
  function Visit(st: PassState, p: ProcessInfo, programs: seq<string>, statistics: bool, moderation: bool): PassState {
    var key := ProcessKey(p);
    if key in st.known then st
    else
      var e := EntryFor(p, programs, moderation);
      PassState(st.known + {key},
                st.logged + (if statistics then [e] else []),
                st.blocked + (if e.wasBlocked then [e] else []))
  }

  /** The loop of the pass over a snapshot, before the known set is pruned. */
  function Pass(st: PassState, s: seq<ProcessInfo>, programs: seq<string>, statistics: bool, moderation: bool): PassState {
    if s == [] then st
    else Visit(Pass(st, s[..|s| - 1], programs, statistics, moderation), s[|s| - 1], programs, statistics, moderation)
  }

  /** The loop adds every key of the snapshot, and logs and blocks the entries of the new
      processes, in snapshot order. */
  lemma {:induction false} PassSpec(st: PassState, s: seq<ProcessInfo>, programs: seq<string>, statistics: bool, moderation: bool)
    ensures var r := Pass(st, s, programs, statistics, moderation);
            var es := Entries(NewProcesses(st.known, s), programs, moderation);
            r.known == st.known + KeySet(s) &&
            r.logged == st.logged + (if statistics then es else []) &&
            r.blocked == st.blocked + Blocked(es)
  {
    PassKnown(st, s, programs, statistics, moderation);
    PassEntries(st, s, programs, statistics, moderation);
  }

  lemma {:induction false} PassKnown(st: PassState, s: seq<ProcessInfo>, programs: seq<string>, statistics: bool, moderation: bool)
    ensures Pass(st, s, programs, statistics, moderation).known == st.known + KeySet(s)
  {
    if s != [] {
      PassKnown(st, s[..|s| - 1], programs, statistics, moderation);
    }
  }

  lemma {:induction false} PassEntries(st: PassState, s: seq<ProcessInfo>, programs: seq<string>, statistics: bool, moderation: bool)
    ensures var r := Pass(st, s, programs, statistics, moderation);
            var es := Entries(NewProcesses(st.known, s), programs, moderation);
            r.logged == st.logged + (if statistics then es else []) &&
            r.blocked == st.blocked + Blocked(es)
  {
    if s != [] {
      var front := s[..|s| - 1];
      var p := s[|s| - 1];
      PassEntries(st, front, programs, statistics, moderation);
      PassKnown(st, front, programs, statistics, moderation);
      NewProcessesSnoc(st.known, s, |s| - 1);
      assert s[..|s|] == s;
      var n := NewProcesses(st.known, front);
      var es := Entries(n, programs, moderation);
      if ProcessKey(p) !in st.known + KeySet(front) {
        var e := EntryFor(p, programs, moderation);
        EntriesSnoc(n, p, programs, moderation);
        BlockedSnoc(es, e);
        AppendSnoc(st.logged, es, e);
        AppendSnoc(st.blocked, Blocked(es), e);
      }
    }
  }

  /** Pruning a union to one of its parts leaves that part. */
  lemma {:induction false} UnionMeet<T>(a: set<T>, b: set<T>)
    ensures (a + b) * b == b
  {
  }

  class ProcessMonitorService {
    var isMonitoring: bool
    var reportPath: string
    var forbiddenPrograms: seq<string>
    var enableStatistics: bool
    var enableModeration: bool
    var knownProcesses: set<string>
    /** The entries raised with ProcessStarted and written to the process log. */
    var logged: seq<ProcessLogEntry>
    /** The entries raised with ForbiddenProcessDetected, killed and reported. */
    var blocked: seq<ProcessLogEntry>
    /** The one CancellationTokenSource, created with the service and never renewed. */
    var cancellationRequested: bool
    var monitoringTask: WorkerTask

    constructor ()
      ensures !isMonitoring && reportPath == [] && forbiddenPrograms == []
      ensures enableStatistics && !enableModeration && knownProcesses == {}
      ensures logged == [] && blocked == [] && !cancellationRequested && monitoringTask == NoTask
    {
      isMonitoring := false;
      reportPath := [];
      forbiddenPrograms := [];
      enableStatistics := true;
      enableModeration := false;
      knownProcesses := {};
      logged := [];
      blocked := [];
      cancellationRequested := false;
      monitoringTask := NoTask;
    }

    /** Whether Stop would throw: `_monitoringTask?.Wait` sees a Canceled task once the
        token is cancelled. */
    predicate StopThrows()
      reads this
    {
      isMonitoring && WaitThrows(AfterCancel(monitoringTask))
    }

    /** Start: ignored while monitoring; otherwise takes the settings, creates the report
        directory (`directoryOk`: whether it exists or can be created; otherwise the call
        throws before monitoring begins), begins, forgets every known process and starts
        the worker. On the cancelled token of a restarted service the worker's loop ends
        at once. */
    method Start(path: string, programs: seq<string>, statistics: bool, moderation: bool,
                 directoryOk: bool) returns (threw: bool)
      modifies this
      ensures old(isMonitoring) ==> unchanged(this) && !threw
      ensures threw <==> !old(isMonitoring) && !directoryOk
      ensures !old(isMonitoring) ==>
                reportPath == path && forbiddenPrograms == programs &&
                enableStatistics == statistics && enableModeration == moderation
      ensures threw ==>
                !isMonitoring && knownProcesses == old(knownProcesses) &&
                monitoringTask == old(monitoringTask)
      ensures !old(isMonitoring) && !threw ==>
                isMonitoring && knownProcesses == {} &&
                monitoringTask == (if cancellationRequested then Ended else Running)
      ensures logged == old(logged) && blocked == old(blocked)
      ensures cancellationRequested == old(cancellationRequested)
    {
      if isMonitoring {
        return false;
      }
      reportPath := path;
      forbiddenPrograms := programs;
      enableStatistics := statistics;
      enableModeration := moderation;
      if !directoryOk {
        return true;
      }
      isMonitoring := true;
      knownProcesses := {};
      monitoringTask := if cancellationRequested then Ended else Running;
      threw := false;
    }

    /** Stop: ignored while not monitoring; otherwise ends monitoring, cancels the token
        and waits for the worker, which throws when the worker ended Canceled. */
    method Stop() returns (threw: bool)
      modifies this
      ensures !old(isMonitoring) ==> unchanged(this) && !threw
      ensures threw <==> old(StopThrows())
      ensures old(isMonitoring) ==>
                !isMonitoring && cancellationRequested &&
                monitoringTask == AfterCancel(old(monitoringTask))
      ensures knownProcesses == old(knownProcesses) && logged == old(logged) && blocked == old(blocked)
      ensures forbiddenPrograms == old(forbiddenPrograms) && enableModeration == old(enableModeration)
      ensures reportPath == old(reportPath) && enableStatistics == old(enableStatistics)
    {
      if !isMonitoring {
        return false;
      }
      isMonitoring := false;
      cancellationRequested := true;
      monitoringTask := AfterCancel(monitoringTask);
      threw := WaitThrows(monitoringTask);
    }

    /** One pass of MonitoringWorker under the lock: every process with an unknown key is
        recorded, checked and (with statistics on) logged; then the known set becomes the
        keys of the snapshot. */
    method MonitorPass(processes: seq<ProcessInfo>)
      modifies this
      ensures var s := Named(processes);
              var es := Entries(NewProcesses(old(knownProcesses), s), forbiddenPrograms, enableModeration);
              knownProcesses == KeySet(s) &&
              logged == old(logged) + (if enableStatistics then es else []) &&
              blocked == old(blocked) + Blocked(es)
      ensures isMonitoring == old(isMonitoring) && forbiddenPrograms == old(forbiddenPrograms)
      ensures enableStatistics == old(enableStatistics) && enableModeration == old(enableModeration)
      ensures reportPath == old(reportPath)
      ensures cancellationRequested == old(cancellationRequested) && monitoringTask == old(monitoringTask)
    {
      var s := Named(processes);
      var r := VisitAll(PassState(knownProcesses, logged, blocked), s, forbiddenPrograms, enableStatistics, enableModeration);
      PassSpec(PassState(knownProcesses, logged, blocked), s, forbiddenPrograms, enableStatistics, enableModeration);
      var activeKeys := KeySet(s);
      UnionMeet(knownProcesses, activeKeys);
      knownProcesses := r.known * activeKeys;
      logged := r.logged;
      blocked := r.blocked;
    }

    /** The `foreach` of the pass, from the state before it. */
    static method VisitAll(start: PassState, s: seq<ProcessInfo>, programs: seq<string>, statistics: bool, moderation: bool)
      returns (r: PassState)
      ensures r == Pass(start, s, programs, statistics, moderation)
    {
      var known, log, kills := start.known, start.logged, start.blocked;
      var i := 0;
      while i < |s|
        invariant 0 <= i <= |s|
        invariant PassState(known, log, kills) == Pass(start, s[..i], programs, statistics, moderation)
      {
        var p := s[i];
        var key := ProcessKey(p);
        if key !in known {
          known := known + {key};
          var entry := ProcessLogEntry(p.name, GetProcessPath(p), false);
          var isForbidden := IsForbidden(p.name, entry.processPath, programs);
          if isForbidden && moderation {
            entry := entry.(wasBlocked := true);
            kills := kills + [entry];
          }
          if statistics {
            log := log + [entry];
          }
        }
        assert s[..i + 1][..i] == s[..i];
        i := i + 1;
      }
      assert s[..i] == s;
      r := PassState(known, log, kills);
    }
  }

  /** A process still running at the next pass is not reported again. */
  lemma {:induction false} ReportedOnce(s1: seq<ProcessInfo>, s2: seq<ProcessInfo>, p: ProcessInfo)
    requires p in s1
    ensures forall q :: q in NewProcesses(KeySet(s1), s2) ==> ProcessKey(q) != ProcessKey(p)
  {
    NewProcessesFromSnapshot(KeySet(s1), s2);
    var i :| 0 <= i < |s1| && s1[i] == p;
    InKeySet(s1, i);
  }

  /** A first session: whatever process lists the passes see between Start and Stop, the
      worker is still running when the token turns, so the Stop that ends the session
      throws. */
  method FirstSession(path: string, programs: seq<string>, statistics: bool, moderation: bool,
                      directoryOk: bool, passes: seq<seq<ProcessInfo>>)
    returns (startThrew: bool, stopThrew: bool)
    ensures startThrew <==> !directoryOk
    ensures stopThrew <==> directoryOk
  {
    var service := new ProcessMonitorService();
    startThrew := service.Start(path, programs, statistics, moderation, directoryOk);
    var i := 0;
    while i < |passes|
      invariant 0 <= i <= |passes|
      invariant service.isMonitoring == directoryOk
      invariant service.isMonitoring ==> service.monitoringTask == Running
    {
      service.MonitorPass(passes[i]);
      i := i + 1;
    }
    stopThrew := service.Stop();
  }
}
