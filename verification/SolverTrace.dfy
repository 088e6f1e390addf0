/**
 Reading a process trace to learn which solver processes ran, which are still running, and
 whether one was ended by a `timeout` wrapper somewhere above it.
 */
module SolverTrace {
  import opened Wrappers

  /** A trace line after pattern matching; `Noise` is every line that is skipped. */
  datatype Line =
    | Exec(pid: int, isTimeout: bool, runsSolver: bool)
    | Exit(pid: int, killedBy: Option<string>)
    | Signalled(pid: int, name: string)
    | Spawn(pid: int, child: int)
    | Noise

  // ---- What the trace says about a process, among its first n lines --------

  predicate StartsSolver(line: Line, pid: int) {
    line.Exec? && line.runsSolver && line.pid == pid
  }

  ghost predicate IsSolver(lines: seq<Line>, n: nat, pid: int)
    requires n <= |lines|
  {
    exists i :: 0 <= i < n && StartsSolver(lines[i], pid)
  }

  ghost predicate IsTimeout(lines: seq<Line>, n: nat, pid: int)
    requires n <= |lines|
  {
    exists i :: 0 <= i < n && lines[i].Exec? && lines[i].isTimeout && lines[i].pid == pid
  }

  predicate Exits(line: Line, pid: int) {
    line.Exit? && line.pid == pid
  }

  /** Line i starts the solver, and no exit of the process follows among the first n lines. */
  ghost predicate RunningSince(lines: seq<Line>, n: nat, pid: int, i: nat)
    requires n <= |lines|
  {
    i < n && StartsSolver(lines[i], pid) && forall j :: i < j < n ==> !Exits(lines[j], pid)
  }

  /** The process started the solver and has not exited since. */
  ghost predicate IsActive(lines: seq<Line>, n: nat, pid: int)
    requires n <= |lines|
  {
    exists i: nat :: RunningSince(lines, n, pid, i)
  }

  /** The solver process got a termination signal after it had started. */
  ghost predicate GotSignal(lines: seq<Line>, n: nat, pid: int)
    requires n <= |lines|
  {
    exists i :: 0 <= i < n && lines[i].Signalled? && lines[i].pid == pid && IsSolver(lines, i, pid)
  }

  /** The parent that most recently spawned the process: process ids are reused. */
  function ParentOf(lines: seq<Line>, n: nat, pid: int): Option<int>
    requires n <= |lines|
  {
    if n == 0 then None
    else if lines[n - 1].Spawn? && lines[n - 1].child == pid then Some(lines[n - 1].pid)
    else ParentOf(lines, n - 1, pid)
  }

  datatype Trace = Trace(solverPids: set<int>, activeSolverPids: set<int>, timeoutPids: set<int>,
                         parents: map<int, int>, gnuTimeoutObserved: bool)

  lemma ActiveStep(lines: seq<Line>, n: nat, pid: int)
    requires n < |lines|
    ensures IsActive(lines, n + 1, pid) <==>
              StartsSolver(lines[n], pid) || (IsActive(lines, n, pid) && !Exits(lines[n], pid))
  {
    var end := n + 1;
    if StartsSolver(lines[n], pid) {
      assert RunningSince(lines, end, pid, n);
    } else if IsActive(lines, end, pid) {
      var i: nat :| RunningSince(lines, end, pid, i);
      assert RunningSince(lines, n, pid, i);
    } else if IsActive(lines, n, pid) && !Exits(lines[n], pid) {
      var i: nat :| RunningSince(lines, n, pid, i);
      assert RunningSince(lines, end, pid, i);
    }
  }

  method ParseTrace(lines: seq<Line>) returns (trace: Trace)
    ensures forall pid :: pid in trace.solverPids <==> IsSolver(lines, |lines|, pid)
    ensures forall pid :: pid in trace.activeSolverPids <==> IsActive(lines, |lines|, pid)
    ensures forall pid :: pid in trace.timeoutPids <==> IsTimeout(lines, |lines|, pid)
    ensures forall pid :: ParentOf(lines, |lines|, pid) == if pid in trace.parents then Some(trace.parents[pid]) else None
    ensures trace.gnuTimeoutObserved <==>
              exists pid :: GotSignal(lines, |lines|, pid) && TimeoutAbove(trace.parents, trace.timeoutPids, pid)
  {
    var solverPids: set<int>, active: set<int>, timeoutPids: set<int>, received: set<int> := {}, {}, {}, {};
    var parents: map<int, int> := map[];
    for n := 0 to |lines|
      invariant forall pid :: pid in solverPids <==> IsSolver(lines, n, pid)
      invariant forall pid :: pid in active <==> IsActive(lines, n, pid)
      invariant forall pid :: pid in timeoutPids <==> IsTimeout(lines, n, pid)
      invariant forall pid :: pid in received <==> GotSignal(lines, n, pid)
      invariant forall pid :: ParentOf(lines, n, pid) == if pid in parents then Some(parents[pid]) else None
    {
      forall pid
        ensures IsActive(lines, n + 1, pid) <==>
                  StartsSolver(lines[n], pid) || (IsActive(lines, n, pid) && !Exits(lines[n], pid))
      {
        ActiveStep(lines, n, pid);
      }
      match lines[n] {
        case Exec(pid, isTimeout, runsSolver) =>
          if isTimeout {
            timeoutPids := timeoutPids + {pid};
          }
          if runsSolver {
            solverPids := solverPids + {pid};
            active := active + {pid};
          }
        case Exit(pid, _) =>
          if pid in active {
            active := active - {pid};
          }
        case Signalled(pid, _) =>
          if pid in solverPids {
            received := received + {pid};
          }
        case Spawn(pid, child) =>
          parents := parents[child := pid];
        case Noise =>
      }
    }
    var observed := AnyTimeoutAbove(parents, timeoutPids, received);
    trace := Trace(solverPids, active, timeoutPids, parents, observed);
  }

  method AnyTimeoutAbove(parents: map<int, int>, timeoutPids: set<int>, pids: set<int>) returns (observed: bool)
    ensures observed <==> exists pid :: pid in pids && TimeoutAbove(parents, timeoutPids, pid)
  {
    observed := false;
    var pending := pids;
    while pending != {}
      invariant pending <= pids
      invariant observed <==> exists pid :: pid in pids && pid !in pending && TimeoutAbove(parents, timeoutPids, pid)
      decreases |pending|
    {
      ghost var some := NonEmpty(pending);
      var pid :| pid in pending;
      var above := HasTimeoutAncestor(parents, timeoutPids, pid);
      observed := observed || above;
      pending := pending - {pid};
    }
  }

  // ---- Ancestors -----------------------------------------------------------

  /** The process k parent steps above. */
  function Ancestor(parents: map<int, int>, pid: int, k: nat): Option<int> {
    if k == 0 then Some(pid)
    else
      match Ancestor(parents, pid, k - 1)
      case Some(q) => if q in parents then Some(parents[q]) else None
      case None => None
  }

  predicate TimeoutAt(parents: map<int, int>, timeoutPids: set<int>, pid: int, k: nat) {
    k >= 1 && Ancestor(parents, pid, k).Some? && Ancestor(parents, pid, k).value in timeoutPids
  }

  ghost predicate TimeoutAbove(parents: map<int, int>, timeoutPids: set<int>, pid: int) {
    exists k: nat :: TimeoutAt(parents, timeoutPids, pid, k)
  }

  /** The ancestor chain has come back to a process it already visited. */
  ghost predicate Cycle(parents: map<int, int>, pid: int, m: nat, n: nat) {
    m < n && Ancestor(parents, pid, n).Some? && Ancestor(parents, pid, n) == Ancestor(parents, pid, m)
  }

  /** On a cycle every later ancestor is one of those already seen. */
  lemma {:induction false} CycleRepeats(parents: map<int, int>, pid: int, m: nat, n: nat, k: nat) returns (j: nat)
    requires Cycle(parents, pid, m, n) && k >= 1 && Ancestor(parents, pid, k).Some?
    ensures 1 <= j <= n && Ancestor(parents, pid, k) == Ancestor(parents, pid, j)
  {
    if k <= n {
      j := k;
    } else {
      j := CycleRepeats(parents, pid, m, n, k - 1);
      j := if j < n then j + 1 else m + 1;
    }
  }

  lemma {:induction false} ChainEnds(parents: map<int, int>, pid: int, n: nat, k: nat)
    requires Ancestor(parents, pid, n).Some? && Ancestor(parents, pid, n).value !in parents && k > n
    ensures Ancestor(parents, pid, k) == None
  {
    if k > n + 1 {
      ChainEnds(parents, pid, n, k - 1);
    }
  }

  /** The first n processes of the ancestor chain, the process itself included. */
  ghost function Visited(parents: map<int, int>, pid: int, n: nat): set<int> {
    if n == 0 then {}
    else
      Visited(parents, pid, n - 1)
      + match Ancestor(parents, pid, n - 1) case Some(q) => {q} case None => {}
  }

  lemma {:induction false} VisitedAt(parents: map<int, int>, pid: int, n: nat, q: int) returns (m: nat)
    requires q in Visited(parents, pid, n)
    ensures m < n && Ancestor(parents, pid, m) == Some(q)
  {
    if Ancestor(parents, pid, n - 1) == Some(q) {
      m := n - 1;
    } else {
      m := VisitedAt(parents, pid, n - 1, q);
    }
  }

  /** Once the chain has ended or closed, no later ancestor is a new one. */
  lemma NoLaterTimeout(parents: map<int, int>, timeoutPids: set<int>, pid: int, n: nat, k: nat)
    requires Ancestor(parents, pid, n).Some?
    requires Ancestor(parents, pid, n).value !in parents || Ancestor(parents, pid, n).value in Visited(parents, pid, n)
    requires forall j :: 1 <= j <= n ==> !TimeoutAt(parents, timeoutPids, pid, j)
    ensures !TimeoutAt(parents, timeoutPids, pid, k)
  {
    if k > n && Ancestor(parents, pid, k).Some? {
      if Ancestor(parents, pid, n).value !in parents {
        ChainEnds(parents, pid, n, k);
      } else {
        var m := VisitedAt(parents, pid, n, Ancestor(parents, pid, n).value);
        var j := CycleRepeats(parents, pid, m, n, k);
        assert !TimeoutAt(parents, timeoutPids, pid, j);
      }
    }
  }

  /** Ends even on cyclic parent maps, and finds a timeout process at any number of steps up. */
  method HasTimeoutAncestor(parents: map<int, int>, timeoutPids: set<int>, pid: int) returns (found: bool)
    ensures found <==> TimeoutAbove(parents, timeoutPids, pid)
  {
    var seen: set<int> := {};
    var current := pid;
    ghost var n: nat := 0;
    while current in parents && current !in seen
      invariant Ancestor(parents, pid, n) == Some(current)
      invariant seen == Visited(parents, pid, n)
      invariant seen <= parents.Keys
      invariant forall k :: 1 <= k <= n ==> !TimeoutAt(parents, timeoutPids, pid, k)
      decreases parents.Keys - seen
    {
      seen := seen + {current};
      current := parents[current];
      n := n + 1;
      assert Ancestor(parents, pid, n) == Some(current);
      if current in timeoutPids {
        assert TimeoutAt(parents, timeoutPids, pid, n);
        return true;
      }
    }
    forall k: nat
      ensures !TimeoutAt(parents, timeoutPids, pid, k)
    {
      NoLaterTimeout(parents, timeoutPids, pid, n, k);
    }
    found := false;
  }
}
