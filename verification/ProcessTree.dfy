/** The CPU time of a process and all its descendants, from one listing of processes.
    scripts/bench-gateway-restart.ts, readProcessTreeCpuMs. */
module ProcessTree {
  import opened Text
  import opened Reachability

  /** A parsed line of the listing. */
  datatype Row = Row(pid: nat, ppid: nat, cpuMs: nat)

  /** The children that the listing gives a process, repeated rows included. */
  function ChildrenOf(rows: seq<Row>, parent: nat): seq<nat> {
    if rows == [] then []
    else
      var n := |rows| - 1;
      ChildrenOf(rows[..n], parent) + if rows[n].ppid == parent then [rows[n].pid] else []
  }

  /** The time of a process: its last row counts; a process without a row has none. */
  function CpuOf(rows: seq<Row>, pid: nat): nat {
    if rows == [] then 0
    else
      var n := |rows| - 1;
      if rows[n].pid == pid then rows[n].cpuMs else CpuOf(rows[..n], pid)
  }

  function NonZero(pids: seq<nat>): seq<nat> {
    if pids == [] then []
    else (if pids[0] == 0 then [] else [pids[0]]) + NonZero(pids[1..])
  }

  lemma NonZeroMembers(pids: seq<nat>)
    ensures forall p :: p in NonZero(pids) <==> p in pids && p != 0
  {
  }

  /** From each process to its children, process 0 excepted. */
  function Graph(rows: seq<Row>): nat -> seq<nat> {
    (p: nat) => NonZero(ChildrenOf(rows, p))
  }

  ghost function Sum(f: nat -> nat, s: set<nat>): nat {
    if s == {} then 0
    else
      var x :| x in s;
      f(x) + Sum(f, s - {x})
  }

  lemma {:induction false} SumTakesAny(f: nat -> nat, s: set<nat>, x: nat)
    requires x in s
    ensures Sum(f, s) == f(x) + Sum(f, s - {x})
    decreases s
  {
    var y :| y in s && Sum(f, s) == f(y) + Sum(f, s - {y});
    if x != y {
      SumTakesAny(f, s - {y}, x);
      SumTakesAny(f, s - {x}, y);
      assert s - {y} - {x} == s - {x} - {y};
    }
  }

  lemma SumAdds(f: nat -> nat, s: set<nat>, x: nat)
    requires x !in s
    ensures Sum(f, s + {x}) == Sum(f, s) + f(x)
  {
    SumTakesAny(f, s + {x}, x);
    assert s + {x} - {x} == s;
  }

  function Cpu(rows: seq<Row>): nat -> nat {
    (p: nat) => CpuOf(rows, p)
  }

  function Pids(rows: seq<Row>): set<nat> {
    set r | r in rows :: r.pid
  }

  lemma {:induction false} ChildrenHaveRows(rows: seq<Row>, parent: nat, p: nat)
    requires p in ChildrenOf(rows, parent)
    ensures p in Pids(rows)
  {
    var n := |rows| - 1;
    if p in ChildrenOf(rows[..n], parent) {
      ChildrenHaveRows(rows[..n], parent, p);
      var r :| r in rows[..n] && r.pid == p;
      assert r in rows;
    } else {
      assert rows[n] in rows && rows[n].pid == p;
    }
  }

  /** The two tables that the listing is read into. */
  ghost predicate Tables(rows: seq<Row>, children: map<nat, seq<nat>>, cpu: map<nat, nat>) {
    && (forall p :: (if p in children then children[p] else []) == ChildrenOf(rows, p))
    && (forall p :: (if p in cpu then cpu[p] else 0) == CpuOf(rows, p))
    && cpu.Keys == Pids(rows)
  }

  lemma OneMoreRow(rows: seq<Row>, row: Row)
    ensures Pids(rows + [row]) == Pids(rows) + {row.pid}
    ensures forall p :: ChildrenOf(rows + [row], p) == ChildrenOf(rows, p) + if row.ppid == p then [row.pid] else []
    ensures forall p :: CpuOf(rows + [row], p) == if row.pid == p then row.cpuMs else CpuOf(rows, p)
  {
    assert (rows + [row])[..|rows|] == rows;
    assert row in rows + [row];
    assert forall r :: r in rows + [row] <==> r in rows || r == row;
  }

  lemma TablesStep(rows: seq<Row>, row: Row, children: map<nat, seq<nat>>, cpu: map<nat, nat>)
    requires Tables(rows, children, cpu)
    ensures Tables(rows + [row],
      children[row.ppid := (if row.ppid in children then children[row.ppid] else []) + [row.pid]],
      cpu[row.pid := row.cpuMs])
  {
    OneMoreRow(rows, row);
    hide ChildrenOf, CpuOf, Pids;
    assert forall p :: ChildrenOf(rows, p) + [] == ChildrenOf(rows, p);
  }

  method ReadTables(rows: seq<Row>) returns (children: map<nat, seq<nat>>, cpu: map<nat, nat>)
    ensures Tables(rows, children, cpu)
  {
    children, cpu := map[], map[];
    assert Tables([], children, cpu);
    hide Tables;
    for i := 0 to |rows|
      invariant Tables(rows[..i], children, cpu)
    {
      var row := rows[i];
      TablesStep(rows[..i], row, children, cpu);
      assert rows[..i + 1] == rows[..i] + [row];
      cpu := cpu[row.pid := row.cpuMs];
      var siblings := if row.ppid in children then children[row.ppid] else [];
      children := children[row.ppid := siblings + [row.pid]];
    }
    assert rows[..|rows|] == rows;
  }

  /** What is seen is reachable; what a seen process leads to is seen or on the stack. */
  ghost predicate Frontier(rows: seq<Row>, root: nat, seen: set<nat>, stack: seq<nat>) {
    && (forall p :: p in seen || (p in stack && p != 0) ==> Reachable(Graph(rows), root, p))
    && (forall p :: p in seen ==> p in Pids(rows))
    && (forall p :: p in stack ==> p in Pids(rows))
    && (root in seen || root in stack)
    && (forall p, q :: p in seen && q in ChildrenOf(rows, p) && q != 0 ==> q in seen || q in stack)
  }

  lemma FrontierSkip(rows: seq<Row>, root: nat, seen: set<nat>, stack: seq<nat>)
    requires root != 0 && Frontier(rows, root, seen, stack) && stack != []
    requires stack[|stack| - 1] == 0 || stack[|stack| - 1] in seen
    ensures Frontier(rows, root, seen, stack[..|stack| - 1])
  {
    hide Reachable, ChildrenOf, Pids;
    assert forall p :: p in stack ==> p in stack[..|stack| - 1] || p == stack[|stack| - 1];
  }

  lemma FrontierVisit(rows: seq<Row>, root: nat, seen: set<nat>, stack: seq<nat>)
    requires root != 0 && Frontier(rows, root, seen, stack) && stack != []
    requires stack[|stack| - 1] != 0 && stack[|stack| - 1] !in seen
    ensures var pid := stack[|stack| - 1];
      Frontier(rows, root, seen + {pid}, stack[..|stack| - 1] + ChildrenOf(rows, pid))
  {
    hide Reachable, ChildrenOf, Pids;
    var pid, rest := stack[|stack| - 1], stack[..|stack| - 1];
    var children := ChildrenOf(rows, pid);
    assert pid in stack;
    forall q | q in children ensures q in Pids(rows) && (q != 0 ==> Reachable(Graph(rows), root, q)) {
      ChildrenHaveRows(rows, pid, q);
      NonZeroMembers(children);
      if q != 0 {
        ReachStep(Graph(rows), root, pid, q);
      }
    }
    assert forall p :: p in stack ==> p in rest || p == pid;
  }

  lemma FrontierEmpty(rows: seq<Row>, root: nat, seen: set<nat>)
    requires root != 0 && Frontier(rows, root, seen, [])
    ensures forall p :: p in seen <==> Reachable(Graph(rows), root, p)
  {
    hide Reachable, ChildrenOf, Pids;
    forall x, y | x in seen && y in Graph(rows)(x) ensures y in seen {
      NonZeroMembers(ChildrenOf(rows, x));
    }
    ClosedHoldsReachable(Graph(rows), root, seen);
  }

  /** The total is the sum of the times over exactly the processes reachable from the root
      without passing through process 0, each counted once; the walk ends on cyclic parent
      links and repeated rows. Without a listed root there is no total. */
  method ReadProcessTreeCpuMs(rows: seq<Row>, rootPid: nat) returns (total: Option<nat>, ghost tree: set<nat>)
    ensures total.None? <==> rootPid == 0 || rootPid !in Pids(rows)
    ensures total.Some? ==> forall p :: p in tree <==> Reachable(Graph(rows), rootPid, p)
    ensures total.Some? ==> total.value == Sum(Cpu(rows), tree)
  {
    tree := {};
    if rootPid == 0 {
      return None, {};
    }
    var children, cpu := ReadTables(rows);
    if rootPid !in cpu {
      return None, {};
    }
    var totalCpuMs := 0;
    var seen: set<nat> := {};
    var stack := [rootPid];
    ReachRoot(Graph(rows), rootPid);
    hide Reachable, ChildrenOf, CpuOf, Pids, Sum;
    assert Sum(Cpu(rows), {}) == 0 by { SumOfNothing(Cpu(rows)); }
    while |stack| > 0
      invariant Frontier(rows, rootPid, seen, stack)
      invariant totalCpuMs == Sum(Cpu(rows), seen)
      decreases Pids(rows) - seen, |stack|
    {
      var pid := stack[|stack| - 1];
      assert pid in stack;
      if pid == 0 || pid in seen {
        FrontierSkip(rows, rootPid, seen, stack);
        stack := stack[..|stack| - 1];
        continue;
      }
      FrontierVisit(rows, rootPid, seen, stack);
      SumAdds(Cpu(rows), seen, pid);
      seen := seen + {pid};
      totalCpuMs := totalCpuMs + if pid in cpu then cpu[pid] else 0;
      stack := stack[..|stack| - 1] + if pid in children then children[pid] else [];
    }
    FrontierEmpty(rows, rootPid, seen);
    return Some(totalCpuMs), seen;
  }

  lemma SumOfNothing(f: nat -> nat)
    ensures Sum(f, {}) == 0
  {
  }

  // ---------- what the listing says ----------

  ghost predicate RowSays(rows: seq<Row>, parent: nat, child: nat) {
    exists i :: 0 <= i < |rows| && rows[i].ppid == parent && rows[i].pid == child
  }

  lemma RowSaysMore(rows: seq<Row>, row: Row, parent: nat, child: nat)
    ensures RowSays(rows + [row], parent, child) <==>
      RowSays(rows, parent, child) || (row.ppid == parent && row.pid == child)
  {
    var all := rows + [row];
    if RowSays(rows, parent, child) {
      var i :| 0 <= i < |rows| && rows[i].ppid == parent && rows[i].pid == child;
      assert all[i] == rows[i];
    }
    assert all[|rows|] == row;
  }

  /** A process is a child of another exactly if some row says so. */
  lemma {:induction false} ChildrenMeaning(rows: seq<Row>, parent: nat, child: nat)
    ensures child in ChildrenOf(rows, parent) <==> RowSays(rows, parent, child)
  {
    if rows != [] {
      var n := |rows| - 1;
      ChildrenMeaning(rows[..n], parent, child);
      assert rows == rows[..n] + [rows[n]];
      RowSaysMore(rows[..n], rows[n], parent, child);
      hide RowSays;
    }
  }

  /** The row at `i` is the last one of the process. */
  ghost predicate IsLastRow(rows: seq<Row>, pid: nat, i: int) {
    && 0 <= i < |rows| && rows[i].pid == pid
    && forall j :: i < j < |rows| ==> rows[j].pid != pid
  }

  /** The time of a process is that of its last row; a process without a row has none. */
  lemma {:induction false} CpuMeaning(rows: seq<Row>, pid: nat)
    ensures forall i :: IsLastRow(rows, pid, i) ==> CpuOf(rows, pid) == rows[i].cpuMs
    ensures (forall i :: 0 <= i < |rows| ==> rows[i].pid != pid) ==> CpuOf(rows, pid) == 0
  {
    if rows != [] {
      var n := |rows| - 1;
      var init := rows[..n];
      CpuMeaning(init, pid);
      assert CpuOf(rows, pid) == if rows[n].pid == pid then rows[n].cpuMs else CpuOf(init, pid);
      hide CpuOf;
      forall i | IsLastRow(rows, pid, i) ensures CpuOf(rows, pid) == rows[i].cpuMs {
        if i < n {
          assert forall j :: 0 <= j < n ==> init[j] == rows[j];
          assert IsLastRow(init, pid, i);
        }
      }
    }
  }
}
