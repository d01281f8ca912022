/** Reading source files with a pool of asynchronous workers that share one cursor.
    scripts/check-temp-path-guardrails.ts, readRuntimeSourceFiles. */
module ReadPool {
  import opened Text

  const FILE_READ_CONCURRENCY := 24

  datatype SourceFile = SourceFile(relativePath: string, source: string)

  /** A worker between two awaits: not yet started, awaiting the read of one file, returned. */
  datatype Worker = Fresh | Reading(index: nat) | Returned

  /** What the file system answers for a path; None when the read fails. */
  type FileReads = string -> Option<string>

  /** What belongs at a path's place in the output. */
  function Entry(read: FileReads, relative: string -> string, path: string): Option<SourceFile> {
    if path == "" then None
    else match read(path)
      case None => None
      case Some(source) => Some(SourceFile(relative(path), source))
  }

  /** Reading the files one after the other and keeping those that could be read. */
  function ReadInOrder(read: FileReads, relative: string -> string, paths: seq<string>): seq<SourceFile> {
    if paths == [] then []
    else
      var rest := ReadInOrder(read, relative, paths[1..]);
      match Entry(read, relative, paths[0])
      case None => rest
      case Some(file) => [file] + rest
  }

  /** Reading in order keeps, for each path that is not empty and can be read, its relative
      path and its text, at its place. */
  lemma {:induction false} ReadingMeaning(
      read: FileReads, relative: string -> string, a: seq<string>, path: string, b: seq<string>)
    ensures ReadInOrder(read, relative, a + [path] + b)
      == ReadInOrder(read, relative, a)
         + (if path != "" && read(path).Some? then [SourceFile(relative(path), read(path).value)] else [])
         + ReadInOrder(read, relative, b)
    ensures ReadInOrder(read, relative, []) == []
  {
    var all := a + [path] + b;
    if a == [] {
      assert all[0] == path && all[1..] == b;
    } else {
      assert all[0] == a[0] && all[1..] == a[1..] + [path] + b;
      ReadingMeaning(read, relative, a[1..], path, b);
    }
  }

  function Defined(output: seq<Option<SourceFile>>): seq<SourceFile> {
    if output == [] then []
    else if output[0].Some? then [output[0].value] + Defined(output[1..])
    else Defined(output[1..])
  }

  lemma DefinedInOrder(read: FileReads, relative: string -> string, paths: seq<string>, output: seq<Option<SourceFile>>)
    requires |output| == |paths|
    requires forall i :: 0 <= i < |paths| ==> output[i] == Entry(read, relative, paths[i])
    ensures Defined(output) == ReadInOrder(read, relative, paths)
  {
    if paths != [] {
      DefinedInOrder(read, relative, paths[1..], output[1..]);
    }
  }

  function Range(from: nat, to: nat): seq<nat> {
    if from >= to then [] else Range(from, to - 1) + [to - 1]
  }

  lemma RangeJoin(a: nat, b: nat, c: nat)
    requires a <= b <= c
    ensures Range(a, b) + Range(b, c) == Range(a, c)
  {
    if b < c {
      RangeJoin(a, b, c - 1);
      assert Range(a, b) + Range(b, c) == Range(a, b) + Range(b, c - 1) + [c - 1];
    } else {
      assert Range(a, b) + [] == Range(a, b);
    }
  }

  lemma RangeEmpty(a: nat)
    ensures Range(a, a) == []
  {
  }

  /** From one await to the next: the indices a worker claims, passing over empty paths,
      until it awaits a read or returns. */
  method Claim(paths: seq<string>, cursor: nat) returns (worker: Worker, next: nat, claimed: seq<nat>)
    ensures next > cursor && !worker.Fresh?
    ensures claimed == Range(Min(cursor, |paths|), Min(next, |paths|))
    ensures worker.Returned? ==> next > |paths|
    ensures worker.Reading? ==> worker.index == next - 1 && next <= |paths| && paths[worker.index] != ""
    ensures forall i :: cursor <= i < next && i < |paths| && worker != Reading(i) ==> paths[i] == ""
  {
    next, claimed := cursor, [];
    while true
      invariant cursor <= next && (next <= |paths| || next == cursor)
      invariant claimed == Range(Min(cursor, |paths|), Min(next, |paths|))
      invariant forall i :: cursor <= i < next && i < |paths| ==> paths[i] == ""
      decreases |paths| - next
    {
      var index := next;
      next := next + 1;
      if index >= |paths| {
        return Returned, next, claimed;
      }
      claimed := claimed + [index];
      if paths[index] != "" {
        return Reading(index), next, claimed;
      }
    }
  }

  /** Whether some worker is awaiting the file at `i`. */
  ghost predicate InFlight(workers: seq<Worker>, i: nat) {
    exists w :: 0 <= w < |workers| && workers[w] == Reading(i)
  }

  lemma FlightsAfter(workers: seq<Worker>, w: nat, worker: Worker)
    requires w < |workers|
    ensures forall i :: InFlight(workers, i) && workers[w] != Reading(i) ==> InFlight(workers[w := worker], i)
    ensures forall i :: worker == Reading(i) ==> InFlight(workers[w := worker], i)
  {
    var after := workers[w := worker];
    forall i | InFlight(workers, i) && workers[w] != Reading(i) ensures InFlight(after, i) {
      var v :| 0 <= v < |workers| && workers[v] == Reading(i);
      assert after[v] == Reading(i);
    }
    assert after[w] == worker;
  }

  lemma NothingInFlight(workers: seq<Worker>)
    requires forall w :: 0 <= w < |workers| ==> workers[w].Returned?
    ensures forall i :: !InFlight(workers, i)
  {
  }

  /** How many workers have not returned. */
  function Unfinished(workers: seq<Worker>): (r: nat)
    ensures r == 0 <==> forall w :: 0 <= w < |workers| ==> workers[w].Returned?
  {
    if workers == [] then 0
    else (if workers[0].Returned? then 0 else 1) + Unfinished(workers[1..])
  }

  lemma {:induction false} OneLessUnfinished(workers: seq<Worker>, w: nat)
    requires w < |workers| && !workers[w].Returned?
    ensures Unfinished(workers[w := Returned]) == Unfinished(workers) - 1
  {
    if w > 0 {
      assert workers[w := Returned][1..] == workers[1..][w - 1 := Returned];
      OneLessUnfinished(workers[1..], w - 1);
    } else {
      assert workers[0 := Returned][1..] == workers[1..];
    }
  }

  ghost predicate NoSharing(workers: seq<Worker>) {
    forall v, w :: 0 <= v < w < |workers| && workers[v].Reading? ==> workers[v] != workers[w]
  }

  /** Below the cursor every place holds its entry or is being read; above, nothing. */
  ghost predicate Filled(read: FileReads, relative: string -> string, paths: seq<string>,
                         output: seq<Option<SourceFile>>, workers: seq<Worker>, cursor: nat) {
    && |output| == |paths|
    && NoSharing(workers)
    && (forall w :: 0 <= w < |workers| && workers[w].Reading? ==>
          workers[w].index < |paths| && workers[w].index < cursor
          && paths[workers[w].index] != "" && output[workers[w].index] == None)
    && (forall i :: 0 <= i < |paths| && i < cursor ==>
          output[i] == Entry(read, relative, paths[i]) || InFlight(workers, i))
    && (forall i :: cursor <= i < |paths| ==> output[i] == None)
  }

  /** The output after a worker's read has ended. */
  function Stored(read: FileReads, relative: string -> string, paths: seq<string>,
                  output: seq<Option<SourceFile>>, worker: Worker): seq<Option<SourceFile>>
    requires |output| == |paths| && (worker.Reading? ==> worker.index < |paths|)
  {
    if worker.Reading? then output[worker.index := Entry(read, relative, paths[worker.index])] else output
  }

  lemma FilledStep(read: FileReads, relative: string -> string, paths: seq<string>,
                   output: seq<Option<SourceFile>>, workers: seq<Worker>, cursor: nat,
                   w: nat, worker: Worker, next: nat)
    requires w < |workers| && next > cursor && !worker.Fresh?
    requires Filled(read, relative, paths, output, workers, cursor)
    requires worker.Reading? ==> worker.index == next - 1 && next <= |paths| && paths[worker.index] != ""
    requires forall i :: cursor <= i < next && i < |paths| && worker != Reading(i) ==> paths[i] == ""
    ensures Filled(read, relative, paths, Stored(read, relative, paths, output, workers[w]), workers[w := worker], next)
  {
    FlightsAfter(workers, w, worker);
    hide InFlight;
    var after, output' := workers[w := worker], Stored(read, relative, paths, output, workers[w]);
    forall i | 0 <= i < |paths| && i < next
      ensures output'[i] == Entry(read, relative, paths[i]) || InFlight(after, i) {
      if i >= cursor && worker != Reading(i) {
        assert paths[i] == "";
      }
    }
    forall v | 0 <= v < |after| && after[v].Reading? ensures output'[after[v].index] == None {
      if v != w {
        assert workers[v].Reading? && workers[v] != workers[w];
      }
    }
  }

  lemma FilledStart(read: FileReads, relative: string -> string, paths: seq<string>,
                    output: seq<Option<SourceFile>>, workers: seq<Worker>)
    requires |output| == |paths| && forall i :: 0 <= i < |output| ==> output[i] == None
    requires forall w :: 0 <= w < |workers| ==> workers[w] == Fresh
    ensures Filled(read, relative, paths, output, workers, 0)
  {
  }

  lemma FilledEnd(read: FileReads, relative: string -> string, paths: seq<string>,
                  output: seq<Option<SourceFile>>, workers: seq<Worker>, cursor: nat)
    requires Filled(read, relative, paths, output, workers, cursor) && cursor >= |paths|
    requires forall w :: 0 <= w < |workers| ==> workers[w].Returned?
    ensures Defined(output) == ReadInOrder(read, relative, paths)
  {
    NothingInFlight(workers);
    DefinedInOrder(read, relative, paths, output);
  }

  /** The end of an awaited read: a failed read leaves its place undefined. */
  method FinishRead(read: FileReads, relative: string -> string, paths: seq<string>,
                    output: array<Option<SourceFile>>, worker: Worker)
    requires output.Length == |paths|
    requires worker.Reading? ==>
      worker.index < |paths| && paths[worker.index] != "" && output[worker.index] == None
    modifies output
    ensures output[..] == Stored(read, relative, paths, old(output[..]), worker)
  {
    if worker.Reading? {
      var source := read(paths[worker.index]);
      if source.Some? {
        output[worker.index] := Some(SourceFile(relative(paths[worker.index]), source.value));
      }
    }
  }

  /** One worker from one await to the next: it finishes its read, then claims anew. */
  method Resume(read: FileReads, relative: string -> string, paths: seq<string>,
                output: array<Option<SourceFile>>, ghost workers: seq<Worker>, w: nat, worker: Worker, cursor: nat)
      returns (worker': Worker, next: nat, claimed: seq<nat>)
    requires w < |workers| && workers[w] == worker
    requires Filled(read, relative, paths, output[..], workers, cursor)
    modifies output
    ensures Filled(read, relative, paths, output[..], workers[w := worker'], next)
    ensures next > cursor && !worker'.Fresh?
    ensures worker'.Returned? ==> next > |paths|
    ensures worker'.Reading? ==> next <= |paths|
    ensures claimed == Range(Min(cursor, |paths|), Min(next, |paths|))
  {
    ghost var before := output[..];
    FinishRead(read, relative, paths, output, worker);
    hide Filled, Stored, Range;
    worker', next, claimed := Claim(paths, cursor);
    FilledStep(read, relative, paths, before, workers, cursor, w, worker', next);
  }

  /** Any schedule: at every turn an arbitrary unfinished worker resumes, finishes the read
      it awaits, and runs to its next await. */
  method RunWorkers(read: FileReads, relative: string -> string, paths: seq<string>,
                    output: array<Option<SourceFile>>, start: seq<Worker>) returns (claims: seq<nat>)
    requires output.Length == |paths| && |start| > 0
    requires forall i :: 0 <= i < |paths| ==> output[i] == None
    requires forall w :: 0 <= w < |start| ==> start[w] == Fresh
    modifies output
    ensures Defined(output[..]) == ReadInOrder(read, relative, paths)
    ensures claims == Range(0, |paths|)
  {
    var workers, nextIndex := start, 0;
    claims := [];
    FilledStart(read, relative, paths, output[..], workers);
    RangeEmpty(0);
    hide Filled, Range, ReadInOrder, Defined, Unfinished;
    while Unfinished(workers) > 0
      invariant |workers| == |start|
      invariant forall w :: 0 <= w < |workers| && workers[w].Returned? ==> nextIndex >= |paths|
      invariant claims == Range(0, Min(nextIndex, |paths|))
      invariant Filled(read, relative, paths, output[..], workers, nextIndex)
      decreases |paths| - Min(nextIndex, |paths|), Unfinished(workers)
    {
      var w :| 0 <= w < |workers| && !workers[w].Returned?;
      var worker, next, claimed := Resume(read, relative, paths, output, workers, w, workers[w], nextIndex);
      RangeJoin(0, Min(nextIndex, |paths|), Min(next, |paths|));
      OneLessUnfinished(workers, w);
      workers := workers[w := worker];
      nextIndex := next;
      claims := claims + claimed;
    }
    assert workers[0].Returned?;
    FilledEnd(read, relative, paths, output[..], workers, nextIndex);
  }

  /** Under every schedule each index is claimed exactly once, in order, and the files come
      out as the sequential reading lists them. */
  method ReadRuntimeSourceFiles(read: FileReads, relative: string -> string, paths: seq<string>)
      returns (files: seq<SourceFile>, claims: seq<nat>)
    ensures files == ReadInOrder(read, relative, paths)
    ensures claims == Range(0, |paths|)
  {
    var output := new Option<SourceFile>[|paths|](_ => None);
    var count := Min(FILE_READ_CONCURRENCY, if |paths| < 1 then 1 else |paths|);
    claims := RunWorkers(read, relative, paths, output, seq(count, _ => Fresh));
    files := Defined(output[..]);
  }
}
