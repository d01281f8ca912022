/** The check that the published zod artifact is self-contained: a search over the files
    that its relative imports reach.
    scripts/openclaw-npm-postpublish-verify.ts, resolveInstalledDistRelativeImport and
    collectInstalledPluginSdkZodArtifactErrors. */
module ImportClosure {
  import opened Text
  import opened Reachability

  /** An absolute path, normalised: its segments from the root. */
  type Path = seq<string>

  const MAX_JS_BYTES := 6 * 1024 * 1024

  /** What the parser finds in a file. */
  datatype Source = Imports(specifiers: seq<string>) | Unparsable(message: string)

  /** What is at an existing path: a regular file, or anything else. */
  datatype Node = File(size: nat, source: Source) | NotAFile

  type FileSystem = map<Path, Node>

  datatype Error =
    | MissingEntry
    | InvalidFile(path: Path)
    | UnparsableFile(path: Path, message: string)
    | ImportsZod(path: Path, specifier: string)

  // ---------- resolving a relative specifier ----------

  function DirName(path: Path): Path {
    if path == [] then [] else path[..|path| - 1]
  }

  /** Walking the segments of a relative specifier from a directory. */
  function Walk(dir: Path, segments: seq<string>): Path
    decreases |segments|
  {
    if segments == [] then dir
    else if segments[0] == "" || segments[0] == "." then Walk(dir, segments[1..])
    else if segments[0] == ".." then Walk(DirName(dir), segments[1..])
    else Walk(dir + [segments[0]], segments[1..])
  }

  function WithSuffix(path: Path, suffix: string): Path {
    if path == [] then [suffix] else path[..|path| - 1] + [path[|path| - 1] + suffix]
  }

  function Candidates(importer: Path, specifier: string): seq<Path> {
    var base := Walk(DirName(importer), Split(specifier, '/'));
    [base, WithSuffix(base, ".js"), WithSuffix(base, ".mjs"), WithSuffix(base, ".cjs"),
     base + ["index.js"], base + ["index.mjs"], base + ["index.cjs"]]
  }

  /** Strictly inside the directory, as the relative path tells it: it is not empty and
      does not start with two dots. */
  predicate Inside(distRoot: Path, path: Path) {
    && distRoot < path
    && !(".." <= path[|distRoot|])
  }

  predicate Acceptable(fs: FileSystem, distRoot: Path, path: Path) {
    Inside(distRoot, path) && path in fs
  }

  function FirstAcceptable(fs: FileSystem, distRoot: Path, candidates: seq<Path>): Option<Path> {
    if candidates == [] then None
    else if Acceptable(fs, distRoot, candidates[0]) then Some(candidates[0])
    else FirstAcceptable(fs, distRoot, candidates[1..])
  }

  function Resolve(fs: FileSystem, distRoot: Path, importer: Path, specifier: string): Option<Path> {
    if specifier == "" || specifier[0] != '.' then None
    else FirstAcceptable(fs, distRoot, Candidates(importer, specifier))
  }

  lemma {:induction false} FirstAcceptableSkips(fs: FileSystem, distRoot: Path, candidates: seq<Path>, n: nat)
    requires n <= |candidates|
    requires forall i :: 0 <= i < n ==> !Acceptable(fs, distRoot, candidates[i])
    ensures FirstAcceptable(fs, distRoot, candidates) == FirstAcceptable(fs, distRoot, candidates[n..])
  {
    if n > 0 {
      FirstAcceptableSkips(fs, distRoot, candidates[1..], n - 1);
      assert candidates[1..][n - 1..] == candidates[n..];
    }
  }

  /** The candidate at `n` is acceptable and none before it is. */
  ghost predicate IsFirst(fs: FileSystem, distRoot: Path, candidates: seq<Path>, n: int, path: Path) {
    && 0 <= n < |candidates| && candidates[n] == path && Acceptable(fs, distRoot, path)
    && forall j :: 0 <= j < n ==> !Acceptable(fs, distRoot, candidates[j])
  }

  method ResolveInstalledDistRelativeImport(fs: FileSystem, distRoot: Path, importer: Path, specifier: string)
      returns (resolved: Option<Path>)
    ensures resolved == Resolve(fs, distRoot, importer, specifier)
    ensures resolved.None? <==> (specifier == "" || specifier[0] != '.' ||
      forall n :: 0 <= n < |Candidates(importer, specifier)| ==>
        !Acceptable(fs, distRoot, Candidates(importer, specifier)[n]))
    ensures resolved.Some? ==> exists n :: IsFirst(fs, distRoot, Candidates(importer, specifier), n, resolved.value)
    ensures resolved.Some? ==>
      resolved.value in fs && distRoot < resolved.value && !(".." <= resolved.value[|distRoot|])
  {
    if specifier == "" || specifier[0] != '.' {
      return None;
    }
    var candidates := Candidates(importer, specifier);
    hide Candidates, Acceptable;
    for i := 0 to |candidates|
      invariant forall j :: 0 <= j < i ==> !Acceptable(fs, distRoot, candidates[j])
    {
      if Acceptable(fs, distRoot, candidates[i]) {
        FirstAcceptableSkips(fs, distRoot, candidates, i);
        assert IsFirst(fs, distRoot, candidates, i, candidates[i]);
        return Some(candidates[i]);
      }
    }
    FirstAcceptableSkips(fs, distRoot, candidates, |candidates|);
    return None;
  }

  // ---------- where a specifier leads ----------

  /** A name that is a step down: not empty, not a dot or two, without a slash. */
  predicate IsName(segment: string) {
    segment != "" && segment != "." && segment != ".." && '/' !in segment
  }

  function Ups(n: nat): seq<string> {
    if n == 0 then [] else [".."] + Ups(n - 1)
  }

  /** From a directory to a target that shares its first `shared` segments: up to what is
      shared, and down from there. */
  function Route(dir: Path, shared: nat, target: Path): seq<string>
    requires shared <= |dir| && shared <= |target|
  {
    Ups(|dir| - shared) + target[shared..]
  }

  lemma {:induction false} WalkAppend(dir: Path, a: seq<string>, b: seq<string>)
    ensures Walk(dir, a + b) == Walk(Walk(dir, a), b)
    decreases |a|
  {
    if a == [] {
      assert a + b == b;
    } else {
      assert (a + b)[1..] == a[1..] + b;
      var next := if a[0] == "" || a[0] == "." then dir
        else if a[0] == ".." then DirName(dir)
        else dir + [a[0]];
      WalkAppend(next, a[1..], b);
    }
  }

  lemma {:induction false} WalkUp(dir: Path, n: nat)
    requires n <= |dir|
    ensures Walk(dir, Ups(n)) == dir[..|dir| - n]
  {
    if n > 0 {
      assert Ups(n)[1..] == Ups(n - 1);
      WalkUp(dir[..|dir| - 1], n - 1);
      assert dir[..|dir| - 1][..|dir| - n] == dir[..|dir| - n];
    } else {
      assert dir[..|dir|] == dir;
    }
  }

  lemma {:induction false} WalkDown(dir: Path, names: seq<string>)
    requires forall i :: 0 <= i < |names| ==> IsName(names[i])
    ensures Walk(dir, names) == dir + names
    decreases |names|
  {
    if names == [] {
      assert dir + names == dir;
    } else {
      WalkDown(dir + [names[0]], names[1..]);
      assert dir + [names[0]] + names[1..] == dir + names;
    }
  }

  /** Walking the route leads to the target; empty segments and dots on the way, anywhere,
      change nothing. */
  lemma WalkRoute(dir: Path, shared: nat, target: Path)
    requires shared <= |dir| && shared <= |target| && dir[..shared] == target[..shared]
    requires forall i :: shared <= i < |target| ==> IsName(target[i])
    ensures Walk(dir, Route(dir, shared, target)) == target
  {
    hide Walk, Ups, IsName;
    var up, down := |dir| - shared, target[shared..];
    WalkAppend(dir, Ups(up), down);
    WalkUp(dir, up);
    assert forall i :: 0 <= i < |down| ==> down[i] == target[shared + i];
    WalkDown(target[..shared], down);
    assert target[..shared] + down == target;
  }

  lemma WalkIgnores(dir: Path, a: seq<string>, idle: string, b: seq<string>)
    requires idle == "" || idle == "."
    ensures Walk(dir, a + [idle] + b) == Walk(dir, a + b)
  {
    WalkAppend(dir, a + [idle], b);
    WalkAppend(dir, a, [idle]);
    WalkAppend(dir, a, b);
    assert [idle][1..] == [];
  }

  function JoinSlash(segments: seq<string>): string
    requires segments != []
  {
    if |segments| == 1 then segments[0] else segments[0] + "/" + JoinSlash(segments[1..])
  }

  lemma {:induction false} SplitJoinSlash(segments: seq<string>)
    requires segments != [] && forall i :: 0 <= i < |segments| ==> '/' !in segments[i]
    ensures Split(JoinSlash(segments), '/') == segments
  {
    SplitFree(segments[0], '/');
    if |segments| > 1 {
      SplitJoinSlash(segments[1..]);
      SplitAt(segments[0], '/', JoinSlash(segments[1..]));
      assert [segments[0]] + segments[1..] == segments;
    }
  }

  lemma {:induction false} UpsAreDots(n: nat)
    ensures |Ups(n)| == n && forall i :: 0 <= i < n ==> Ups(n)[i] == ".."
  {
    if n > 0 {
      UpsAreDots(n - 1);
    }
  }

  /** The relative specifier for a target, as written from a file in `dir`: with a dot in
      front if it does not climb. */
  function SpecifierFor(dir: Path, shared: nat, target: Path): string
    requires shared <= |dir| && shared <= |target|
  {
    JoinSlash(["."] + Route(dir, shared, target))
  }

  /** What a specifier that leads to `target` may mean, in order. */
  function Forms(target: Path): seq<Path>
    requires target != []
  {
    var dir, name := target[..|target| - 1], target[|target| - 1];
    [target, dir + [name + ".js"], dir + [name + ".mjs"], dir + [name + ".cjs"],
     dir + [name, "index.js"], dir + [name, "index.mjs"], dir + [name, "index.cjs"]]
  }

  lemma FormsOf(importer: Path, specifier: string, target: Path)
    requires target != [] && Walk(DirName(importer), Split(specifier, '/')) == target
    ensures Candidates(importer, specifier) == Forms(target)
  {
    hide Walk, Split;
    var dir, name := target[..|target| - 1], target[|target| - 1];
    assert target + ["index.js"] == dir + [name, "index.js"];
    assert target + ["index.mjs"] == dir + [name, "index.mjs"];
    assert target + ["index.cjs"] == dir + [name, "index.cjs"];
  }

  /** The relative specifier of a file leads to that file: it is relative, and what it names
      is its first candidate, before the same with an extension or as a directory. */
  lemma SpecifierLeads(importer: Path, shared: nat, target: Path)
    requires shared <= |DirName(importer)| && shared <= |target|
    requires DirName(importer)[..shared] == target[..shared] && target != []
    requires forall i :: shared <= i < |target| ==> IsName(target[i])
    ensures var specifier := SpecifierFor(DirName(importer), shared, target);
      && specifier != "" && specifier[0] == '.'
      && Candidates(importer, specifier) == Forms(target)
  {
    hide Candidates, Walk, Split, Forms;
    var dir := DirName(importer);
    var route := Route(dir, shared, target);
    UpsAreDots(|dir| - shared);
    assert forall i :: 0 <= i < |route| ==> '/' !in route[i];
    SplitJoinSlash(["."] + route);
    WalkRoute(dir, shared, target);
    WalkIgnores(dir, [], ".", route);
    assert [] + ["."] + route == ["."] + route && [] + route == route;
    DottedStart(route);
    FormsOf(importer, JoinSlash(["."] + route), target);
  }

  lemma DottedStart(route: seq<string>)
    ensures JoinSlash(["."] + route) != "" && JoinSlash(["."] + route)[0] == '.'
  {
    assert (["."] + route)[0] == ".";
  }

  /** A specifier that climbs leads to the same: the dot in front may be left out. */
  lemma ClimbingSpecifierLeads(importer: Path, shared: nat, target: Path)
    requires shared < |DirName(importer)| && shared <= |target|
    requires DirName(importer)[..shared] == target[..shared] && target != []
    requires forall i :: shared <= i < |target| ==> IsName(target[i])
    ensures var specifier := JoinSlash(Route(DirName(importer), shared, target));
      && specifier != "" && specifier[0] == '.'
      && Candidates(importer, specifier) == Forms(target)
  {
    hide Candidates, Walk, Split, Forms;
    var dir := DirName(importer);
    var route := Route(dir, shared, target);
    UpsAreDots(|dir| - shared);
    assert forall i :: 0 <= i < |route| ==> '/' !in route[i];
    SplitJoinSlash(route);
    WalkRoute(dir, shared, target);
    assert route[0] == "..";
    FormsOf(importer, JoinSlash(route), target);
  }

  /** A file inside dist is what its relative specifier resolves to. */
  lemma FileResolves(fs: FileSystem, distRoot: Path, importer: Path, shared: nat, target: Path)
    requires shared <= |DirName(importer)| && shared <= |target|
    requires DirName(importer)[..shared] == target[..shared] && target != []
    requires forall i :: shared <= i < |target| ==> IsName(target[i])
    requires target in fs && distRoot < target && !(".." <= target[|distRoot|])
    ensures Resolve(fs, distRoot, importer, SpecifierFor(DirName(importer), shared, target)) == Some(target)
    ensures shared < |DirName(importer)| ==>
      Resolve(fs, distRoot, importer, JoinSlash(Route(DirName(importer), shared, target))) == Some(target)
  {
    assert Acceptable(fs, distRoot, target);
    hide Candidates, Acceptable, Walk;
    SpecifierLeads(importer, shared, target);
    if shared < |DirName(importer)| {
      ClimbingSpecifierLeads(importer, shared, target);
    }
  }

  // ---------- the import graph ----------

  predicate IsZod(specifier: string) {
    specifier == "zod" || "zod/" <= specifier
  }

  /** Exactly the package itself and the modules below it. */
  lemma ZodMeaning(specifier: string)
    ensures IsZod(specifier) <==> specifier == "zod" || exists module_ :: specifier == "zod" + "/" + module_
  {
    if "zod/" <= specifier {
      assert specifier == "zod" + "/" + specifier[4..];
    }
  }

  function ResolvedFrom(fs: FileSystem, distRoot: Path, importer: Path, specifiers: seq<string>): seq<Path> {
    if specifiers == [] then []
    else
      var r := Resolve(fs, distRoot, importer, specifiers[0]);
      (if r.Some? then [r.value] else []) + ResolvedFrom(fs, distRoot, importer, specifiers[1..])
  }

  /** The files that a file imports by relative specifiers which resolve inside dist. */
  function ImportsOf(fs: FileSystem, distRoot: Path, path: Path): seq<Path> {
    if path in fs && fs[path].File? && fs[path].source.Imports?
    then ResolvedFrom(fs, distRoot, path, fs[path].source.specifiers)
    else []
  }

  function Graph(fs: FileSystem, distRoot: Path): Path -> seq<Path> {
    p => ImportsOf(fs, distRoot, p)
  }

  /** A bounded regular file that parses and imports no zod specifier. */
  predicate FileOk(fs: FileSystem, path: Path) {
    && path in fs && fs[path].File? && fs[path].size <= MAX_JS_BYTES
    && fs[path].source.Imports?
    && forall s | s in fs[path].source.specifiers :: !IsZod(s)
  }

  /** The defect that an error reports is there. */
  ghost predicate Justified(fs: FileSystem, entry: Path, e: Error) {
    match e
    case MissingEntry => entry !in fs
    case InvalidFile(p) => p in fs && (!fs[p].File? || fs[p].size > MAX_JS_BYTES)
    case UnparsableFile(p, m) => p in fs && fs[p].File? && fs[p].source == Unparsable(m)
    case ImportsZod(p, s) =>
      p in fs && fs[p].File? && fs[p].source.Imports? && s in fs[p].source.specifiers && IsZod(s)
  }

  function FileOf(entry: Path, e: Error): Path {
    if e.MissingEntry? then entry else e.path
  }

  lemma JustifiedMeansNotOk(fs: FileSystem, entry: Path, e: Error)
    requires Justified(fs, entry, e)
    ensures !FileOk(fs, FileOf(entry, e))
  {
  }

  lemma {:induction false} ResolvedExist(
      fs: FileSystem, distRoot: Path, importer: Path, specifiers: seq<string>, p: Path)
    requires p in ResolvedFrom(fs, distRoot, importer, specifiers)
    ensures p in fs
  {
    hide Candidates;
    var r := Resolve(fs, distRoot, importer, specifiers[0]);
    if r.Some? && r.value == p {
      FirstExists(fs, distRoot, Candidates(importer, specifiers[0]));
    } else {
      ResolvedExist(fs, distRoot, importer, specifiers[1..], p);
    }
  }

  lemma FirstExists(fs: FileSystem, distRoot: Path, candidates: seq<Path>)
    requires FirstAcceptable(fs, distRoot, candidates).Some?
    ensures FirstAcceptable(fs, distRoot, candidates).value in fs
  {
  }

  /** The specifiers of one file: stop at a zod import, push what resolves. */
  method ScanFile(fs: FileSystem, distRoot: Path, path: Path, specifiers: seq<string>, pending: seq<Path>)
      returns (zod: Option<string>, pushed: seq<Path>)
    ensures zod.Some? ==> zod.value in specifiers && IsZod(zod.value)
    ensures zod.None? ==> (forall s :: s in specifiers ==> !IsZod(s))
    ensures zod.None? ==> pushed == pending + ResolvedFrom(fs, distRoot, path, specifiers)
  {
    pushed := pending;
    assert specifiers[0..] == specifiers;
    hide Resolve, IsZod;
    for i := 0 to |specifiers|
      invariant forall j :: 0 <= j < i ==> !IsZod(specifiers[j])
      invariant pushed + ResolvedFrom(fs, distRoot, path, specifiers[i..])
        == pending + ResolvedFrom(fs, distRoot, path, specifiers)
    {
      var specifier := specifiers[i];
      if IsZod(specifier) {
        return Some(specifier), pushed;
      }
      assert specifiers[i..][0] == specifier && specifiers[i..][1..] == specifiers[i + 1..];
      var resolved := ResolveInstalledDistRelativeImport(fs, distRoot, path, specifier);
      if resolved.Some? {
        pushed := pushed + [resolved.value];
      }
    }
    return None, pushed;
  }

  // ---------- the search ----------

  /** What is visited is sound, and everything reachable is visited or lies ahead. */
  ghost predicate Frontier(fs: FileSystem, distRoot: Path, entry: Path, visited: set<Path>, pending: seq<Path>) {
    && visited <= fs.Keys
    && (forall p :: p in visited ==> FileOk(fs, p))
    && (forall p :: p in visited || p in pending ==> Reachable(Graph(fs, distRoot), entry, p))
    && (forall p :: p in pending ==> p in fs || p == entry)
    && (entry in visited || entry in pending)
    && (forall p, q :: p in visited && q in ImportsOf(fs, distRoot, p) ==> q in visited || q in pending)
  }

  lemma FrontierStart(fs: FileSystem, distRoot: Path, entry: Path)
    ensures Frontier(fs, distRoot, entry, {}, [entry])
  {
    ReachRoot(Graph(fs, distRoot), entry);
  }

  lemma FrontierSkip(fs: FileSystem, distRoot: Path, entry: Path, visited: set<Path>, pending: seq<Path>)
    requires Frontier(fs, distRoot, entry, visited, pending)
    requires pending != [] && pending[|pending| - 1] in visited
    ensures Frontier(fs, distRoot, entry, visited, pending[..|pending| - 1])
  {
    hide ImportsOf, FileOk, Reachable;
    assert forall p :: p in pending ==> p in pending[..|pending| - 1] || p == pending[|pending| - 1];
  }

  lemma ImportsReach(fs: FileSystem, distRoot: Path, entry: Path, p: Path, q: Path)
    requires Reachable(Graph(fs, distRoot), entry, p) && q in ImportsOf(fs, distRoot, p)
    ensures q in fs && Reachable(Graph(fs, distRoot), entry, q)
  {
    ResolvedExist(fs, distRoot, p, fs[p].source.specifiers, q);
    hide Reachable;
    ReachStep(Graph(fs, distRoot), entry, p, q);
  }

  lemma FrontierVisit(fs: FileSystem, distRoot: Path, entry: Path, visited: set<Path>, pending: seq<Path>)
    requires Frontier(fs, distRoot, entry, visited, pending)
    requires pending != [] && pending[|pending| - 1] in fs && FileOk(fs, pending[|pending| - 1])
    ensures var p := pending[|pending| - 1];
      Frontier(fs, distRoot, entry, visited + {p}, pending[..|pending| - 1] + ImportsOf(fs, distRoot, p))
  {
    hide ImportsOf, FileOk, Reachable;
    var p, rest := pending[|pending| - 1], pending[..|pending| - 1];
    var imports := ImportsOf(fs, distRoot, p);
    assert p in pending;
    forall q | q in imports ensures q in fs && Reachable(Graph(fs, distRoot), entry, q) {
      ImportsReach(fs, distRoot, entry, p, q);
    }
    assert forall q :: q in pending ==> q in rest || q == p;
  }

  lemma FrontierEmpty(fs: FileSystem, distRoot: Path, entry: Path, visited: set<Path>)
    requires Frontier(fs, distRoot, entry, visited, [])
    ensures forall p :: Reachable(Graph(fs, distRoot), entry, p) ==> FileOk(fs, p)
  {
    hide FileOk, Reachable;
    forall x, y | x in visited && y in Graph(fs, distRoot)(x) ensures y in visited {
      assert y in ImportsOf(fs, distRoot, x);
    }
    ClosedHoldsReachable(Graph(fs, distRoot), entry, visited);
  }

  /** No error exactly when every file that the entry reaches, the entry included, is a
      bounded regular file that parses and imports no zod specifier; an error names a
      reachable file and a defect it has. The search ends on cyclic imports. */
  method CollectZodArtifactErrors(fs: FileSystem, distRoot: Path, entry: Path) returns (error: Option<Error>)
    ensures error.None? <==> forall p :: Reachable(Graph(fs, distRoot), entry, p) ==> FileOk(fs, p)
    ensures error.Some? ==>
      Justified(fs, entry, error.value) && Reachable(Graph(fs, distRoot), entry, FileOf(entry, error.value))
  {
    hide Reachable, ImportsOf;
    var pending := [entry];
    var visited: set<Path> := {};
    FrontierStart(fs, distRoot, entry);
    while |pending| > 0
      invariant Frontier(fs, distRoot, entry, visited, pending)
      decreases fs.Keys - visited, |pending|
    {
      var path := pending[|pending| - 1];
      assert path in pending;
      if path in visited {
        FrontierSkip(fs, distRoot, entry, visited, pending);
        pending := pending[..|pending| - 1];
        continue;
      }
      if path !in fs {
        JustifiedMeansNotOk(fs, entry, MissingEntry);
        return Some(MissingEntry);
      }
      var node := fs[path];
      if !node.File? || node.size > MAX_JS_BYTES {
        JustifiedMeansNotOk(fs, entry, InvalidFile(path));
        return Some(InvalidFile(path));
      }
      if node.source.Unparsable? {
        JustifiedMeansNotOk(fs, entry, UnparsableFile(path, node.source.message));
        return Some(UnparsableFile(path, node.source.message));
      }
      var zod, pushed := ScanFile(fs, distRoot, path, node.source.specifiers, pending[..|pending| - 1]);
      if zod.Some? {
        JustifiedMeansNotOk(fs, entry, ImportsZod(path, zod.value));
        return Some(ImportsZod(path, zod.value));
      }
      FrontierVisit(fs, distRoot, entry, visited, pending);
      ImportsOfFile(fs, distRoot, path);
      pending := pushed;
      visited := visited + {path};
    }
    FrontierEmpty(fs, distRoot, entry, visited);
    return None;
  }

  lemma ImportsOfFile(fs: FileSystem, distRoot: Path, path: Path)
    requires path in fs && fs[path].File? && fs[path].source.Imports?
    ensures ImportsOf(fs, distRoot, path) == ResolvedFrom(fs, distRoot, path, fs[path].source.specifiers)
  {
  }
}
