/** The module traversal of the device tree compiler: parse_config in config.py.

  A module is known by its absolute path, which may name a directory with a module.yaml in it or the file itself. Its
  YAML is already parsed here.
*/
module ModuleGraph {
  import opened Wrappers

  datatype Flag = Absent | Bool(b: bool) | NotABool

  datatype ModuleFile = ModuleFile(deps: seq<string>, bindings: string, dts: string, dtsOnly: Flag)

  /** The file system as far as it is read. `abs` holds the absolute form of the paths that are not in it already. */
  datatype World = World(root: string, abs: map<string, string>, dirs: set<string>, files: map<string, ModuleFile>)

  datatype Error = FileNotFound(path: string) | DtsOnlyNotABool

  /** os.path.join */
  function Join(a: string, b: string): string {
    if b != "" && b[0] == '/' then b
    else if a == "" || a[|a| - 1] == '/' then a + b
    else a + "/" + b
  }

  /** A relative path is put behind one slash, an absolute one stands for itself, and more can be joined in any
    grouping. */
  lemma JoinMeaning(a: string, b: string, c: string)
    ensures Join(Join(a, b), c) == Join(a, Join(b, c))
    ensures b != "" && b[0] == '/' ==> Join(a, b) == b
    ensures a != "" && a[|a| - 1] != '/' && !(b != "" && b[0] == '/') ==>
      Join(a, b) == a + "/" + b && Join(a + "/", b) == a + "/" + b
    ensures Join("", b) == b
  {
  }

  /** os.path.abspath */
  function Key(w: World, path: string): string {
    if path in w.abs then w.abs[path] else path
  }

  function FileOf(w: World, key: string): string {
    if key in w.dirs then Join(key, "module.yaml") else key
  }

  predicate Exists(w: World, key: string) {
    FileOf(w, key) in w.files
  }

  function Contents(w: World, key: string): ModuleFile
    requires Exists(w, key)
  {
    w.files[FileOf(w, key)]
  }

  function DepKey(w: World, dep: string): string {
    Key(w, Join(w.root, dep))
  }

  // ---------------------------------------------------------------------------------------------
  // The dependency graph

  predicate DependsOn(w: World, a: string, b: string) {
    Exists(w, a) && exists i :: 0 <= i < |Contents(w, a).deps| && b == DepKey(w, Contents(w, a).deps[i])
  }

  predicate IsPath(w: World, p: seq<string>, a: string, b: string) {
    p != [] && p[0] == a && p[|p| - 1] == b && forall i :: 0 <= i < |p| - 1 ==> DependsOn(w, p[i], p[i + 1])
  }

  /** `b` is `a` or one of its transitive dependencies. */
  ghost predicate Reaches(w: World, a: string, b: string) {
    exists p :: IsPath(w, p, a, b)
  }

  /** `b` is a transitive dependency of `a`. */
  ghost predicate NeedsAlso(w: World, a: string, b: string) {
    exists c :: DependsOn(w, a, c) && Reaches(w, c, b)
  }

  ghost predicate Acyclic(w: World, start: string) {
    forall a :: Reaches(w, start, a) ==> !NeedsAlso(w, a, a)
  }

  lemma ReachesItself(w: World, a: string)
    ensures Reaches(w, a, a)
  {
    assert IsPath(w, [a], a, a);
  }

  lemma ReachesOver(w: World, a: string, b: string, c: string)
    requires Reaches(w, a, b) && Reaches(w, b, c)
    ensures Reaches(w, a, c)
  {
    var p :| IsPath(w, p, a, b);
    var q :| IsPath(w, q, b, c);
    var r := p + q[1..];
    forall i | 0 <= i < |r| - 1 ensures DependsOn(w, r[i], r[i + 1]) {
      if i < |p| - 1 {
        assert DependsOn(w, p[i], p[i + 1]);
      } else {
        var j := i - (|p| - 1);
        assert r[i] == q[j] && r[i + 1] == q[j + 1];
        assert DependsOn(w, q[j], q[j + 1]);
      }
    }
    assert r[|r| - 1] == c by { if |q| == 1 { assert r == p; } }
    assert IsPath(w, r, a, c);
  }

  lemma ReachesDep(w: World, a: string, b: string)
    requires DependsOn(w, a, b)
    ensures Reaches(w, a, b)
  {
    assert IsPath(w, [a, b], a, b);
  }

  /** Every module that can be asked for: there are finitely many. */
  function Universe(w: World, start: string): set<string> {
    {Key(w, start)} + set f, d | f in w.files && d in w.files[f].deps :: DepKey(w, d)
  }

  lemma DepsInUniverse(w: World, start: string, a: string, i: nat)
    requires Exists(w, a) && i < |Contents(w, a).deps|
    ensures DepKey(w, Contents(w, a).deps[i]) in Universe(w, start)
  {
    assert FileOf(w, a) in w.files && Contents(w, a).deps[i] in w.files[FileOf(w, a)].deps;
  }

  // ---------------------------------------------------------------------------------------------
  // The traversal

  /** A module that has been handled, and the path by which it was found. */
  datatype Handled = Handled(key: string, path: string)

  datatype Config = Config(dependencies: seq<string>, bindings: seq<string>, dts: string, dtsOnly: bool)

  /** `order` lists the modules in the order in which they were finished. */
  datatype State = State(visited: set<string>, order: seq<Handled>, config: Config, error: Option<Error>)

  /** The root module's own settings. */
  function TakeRoot(s: State, file: ModuleFile, path: string): State {
    var c := s.config.(dependencies := s.config.dependencies + file.deps, dts := Join(path, file.dts));
    if file.dtsOnly == NotABool then s.(config := c, error := Some(DtsOnlyNotABool))
    else s.(config := c.(dtsOnly := file.dtsOnly.Bool? && file.dtsOnly.b))
  }

  function Finish(w: World, s: State, key: string, path: string): State
    requires Exists(w, key)
  {
    var b := Contents(w, key).bindings;
    s.(order := s.order + [Handled(key, path)],
       config := if b == "" then s.config else s.config.(bindings := s.config.bindings + [Join(path, b)]))
  }

  function Visit(w: World, start: string, s: State, path: string, isRoot: bool): (r: State)
    requires Key(w, path) in Universe(w, start) && s.error.None?
    ensures s.visited <= r.visited
    decreases Universe(w, start) - s.visited, 1, 0
  {
    var key := Key(w, path);
    if key in s.visited then s
    else
      var s1 := s.(visited := s.visited + {key});
      if !Exists(w, key) then s1.(error := Some(FileNotFound(FileOf(w, key))))
      else
        var file := Contents(w, key);
        assert Universe(w, start) - s1.visited < Universe(w, start) - s.visited by {
          assert key in Universe(w, start) - s.visited && key !in Universe(w, start) - s1.visited;
        }
        var s2 := VisitDeps(w, start, s1, key, 0);
        if s2.error.Some? then s2
        else
          var s3 := if isRoot then TakeRoot(s2, file, path) else s2;
          if s3.error.Some? then s3 else Finish(w, s3, key, path)
  }

  function VisitDeps(w: World, start: string, s: State, key: string, i: nat): (r: State)
    requires Exists(w, key) && i <= |Contents(w, key).deps| && s.error.None?
    ensures s.visited <= r.visited
    decreases Universe(w, start) - s.visited, 2, |Contents(w, key).deps| - i
  {
    if i == |Contents(w, key).deps| then s
    else
      DepsInUniverse(w, start, key, i);
      var s1 := Visit(w, start, s, Join(w.root, Contents(w, key).deps[i]), false);
      if s1.error.Some? then s1 else VisitDeps(w, start, s1, key, i + 1)
  }

  // ---------------------------------------------------------------------------------------------
  // What the traversal keeps

  function Keys(order: seq<Handled>): set<string> {
    set h | h in order :: h.key
  }

  function BindingsOf(w: World, order: seq<Handled>): seq<string> {
    if order == [] then []
    else
      var h := order[|order| - 1];
      BindingsOf(w, order[..|order| - 1]) +
      (if Exists(w, h.key) && Contents(w, h.key).bindings != ""
       then [Join(h.path, Contents(w, h.key).bindings)] else [])
  }

  /** Every dependency of a finished module has been seen, and was finished before it unless it leads back to it. */
  ghost predicate EntryOk(w: World, start: string, visited: set<string>, order: seq<Handled>, i: nat)
    requires i < |order|
  {
    var key := order[i].key;
    Exists(w, key) && Key(w, order[i].path) == key && Reaches(w, Key(w, start), key) &&
    forall b :: DependsOn(w, key, b) ==> b in visited && (b in Keys(order[..i]) || Reaches(w, b, key))
  }

  /** `open` are the modules that are being handled. */
  ghost predicate Inv(w: World, start: string, s: State, open: set<string>) {
    s.error.None? && Keys(s.order) !! open && s.visited == Keys(s.order) + open &&
    (forall i, j :: 0 <= i < j < |s.order| ==> s.order[i].key != s.order[j].key) &&
    (forall i :: 0 <= i < |s.order| ==> EntryOk(w, start, s.visited, s.order, i)) &&
    s.config.bindings == BindingsOf(w, s.order)
  }

  /** A reachable module without a file, or a root with a bad flag. */
  ghost predicate ErrorOk(w: World, start: string, e: Error) {
    match e
    case FileNotFound(f) => exists key :: Reaches(w, Key(w, start), key) && !Exists(w, key) && f == FileOf(w, key)
    case DtsOnlyNotABool => Exists(w, Key(w, start)) && Contents(w, Key(w, start)).dtsOnly == NotABool
  }

  lemma OpenOne(w: World, start: string, s: State, open: set<string>, key: string)
    requires Inv(w, start, s, open) && key !in s.visited
    ensures Inv(w, start, s.(visited := s.visited + {key}), open + {key})
  {
    forall i | 0 <= i < |s.order| ensures EntryOk(w, start, s.visited + {key}, s.order, i) {
      assert EntryOk(w, start, s.visited, s.order, i);
    }
  }

  lemma FinishOne(w: World, start: string, s: State, open: set<string>, key: string, path: string)
    requires Inv(w, start, s, open + {key}) && key !in open && Exists(w, key) && Key(w, path) == key
    requires Reaches(w, Key(w, start), key) && forall g :: g in open ==> Reaches(w, g, key)
    requires forall i :: 0 <= i < |Contents(w, key).deps| ==> DepKey(w, Contents(w, key).deps[i]) in s.visited
    ensures Inv(w, start, Finish(w, s, key, path), open)
  {
    var r := Finish(w, s, key, path);
    ReachesItself(w, key);
    assert r.order[..|s.order|] == s.order;
    assert Keys(r.order) == Keys(s.order) + {key};
    forall i | 0 <= i < |r.order| ensures EntryOk(w, start, r.visited, r.order, i) {
      if i < |s.order| {
        assert EntryOk(w, start, s.visited, s.order, i);
        assert r.order[..i] == s.order[..i];
      }
    }
  }

  lemma {:induction false} VisitInv(w: World, start: string, s: State, path: string, isRoot: bool, open: set<string>)
    requires Key(w, path) in Universe(w, start) && Inv(w, start, s, open)
    requires Reaches(w, Key(w, start), Key(w, path)) && forall g :: g in open ==> Reaches(w, g, Key(w, path))
    requires isRoot ==> Key(w, path) == Key(w, start)
    ensures var r := Visit(w, start, s, path, isRoot);
      (r.error.Some? ==> ErrorOk(w, start, r.error.value)) &&
      (r.error.None? ==> Inv(w, start, r, open) && Key(w, path) in r.visited) &&
      (!isRoot ==> r.config.(bindings := s.config.bindings) == s.config)
    decreases Universe(w, start) - s.visited, 1, 0
  {
    hide Reaches, DependsOn, FileOf, Join, BindingsOf;
    var key := Key(w, path);
    if key !in s.visited {
      var s1 := s.(visited := s.visited + {key});
      OpenOne(w, start, s, open, key);
      if Exists(w, key) {
        assert Universe(w, start) - s1.visited < Universe(w, start) - s.visited by {
          assert key in Universe(w, start) - s.visited && key !in Universe(w, start) - s1.visited;
        }
        ReachesItself(w, key);
        VisitDepsInv(w, start, s1, key, 0, open + {key});
        var s2 := VisitDeps(w, start, s1, key, 0);
        if s2.error.None? {
          var s3 := if isRoot then TakeRoot(s2, Contents(w, key), path) else s2;
          if s3.error.None? {
            RootKeepsInv(w, start, s2, s3, open + {key});
            FinishOne(w, start, s3, open, key, path);
          }
        }
      }
    }
  }

  lemma RootKeepsInv(w: World, start: string, s: State, r: State, open: set<string>)
    requires Inv(w, start, s, open) && r.error.None? && r.visited == s.visited && r.order == s.order
    requires r.config.bindings == s.config.bindings
    ensures Inv(w, start, r, open)
  {
    hide EntryOk;
  }

  lemma {:induction false} VisitDepsInv(w: World, start: string, s: State, key: string, i: nat, open: set<string>)
    requires Exists(w, key) && i <= |Contents(w, key).deps| && Inv(w, start, s, open)
    requires Reaches(w, Key(w, start), key) && forall g :: g in open ==> Reaches(w, g, key)
    ensures var r := VisitDeps(w, start, s, key, i);
      (r.error.Some? ==> ErrorOk(w, start, r.error.value)) &&
      (r.error.None? ==> Inv(w, start, r, open) &&
                         forall j :: i <= j < |Contents(w, key).deps| ==>
                           DepKey(w, Contents(w, key).deps[j]) in r.visited) &&
      r.config.(bindings := s.config.bindings) == s.config
    decreases Universe(w, start) - s.visited, 2, |Contents(w, key).deps| - i
  {
    hide Reaches, FileOf, Join, BindingsOf, EntryOk, ErrorOk;
    if i < |Contents(w, key).deps| {
      var dep := Contents(w, key).deps[i];
      var b := DepKey(w, dep);
      DepsInUniverse(w, start, key, i);
      assert DependsOn(w, key, b);
      ReachesDep(w, key, b);
      ReachesOver(w, Key(w, start), key, b);
      forall g | g in open ensures Reaches(w, g, b) { ReachesOver(w, g, key, b); }
      VisitInv(w, start, s, Join(w.root, dep), false, open);
      var s1 := Visit(w, start, s, Join(w.root, dep), false);
      if s1.error.None? {
        VisitDepsInv(w, start, s1, key, i + 1, open);
      }
    }
  }

  // ---------------------------------------------------------------------------------------------
  // parse_config

  function Fresh(): State {
    State({}, [], Config([], [], "", false), None)
  }

  function Parsed(w: World, start: string): State {
    Visit(w, start, Fresh(), start, true)
  }

  lemma ParsedInv(w: World, start: string)
    ensures var r := Parsed(w, start);
      if r.error.Some? then ErrorOk(w, start, r.error.value)
      else Inv(w, start, r, {}) && Key(w, start) in r.visited
  {
    ReachesItself(w, Key(w, start));
    VisitInv(w, start, Fresh(), start, true, {});
  }

  lemma {:induction false} SeenAlong(w: World, start: string, s: State, p: seq<string>, a: string, b: string)
    requires Inv(w, start, s, {}) && IsPath(w, p, a, b) && a in s.visited
    ensures b in s.visited
    decreases |p|
  {
    if |p| > 1 {
      assert DependsOn(w, p[0], p[1]);
      assert a in Keys(s.order);
      var i :| 0 <= i < |s.order| && s.order[i].key == a;
      assert EntryOk(w, start, s.visited, s.order, i);
      forall j | 0 <= j < |p[1..]| - 1 ensures DependsOn(w, p[1..][j], p[1..][j + 1]) {
        assert DependsOn(w, p[j + 1], p[j + 1 + 1]);
      }
      SeenAlong(w, start, s, p[1..], p[1], b);
    }
  }

  /** If all goes well, each module that the start reaches is handled once, and no other; and each appends its bindings,
    if it has any, when it is finished. */
  lemma HandlesEachModuleOnce(w: World, start: string)
    requires Parsed(w, start).error.None?
    ensures var r := Parsed(w, start);
      (forall i, j :: 0 <= i < j < |r.order| ==> r.order[i].key != r.order[j].key) &&
      (forall key :: Reaches(w, Key(w, start), key) <==> key in Keys(r.order)) &&
      (forall h :: h in r.order ==> Exists(w, h.key) && Key(w, h.path) == h.key) &&
      r.config.bindings == BindingsOf(w, r.order)
  {
    ParsedInv(w, start);
    var r := Parsed(w, start);
    forall key | Reaches(w, Key(w, start), key) ensures key in Keys(r.order) {
      var p :| IsPath(w, p, Key(w, start), key);
      SeenAlong(w, start, r, p, Key(w, start), key);
    }
    forall key | key in Keys(r.order) ensures Reaches(w, Key(w, start), key) {
      var i :| 0 <= i < |r.order| && r.order[i].key == key;
      assert EntryOk(w, start, r.visited, r.order, i);
    }
    forall h | h in r.order ensures Exists(w, h.key) && Key(w, h.path) == h.key {
      var i :| 0 <= i < |r.order| && r.order[i] == h;
      assert EntryOk(w, start, r.visited, r.order, i);
    }
  }

  lemma {:induction false} BindingsMeaning(w: World, order: seq<Handled>, b: string)
    ensures b in BindingsOf(w, order) <==> exists h :: h in order && Binds(w, h, b)
  {
    if order != [] {
      var front, last := order[..|order| - 1], order[|order| - 1];
      BindingsMeaning(w, front, b);
      assert order == front + [last];
      assert b in BindingsOf(w, order) <==> b in BindingsOf(w, front) || Binds(w, last, b);
      hide BindingsOf, Binds;
      if h :| h in order && Binds(w, h, b) { assert h in front || h == last; }
      if h :| h in front && Binds(w, h, b) { assert h in order; }
      if Binds(w, last, b) { assert last in order; }
    }
  }

  /** The module has bindings, and this is where they are: relative to the path by which the module was found. */
  predicate Binds(w: World, h: Handled, b: string) {
    Exists(w, h.key) && Contents(w, h.key).bindings != "" && b == Join(h.path, Contents(w, h.key).bindings)
  }

  /** The bindings of the result are those of the modules that the start reaches. */
  lemma BindingsAreTheModules(w: World, start: string, b: string)
    requires Parsed(w, start).error.None?
    ensures b in Parsed(w, start).config.bindings ==>
      exists h: Handled :: Reaches(w, Key(w, start), h.key) && Binds(w, h, b)
    ensures forall key :: Reaches(w, Key(w, start), key) && Exists(w, key) && Contents(w, key).bindings != "" ==>
      exists path ::
        Key(w, path) == key && Join(path, Contents(w, key).bindings) in Parsed(w, start).config.bindings
  {
    hide Parsed, Reaches, FileOf, Join, Key;
    HandlesEachModuleOnce(w, start);
    var order := Parsed(w, start).order;
    BindingsMeaning(w, order, b);
    if h :| h in order && Binds(w, h, b) { assert h.key in Keys(order); }
    forall key | Reaches(w, Key(w, start), key) && Exists(w, key) && Contents(w, key).bindings != ""
      ensures exists path ::
        Key(w, path) == key && Join(path, Contents(w, key).bindings) in Parsed(w, start).config.bindings
    {
      var h :| h in order && h.key == key;
      var found := Join(h.path, Contents(w, key).bindings);
      BindingsMeaning(w, order, found);
      assert Binds(w, h, found);
    }
  }

  lemma {:induction false} DepsFinishedFirst(w: World, start: string, s: State, i: nat, p: seq<string>, b: string)
    requires Inv(w, start, s, {}) && Acyclic(w, Key(w, start)) && i < |s.order|
    requires |p| > 1 && IsPath(w, p, s.order[i].key, b)
    ensures b in Keys(s.order[..i])
    decreases |p|
  {
    var a := s.order[i].key;
    assert EntryOk(w, start, s.visited, s.order, i);
    assert DependsOn(w, p[0], p[0 + 1]);
    assert Reaches(w, p[1], a) ==> NeedsAlso(w, a, a);
    assert p[1] in Keys(s.order[..i]);
    if |p| > 2 {
      var j :| 0 <= j < i && s.order[j].key == p[1];
      forall k | 0 <= k < |p[1..]| - 1 ensures DependsOn(w, p[1..][k], p[1..][k + 1]) {
        assert DependsOn(w, p[k + 1], p[k + 1 + 1]);
      }
      DepsFinishedFirst(w, start, s, j, p[1..], b);
      assert s.order[..j] <= s.order[..i];
      var k :| 0 <= k < |s.order[..j]| && s.order[..j][k].key == b;
      assert s.order[..i][k].key == b;
    }
  }

  /** Without cycles, every module comes after all that it needs, directly or not. */
  lemma DependenciesComeFirst(w: World, start: string, i: nat, b: string)
    requires Parsed(w, start).error.None? && Acyclic(w, Key(w, start))
    requires i < |Parsed(w, start).order| && NeedsAlso(w, Parsed(w, start).order[i].key, b)
    ensures exists j :: 0 <= j < i && Parsed(w, start).order[j].key == b
  {
    hide Inv, Parsed, Acyclic, Universe, FileOf, Contents;
    ParsedInv(w, start);
    var r := Parsed(w, start);
    var a := r.order[i].key;
    var c :| DependsOn(w, a, c) && Reaches(w, c, b);
    var q :| IsPath(w, q, c, b);
    var p := [a] + q;
    forall k | 0 <= k < |p| - 1 ensures DependsOn(w, p[k], p[k + 1]) {
      if k > 0 { assert DependsOn(w, q[k - 1], q[k - 1 + 1]); }
    }
    DepsFinishedFirst(w, start, r, i, p, b);
    var j :| 0 <= j < |r.order[..i]| && r.order[..i][j].key == b;
  }

  /** It succeeds exactly when every reachable module has a file and the root's flag is a flag. */
  lemma SucceedsExactlyWhenComplete(w: World, start: string)
    ensures Parsed(w, start).error.None? <==>
      (forall key :: Reaches(w, Key(w, start), key) ==> Exists(w, key)) &&
      Exists(w, Key(w, start)) && Contents(w, Key(w, start)).dtsOnly != NotABool
  {
    ParsedInv(w, start);
    ReachesItself(w, Key(w, start));
    if Parsed(w, start).error.None? {
      HandlesEachModuleOnce(w, start);
      forall key | Reaches(w, Key(w, start), key) ensures Exists(w, key) {
        assert key in Keys(Parsed(w, start).order);
      }
    }
  }

  /** The settings of the result are the root's own. */
  lemma SettingsAreTheRoots(w: World, start: string)
    requires Parsed(w, start).error.None?
    ensures Exists(w, Key(w, start))
    ensures var c, file := Parsed(w, start).config, Contents(w, Key(w, start));
      c.dependencies == file.deps && c.dts == Join(start, file.dts) && (c.dtsOnly <==> file.dtsOnly == Bool(true))
  {
    var key := Key(w, start);
    var s1 := Fresh().(visited := {key});
    ReachesItself(w, key);
    OpenOne(w, start, Fresh(), {}, key);
    assert {} + {key} == {key} && Fresh().visited + {key} == {key};
    VisitDepsInv(w, start, s1, key, 0, {key});
    assert [] + Contents(w, key).deps == Contents(w, key).deps;
  }

  // --- the order of dependencies

  /** What a visit finishes is reached from where it begins. */
  ghost predicate Grows(w: World, a: string, s: State, r: State) {
    s.order <= r.order && forall h :: h in r.order[|s.order|..] ==> Reaches(w, a, h.key)
  }

  /** `key` reaches it through one of its dependencies from the `i`th up to the `n`th. */
  ghost predicate Through(w: World, key: string, i: nat, n: nat, b: string)
    requires Exists(w, key) && n <= |Contents(w, key).deps|
  {
    exists m :: i <= m < n && Reaches(w, DepKey(w, Contents(w, key).deps[m]), b)
  }

  lemma {:induction false} VisitGrows(w: World, start: string, s: State, path: string, isRoot: bool)
    requires Key(w, path) in Universe(w, start) && s.error.None?
    requires Visit(w, start, s, path, isRoot).error.None?
    ensures Grows(w, Key(w, path), s, Visit(w, start, s, path, isRoot))
    decreases Universe(w, start) - s.visited, 1, 0
  {
    hide Reaches, DependsOn, FileOf, Join;
    var key := Key(w, path);
    if key !in s.visited {
      var s1 := s.(visited := s.visited + {key});
      assert Universe(w, start) - s1.visited < Universe(w, start) - s.visited by {
        assert key in Universe(w, start) - s.visited && key !in Universe(w, start) - s1.visited;
      }
      var n := |Contents(w, key).deps|;
      var s2 := VisitDeps(w, start, s1, key, 0);
      DepsGrow(w, start, s1, key, 0, n);
      ReachesItself(w, key);
      forall h | h in s2.order[|s.order|..] ensures Reaches(w, key, h.key) {
        assert Through(w, key, 0, n, h.key);
        var m :| 0 <= m < n && Reaches(w, DepKey(w, Contents(w, key).deps[m]), h.key);
        DependsOnDep(w, key, m);
        ReachesDep(w, key, DepKey(w, Contents(w, key).deps[m]));
        ReachesOver(w, key, DepKey(w, Contents(w, key).deps[m]), h.key);
      }
      var r := Visit(w, start, s, path, isRoot);
      assert r.order == s2.order + [Handled(key, path)];
      assert r.order[|s.order|..] == s2.order[|s.order|..] + [Handled(key, path)];
    }
  }

  lemma DependsOnDep(w: World, key: string, m: nat)
    requires Exists(w, key) && m < |Contents(w, key).deps|
    ensures DependsOn(w, key, DepKey(w, Contents(w, key).deps[m]))
  {
  }

  /** The state between two dependencies of a module. */
  function DepsUpTo(w: World, start: string, s: State, key: string, i: nat, n: nat): (r: State)
    requires Exists(w, key) && i <= n <= |Contents(w, key).deps| && s.error.None?
    ensures s.visited <= r.visited
    decreases n - i
  {
    if i == n then s
    else
      DepsInUniverse(w, start, key, i);
      var s1 := Visit(w, start, s, Join(w.root, Contents(w, key).deps[i]), false);
      if s1.error.Some? then s1 else DepsUpTo(w, start, s1, key, i + 1, n)
  }

  /** What has been finished up to there is reached through the dependencies before. */
  lemma {:induction false} DepsGrow(w: World, start: string, s: State, key: string, i: nat, n: nat)
    requires Exists(w, key) && i <= n <= |Contents(w, key).deps| && s.error.None?
    requires VisitDeps(w, start, s, key, i).error.None?
    ensures var mid := DepsUpTo(w, start, s, key, i, n);
      mid.error.None? && VisitDeps(w, start, s, key, i) == VisitDeps(w, start, mid, key, n) &&
      s.order <= mid.order && forall h :: h in mid.order[|s.order|..] ==> Through(w, key, i, n, h.key)
    decreases Universe(w, start) - s.visited, 2, n - i
  {
    hide Reaches, DependsOn, FileOf, Join;
    if i < n {
      var path := Join(w.root, Contents(w, key).deps[i]);
      DepsInUniverse(w, start, key, i);
      var s1 := Visit(w, start, s, path, false);
      VisitGrows(w, start, s, path, false);
      DepsGrow(w, start, s1, key, i + 1, n);
      var mid := DepsUpTo(w, start, s, key, i, n);
      assert mid.order[|s.order|..] == s1.order[|s.order|..] + mid.order[|s1.order|..];
      forall h | h in mid.order[|s.order|..] ensures Through(w, key, i, n, h.key) {
        if h !in s1.order[|s.order|..] { ThroughLater(w, key, i, n, h.key); }
      }
    }
  }

  lemma {:induction false} DepsUpToInv(w: World, start: string, s: State, key: string, i: nat, n: nat,
                                       open: set<string>)
    requires Exists(w, key) && i <= n <= |Contents(w, key).deps| && Inv(w, start, s, open)
    requires Reaches(w, Key(w, start), key) && forall g :: g in open ==> Reaches(w, g, key)
    ensures var mid := DepsUpTo(w, start, s, key, i, n);
      mid.error.None? ==>
        Inv(w, start, mid, open) &&
        forall j :: i <= j < n ==> DepKey(w, Contents(w, key).deps[j]) in mid.visited
    decreases n - i
  {
    hide Reaches, FileOf, Join, BindingsOf, EntryOk, ErrorOk;
    if i < n {
      var dep := Contents(w, key).deps[i];
      var b := DepKey(w, dep);
      DepsInUniverse(w, start, key, i);
      DependsOnDep(w, key, i);
      ReachesDep(w, key, b);
      ReachesOver(w, Key(w, start), key, b);
      forall g | g in open ensures Reaches(w, g, b) { ReachesOver(w, g, key, b); }
      VisitInv(w, start, s, Join(w.root, dep), false, open);
      var s1 := Visit(w, start, s, Join(w.root, dep), false);
      if s1.error.None? { DepsUpToInv(w, start, s1, key, i + 1, n, open); }
    }
  }

  lemma ThroughLater(w: World, key: string, i: nat, n: nat, b: string)
    requires Exists(w, key) && n <= |Contents(w, key).deps| && Through(w, key, i + 1, n, b)
    ensures Through(w, key, i, n, b)
  {
  }

  function Opened(w: World, start: string): State {
    Fresh().(visited := {Key(w, start)})
  }

  /** The root is handled last, after its dependencies. */
  lemma RootIsLast(w: World, start: string)
    requires Parsed(w, start).error.None?
    ensures Exists(w, Key(w, start)) && Inv(w, start, Opened(w, start), {Key(w, start)})
    ensures var s := VisitDeps(w, start, Opened(w, start), Key(w, start), 0);
      s.error.None? && Parsed(w, start).order == s.order + [Handled(Key(w, start), start)]
  {
    var key := Key(w, start);
    ReachesItself(w, key);
    OpenOne(w, start, Fresh(), {}, key);
    assert {} + {key} == {key} && Fresh().visited + {key} == {key};
    VisitDepsInv(w, start, Opened(w, start), key, 0, {key});
  }

  /** When the first `n` dependencies of the root are done, what is finished is reached through them. */
  lemma FinishedBy(w: World, start: string, n: nat) returns (mid: State)
    requires Parsed(w, start).error.None? && Exists(w, Key(w, start)) && n <= |Contents(w, Key(w, start)).deps|
    ensures mid.order <= Parsed(w, start).order && Inv(w, start, mid, {Key(w, start)})
    ensures forall h :: h in mid.order ==> Through(w, Key(w, start), 0, n, h.key)
    ensures forall j :: 0 <= j < n ==> DepKey(w, Contents(w, Key(w, start)).deps[j]) in mid.visited
  {
    hide Parsed, Visit, VisitDeps, Inv, Through, Reaches, FileOf, Join, BindingsOf;
    var key, s := Key(w, start), Opened(w, start);
    RootIsLast(w, start);
    ReachesItself(w, key);
    DepsGrow(w, start, s, key, 0, n);
    DepsUpToInv(w, start, s, key, 0, n, {key});
    mid := DepsUpTo(w, start, s, key, 0, n);
    assert mid.order[|s.order|..] == mid.order;
    DepsGrow(w, start, mid, key, n, |Contents(w, key).deps|);
    LastDeps(w, start, DepsUpTo(w, start, mid, key, n, |Contents(w, key).deps|), key);
  }

  lemma LastDeps(w: World, start: string, s: State, key: string)
    requires Exists(w, key) && s.error.None?
    ensures VisitDeps(w, start, s, key, |Contents(w, key).deps|) == s
  {
  }

  /** A module is handled before another one that the root lists earlier only if that one, or one listed before it,
    leads to it: dependencies are handled in the order in which they are listed. */
  lemma ListedOrderIsKept(w: World, start: string, i: nat, j: nat, p: nat, q: nat)
    requires Parsed(w, start).error.None?
    requires Exists(w, Key(w, start)) && i < j < |Contents(w, Key(w, start)).deps|
    requires q < p < |Parsed(w, start).order|
    requires Parsed(w, start).order[p].key == DepKey(w, Contents(w, Key(w, start)).deps[i])
    requires Parsed(w, start).order[q].key == DepKey(w, Contents(w, Key(w, start)).deps[j])
    ensures Through(w, Key(w, start), 0, i + 1, DepKey(w, Contents(w, Key(w, start)).deps[j]))
  {
    var key, r := Key(w, start), Parsed(w, start);
    var deps := Contents(w, key).deps;
    var a, b := DepKey(w, deps[i]), DepKey(w, deps[j]);
    if a == key {
      DependsOnDep(w, key, j);
      ReachesDep(w, key, b);
      assert Reaches(w, DepKey(w, deps[i]), b);
    } else {
      ParsedInv(w, start);
      hide Parsed, Inv, Through;
      var mid := FinishedBy(w, start, i + 1);
      InTheFront(w, start, mid, r, a, key, p);
      assert r.order[q] == mid.order[q];
    }
  }

  lemma InTheFront(w: World, start: string, mid: State, r: State, a: string, key: string, p: nat)
    requires Inv(w, start, mid, {key}) && Inv(w, start, r, {}) && mid.order <= r.order
    requires a in mid.visited && a != key && p < |r.order| && r.order[p].key == a
    ensures p < |mid.order|
  {
    hide EntryOk, BindingsOf;
    assert a in Keys(mid.order);
    var k :| 0 <= k < |mid.order| && mid.order[k].key == a;
    assert r.order[k] == mid.order[k];
  }

  ghost predicate BothReached(w: World, start: string, a: string, b: string) {
    Reaches(w, Key(w, start), a) && Reaches(w, Key(w, start), b)
  }

  predicate SameFile(w: World, a: string, b: string) {
    FileOf(w, a) == FileOf(w, b)
  }

  /** Each key is handled once, but a file has two keys when it is reached both as a directory and as its module.yaml: a
    file is handled twice exactly when two reachable keys name it. */
  lemma SameFileTwice(w: World, start: string)
    requires Parsed(w, start).error.None?
    ensures var order := Parsed(w, start).order;
      (exists i, j :: 0 <= i < j < |order| && SameFile(w, order[i].key, order[j].key)) <==>
      (exists a, b :: a != b && BothReached(w, start, a, b) && SameFile(w, a, b))
  {
    HandlesEachModuleOnce(w, start);
    var order := Parsed(w, start).order;
    hide Parsed, Reaches, FileOf, Key, BindingsOf;
    if i, j :| 0 <= i < j < |order| && SameFile(w, order[i].key, order[j].key) {
      assert order[i].key in Keys(order) && order[j].key in Keys(order);
      assert BothReached(w, start, order[i].key, order[j].key);
    }
    if a, b :| a != b && BothReached(w, start, a, b) && SameFile(w, a, b) {
      assert a in Keys(order) && b in Keys(order);
      var i :| 0 <= i < |order| && order[i].key == a;
      var j :| 0 <= j < |order| && order[j].key == b;
      assert SameFile(w, order[if i < j then i else j].key, order[if i < j then j else i].key);
    }
  }

  /** A root that needs "d" and "d/module.yaml", which are one module. */
  const ROOT_FILE := ModuleFile(["d", "d/module.yaml"], "", "", Absent)
  const LEAF_FILE := ModuleFile([], "", "", Absent)
  const TWO_KEYS := World("/", map[], {"/s", "/d"}, map["/s/module.yaml" := ROOT_FILE, "/d/module.yaml" := LEAF_FILE])

  lemma TwoKeysFiles()
    ensures FileOf(TWO_KEYS, "/s") == "/s/module.yaml" && Contents(TWO_KEYS, "/s") == ROOT_FILE
    ensures FileOf(TWO_KEYS, "/d") == "/d/module.yaml" && Contents(TWO_KEYS, "/d") == LEAF_FILE
    ensures FileOf(TWO_KEYS, "/d/module.yaml") == "/d/module.yaml" && Contents(TWO_KEYS, "/d/module.yaml") == LEAF_FILE
    ensures DepKey(TWO_KEYS, "d") == "/d" && DepKey(TWO_KEYS, "d/module.yaml") == "/d/module.yaml"
  {
    assert "/s" + "/" + "module.yaml" == "/s/module.yaml";
    assert "/d" + "/" + "module.yaml" == "/d/module.yaml";
    assert "/" + "d" == "/d" && "/" + "d/module.yaml" == "/d/module.yaml";
    assert |"/d"| != |"/d/module.yaml"| && |"/s"| != |"/d/module.yaml"| && "/s"[1] != "/d"[1];
    assert "/s/module.yaml"[1] != "/d/module.yaml"[1];
  }

  lemma {:induction false} TwoKeysReach(p: seq<string>, b: string)
    requires IsPath(TWO_KEYS, p, "/s", b)
    ensures b in {"/s", "/d", "/d/module.yaml"}
    decreases |p|
  {
    TwoKeysFiles();
    var n := |p| - 1;
    if n > 0 {
      assert DependsOn(TWO_KEYS, p[n - 1], p[n - 1 + 1]);
      forall k | 0 <= k < n - 1 ensures DependsOn(TWO_KEYS, p[..n][k], p[..n][k + 1]) {
        assert DependsOn(TWO_KEYS, p[k], p[k + 1]);
      }
      TwoKeysReach(p[..n], p[n - 1]);
    }
  }

  /** The parse of that root succeeds and handles d/module.yaml twice. */
  lemma OneModuleHandledTwice()
    ensures Parsed(TWO_KEYS, "/s").error.None?
    ensures var order := Parsed(TWO_KEYS, "/s").order;
      exists i, j :: 0 <= i < j < |order| && SameFile(TWO_KEYS, order[i].key, order[j].key)
  {
    hide Parsed;
    TwoKeysFiles();
    var w, a, b := TWO_KEYS, "/d", "/d/module.yaml";
    assert Key(w, "/s") == "/s";
    forall key | Reaches(w, "/s", key) ensures Exists(w, key) {
      var p :| IsPath(w, p, "/s", key);
      TwoKeysReach(p, key);
    }
    SucceedsExactlyWhenComplete(w, "/s");
    assert a == DepKey(w, Contents(w, "/s").deps[0]) && b == DepKey(w, Contents(w, "/s").deps[1]);
    assert IsPath(w, ["/s", a], "/s", a) && IsPath(w, ["/s", b], "/s", b);
    assert |a| != |b| && BothReached(w, "/s", a, b) && SameFile(w, a, b);
    SameFileTwice(w, "/s");
  }

  // ---------------------------------------------------------------------------------------------
  // The parser as it runs

  class Parser {
    const world: World
    const start: string
    var visited: set<string>
    var dependencies: seq<string>
    var bindings: seq<string>
    var dts: string
    var dtsOnly: bool
    ghost var order: seq<Handled>

    constructor (world: World, start: string)
      ensures this.world == world && this.start == start && Abstract(None) == Fresh()
    {
      this.world, this.start := world, start;
      visited, dependencies, bindings, dts, dtsOnly, order := {}, [], [], "", false, [];
    }

    ghost function Abstract(error: Option<Error>): State
      reads this
    {
      State(visited, order, Config(dependencies, bindings, dts, dtsOnly), error)
    }

    /** _parse_recursive. An exception ends the whole parse. */
    method ParseRecursive(path: string, isRoot: bool) returns (error: Option<Error>)
      requires Key(world, path) in Universe(world, start)
      modifies this
      ensures Abstract(error) == Visit(world, start, old(Abstract(None)), path, isRoot)
      decreases Universe(world, start) - visited, 1, 0
    {
      var key := Key(world, path);
      if key in visited { return None; }
      ghost var before := visited;
      visited := visited + {key};
      if !Exists(world, key) { return Some(FileNotFound(FileOf(world, key))); }
      var file := Contents(world, key);
      assert Universe(world, start) - visited < Universe(world, start) - before by {
        assert key in Universe(world, start) - before && key !in Universe(world, start) - visited;
      }
      error := ParseDependencies(key, file.deps);
      if error.Some? { return; }
      if isRoot {
        dependencies := dependencies + file.deps;
        dts := Join(path, file.dts);
        if file.dtsOnly == NotABool { return Some(DtsOnlyNotABool); }
        dtsOnly := file.dtsOnly.Bool? && file.dtsOnly.b;
      }
      if file.bindings != "" {
        bindings := bindings + [Join(path, file.bindings)];
      }
      order := order + [Handled(key, path)];
    }

    method ParseDependencies(ghost key: string, deps: seq<string>) returns (error: Option<Error>)
      requires Exists(world, key) && deps == Contents(world, key).deps
      modifies this
      ensures Abstract(error) == VisitDeps(world, start, old(Abstract(None)), key, 0)
      decreases Universe(world, start) - visited, 2, 0
    {
      ghost var all := VisitDeps(world, start, Abstract(None), key, 0);
      ghost var first := visited;
      for i := 0 to |deps|
        invariant first <= visited
        invariant all == VisitDeps(world, start, Abstract(None), key, i)
      {
        DepsInUniverse(world, start, key, i);
        error := ParseRecursive(Join(world.root, deps[i]), false);
        if error.Some? { return; }
      }
      error := None;
    }

    method Parse() returns (error: Option<Error>)
      requires Abstract(None) == Fresh()
      modifies this
      ensures Abstract(error) == Parsed(world, start)
    {
      error := ParseRecursive(start, true);
    }
  }
}
