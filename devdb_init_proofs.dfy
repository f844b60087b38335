/** Properties of `create_project` and its steps, stated over the
    functions of `DevdbInit` that specify the methods of `DevDBInit`. */
module DevdbInitProofs {
  import opened FileSystem
  import opened Substitution
  import opened DevdbUtils
  import opened DevdbInit

  /** The environment checks of `_validate_setup` pass. */
  predicate ChecksPass(testMode: bool, env: Environment) {
    (testMode || env.dockerOk) && DependenciesAvailable(env.importable)
  }

  // ---------------------------------------------------------------------
  // _validate_setup
  // ---------------------------------------------------------------------

  /** In a well-formed tree, a missing path has nothing below it. */
  lemma AbsentHasNoEntries(t: Tree, p: Path)
    requires Valid(t) && !Exists(t, p)
    ensures !HasEntries(t, p)
  {
    forall q | p < q
      ensures q !in t.files && q !in t.dirs
    {
      assert q[..|p|] == p;
    }
  }

  /** Validation passes exactly when the checks pass, the target is not a
      regular file and either `force` is set or the target has no entries;
      it raises exactly when the target is a regular file. After it passes
      the target holds nothing. */
  lemma ValidationOutcome(t: Tree, target: Path, force: bool, testMode: bool, env: Environment)
    requires Valid(t)
    ensures var r := Validation(t, target, force, testMode, env);
      && (r.0 == Succeeded <==> ChecksPass(testMode, env) && target !in t.files && (force || !HasEntries(t, target)))
      && (r.0 == Raised <==> ChecksPass(testMode, env) && target in t.files)
      && (r.0 == Succeeded ==> target !in r.1.files && !HasEntries(r.1, target))
      && (!Exists(t, target) ==> r.1 == t)
  {
    var r := Validation(t, target, force, testMode, env);
    if !Exists(t, target) {
      AbsentHasNoEntries(t, target);
    }
  }

  /** Running again without `force` on a target that already has entries
      refuses and changes nothing. */
  lemma RerunWithoutForceRefuses(t: Tree, templates: Tree, target: Path, template: string, testMode: bool,
                                 env: Environment, vars: Variables)
    requires Valid(t) && target != []
    requires target in t.dirs && HasEntries(t, target)
    ensures Creation(t, templates, target, template, false, testMode, env, vars) == (Failed, t)
  {
    assert target !in t.files;
  }

  /** With `force`, an existing target directory is removed first: the run
      is the run on the tree without it. */
  lemma ForcedRunIsFreshRun(t: Tree, templates: Tree, target: Path, template: string, force: bool,
                            testMode: bool, env: Environment, vars: Variables)
    requires target != [] && target in t.dirs
    requires ChecksPass(testMode, env)
    ensures Creation(t, templates, target, template, true, testMode, env, vars)
         == Creation(Rmtree(t, target).tree, templates, target, template, force, testMode, env, vars)
  {
    var cleared := Rmtree(t, target).tree;
    assert target <= target;
    assert !Exists(cleared, target);
    assert Validation(cleared, target, force, testMode, env) == (Succeeded, cleared);
  }

  // ---------------------------------------------------------------------
  // _create_project_structure and _copy_template_files
  // ---------------------------------------------------------------------

  /** The skeleton loop changes no file and no mode; it completes exactly
      when no file blocks any of the directories, which then all exist. */
  lemma {:induction false} SkeletonEffect(t: Tree, target: Path, dirs: seq<Path>)
    ensures var o := MakeSkeleton(t, target, dirs);
      && o.tree.files == t.files && o.tree.exec == t.exec && t.dirs <= o.tree.dirs
      && (o.ok <==> forall i :: 0 <= i < |dirs| ==> !Blocked(t, target + dirs[i]))
      && (o.ok ==> forall i :: 0 <= i < |dirs| ==> IsDir(o.tree, target + dirs[i]))
    decreases |dirs|
  {
    if dirs != [] {
      var p := target + dirs[0];
      var m := Mkdir(t, p);
      if m.ok {
        SkeletonEffect(m.tree, target, dirs[1..]);
        if p != [] {
          assert p[..|p|] == p;
        }
        assert forall i :: 1 <= i < |dirs| ==> dirs[1..][i - 1] == dirs[i];
        assert forall x :: Blocked(m.tree, x) == Blocked(t, x);
      }
    }
  }

  /** A missing template still leaves the skeleton behind: the directories
      are created before the template is looked up, and the step then
      fails without writing any file. */
  lemma StructureWithoutTemplate(t: Tree, templates: Tree, target: Path, template: string, vars: Variables)
    requires target != [] && !Exists(templates, [template])
    ensures var o := Structure(t, templates, target, template, vars);
      && !o.ok && o.tree.files == t.files && o.tree.exec == t.exec
      && ((forall i :: 0 <= i < |SKELETON| ==> !Blocked(t, target + SKELETON[i])) ==>
            forall i :: 0 <= i < |SKELETON| ==> IsDir(o.tree, target + SKELETON[i]))
  {
    SkeletonEffect(t, target, SKELETON);
  }

  lemma AppendInjective(target: Path, a: Path, b: Path)
    requires target + a == target + b
    ensures a == b
  {
    assert a == (target + a)[|target|..];
    assert b == (target + b)[|target|..];
  }

  lemma AppendDistinct(target: Path, a: Path, b: Path)
    requires a != b
    ensures target + a != target + b
  {
    assert (target + a)[|target|..] == a;
    assert (target + b)[|target|..] == b;
  }

  /** The copy loop never changes a mode, never removes a directory, and
      leaves alone every file that is not one of the destinations; a
      directory it creates lies above one of the destinations. */
  lemma {:induction false} MaterializeFrame(t: Tree, templates: Tree, root: Path, target: Path, vars: Variables,
                                            entries: seq<(Path, Path)>, p: Path)
    requires target != []
    requires forall i :: 0 <= i < |entries| ==> p != target + entries[i].1
    ensures var o := Materialize(t, templates, root, target, vars, entries);
      && (p in o.tree.files <==> p in t.files)
      && (p in t.files ==> o.tree.files[p] == t.files[p])
      && o.tree.exec == t.exec && t.dirs <= o.tree.dirs
      && (p in o.tree.dirs && p !in t.dirs ==> exists i :: 0 <= i < |entries| && p < target + entries[i].1)
    decreases |entries|
  {
    if entries != [] {
      var (src, dest) := entries[0];
      var rest := entries[1..];
      assert forall i :: 0 <= i < |rest| ==> rest[i] == entries[i + 1];
      var o := Materialize(t, templates, root, target, vars, entries);
      if !Exists(templates, root + src) {
        MaterializeFrame(t, templates, root, target, vars, rest, p);
        if p in o.tree.dirs && p !in t.dirs {
          var i :| 0 <= i < |rest| && p < target + rest[i].1;
          assert p < target + entries[i + 1].1;
        }
      } else {
        var c := CopyTemplate(t, templates, root + src, target + dest, vars);
        CopyTemplateEffect(t, templates, root + src, target + dest, vars);
        assert p != target + dest;
        if c.ok {
          MaterializeFrame(c.tree, templates, root, target, vars, rest, p);
          if p in o.tree.dirs && p !in t.dirs {
            if p in c.tree.dirs {
              assert p < target + entries[0].1;
            } else {
              var i :| 0 <= i < |rest| && p < target + rest[i].1;
              assert p < target + entries[i + 1].1;
            }
          }
        } else if p in o.tree.dirs && p !in t.dirs {
          assert p < target + entries[0].1;
        }
      }
    }
  }

  /** When the copy loop completes, every entry whose source exists was a
      regular file and its destination holds the source with the
      variables substituted (destinations being distinct, no later entry
      overwrites an earlier one). */
  lemma {:induction false} MaterializeWrites(t: Tree, templates: Tree, root: Path, target: Path, vars: Variables,
                                             entries: seq<(Path, Path)>)
    requires target != []
    requires forall i, j :: 0 <= i < j < |entries| ==> entries[i].1 != entries[j].1
    ensures var o := Materialize(t, templates, root, target, vars, entries);
      o.ok ==> forall i :: 0 <= i < |entries| && Exists(templates, root + entries[i].0) ==>
        && root + entries[i].0 in templates.files
        && target + entries[i].1 in o.tree.files
        && o.tree.files[target + entries[i].1] == Substitute(templates.files[root + entries[i].0], vars)
    decreases |entries|
  {
    if entries != [] {
      var (src, dest) := entries[0];
      var rest := entries[1..];
      assert forall i :: 0 <= i < |rest| ==> rest[i] == entries[i + 1];
      var o := Materialize(t, templates, root, target, vars, entries);
      if !Exists(templates, root + src) {
        MaterializeWrites(t, templates, root, target, vars, rest);
      } else {
        var c := CopyTemplate(t, templates, root + src, target + dest, vars);
        CopyTemplateEffect(t, templates, root + src, target + dest, vars);
        if c.ok {
          MaterializeWrites(c.tree, templates, root, target, vars, rest);
          forall j | 0 <= j < |rest|
            ensures target + dest != target + rest[j].1
          {
            if target + dest == target + rest[j].1 {
              AppendInjective(target, dest, rest[j].1);
            }
          }
          MaterializeFrame(c.tree, templates, root, target, vars, rest, target + dest);
        }
      }
    }
  }

  // ---------------------------------------------------------------------
  // _set_permissions
  // ---------------------------------------------------------------------

  /** The chmod loop adds exactly the scripts that exist to the executable
      paths and changes nothing else. */
  lemma {:induction false} PermissionsEffect(t: Tree, target: Path, scripts: seq<string>)
    ensures var u := Permissions(t, target, scripts);
      && u.files == t.files && u.dirs == t.dirs
      && forall p :: p in u.exec <==> p in t.exec || (Exists(t, p) && exists s :: s in scripts && p == target + [s])
    decreases |scripts|
  {
    if scripts != [] {
      var p := target + [scripts[0]];
      var next := if Exists(t, p) then Chmod(t, p).tree else t;
      PermissionsEffect(next, target, scripts[1..]);
      assert forall x :: Exists(next, x) == Exists(t, x);
      assert forall s :: s in scripts <==> s == scripts[0] || s in scripts[1..];
    }
  }

  // ---------------------------------------------------------------------
  // create_project: well-formedness and confinement
  // ---------------------------------------------------------------------

  lemma {:induction false} SkeletonKeepsValid(t: Tree, target: Path, dirs: seq<Path>)
    requires Valid(t)
    ensures Valid(MakeSkeleton(t, target, dirs).tree)
    decreases |dirs|
  {
    if dirs != [] {
      var m := Mkdir(t, target + dirs[0]);
      MkdirKeepsValid(t, target + dirs[0]);
      if m.ok {
        SkeletonKeepsValid(m.tree, target, dirs[1..]);
      }
    }
  }

  lemma CopyKeepsValid(t: Tree, templates: Tree, src: Path, dest: Path, vars: Variables)
    requires Valid(t) && dest != []
    ensures Valid(CopyTemplate(t, templates, src, dest, vars).tree)
  {
    if src in templates.files {
      var m := Mkdir(t, Parent(dest));
      MkdirKeepsValid(t, Parent(dest));
      if m.ok {
        WriteKeepsValid(m.tree, dest, Substitute(templates.files[src], vars));
      }
    }
  }

  lemma {:induction false} MaterializeKeepsValid(t: Tree, templates: Tree, root: Path, target: Path, vars: Variables,
                                                 entries: seq<(Path, Path)>)
    requires Valid(t) && target != []
    ensures Valid(Materialize(t, templates, root, target, vars, entries).tree)
    decreases |entries|
  {
    if entries != [] {
      var (src, dest) := entries[0];
      if !Exists(templates, root + src) {
        MaterializeKeepsValid(t, templates, root, target, vars, entries[1..]);
      } else {
        var c := CopyTemplate(t, templates, root + src, target + dest, vars);
        CopyKeepsValid(t, templates, root + src, target + dest, vars);
        if c.ok {
          MaterializeKeepsValid(c.tree, templates, root, target, vars, entries[1..]);
        }
      }
    }
  }

  lemma {:induction false} WritePlaceholdersKeepsValid(t: Tree, dir: Path, names: seq<string>)
    requires Valid(t)
    ensures Valid(WritePlaceholders(t, dir, names).tree)
    decreases |names|
  {
    if names != [] {
      var o := Write(t, dir + [names[0]], TsqltContent(names[0]));
      WriteKeepsValid(t, dir + [names[0]], TsqltContent(names[0]));
      if o.ok {
        WritePlaceholdersKeepsValid(o.tree, dir, names[1..]);
      }
    }
  }

  lemma {:induction false} PermissionsKeepsValid(t: Tree, target: Path, scripts: seq<string>)
    requires Valid(t)
    ensures Valid(Permissions(t, target, scripts))
    decreases |scripts|
  {
    if scripts != [] {
      var p := target + [scripts[0]];
      ChmodKeepsValid(t, p);
      PermissionsKeepsValid(if Exists(t, p) then Chmod(t, p).tree else t, target, scripts[1..]);
    }
  }

  /** Whatever happens, `create_project` leaves a well-formed tree: every
      file and directory still hangs below directories. */
  lemma CreationKeepsValid(t: Tree, templates: Tree, target: Path, template: string, force: bool, testMode: bool,
                           env: Environment, vars: Variables)
    requires Valid(t) && target != []
    ensures Valid(Creation(t, templates, target, template, force, testMode, env, vars).1)
  {
    var (v, validated) := Validation(t, target, force, testMode, env);
    RmtreeKeepsValid(t, target);
    if v == Succeeded {
      var sk := MakeSkeleton(validated, target, SKELETON);
      SkeletonKeepsValid(validated, target, SKELETON);
      if sk.ok && Exists(templates, [template]) {
        MaterializeKeepsValid(sk.tree, templates, [template], target, vars, MANIFEST);
      }
      var s := Structure(validated, templates, target, template, vars);
      if s.ok {
        var m := Mkdir(s.tree, target + TSQLT_DIR);
        MkdirKeepsValid(s.tree, target + TSQLT_DIR);
        if m.ok {
          WritePlaceholdersKeepsValid(m.tree, target + TSQLT_DIR, TSQLT_FILES);
        }
        var d := TsqltPlaceholders(s.tree, target);
        if d.ok {
          PermissionsKeepsValid(d.tree, target, SCRIPT_FILES);
        }
      }
    }
  }

  /** `u` differs from `t` only at or below `target`, except that proper
      prefixes of `target` may have become directories. */
  ghost predicate Confined(t: Tree, u: Tree, target: Path) {
    forall q :: !(target <= q) ==>
      && (q in u.files <==> q in t.files)
      && (q in t.files ==> u.files[q] == t.files[q])
      && (q in u.exec <==> q in t.exec)
      && (q in t.dirs ==> q in u.dirs)
      && (q in u.dirs ==> q in t.dirs || q < target)
  }

  lemma ConfinedTrans(t: Tree, u: Tree, w: Tree, target: Path)
    requires Confined(t, u, target) && Confined(u, w, target)
    ensures Confined(t, w, target)
  {
  }

  /** A prefix of a path below `target` is below `target` or above it. */
  lemma PrefixOfExtension(d: Path, target: Path, x: Path)
    requires d <= target + x
    ensures target <= d || d < target
  {
    if |d| < |target| {
      assert d == target[..|d|];
    } else {
      assert d[..|target|] == target;
    }
  }

  lemma MkdirConfined(t: Tree, target: Path, x: Path)
    ensures Confined(t, Mkdir(t, target + x).tree, target)
  {
    var o := Mkdir(t, target + x);
    forall d | d in o.tree.dirs && d !in t.dirs
      ensures target <= d || d < target
    {
      PrefixOfExtension(d, target, x);
    }
  }

  lemma CopyConfined(t: Tree, templates: Tree, src: Path, target: Path, dest: Path, vars: Variables)
    requires dest != []
    ensures Confined(t, CopyTemplate(t, templates, src, target + dest, vars).tree, target)
  {
    if src in templates.files {
      var p := target + dest;
      assert Parent(p) == target + Parent(dest);
      var m := Mkdir(t, Parent(p));
      MkdirConfined(t, target, Parent(dest));
      if m.ok {
        assert target <= p;
        ConfinedTrans(t, m.tree, Write(m.tree, p, Substitute(templates.files[src], vars)).tree, target);
      }
    }
  }

  lemma {:induction false} SkeletonConfined(t: Tree, target: Path, dirs: seq<Path>)
    ensures Confined(t, MakeSkeleton(t, target, dirs).tree, target)
    decreases |dirs|
  {
    if dirs != [] {
      var m := Mkdir(t, target + dirs[0]);
      MkdirConfined(t, target, dirs[0]);
      if m.ok {
        SkeletonConfined(m.tree, target, dirs[1..]);
        ConfinedTrans(t, m.tree, MakeSkeleton(m.tree, target, dirs[1..]).tree, target);
      }
    }
  }

  lemma {:induction false} MaterializeConfined(t: Tree, templates: Tree, root: Path, target: Path, vars: Variables,
                                               entries: seq<(Path, Path)>)
    requires target != []
    requires forall e :: e in entries ==> e.1 != []
    ensures Confined(t, Materialize(t, templates, root, target, vars, entries).tree, target)
    decreases |entries|
  {
    if entries != [] {
      var (src, dest) := entries[0];
      var rest := entries[1..];
      assert forall e :: e in rest ==> e in entries;
      if !Exists(templates, root + src) {
        MaterializeConfined(t, templates, root, target, vars, rest);
      } else {
        var c := CopyTemplate(t, templates, root + src, target + dest, vars);
        CopyConfined(t, templates, root + src, target, dest, vars);
        if c.ok {
          MaterializeConfined(c.tree, templates, root, target, vars, rest);
          ConfinedTrans(t, c.tree, Materialize(c.tree, templates, root, target, vars, rest).tree, target);
        }
      }
    }
  }

  lemma {:induction false} WritePlaceholdersConfined(t: Tree, target: Path, sub: Path, names: seq<string>)
    ensures Confined(t, WritePlaceholders(t, target + sub, names).tree, target)
    decreases |names|
  {
    if names != [] {
      var p := target + sub + [names[0]];
      assert p == target + (sub + [names[0]]);
      var o := Write(t, p, TsqltContent(names[0]));
      if o.ok {
        WritePlaceholdersConfined(o.tree, target, sub, names[1..]);
        ConfinedTrans(t, o.tree, WritePlaceholders(o.tree, target + sub, names[1..]).tree, target);
      }
    }
  }

  lemma TsqltConfined(t: Tree, target: Path)
    ensures Confined(t, TsqltPlaceholders(t, target).tree, target)
  {
    var m := Mkdir(t, target + TSQLT_DIR);
    MkdirConfined(t, target, TSQLT_DIR);
    if m.ok {
      WritePlaceholdersConfined(m.tree, target, TSQLT_DIR, TSQLT_FILES);
      ConfinedTrans(t, m.tree, TsqltPlaceholders(t, target).tree, target);
    }
  }

  lemma {:induction false} PermissionsConfined(t: Tree, target: Path, scripts: seq<string>)
    ensures Confined(t, Permissions(t, target, scripts), target)
    decreases |scripts|
  {
    if scripts != [] {
      var p := target + [scripts[0]];
      assert target <= p;
      var next := if Exists(t, p) then Chmod(t, p).tree else t;
      PermissionsConfined(next, target, scripts[1..]);
      ConfinedTrans(t, next, Permissions(next, target, scripts[1..]), target);
    }
  }

  /** Whatever happens, `create_project` changes nothing outside the target
      directory, except that the directories leading to it may be
      created. */
  lemma CreationConfined(t: Tree, templates: Tree, target: Path, template: string, force: bool, testMode: bool,
                         env: Environment, vars: Variables)
    requires target != []
    ensures Confined(t, Creation(t, templates, target, template, force, testMode, env, vars).1, target)
  {
    var (v, validated) := Validation(t, target, force, testMode, env);
    if v == Succeeded {
      var sk := MakeSkeleton(validated, target, SKELETON);
      SkeletonConfined(validated, target, SKELETON);
      var s := Structure(validated, templates, target, template, vars);
      if sk.ok && Exists(templates, [template]) {
        ManifestEntriesNonEmpty();
        MaterializeConfined(sk.tree, templates, [template], target, vars, MANIFEST);
        ConfinedTrans(validated, sk.tree, s.tree, target);
      }
      ConfinedTrans(t, validated, s.tree, target);
      if s.ok {
        var d := TsqltPlaceholders(s.tree, target);
        TsqltConfined(s.tree, target);
        ConfinedTrans(t, s.tree, d.tree, target);
        if d.ok {
          PermissionsConfined(d.tree, target, SCRIPT_FILES);
          ConfinedTrans(t, d.tree, Permissions(d.tree, target, SCRIPT_FILES), target);
        }
      }
    }
  }

  // ---------------------------------------------------------------------
  // The manifest and the layout of a new project
  // ---------------------------------------------------------------------

  /** The directories, relative to the target, that a run creates. */
  const LAYOUT_DIRS: set<Path> := {
    [".devdb"], [".devdb", "scripts"], [".devdb", "tSQLt"],
    ["schemas"], ["tests"],
    ["output"], ["output", "prod_scripts"], ["output", "docs"]
  }

  /** The target itself or one of the layout directories. */
  predicate InLayout(r: Path) {
    r == [] || r in LAYOUT_DIRS
  }

  /** A relative path a run writes a file to: not a layout directory, and
      its parent is the target or a layout directory. */
  predicate FileSlot(f: Path) {
    f != [] && f !in LAYOUT_DIRS && InLayout(Parent(f))
  }

  lemma LayoutPrefixClosed()
    ensures forall r, k :: r in LAYOUT_DIRS && 0 < k < |r| ==> r[..k] in LAYOUT_DIRS
  {
    forall r, k | r in LAYOUT_DIRS && 0 < k < |r|
      ensures r[..k] in LAYOUT_DIRS
    {
      assert r[..k] == [r[0]];
    }
  }

  lemma SlotUnder(parent: Path, name: string)
    requires InLayout(parent) && parent + [name] !in LAYOUT_DIRS
    ensures FileSlot(parent + [name])
  {
    assert Parent(parent + [name]) == parent;
  }

  /** Entries whose destinations are pairwise distinct. */
  predicate DistinctDestinations(entries: seq<(Path, Path)>) {
    forall i, j :: 0 <= i < j < |entries| ==> entries[i].1 != entries[j].1
  }

  /** Two lists of distinct destinations stay distinct when joined if their
      first segments never meet. */
  lemma DistinctConcat(a: seq<(Path, Path)>, b: seq<(Path, Path)>, heads: set<string>)
    requires DistinctDestinations(a) && DistinctDestinations(b)
    requires forall i :: 0 <= i < |a| ==> a[i].1 != [] && a[i].1[0] !in heads
    requires forall j :: 0 <= j < |b| ==> b[j].1 != [] && b[j].1[0] in heads
    ensures DistinctDestinations(a + b)
  {
    forall i, j | 0 <= i < j < |a + b|
      ensures (a + b)[i].1 != (a + b)[j].1
    {
      if i < |a| && j >= |a| {
        assert (a + b)[i] == a[i] && (a + b)[j] == b[j - |a|];
      }
    }
  }

  /** Facts about one group of the manifest, read off its entries. */
  predicate GroupFacts(entries: seq<(Path, Path)>) {
    && DistinctDestinations(entries)
    && forall i :: 0 <= i < |entries| ==>
         entries[i].0 == entries[i].1 && FileSlot(entries[i].1) && entries[i].1 != TSQLT_DIR
         && (|entries[i].1| != 3 || entries[i].1[1] != "tSQLt")
  }

  lemma TemplateFilesDistinct()
    ensures DistinctDestinations(TEMPLATE_FILES)
  {
  }

  lemma TemplateFilesSlots()
    ensures forall i :: 0 <= i < |TEMPLATE_FILES| ==> FileSlot(TEMPLATE_FILES[i].1)
  {
    forall i | 0 <= i < |TEMPLATE_FILES|
      ensures FileSlot(TEMPLATE_FILES[i].1)
    {
      var f := TEMPLATE_FILES[i].1;
      if i < 6 {
        assert f == [] + [f[0]];
        SlotUnder([], f[0]);
      } else if i < 9 {
        assert f == [".devdb"] + [f[1]];
        SlotUnder([".devdb"], f[1]);
      } else {
        assert f == [".devdb", "scripts"] + [f[2]];
        SlotUnder([".devdb", "scripts"], f[2]);
      }
    }
  }

  lemma TemplateFilesShape()
    ensures forall i :: 0 <= i < |TEMPLATE_FILES| ==>
      TEMPLATE_FILES[i].0 == TEMPLATE_FILES[i].1 && TEMPLATE_FILES[i].1 != TSQLT_DIR && (|TEMPLATE_FILES[i].1| != 3 || TEMPLATE_FILES[i].1[1] != "tSQLt")
    ensures forall i :: 0 <= i < |TEMPLATE_FILES| ==> TEMPLATE_FILES[i].1[0] !in {"schemas", "tests"}
  {
  }

  lemma TemplateFilesFacts()
    ensures GroupFacts(TEMPLATE_FILES)
    ensures forall i :: 0 <= i < |TEMPLATE_FILES| ==> TEMPLATE_FILES[i].1[0] !in {"schemas", "tests"}
  {
    TemplateFilesDistinct();
    TemplateFilesSlots();
    TemplateFilesShape();
  }

  lemma SchemaFilesDistinct()
    ensures DistinctDestinations(SCHEMA_FILES)
  {
  }

  lemma SchemaFilesSlots()
    ensures forall i :: 0 <= i < |SCHEMA_FILES| ==> FileSlot(SCHEMA_FILES[i].1)
  {
    forall i | 0 <= i < |SCHEMA_FILES|
      ensures FileSlot(SCHEMA_FILES[i].1)
    {
      var f := SCHEMA_FILES[i].1;
      assert f == ["schemas"] + [f[1]];
      SlotUnder(["schemas"], f[1]);
    }
  }

  lemma SchemaFilesShape()
    ensures forall i :: 0 <= i < |SCHEMA_FILES| ==>
      SCHEMA_FILES[i].0 == SCHEMA_FILES[i].1 && SCHEMA_FILES[i].1 != TSQLT_DIR && (|SCHEMA_FILES[i].1| != 3 || SCHEMA_FILES[i].1[1] != "tSQLt")
    ensures forall i :: 0 <= i < |SCHEMA_FILES| ==> SCHEMA_FILES[i].1[0] == "schemas"
  {
  }

  lemma SchemaFilesFacts()
    ensures GroupFacts(SCHEMA_FILES)
    ensures forall i :: 0 <= i < |SCHEMA_FILES| ==> SCHEMA_FILES[i].1[0] == "schemas"
  {
    SchemaFilesDistinct();
    SchemaFilesSlots();
    SchemaFilesShape();
  }

  lemma TestFilesDistinct()
    ensures DistinctDestinations(TEST_FILES)
  {
  }

  lemma TestFilesSlots()
    ensures forall i :: 0 <= i < |TEST_FILES| ==> FileSlot(TEST_FILES[i].1)
  {
    forall i | 0 <= i < |TEST_FILES|
      ensures FileSlot(TEST_FILES[i].1)
    {
      var f := TEST_FILES[i].1;
      assert f == ["tests"] + [f[1]];
      SlotUnder(["tests"], f[1]);
    }
  }

  lemma TestFilesShape()
    ensures forall i :: 0 <= i < |TEST_FILES| ==>
      TEST_FILES[i].0 == TEST_FILES[i].1 && TEST_FILES[i].1 != TSQLT_DIR && (|TEST_FILES[i].1| != 3 || TEST_FILES[i].1[1] != "tSQLt")
    ensures forall i :: 0 <= i < |TEST_FILES| ==> TEST_FILES[i].1[0] == "tests"
  {
  }

  lemma TestFilesFacts()
    ensures GroupFacts(TEST_FILES)
    ensures forall i :: 0 <= i < |TEST_FILES| ==> TEST_FILES[i].1[0] == "tests"
  {
    TestFilesDistinct();
    TestFilesSlots();
    TestFilesShape();
  }

  lemma GroupFactsConcat(a: seq<(Path, Path)>, b: seq<(Path, Path)>, heads: set<string>)
    requires GroupFacts(a) && GroupFacts(b)
    requires forall i :: 0 <= i < |a| ==> a[i].1[0] !in heads
    requires forall j :: 0 <= j < |b| ==> b[j].1[0] in heads
    ensures GroupFacts(a + b)
  {
    DistinctConcat(a, b, heads);
    assert forall i :: 0 <= i < |a + b| ==> (a + b)[i] == if i < |a| then a[i] else b[i - |a|];
  }

  /** The manifest has 21 entries, each copying a file to the same relative
      path; the destinations are distinct, each is a file under the target
      or one of its layout directories, none lies in `.devdb/tSQLt`, and
      the first three are the scripts. */
  lemma ManifestShape()
    ensures |MANIFEST| == 21
    ensures GroupFacts(MANIFEST)
    ensures forall k :: 0 <= k < |SCRIPT_FILES| ==> MANIFEST[k].1 == [SCRIPT_FILES[k]]
  {
    TemplateFilesFacts();
    SchemaFilesFacts();
    TestFilesFacts();
    GroupFactsConcat(TEMPLATE_FILES, SCHEMA_FILES, {"schemas"});
    var front := TEMPLATE_FILES + SCHEMA_FILES;
    assert forall i :: 0 <= i < |front| ==> front[i].1[0] !in {"tests"} by {
      assert forall i :: 0 <= i < |front| ==> front[i] == if i < 10 then TEMPLATE_FILES[i] else SCHEMA_FILES[i - 10];
    }
    GroupFactsConcat(front, TEST_FILES, {"tests"});
  }

  /** What lies at and below `target` while a fresh run builds it: no file
      at or above the target, files below it only outside the layout
      directories, directories below it only layout directories. */
  ghost predicate Layout(u: Tree, target: Path) {
    && !Blocked(u, target)
    && (forall q :: q in u.files && target < q ==> q[|target|..] !in LAYOUT_DIRS)
    && (forall q :: q in u.dirs && target < q ==> q[|target|..] in LAYOUT_DIRS)
  }

  lemma FreshLayout(t: Tree, target: Path)
    requires Valid(t) && !Exists(t, target) && !Blocked(t, target)
    ensures Layout(t, target)
  {
    AbsentHasNoEntries(t, target);
  }

  /** An existing empty target directory satisfies the layout invariant. */
  lemma EmptyLayout(t: Tree, target: Path)
    requires Valid(t) && target in t.dirs && !HasEntries(t, target)
    ensures Layout(t, target)
  {
    forall k | 0 < k <= |target|
      ensures target[..k] !in t.files
    {
      if k < |target| {
        assert target[..k] in t.dirs;
      } else {
        assert target[..k] == target;
      }
    }
  }

  /** A target `_validate_setup` lets through without removing anything:
      missing, or an empty directory when `force` is not given. */
  predicate UntouchedTarget(t: Tree, target: Path, force: bool) {
    !Exists(t, target) || (!force && target in t.dirs && !HasEntries(t, target))
  }

  lemma StartLayout(t: Tree, target: Path, force: bool)
    requires Valid(t) && !Blocked(t, target) && UntouchedTarget(t, target, force)
    ensures Layout(t, target)
  {
    if !Exists(t, target) {
      FreshLayout(t, target);
    } else {
      EmptyLayout(t, target);
    }
  }

  /** Creating a layout directory succeeds and keeps the layout. */
  lemma MkdirLayout(u: Tree, target: Path, r: Path)
    requires Layout(u, target) && InLayout(r)
    ensures var m := Mkdir(u, target + r);
      m.ok && Layout(m.tree, target) && IsDir(m.tree, target + r)
  {
    var p := target + r;
    LayoutPrefixClosed();
    forall k | 0 < k <= |p|
      ensures p[..k] !in u.files
    {
      if k <= |target| {
        assert p[..k] == target[..k];
      } else {
        var q := p[..k];
        var m := k - |target|;
        assert q[|target|..] == r[..m];
        assert r[..m] in LAYOUT_DIRS by { if m < |r| { assert r in LAYOUT_DIRS; } else { assert r[..m] == r; } }
        assert target < q;
      }
    }
    var m := Mkdir(u, p);
    forall d | d in m.tree.dirs && target < d
      ensures d[|target|..] in LAYOUT_DIRS
    {
      if d !in u.dirs {
        var n := |d| - |target|;
        assert d == p[..|d|];
        assert d[|target|..] == r[..n];
        assert r[..n] in LAYOUT_DIRS by { if n < |r| { assert r in LAYOUT_DIRS; } else { assert r[..n] == r; } }
      }
    }
    if p != [] {
      assert p[..|p|] == p;
    }
  }

  /** Writing a file to a slot whose parent exists succeeds and keeps the
      layout. */
  lemma WriteLayout(u: Tree, target: Path, f: Path, s: string)
    requires Layout(u, target) && FileSlot(f) && IsDir(u, target + Parent(f))
    ensures var w := Write(u, target + f, s);
      w.ok && Layout(w.tree, target)
  {
    var p := target + f;
    assert Parent(p) == target + Parent(f);
    assert target < p && p[|target|..] == f;
    var w := Write(u, p, s);
    forall k | 0 < k <= |target|
      ensures target[..k] !in w.tree.files
    {
      assert target[..k] != p;
    }
  }

  lemma CopyLayout(u: Tree, templates: Tree, src: Path, target: Path, dest: Path, vars: Variables)
    requires Layout(u, target) && src in templates.files && FileSlot(dest)
    ensures var c := CopyTemplate(u, templates, src, target + dest, vars);
      c.ok && Layout(c.tree, target)
  {
    var p := target + dest;
    assert Parent(p) == target + Parent(dest);
    MkdirLayout(u, target, Parent(dest));
    var m := Mkdir(u, Parent(p));
    WriteLayout(m.tree, target, dest, Substitute(templates.files[src], vars));
  }

  lemma {:induction false} SkeletonLayout(u: Tree, target: Path, dirs: seq<Path>)
    requires Layout(u, target)
    requires forall i :: 0 <= i < |dirs| ==> InLayout(dirs[i])
    ensures var o := MakeSkeleton(u, target, dirs); o.ok && Layout(o.tree, target)
    decreases |dirs|
  {
    if dirs != [] {
      MkdirLayout(u, target, dirs[0]);
      SkeletonLayout(Mkdir(u, target + dirs[0]).tree, target, dirs[1..]);
    }
  }

  lemma {:induction false} MaterializeLayout(u: Tree, templates: Tree, root: Path, target: Path, vars: Variables,
                                             entries: seq<(Path, Path)>)
    requires target != [] && Layout(u, target)
    requires forall i :: 0 <= i < |entries| ==> FileSlot(entries[i].1)
    requires forall i :: 0 <= i < |entries| && Exists(templates, root + entries[i].0) ==>
      root + entries[i].0 in templates.files
    ensures var o := Materialize(u, templates, root, target, vars, entries); o.ok && Layout(o.tree, target)
    decreases |entries|
  {
    if entries != [] {
      var (src, dest) := entries[0];
      if Exists(templates, root + src) {
        CopyLayout(u, templates, root + src, target, dest, vars);
        var c := CopyTemplate(u, templates, root + src, target + dest, vars);
        MaterializeLayout(c.tree, templates, root, target, vars, entries[1..]);
      } else {
        MaterializeLayout(u, templates, root, target, vars, entries[1..]);
      }
    }
  }

  lemma SkeletonFits()
    ensures forall i :: 0 <= i < |SKELETON| ==> InLayout(SKELETON[i])
  {
  }

  lemma TsqltFits()
    ensures InLayout(TSQLT_DIR)
    ensures forall n :: n in TSQLT_FILES ==> FileSlot(TSQLT_DIR + [n])
  {
    forall n | n in TSQLT_FILES
      ensures FileSlot(TSQLT_DIR + [n])
    {
      SlotUnder(TSQLT_DIR, n);
    }
  }

  /** The tSQLt loop leaves every path that is not one of its files alone,
      and never changes a directory or a mode. */
  lemma {:induction false} WritePlaceholdersFrame(t: Tree, dir: Path, names: seq<string>, p: Path)
    requires forall n :: n in names ==> p != dir + [n]
    ensures var o := WritePlaceholders(t, dir, names);
      && (p in o.tree.files <==> p in t.files)
      && (p in t.files ==> o.tree.files[p] == t.files[p])
      && o.tree.dirs == t.dirs && o.tree.exec == t.exec
    decreases |names|
  {
    if names != [] {
      var o := Write(t, dir + [names[0]], TsqltContent(names[0]));
      assert forall n :: n in names[1..] ==> n in names;
      WritePlaceholdersFrame(o.tree, dir, names[1..], p);
    }
  }

  lemma {:induction false} WritePlaceholdersLayout(u: Tree, target: Path, names: seq<string>)
    requires Layout(u, target) && IsDir(u, target + TSQLT_DIR)
    requires forall n :: n in names ==> FileSlot(TSQLT_DIR + [n])
    ensures var o := WritePlaceholders(u, target + TSQLT_DIR, names); o.ok && Layout(o.tree, target)
    decreases |names|
  {
    if names != [] {
      var n := names[0];
      assert target + TSQLT_DIR + [n] == target + (TSQLT_DIR + [n]);
      assert Parent(TSQLT_DIR + [n]) == TSQLT_DIR;
      WriteLayout(u, target, TSQLT_DIR + [n], TsqltContent(n));
      var w := Write(u, target + TSQLT_DIR + [n], TsqltContent(n));
      assert forall m :: m in names[1..] ==> m in names;
      WritePlaceholdersLayout(w.tree, target, names[1..]);
    }
  }

  /** The sources that exist under `root` are regular files. */
  predicate PresentAreFiles(templates: Tree, root: Path, entries: seq<(Path, Path)>) {
    forall i :: 0 <= i < |entries| && Exists(templates, root + entries[i].0) ==> root + entries[i].0 in templates.files
  }

  /** Every entry whose source exists under `root` has its destination
      under `target` holding that source with the variables substituted. */
  ghost predicate Materialized(u: Tree, templates: Tree, root: Path, target: Path, vars: Variables,
                               entries: seq<(Path, Path)>) {
    forall i :: 0 <= i < |entries| && root + entries[i].0 in templates.files ==>
      && target + entries[i].1 in u.files
      && u.files[target + entries[i].1] == Substitute(templates.files[root + entries[i].0], vars)
  }

  /** The copy loop, over distinct slots whose present sources are files,
      completes on a layout and writes every present entry. */
  lemma MaterializeOnLayout(u: Tree, templates: Tree, root: Path, target: Path, vars: Variables,
                            entries: seq<(Path, Path)>)
    requires target != [] && Layout(u, target) && GroupFacts(entries)
    requires PresentAreFiles(templates, root, entries)
    ensures var o := Materialize(u, templates, root, target, vars, entries);
      && o.ok && Layout(o.tree, target) && u.dirs <= o.tree.dirs
      && Materialized(o.tree, templates, root, target, vars, entries)
  {
    MaterializeLayout(u, templates, root, target, vars, entries);
    MaterializeWrites(u, templates, root, target, vars, entries);
    MaterializeFrame(u, templates, root, target, vars, entries, []);
  }

  /** The structure step on a fresh layout: it completes, the skeleton
      exists and every manifest destination holds its substituted source. */
  lemma FreshStructure(u: Tree, templates: Tree, target: Path, template: string, vars: Variables)
    requires target != [] && Layout(u, target)
    requires Exists(templates, [template])
    requires PresentAreFiles(templates, [template], MANIFEST)
    ensures var s := Structure(u, templates, target, template, vars);
      && s.ok && Layout(s.tree, target)
      && (forall i :: 0 <= i < |SKELETON| ==> IsDir(s.tree, target + SKELETON[i]))
      && Materialized(s.tree, templates, [template], target, vars, MANIFEST)
  {
    ManifestShape();
    SkeletonFits();
    SkeletonLayout(u, target, SKELETON);
    SkeletonEffect(u, target, SKELETON);
    var sk := MakeSkeleton(u, target, SKELETON);
    MaterializeOnLayout(sk.tree, templates, [template], target, vars, MANIFEST);
  }

  /** `download_tsqlt` leaves alone every path that is not one of its five
      files. */
  lemma TsqltFrame(u: Tree, target: Path, p: Path)
    requires forall n :: n in TSQLT_FILES ==> p != target + TSQLT_DIR + [n]
    ensures var d := TsqltPlaceholders(u, target);
      && (p in d.tree.files <==> p in u.files)
      && (p in u.files ==> d.tree.files[p] == u.files[p])
  {
    var m := Mkdir(u, target + TSQLT_DIR);
    WritePlaceholdersFrame(m.tree, target + TSQLT_DIR, TSQLT_FILES, p);
  }

  lemma TsqltKeepsMaterialized(u: Tree, templates: Tree, root: Path, target: Path, vars: Variables,
                               entries: seq<(Path, Path)>)
    requires GroupFacts(entries)
    requires Materialized(u, templates, root, target, vars, entries)
    ensures Materialized(TsqltPlaceholders(u, target).tree, templates, root, target, vars, entries)
  {
    forall i | 0 <= i < |entries| && root + entries[i].0 in templates.files
      ensures var d := TsqltPlaceholders(u, target);
        && target + entries[i].1 in d.tree.files
        && d.tree.files[target + entries[i].1] == u.files[target + entries[i].1]
    {
      var p := target + entries[i].1;
      forall n | n in TSQLT_FILES
        ensures p != target + TSQLT_DIR + [n]
      {
        var f := TSQLT_DIR + [n];
        assert |f| == 3 && f[1] == "tSQLt";
        AppendDistinct(target, entries[i].1, f);
        assert target + TSQLT_DIR + [n] == target + f;
      }
      TsqltFrame(u, target, p);
    }
  }

  /** A completed placeholder loop keeps every file and adds its own. */
  lemma {:induction false} WritePlaceholdersAdds(t: Tree, dir: Path, names: seq<string>)
    ensures var o := WritePlaceholders(t, dir, names);
      o.ok ==> t.files.Keys <= o.tree.files.Keys && forall n :: n in names ==> dir + [n] in o.tree.files
    decreases |names|
  {
    if names != [] {
      var w := Write(t, dir + [names[0]], TsqltContent(names[0]));
      WritePlaceholdersAdds(w.tree, dir, names[1..]);
      assert forall n :: n in names ==> n == names[0] || n in names[1..];
    }
  }

  /** The tSQLt step on a layout completes, writes its five files, and
      removes no directory and changes no mode. */
  lemma TsqltOnLayout(u: Tree, target: Path)
    requires Layout(u, target)
    ensures var d := TsqltPlaceholders(u, target);
      && d.ok
      && (forall n :: n in TSQLT_FILES ==> target + TSQLT_DIR + [n] in d.tree.files)
      && u.dirs <= d.tree.dirs && d.tree.exec == u.exec
  {
    TsqltFits();
    MkdirLayout(u, target, TSQLT_DIR);
    var m := Mkdir(u, target + TSQLT_DIR);
    WritePlaceholdersLayout(m.tree, target, TSQLT_FILES);
    WritePlaceholdersAdds(m.tree, target + TSQLT_DIR, TSQLT_FILES);
    WritePlaceholdersFrame(m.tree, target + TSQLT_DIR, TSQLT_FILES, []);
  }

  /** The scripts are the first manifest entries, so a materialized
      manifest holds those the template has. */
  lemma ScriptsMaterialized(u: Tree, templates: Tree, template: string, target: Path, vars: Variables)
    requires Materialized(u, templates, [template], target, vars, MANIFEST)
    ensures forall sc :: sc in SCRIPT_FILES && [template, sc] in templates.files ==> target + [sc] in u.files
  {
    ManifestShape();
    forall sc | sc in SCRIPT_FILES && [template, sc] in templates.files
      ensures target + [sc] in u.files
    {
      var k :| 0 <= k < |SCRIPT_FILES| && SCRIPT_FILES[k] == sc;
      assert MANIFEST[k].0 == MANIFEST[k].1 == [sc];
      assert [template] + MANIFEST[k].0 == [template, sc];
    }
  }

  /** On a fresh layout, structure and tSQLt steps both complete and
      leave the skeleton, the manifest and the tSQLt files in place. */
  lemma FreshThroughTsqlt(u: Tree, templates: Tree, target: Path, template: string, vars: Variables)
    requires target != [] && Layout(u, target)
    requires Exists(templates, [template])
    requires PresentAreFiles(templates, [template], MANIFEST)
    ensures var s := Structure(u, templates, target, template, vars);
      var d := TsqltPlaceholders(s.tree, target);
      && s.ok && d.ok
      && Materialized(d.tree, templates, [template], target, vars, MANIFEST)
      && (forall i :: 0 <= i < |SKELETON| ==> IsDir(d.tree, target + SKELETON[i]))
      && (forall n :: n in TSQLT_FILES ==> target + TSQLT_DIR + [n] in d.tree.files)
      && (forall sc :: sc in SCRIPT_FILES && [template, sc] in templates.files ==> target + [sc] in d.tree.files)
  {
    FreshStructure(u, templates, target, template, vars);
    var s := Structure(u, templates, target, template, vars);
    TsqltOnLayout(s.tree, target);
    ManifestShape();
    TsqltKeepsMaterialized(s.tree, templates, [template], target, vars, MANIFEST);
    ScriptsMaterialized(TsqltPlaceholders(s.tree, target).tree, templates, template, target, vars);
  }

  /** The tree a fresh run has built before `_set_permissions`. */
  ghost function Prepared(t: Tree, templates: Tree, target: Path, template: string, vars: Variables): Tree
    requires target != []
  {
    TsqltPlaceholders(Structure(t, templates, target, template, vars).tree, target).tree
  }

  lemma {:induction false} PermissionsMarksScripts(t: Tree, target: Path, scripts: seq<string>)
    ensures var u := Permissions(t, target, scripts);
      && u.files == t.files && u.dirs == t.dirs
      && forall sc :: sc in scripts && target + [sc] in t.files ==> target + [sc] in u.exec
    decreases |scripts|
  {
    PermissionsEffect(t, target, scripts);
    forall sc | sc in scripts && target + [sc] in t.files
      ensures target + [sc] in Permissions(t, target, scripts).exec
    {
      assert Exists(t, target + [sc]);
    }
  }

  /** On a fresh target `create_project` completes: with the environment
      checks passing, no file at or above the target, the target absent (or
      an empty directory and no `force`) and every manifest source that
      exists in the template a regular file, it returns True after setting
      the permissions on what the earlier steps built. */
  lemma FreshRunSucceeds(t: Tree, templates: Tree, target: Path, template: string, force: bool,
                         testMode: bool, env: Environment, vars: Variables)
    requires Valid(t) && target != []
    requires ChecksPass(testMode, env)
    requires UntouchedTarget(t, target, force) && !Blocked(t, target)
    requires Exists(templates, [template])
    requires PresentAreFiles(templates, [template], MANIFEST)
    ensures Creation(t, templates, target, template, force, testMode, env, vars)
         == (Succeeded, Permissions(Prepared(t, templates, target, template, vars), target, SCRIPT_FILES))
  {
    assert target !in t.files;
    assert Validation(t, target, force, testMode, env) == (Succeeded, t);
    StartLayout(t, target, force);
    FreshThroughTsqlt(t, templates, target, template, vars);
  }

  /** What a fresh run leaves behind: every manifest entry whose source
      exists has its destination holding the substituted source (missing
      sources are skipped), the skeleton exists and the five tSQLt files are
      written; the scripts that were copied are executable. */
  lemma FreshRunCreatesProject(t: Tree, templates: Tree, target: Path, template: string, force: bool,
                               testMode: bool, env: Environment, vars: Variables)
    requires Valid(t) && target != []
    requires ChecksPass(testMode, env)
    requires UntouchedTarget(t, target, force) && !Blocked(t, target)
    requires Exists(templates, [template])
    requires PresentAreFiles(templates, [template], MANIFEST)
    ensures var r := Creation(t, templates, target, template, force, testMode, env, vars);
      && r.0 == Succeeded
      && Materialized(r.1, templates, [template], target, vars, MANIFEST)
      && (forall i :: 0 <= i < |SKELETON| ==> IsDir(r.1, target + SKELETON[i]))
      && (forall n :: n in TSQLT_FILES ==> target + TSQLT_DIR + [n] in r.1.files)
      && (forall s :: s in SCRIPT_FILES && [template, s] in templates.files ==> target + [s] in r.1.exec)
  {
    FreshRunSucceeds(t, templates, target, template, force, testMode, env, vars);
    StartLayout(t, target, force);
    FreshThroughTsqlt(t, templates, target, template, vars);
    PermissionsMarksScripts(Prepared(t, templates, target, template, vars), target, SCRIPT_FILES);
  }

  /** A structure step that completes has found the template, built the
      skeleton and written every present manifest entry. */
  lemma StructureCompleted(u: Tree, templates: Tree, target: Path, template: string, vars: Variables)
    requires target != []
    ensures var s := Structure(u, templates, target, template, vars);
      s.ok ==>
        && Exists(templates, [template])
        && (forall i :: 0 <= i < |SKELETON| ==> IsDir(s.tree, target + SKELETON[i]))
        && Materialized(s.tree, templates, [template], target, vars, MANIFEST)
  {
    var sk := MakeSkeleton(u, target, SKELETON);
    SkeletonEffect(u, target, SKELETON);
    if sk.ok && Exists(templates, [template]) {
      ManifestShape();
      MaterializeWrites(sk.tree, templates, [template], target, vars, MANIFEST);
      MaterializeFrame(sk.tree, templates, [template], target, vars, MANIFEST, []);
    }
  }

  /** A tSQLt step that completes keeps every directory and every
      manifest entry, and has written its five files. */
  lemma TsqltCompleted(u: Tree, templates: Tree, target: Path, template: string, vars: Variables)
    requires Materialized(u, templates, [template], target, vars, MANIFEST)
    ensures var d := TsqltPlaceholders(u, target);
      d.ok ==>
        && u.dirs <= d.tree.dirs
        && Materialized(d.tree, templates, [template], target, vars, MANIFEST)
        && (forall n :: n in TSQLT_FILES ==> target + TSQLT_DIR + [n] in d.tree.files)
  {
    ManifestShape();
    TsqltKeepsMaterialized(u, templates, [template], target, vars, MANIFEST);
    var m := Mkdir(u, target + TSQLT_DIR);
    WritePlaceholdersFrame(m.tree, target + TSQLT_DIR, TSQLT_FILES, []);
    WritePlaceholdersAdds(m.tree, target + TSQLT_DIR, TSQLT_FILES);
  }

  lemma PermissionsKeepsMaterialized(u: Tree, templates: Tree, root: Path, target: Path, vars: Variables,
                                     entries: seq<(Path, Path)>, scripts: seq<string>)
    requires Materialized(u, templates, root, target, vars, entries)
    ensures Materialized(Permissions(u, target, scripts), templates, root, target, vars, entries)
  {
    PermissionsMarksScripts(u, target, scripts);
  }

  /** `create_project` returns True only after every step has run, on any
      starting tree: the checks passed, the template existed, the skeleton
      and the tSQLt files are in place, every present manifest entry holds
      its substituted source, and every script in the project is
      executable. */
  lemma SuccessMeansComplete(t: Tree, templates: Tree, target: Path, template: string, force: bool,
                             testMode: bool, env: Environment, vars: Variables)
    requires target != []
    ensures var r := Creation(t, templates, target, template, force, testMode, env, vars);
      r.0 == Succeeded ==>
        && ChecksPass(testMode, env)
        && Exists(templates, [template])
        && Materialized(r.1, templates, [template], target, vars, MANIFEST)
        && (forall i :: 0 <= i < |SKELETON| ==> IsDir(r.1, target + SKELETON[i]))
        && (forall n :: n in TSQLT_FILES ==> target + TSQLT_DIR + [n] in r.1.files)
        && (forall sc :: sc in SCRIPT_FILES && target + [sc] in r.1.files ==> target + [sc] in r.1.exec)
  {
    var r := Creation(t, templates, target, template, force, testMode, env, vars);
    if r.0 == Succeeded {
      var (v, validated) := Validation(t, target, force, testMode, env);
      assert v == Succeeded;
      var s := Structure(validated, templates, target, template, vars);
      var d := TsqltPlaceholders(s.tree, target);
      assert s.ok && d.ok && r.1 == Permissions(d.tree, target, SCRIPT_FILES);
      StructureCompleted(validated, templates, target, template, vars);
      TsqltCompleted(s.tree, templates, target, template, vars);
      PermissionsMarksScripts(d.tree, target, SCRIPT_FILES);
      PermissionsKeepsMaterialized(d.tree, templates, [template], target, vars, MANIFEST, SCRIPT_FILES);
    }
  }
}
