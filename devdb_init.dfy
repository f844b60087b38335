/** The project materializer, `DevDBInit`: validates the target directory,
    builds the substitution variables, creates the directory skeleton,
    copies the template manifest with placeholders resolved, writes the
    tSQLt placeholders and marks the shell scripts executable.

    Each step is a method of `DevDBInit` that changes a `Disk`; the
    function beside it states the step's effect on a filesystem value. */
module DevdbInit {
  import opened FileSystem
  import opened Substitution
  import opened DevdbUtils

  /** How `create_project` ends: it returns True or False, or an exception
      escapes it. */
  datatype Status = Succeeded | Failed | Raised

  /** What the process learns from outside: whether `check_docker` passes,
      which packages import, what the two git commands print, and the two
      clock reads. */
  datatype Environment = Environment(
    dockerOk: bool,
    importable: set<string>,
    gitName: CommandResult,
    gitEmail: CommandResult,
    creationDate: string,
    year: int)

  /** `Path(target_path).resolve() / project_name` for a resolved base: a
      project name that is empty or `.` adds no segment, so the target is
      the base itself. */
  function ProjectDir(base: Path, name: string): (target: Path)
    ensures base <= target && |target| <= |base| + 1
    ensures target == base <==> name == "" || name == "."
  {
    if name == "" || name == "." then base else base + [name]
  }

  /** The directories `_create_project_structure` creates first. */
  const SKELETON: seq<Path> := [
    [".devdb", "scripts"],
    [".devdb", "tSQLt"],
    ["schemas"],
    ["tests"],
    ["output", "prod_scripts"],
    ["output", "docs"]
  ]

  const TEMPLATE_FILES: seq<(Path, Path)> := [
    (["devdb.sh"], ["devdb.sh"]),
    (["e2e_test.sh"], ["e2e_test.sh"]),
    (["test_connection.sh"], ["test_connection.sh"]),
    ([".gitignore"], [".gitignore"]),
    (["README.md"], ["README.md"]),
    (["CLAUDE.md"], ["CLAUDE.md"]),
    ([".devdb", "docker-compose.yml"], [".devdb", "docker-compose.yml"]),
    ([".devdb", ".env.example"], [".devdb", ".env.example"]),
    ([".devdb", ".env"], [".devdb", ".env"]),
    ([".devdb", "scripts", "code_polisher.py"], [".devdb", "scripts", "code_polisher.py"])
  ]

  const SCHEMA_FILES: seq<(Path, Path)> := [
    (["schemas", "01_tables.sql"], ["schemas", "01_tables.sql"]),
    (["schemas", "02_sprocs_and_views.sql"], ["schemas", "02_sprocs_and_views.sql"]),
    (["schemas", "03_functions.sql"], ["schemas", "03_functions.sql"]),
    (["schemas", "04_advanced_views.sql"], ["schemas", "04_advanced_views.sql"]),
    (["schemas", "05_stored_procedures.sql"], ["schemas", "05_stored_procedures.sql"]),
    (["schemas", "99_install_tsqlt.sql"], ["schemas", "99_install_tsqlt.sql"])
  ]

  const TEST_FILES: seq<(Path, Path)> := [
    (["tests", "test_functions.sql"], ["tests", "test_functions.sql"]),
    (["tests", "test_stored_procedures.sql"], ["tests", "test_stored_procedures.sql"]),
    (["tests", "test_views.sql"], ["tests", "test_views.sql"]),
    (["tests", "test_user_creation.sql"], ["tests", "test_user_creation.sql"]),
    (["tests", "test_product_stock_fail.sql"], ["tests", "test_product_stock_fail.sql"])
  ]

  /** The manifest of (source, destination) pairs, in copy order. */
  const MANIFEST: seq<(Path, Path)> := TEMPLATE_FILES + SCHEMA_FILES + TEST_FILES

  /** The scripts `_set_permissions` makes executable. */
  const SCRIPT_FILES: seq<string> := ["devdb.sh", "e2e_test.sh", "test_connection.sh"]

  const VARIABLE_KEYS: seq<string> :=
    ["PROJECT_NAME", "AUTHOR_NAME", "DB_PASSWORD", "CREATION_DATE", "DB_PORT", "GUI_PORT", "YEAR"]

  function KeysOf(vars: Variables): (keys: seq<string>)
    ensures |keys| == |vars|
    ensures forall i :: 0 <= i < |vars| ==> keys[i] == vars[i].0
  {
    if vars == [] then [] else [vars[0].0] + KeysOf(vars[1..])
  }

  /** `_prepare_variables`, given the author line, the generated password
      and the clock. */
  function ProjectVariables(projectName: string, author: string, password: string, creationDate: string, year: int)
    : (vars: Variables)
    ensures KeysOf(vars) == VARIABLE_KEYS
    ensures forall i, j :: 0 <= i < j < |vars| ==> vars[i].0 != vars[j].0
    ensures Show(vars[0].1) == projectName && Show(vars[1].1) == author && Show(vars[2].1) == password
    ensures Show(vars[3].1) == creationDate && Show(vars[4].1) == "1433" && Show(vars[5].1) == "8081"
    ensures year >= 0 ==> Show(vars[6].1) == NatToDecimal(year)
  {
    [ ("PROJECT_NAME", Text(projectName)),
      ("AUTHOR_NAME", Text(author)),
      ("DB_PASSWORD", Text(password)),
      ("CREATION_DATE", Text(creationDate)),
      ("DB_PORT", Text("1433")),
      ("GUI_PORT", Text("8081")),
      ("YEAR", Number(year)) ]
  }

  /** The effect of `_validate_setup`: the Docker check (unless in test
      mode), the dependency check, then the target directory. Listing or
      removing a regular file raises. */
  function Validation(t: Tree, target: Path, force: bool, testMode: bool, env: Environment)
    : (r: (Status, Tree))
    ensures r.0 != Succeeded ==> r.1 == t
    ensures r.1 != t ==> force && r.1 == Rmtree(t, target).tree
  {
    if !testMode && !env.dockerOk then (Failed, t)
    else if !DependenciesAvailable(env.importable) then (Failed, t)
    else if !Exists(t, target) then (Succeeded, t)
    else if !force then
      if target in t.files then (Raised, t)
      else if HasEntries(t, target) then (Failed, t)
      else (Succeeded, t)
    else
      var o := Rmtree(t, target);
      if !o.ok then (Raised, t) else (Succeeded, o.tree)
  }

  /** The `mkdir` loop over the skeleton, stopping at the first that
      raises. */
  function MakeSkeleton(t: Tree, target: Path, dirs: seq<Path>): Outcome
    decreases |dirs|
  {
    if dirs == [] then Outcome(true, t)
    else
      var m := Mkdir(t, target + dirs[0]);
      if !m.ok then m else MakeSkeleton(m.tree, target, dirs[1..])
  }

  /** The copy loop of `_copy_template_files`: an entry whose source does
      not exist is skipped; a copy that raises ends the loop. */
  function Materialize(t: Tree, templates: Tree, root: Path, target: Path, vars: Variables,
                       entries: seq<(Path, Path)>): Outcome
    requires target != []
    decreases |entries|
  {
    if entries == [] then Outcome(true, t)
    else
      var (src, dest) := entries[0];
      if !Exists(templates, root + src) then Materialize(t, templates, root, target, vars, entries[1..])
      else
        var c := CopyTemplate(t, templates, root + src, target + dest, vars);
        if !c.ok then c else Materialize(c.tree, templates, root, target, vars, entries[1..])
  }

  /** The effect of `_create_project_structure`: the skeleton first, then
      the template check, then the manifest. Any exception is turned into
      a False result. */
  function Structure(t: Tree, templates: Tree, target: Path, template: string, vars: Variables): Outcome
    requires target != []
  {
    var s := MakeSkeleton(t, target, SKELETON);
    if !s.ok then s
    else if !Exists(templates, [template]) then Outcome(false, s.tree)
    else Materialize(s.tree, templates, [template], target, vars, MANIFEST)
  }

  /** The chmod loop of `_set_permissions`: only scripts that exist. */
  function Permissions(t: Tree, target: Path, scripts: seq<string>): Tree
    decreases |scripts|
  {
    if scripts == [] then t
    else
      var p := target + [scripts[0]];
      Permissions(if Exists(t, p) then Chmod(t, p).tree else t, target, scripts[1..])
  }

  /** The effect of `create_project`: validate, create the structure, set
      up the dependencies, set permissions; the first step that fails
      ends the run. */
  function Creation(t: Tree, templates: Tree, target: Path, template: string, force: bool, testMode: bool,
                    env: Environment, vars: Variables): (Status, Tree)
    requires target != []
  {
    var (v, validated) := Validation(t, target, force, testMode, env);
    if v != Succeeded then (v, validated)
    else
      var s := Structure(validated, templates, target, template, vars);
      if !s.ok then (Failed, s.tree)
      else
        var d := TsqltPlaceholders(s.tree, target);
        if !d.ok then (Failed, d.tree)
        else (Succeeded, Permissions(d.tree, target, SCRIPT_FILES))
  }

  lemma ManifestEntriesNonEmpty()
    ensures forall e :: e in MANIFEST ==> e.1 != []
  {
  }

  class DevDBInit {
    /** The contents of `templates_dir`: one top-level directory per
        template name. */
    const templates: Tree

    constructor (templates: Tree)
      ensures this.templates == templates
    {
      this.templates := templates;
    }

    /** `create_project`. `password` is the generated database password,
        drawn only once validation has passed. */
    method CreateProject(disk: Disk, base: Path, projectName: string, template: string, force: bool,
                         testMode: bool, env: Environment)
      returns (status: Status, ghost password: string)
      requires ProjectDir(base, projectName) != []
      modifies disk
      ensures var target := ProjectDir(base, projectName);
        && (Validation(old(disk.tree), target, force, testMode, env).0 == Succeeded ==> IsStrongPassword(password))
        && (status, disk.tree)
           == Creation(old(disk.tree), templates, target, template, force, testMode, env,
                       ProjectVariables(projectName, GitUserInfo(env.gitName, env.gitEmail), password,
                                        env.creationDate, env.year))
    {
      var target := ProjectDir(base, projectName);
      password := "";
      status := ValidateSetup(disk, target, force, testMode, env);
      if status != Succeeded {
        return;
      }
      var vars;
      vars, password := PrepareVariables(projectName, env);
      var ok := CreateProjectStructure(disk, target, template, vars);
      if !ok {
        return Failed, password;
      }
      ok := SetupDependencies(disk, target);
      if !ok {
        return Failed, password;
      }
      SetPermissions(disk, target);
      status := Succeeded;
    }

    /** `_validate_setup`. */
    method ValidateSetup(disk: Disk, target: Path, force: bool, testMode: bool, env: Environment)
      returns (status: Status)
      modifies disk
      ensures (status, disk.tree) == Validation(old(disk.tree), target, force, testMode, env)
    {
      if !testMode && !env.dockerOk {
        return Failed;
      }
      var depsOk, _ := CheckPythonDependencies(env.importable);
      if !depsOk {
        return Failed;
      }
      if Exists(disk.tree, target) {
        if !force {
          if target in disk.tree.files {
            return Raised;
          }
          if HasEntries(disk.tree, target) {
            return Failed;
          }
        } else {
          var removed := disk.RemoveTree(target);
          if !removed {
            return Raised;
          }
        }
      }
      return Succeeded;
    }

    /** `_prepare_variables`. */
    method PrepareVariables(projectName: string, env: Environment) returns (vars: Variables, ghost password: string)
      ensures IsStrongPassword(password)
      ensures vars == ProjectVariables(projectName, GitUserInfo(env.gitName, env.gitEmail), password,
                                       env.creationDate, env.year)
    {
      var author := GitUserInfo(env.gitName, env.gitEmail);
      var generated, _ := GenerateStrongPassword();
      password := generated;
      vars := ProjectVariables(projectName, author, generated, env.creationDate, env.year);
    }

    /** `_create_project_structure`. */
    method CreateProjectStructure(disk: Disk, target: Path, template: string, vars: Variables) returns (ok: bool)
      requires target != []
      modifies disk
      ensures Outcome(ok, disk.tree) == Structure(old(disk.tree), templates, target, template, vars)
    {
      ghost var start := disk.tree;
      ok := true;
      for i := 0 to |SKELETON|
        invariant MakeSkeleton(start, target, SKELETON) == MakeSkeleton(disk.tree, target, SKELETON[i..])
      {
        assert SKELETON[i..][1..] == SKELETON[i + 1..];
        ok := disk.MakeDirs(target + SKELETON[i]);
        if !ok {
          return;
        }
      }
      if !Exists(templates, [template]) {
        return false;
      }
      ok := CopyTemplateFiles(disk, [template], target, vars);
    }

    /** `_copy_template_files`; `ok == false` when a copy raised. */
    method CopyTemplateFiles(disk: Disk, templatePath: Path, target: Path, vars: Variables) returns (ok: bool)
      requires target != []
      modifies disk
      ensures Outcome(ok, disk.tree) == Materialize(old(disk.tree), templates, templatePath, target, vars, MANIFEST)
    {
      ghost var start := disk.tree;
      ok := true;
      for i := 0 to |MANIFEST|
        invariant Materialize(start, templates, templatePath, target, vars, MANIFEST)
               == Materialize(disk.tree, templates, templatePath, target, vars, MANIFEST[i..])
      {
        assert MANIFEST[i..][1..] == MANIFEST[i + 1..];
        var (srcFile, destFile) := MANIFEST[i];
        var src, dest := templatePath + srcFile, target + destFile;
        if Exists(templates, src) {
          ok := CopyAndProcessTemplate(disk, templates, src, dest, vars);
          if !ok {
            return;
          }
        }
      }
    }

    /** `_setup_dependencies`: True whenever `download_tsqlt` does not
        raise; its result is only used for a warning. */
    method SetupDependencies(disk: Disk, target: Path) returns (ok: bool)
      modifies disk
      ensures Outcome(ok, disk.tree) == TsqltPlaceholders(old(disk.tree), target)
    {
      ok := DownloadTsqlt(disk, target);
    }

    /** `_set_permissions`. */
    method SetPermissions(disk: Disk, target: Path)
      modifies disk
      ensures disk.tree == Permissions(old(disk.tree), target, SCRIPT_FILES)
    {
      ghost var start := disk.tree;
      for i := 0 to |SCRIPT_FILES|
        invariant Permissions(start, target, SCRIPT_FILES) == Permissions(disk.tree, target, SCRIPT_FILES[i..])
      {
        assert SCRIPT_FILES[i..][1..] == SCRIPT_FILES[i + 1..];
        var scriptPath := target + [SCRIPT_FILES[i]];
        if Exists(disk.tree, scriptPath) {
          var _ := disk.SetExecutable(scriptPath);
        }
      }
    }
  }
}
