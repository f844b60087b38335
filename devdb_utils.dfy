/** The helpers of the DevDB command-line tool that have behaviour of their
    own: password generation, the git author line, the dependency check,
    the tSQLt placeholder files and the copy of one template file. */
module DevdbUtils {
  import opened FileSystem
  import opened Substitution

  // ---------------------------------------------------------------------
  // generate_strong_password
  // ---------------------------------------------------------------------

  const UPPERCASE := "ABCDEFGHIJKLMNOPQRSTUVWXYZ"
  const LOWERCASE := "abcdefghijklmnopqrstuvwxyz"
  const DIGITS := "0123456789"
  const SPECIALS := "!@#$%^&*"
  /** `string.ascii_letters + string.digits + "!@#$%^&*"`. */
  const PASSWORD_CHARS := LOWERCASE + UPPERCASE + DIGITS + SPECIALS
  const PASSWORD_LENGTH := 12

  /** The shape of every password the generator returns: twelve characters
      of its alphabet, with at least one of each of the four classes. */
  predicate IsStrongPassword(p: string) {
    && |p| == PASSWORD_LENGTH
    && (forall i :: 0 <= i < |p| ==> p[i] in PASSWORD_CHARS)
    && (exists i :: 0 <= i < |p| && p[i] in UPPERCASE)
    && (exists i :: 0 <= i < |p| && p[i] in LOWERCASE)
    && (exists i :: 0 <= i < |p| && p[i] in DIGITS)
    && (exists i :: 0 <= i < |p| && p[i] in SPECIALS)
  }

  /** `random.choice(alphabet)`, an arbitrary element. */
  method Choice(alphabet: string) returns (c: char)
    requires alphabet != []
    ensures c in alphabet
  {
    var i :| 0 <= i < |alphabet|;
    c := alphabet[i];
  }

  /** `random.shuffle`: the Fisher-Yates walk from the last position down,
      each step swapping with an arbitrary position at or before it. */
  method Shuffle(a: array<char>)
    modifies a
    ensures multiset(a[..]) == old(multiset(a[..]))
  {
    var i := a.Length;
    while i > 1
      invariant 0 <= i <= a.Length
      invariant multiset(a[..]) == old(multiset(a[..]))
    {
      i := i - 1;
      var j :| 0 <= j <= i;
      a[i], a[j] := a[j], a[i];
    }
  }

  /** The characters drawn before the shuffle: one upper-case letter, one
      lower-case letter, one digit, one special character, then eight from
      the whole alphabet. */
  method DrawCharacters() returns (drawn: string)
    ensures |drawn| == PASSWORD_LENGTH
    ensures drawn[0] in UPPERCASE && drawn[1] in LOWERCASE
    ensures drawn[2] in DIGITS && drawn[3] in SPECIALS
    ensures forall i :: 4 <= i < |drawn| ==> drawn[i] in PASSWORD_CHARS
  {
    var upper := Choice(UPPERCASE);
    var lower := Choice(LOWERCASE);
    var digit := Choice(DIGITS);
    var special := Choice(SPECIALS);
    drawn := [upper, lower, digit, special];
    for n := 0 to 8
      invariant |drawn| == 4 + n
      invariant drawn[0] == upper && drawn[1] == lower && drawn[2] == digit && drawn[3] == special
      invariant forall i :: 4 <= i < |drawn| ==> drawn[i] in PASSWORD_CHARS
    {
      var c := Choice(PASSWORD_CHARS);
      drawn := drawn + [c];
    }
  }

  /** Each class is part of the whole alphabet. */
  lemma ClassInAlphabet(upper: char, lower: char, digit: char, special: char)
    requires upper in UPPERCASE && lower in LOWERCASE && digit in DIGITS && special in SPECIALS
    ensures upper in PASSWORD_CHARS && lower in PASSWORD_CHARS
    ensures digit in PASSWORD_CHARS && special in PASSWORD_CHARS
  {
  }

  /** Any rearrangement of the drawn characters meets the password rule. */
  lemma RearrangedDrawIsStrong(drawn: string, password: string)
    requires |drawn| == PASSWORD_LENGTH
    requires drawn[0] in UPPERCASE && drawn[1] in LOWERCASE
    requires drawn[2] in DIGITS && drawn[3] in SPECIALS
    requires forall i :: 4 <= i < |drawn| ==> drawn[i] in PASSWORD_CHARS
    requires multiset(password) == multiset(drawn)
    ensures IsStrongPassword(password)
  {
    assert |password| == |multiset(drawn)| == |drawn|;
    RearrangedDrawInAlphabet(drawn, password);
    ClassRepresented(drawn, password, 0, UPPERCASE);
    ClassRepresented(drawn, password, 1, LOWERCASE);
    ClassRepresented(drawn, password, 2, DIGITS);
    ClassRepresented(drawn, password, 3, SPECIALS);
  }

  lemma RearrangedDrawInAlphabet(drawn: string, password: string)
    requires |drawn| == PASSWORD_LENGTH
    requires drawn[0] in UPPERCASE && drawn[1] in LOWERCASE
    requires drawn[2] in DIGITS && drawn[3] in SPECIALS
    requires forall i :: 4 <= i < |drawn| ==> drawn[i] in PASSWORD_CHARS
    requires multiset(password) == multiset(drawn)
    ensures forall i :: 0 <= i < |password| ==> password[i] in PASSWORD_CHARS
  {
    forall i | 0 <= i < |password|
      ensures password[i] in PASSWORD_CHARS
    {
      assert password[i] in multiset(drawn);
      var j :| 0 <= j < |drawn| && drawn[j] == password[i];
      DrawnCharInAlphabet(drawn, j);
    }
  }

  lemma DrawnCharInAlphabet(drawn: string, j: nat)
    requires |drawn| == PASSWORD_LENGTH
    requires drawn[0] in UPPERCASE && drawn[1] in LOWERCASE
    requires drawn[2] in DIGITS && drawn[3] in SPECIALS
    requires forall i :: 4 <= i < |drawn| ==> drawn[i] in PASSWORD_CHARS
    requires j < |drawn|
    ensures drawn[j] in PASSWORD_CHARS
  {
    ClassInAlphabet(drawn[0], drawn[1], drawn[2], drawn[3]);
    if j == 0 {
    } else if j == 1 {
    } else if j == 2 {
    } else if j == 3 {
    } else {
      assert 4 <= j;
    }
  }

  lemma ClassRepresented(drawn: string, password: string, k: nat, alphabet: string)
    requires k < |drawn| && drawn[k] in alphabet
    requires multiset(password) == multiset(drawn)
    ensures exists i :: 0 <= i < |password| && password[i] in alphabet
  {
    assert drawn[k] in multiset(drawn);
    assert drawn[k] in password;
  }

  /** `generate_strong_password`: the drawn characters, shuffled. */
  method GenerateStrongPassword() returns (password: string, ghost drawn: string)
    ensures IsStrongPassword(password)
    ensures |drawn| == PASSWORD_LENGTH && multiset(password) == multiset(drawn)
    ensures drawn[0] in UPPERCASE && drawn[1] in LOWERCASE
    ensures drawn[2] in DIGITS && drawn[3] in SPECIALS
  {
    var chars := DrawCharacters();
    drawn := chars;
    var letters := new char[|chars|](i requires 0 <= i < |chars| => chars[i]);
    assert letters[..] == chars;
    Shuffle(letters);
    password := letters[..];
    RearrangedDrawIsStrong(chars, password);
  }

  // ---------------------------------------------------------------------
  // get_git_user_info
  // ---------------------------------------------------------------------

  /** The outcome of `subprocess.run(..., check=True)`: its standard output,
      or a failure (a non-zero status or a missing executable). */
  datatype CommandResult = Completed(stdout: string) | CommandFailed

  const UNKNOWN_AUTHOR := "Unknown Author"

  /** `str.isspace` for one character. */
  predicate IsSpace(c: char) {
    || c == ' ' || ('\t' <= c <= '\r') || ('\U{1C}' <= c <= '\U{1F}')
    || c == '\U{85}' || c == '\U{A0}' || c == '\U{1680}'
    || ('\U{2000}' <= c <= '\U{200A}') || c == '\U{2028}' || c == '\U{2029}'
    || c == '\U{202F}' || c == '\U{205F}' || c == '\U{3000}'
  }

  function StripLeading(s: string): (r: string)
    ensures |r| <= |s| && r == s[|s| - |r|..]
    ensures r == [] || !IsSpace(r[0])
    ensures forall i :: 0 <= i < |s| - |r| ==> IsSpace(s[i])
  {
    if s != [] && IsSpace(s[0]) then StripLeading(s[1..]) else s
  }

  function StripTrailing(s: string): (r: string)
    ensures |r| <= |s| && r == s[..|r|]
    ensures r == [] || !IsSpace(r[|r| - 1])
    ensures forall i :: |r| <= i < |s| ==> IsSpace(s[i])
  {
    if s != [] && IsSpace(s[|s| - 1]) then StripTrailing(s[..|s| - 1]) else s
  }

  /** `str.strip()`: the text between the leading and the trailing
      whitespace. */
  function Strip(s: string): (r: string)
    ensures exists i, j ::
      (&& 0 <= i <= j <= |s| && r == s[i..j]
       && (forall k :: 0 <= k < i ==> IsSpace(s[k]))
       && (forall k :: j <= k < |s| ==> IsSpace(s[k])))
    ensures r == [] || (!IsSpace(r[0]) && !IsSpace(r[|r| - 1]))
  {
    var left := StripLeading(s);
    var r := StripTrailing(left);
    var i := |s| - |left|;
    assert r == s[i..i + |r|];
    assert forall k :: |r| <= k < |left| ==> IsSpace(left[k]);
    r
  }

  /** `get_git_user_info`, given the outcomes of `git config user.name`
      and `git config user.email`. */
  function GitUserInfo(nameRun: CommandResult, emailRun: CommandResult): (author: string)
    ensures author != []
    ensures !IsSpace(author[0]) && !IsSpace(author[|author| - 1])
    ensures nameRun.CommandFailed? || emailRun.CommandFailed? ==> author == UNKNOWN_AUTHOR
    ensures nameRun.Completed? && emailRun.Completed? ==>
      var name, email := Strip(nameRun.stdout), Strip(emailRun.stdout);
      && (name != [] && email != [] ==> author == name + " <" + email + ">")
      && (name != [] && email == [] ==> author == name)
      && (name == [] ==> author == UNKNOWN_AUTHOR)
  {
    if nameRun.CommandFailed? || emailRun.CommandFailed? then UNKNOWN_AUTHOR
    else
      var name, email := Strip(nameRun.stdout), Strip(emailRun.stdout);
      if name != [] && email != [] then name + " <" + email + ">"
      else if name != [] then name
      else UNKNOWN_AUTHOR
  }

  // ---------------------------------------------------------------------
  // check_python_dependencies
  // ---------------------------------------------------------------------

  const REQUIRED_PACKAGES: seq<string> := ["sqlparse"]

  /** Every required package can be imported. */
  predicate DependenciesAvailable(importable: set<string>) {
    forall i :: 0 <= i < |REQUIRED_PACKAGES| ==> REQUIRED_PACKAGES[i] in importable
  }

  /** `check_python_dependencies`, given the set of packages `__import__`
      finds: collects the missing ones in order and succeeds when there are
      none. */
  method CheckPythonDependencies(importable: set<string>) returns (ok: bool, missing: seq<string>)
    ensures ok <==> DependenciesAvailable(importable)
    ensures ok <==> missing == []
    ensures forall p :: p in missing <==> p in REQUIRED_PACKAGES && p !in importable
  {
    missing := [];
    for i := 0 to |REQUIRED_PACKAGES|
      invariant forall p :: p in missing <==> p in REQUIRED_PACKAGES[..i] && p !in importable
    {
      var package := REQUIRED_PACKAGES[i];
      if package !in importable {
        missing := missing + [package];
      }
      assert REQUIRED_PACKAGES[..i + 1] == REQUIRED_PACKAGES[..i] + [package];
    }
    assert REQUIRED_PACKAGES[..|REQUIRED_PACKAGES|] == REQUIRED_PACKAGES;
    ok := missing == [];
    if !ok {
      assert missing[0] in missing;
    }
  }

  // ---------------------------------------------------------------------
  // download_tsqlt
  // ---------------------------------------------------------------------

  const TSQLT_DIR: Path := [".devdb", "tSQLt"]
  const TSQLT_FILES: seq<string> :=
    ["tSQLt.class.sql", "PrepareServer.sql", "Example.sql", "License.txt", "ReleaseNotes.txt"]
  const TSQLT_CLASS_SCRIPT :=
    "-- tSQLt Testing Framework Installation\n"
    + "-- This is a placeholder - in production, download from https://tsqlt.org/\n"
    + "-- The actual tSQLt.class.sql file would be downloaded during project initialization\n"
    + "\n"
    + "PRINT 'tSQLt framework placeholder - replace with actual tSQLt.class.sql';\n"

  /** The two-line text written for every tSQLt file other than the class script. */
  function Placeholder(name: string): string {
    "-- " + name + " placeholder\n-- Download actual tSQLt files from https://tsqlt.org/\n"
  }

  /** The text written for one tSQLt file. */
  function TsqltContent(name: string): string {
    if name == "tSQLt.class.sql" then TSQLT_CLASS_SCRIPT else Placeholder(name)
  }

  /** The writes of the placeholder loop, in order, stopping at the first
      that raises. */
  function WritePlaceholders(t: Tree, dir: Path, names: seq<string>): Outcome
    decreases |names|
  {
    if names == [] then Outcome(true, t)
    else
      var o := Write(t, dir + [names[0]], TsqltContent(names[0]));
      if !o.ok then o else WritePlaceholders(o.tree, dir, names[1..])
  }

  /** What `download_tsqlt` does to the filesystem; `ok == false` when it
      raises, as it never returns False. */
  function TsqltPlaceholders(t: Tree, target: Path): Outcome {
    var m := Mkdir(t, target + TSQLT_DIR);
    if !m.ok then m else WritePlaceholders(m.tree, target + TSQLT_DIR, TSQLT_FILES)
  }

  /** `download_tsqlt`. */
  method DownloadTsqlt(disk: Disk, target: Path) returns (ok: bool)
    modifies disk
    ensures Outcome(ok, disk.tree) == TsqltPlaceholders(old(disk.tree), target)
  {
    var dir := target + TSQLT_DIR;
    ok := disk.MakeDirs(dir);
    if !ok {
      return;
    }
    ghost var start := disk.tree;
    for i := 0 to |TSQLT_FILES|
      invariant ok
      invariant WritePlaceholders(start, dir, TSQLT_FILES)
             == WritePlaceholders(disk.tree, dir, TSQLT_FILES[i..])
    {
      var name := TSQLT_FILES[i];
      assert TSQLT_FILES[i..][1..] == TSQLT_FILES[i + 1..];
      ok := disk.WriteText(dir + [name], TsqltContent(name));
      if !ok {
        return;
      }
    }
  }

  // ---------------------------------------------------------------------
  // copy_and_process_template
  // ---------------------------------------------------------------------

  /** What `copy_and_process_template` does: read the source from the
      template tree, substitute, create the destination's parent
      directories, write. Reading a missing file or a directory raises
      before anything is changed. */
  function CopyTemplate(t: Tree, templates: Tree, src: Path, dest: Path, vars: Variables): Outcome
    requires dest != []
  {
    match Read(templates, src)
    case None => Outcome(false, t)
    case Some(content) =>
      var m := Mkdir(t, Parent(dest));
      if !m.ok then m else Write(m.tree, dest, Substitute(content, vars))
  }

  /** `copy_and_process_template`. */
  method CopyAndProcessTemplate(disk: Disk, templates: Tree, src: Path, dest: Path, vars: Variables)
    returns (ok: bool)
    requires dest != []
    modifies disk
    ensures Outcome(ok, disk.tree) == CopyTemplate(old(disk.tree), templates, src, dest, vars)
  {
    var content := Read(templates, src);
    if content.None? {
      return false;
    }
    var processed := ReplaceTemplateVariables(content.value, vars);
    ok := disk.MakeDirs(Parent(dest));
    if !ok {
      return;
    }
    ok := disk.WriteText(dest, processed);
  }

  // ---------------------------------------------------------------------
  // Properties
  // ---------------------------------------------------------------------

  /** A copy succeeds exactly when the source is a file, no file blocks the
      destination's parent directories and the destination is not a
      directory; the parents then exist and the destination holds the
      substituted source, overwriting what was there. The only directories
      it creates are proper prefixes of the destination; nothing else
      changes. */
  lemma CopyTemplateEffect(t: Tree, templates: Tree, src: Path, dest: Path, vars: Variables)
    requires dest != []
    ensures var o := CopyTemplate(t, templates, src, dest, vars);
      && (o.ok <==> src in templates.files && !Blocked(t, Parent(dest)) && dest !in t.dirs)
      && (o.ok ==> o.tree.files == t.files[dest := Substitute(templates.files[src], vars)])
      && (o.ok ==> forall k :: 0 < k < |dest| ==> dest[..k] in o.tree.dirs)
      && (!o.ok ==> o.tree.files == t.files)
      && o.tree.exec == t.exec && t.dirs <= o.tree.dirs
      && (forall d :: d in o.tree.dirs && d !in t.dirs ==> d < dest)
  {
    var o := CopyTemplate(t, templates, src, dest, vars);
    if src in templates.files {
      var m := Mkdir(t, Parent(dest));
      if m.ok {
        assert dest in m.tree.dirs <==> dest in t.dirs;
        if |Parent(dest)| > 0 {
          assert Parent(dest)[..|Parent(dest)|] in m.tree.dirs;
        }
        forall k | 0 < k < |dest|
          ensures dest[..k] in o.tree.dirs
        {
          assert dest[..k] == Parent(dest)[..k];
        }
      }
    }
  }

  /** The files after writing the placeholders one by one. */
  function Overlay(files: map<Path, string>, dir: Path, names: seq<string>): map<Path, string>
    decreases |names|
  {
    if names == [] then files
    else Overlay(files[dir + [names[0]] := TsqltContent(names[0])], dir, names[1..])
  }

  lemma {:induction false} WritePlaceholdersEffect(t: Tree, dir: Path, names: seq<string>)
    requires IsDir(t, dir)
    requires forall n :: n in names ==> dir + [n] !in t.dirs
    ensures WritePlaceholders(t, dir, names) == Outcome(true, t.(files := Overlay(t.files, dir, names)))
    decreases |names|
  {
    if names != [] {
      assert Parent(dir + [names[0]]) == dir;
      var o := Write(t, dir + [names[0]], TsqltContent(names[0]));
      assert forall n :: n in names[1..] ==> n in names;
      WritePlaceholdersEffect(o.tree, dir, names[1..]);
    }
  }

  /** `download_tsqlt` completes whenever no file blocks `.devdb/tSQLt` and
      none of the five paths is a directory. The directory then exists and
      exactly the five files are written, replacing what was there;
      `tSQLt.class.sql` receives the install script and the others a
      placeholder comment naming the file. */
  lemma TsqltPlaceholdersEffect(t: Tree, target: Path)
    requires !Blocked(t, target + TSQLT_DIR)
    requires forall n :: n in TSQLT_FILES ==> target + TSQLT_DIR + [n] !in t.dirs
    ensures var o, d := TsqltPlaceholders(t, target), target + TSQLT_DIR;
      && o.ok
      && IsDir(o.tree, d)
      && o.tree.exec == t.exec
      && o.tree.dirs == Mkdir(t, d).tree.dirs
      && o.tree.files == t.files
           [d + ["tSQLt.class.sql"] := TSQLT_CLASS_SCRIPT]
           [d + ["PrepareServer.sql"] := Placeholder("PrepareServer.sql")]
           [d + ["Example.sql"] := Placeholder("Example.sql")]
           [d + ["License.txt"] := Placeholder("License.txt")]
           [d + ["ReleaseNotes.txt"] := Placeholder("ReleaseNotes.txt")]
  {
    var d := target + TSQLT_DIR;
    var m := Mkdir(t, d);
    assert d[..|d|] == d;
    WritePlaceholdersEffect(m.tree, d, TSQLT_FILES);
    var names := TSQLT_FILES;
    assert names[1..][1..][1..][1..][1..] == [];
  }

}
