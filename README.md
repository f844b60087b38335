# DevDB project materializer in Dafny

This project models the core of the `devdb` command-line tool. `devdb init`
creates a new SQL Server development project from a packaged template. It:

1. validates the environment (Docker, Python packages) and the target
   directory, removing the target first when `--force` is given;
2. builds the substitution variables (project name, git author, a generated
   password, the date, the ports, the year);
3. creates the directory skeleton;
4. copies a fixed manifest of 21 template files, replacing each `{{KEY}}`
   token with its value;
5. writes the tSQLt placeholder files;
6. marks the three shell scripts executable.

The model is split into five modules:

- `FileSystem` (`file_system.dfy`) is an abstract filesystem.
  - A `Tree` value holds regular files with their text, directories, and
    the paths whose mode was set to 0o755. Paths are sequences of
    segments.
  - The `pathlib`/`shutil` calls are functions (`Mkdir`, `Write`, `Read`,
    `Rmtree`, `Chmod`). Each returns an `Outcome` whose `ok` is false where
    Python would raise.
  - The class `Disk` holds the one mutable tree that the methods update in
    place.
- `Substitution` (`substitution.dfy`) models `str.replace` with Python's
  non-overlapping, left-to-right semantics, and the fold of
  `replace_template_variables` over the ordered variable map.
- `DevdbUtils` (`devdb_utils.dfy`) models:
  - password generation (the random draws are arbitrary choices);
  - the git author line;
  - the dependency check;
  - the tSQLt placeholders;
  - the copy of one template file.
- `DevdbInit` (`devdb_init.dfy`) holds the class `DevDBInit`. Each step of
  `create_project` is a method on a `Disk`. Each method is proved equal to a
  specification function on trees (`Validation`, `Structure`,
  `Materialize`, `TsqltPlaceholders`, `Permissions`, `Creation`).
- `DevdbInitProofs` (`devdb_init_proofs.dfy`) proves what a run promises
  about those functions:
  - the validation decisions;
  - what a fresh run builds;
  - what a successful run guarantees on any starting tree;
  - that every run keeps the tree well formed and stays inside the target.

`create_project` ends in one of three ways (`Status`): it returns True
(`Succeeded`), it returns False (`Failed`), or an exception escapes it
(`Raised`). An exception escapes when the target is a regular file, because
`iterdir` and `rmtree` are not guarded by a handler.

Substitution is sequential: each key's `str.replace` runs over the text the
earlier keys left, so a value inserted for an earlier key can be rewritten by
a later key (`Substitution.LaterKeyRewritesEarlierValue`). Conversely, a git
user name containing `{{PROJECT_NAME}}` keeps that token, because
`AUTHOR_NAME` is replaced after `PROJECT_NAME`.

## Model

| member | source | states |
|---|---|---|
| FileSystem.IsDir | src/devdb_init.py:111 | Defines `Path.is_dir()`: the root or a recorded directory, the only paths `rmtree` accepts. |
| FileSystem.Exists | src/devdb_init.py:103 | Defines `Path.exists()`: a directory or a regular file, as tested at lines 103, 152, 207 and 240. |
| FileSystem.Parent | src/devdb_utils.py:145 | `dest_path.parent` is the path without its last segment: a proper prefix one segment shorter. |
| FileSystem.HasEntries | src/devdb_init.py:105 | Defines `any(target_dir.iterdir())`: some file or directory lies below the path. |
| FileSystem.Blocked | src/devdb_init.py:148 | Defines the condition under which `mkdir(parents=True, exist_ok=True)` raises: a regular file stands at the path or at one of its prefixes. |
| FileSystem.Mkdir | src/devdb_init.py:148 | `mkdir(parents=True, exist_ok=True)` fails exactly when a file lies on the path, and then changes nothing. Otherwise every prefix of the path is a directory afterwards. Files and modes are untouched, and only prefixes of the path become new directories. |
| FileSystem.Write | src/devdb_utils.py:146-147 | Writing fails exactly when the path is a directory or its parent is not one. Otherwise the path's content is replaced and nothing else changes. |
| FileSystem.Read | src/devdb_utils.py:138-139 | Reading succeeds exactly on a regular file and yields its text. |
| FileSystem.Rmtree | src/devdb_init.py:111 | `rmtree` fails, changing nothing, unless the path is a directory. Otherwise nothing at or below the path remains, and every other path is unchanged. |
| FileSystem.Chmod | src/devdb_init.py:241 | `chmod` fails on a missing path. Otherwise it adds the path to the executable set and leaves files and directories alone. |
| FileSystem.MkdirKeepsValid | src/devdb_init.py:148 | Creating directories keeps every file and directory hanging below directories, with no path both a file and a directory. |
| FileSystem.WriteKeepsValid | src/devdb_utils.py:146-147 | Writing a file keeps the tree well formed. |
| FileSystem.RmtreeKeepsValid | src/devdb_init.py:111 | Removing a subtree keeps the tree well formed. |
| FileSystem.ChmodKeepsValid | src/devdb_init.py:241 | Setting a mode keeps the tree well formed. |
| FileSystem.Disk.MakeDirs | src/devdb_init.py:148 | The disk's new state and the result are those of `Mkdir` on the old state. |
| FileSystem.Disk.WriteText | src/devdb_utils.py:146-147 | The disk's new state and the result are those of `Write` on the old state. |
| FileSystem.Disk.RemoveTree | src/devdb_init.py:111 | The disk's new state and the result are those of `Rmtree` on the old state. |
| FileSystem.Disk.SetExecutable | src/devdb_init.py:241 | The disk's new state and the result are those of `Chmod` on the old state. |
| Substitution.NatToDecimal | src/devdb_utils.py:132 | `str(year)` is a non-empty string of decimal digits with no leading zero. |
| Substitution.NatToDecimalRoundTrip | src/devdb_utils.py:132 | Reading back the decimal text of `n` gives `n`. |
| Substitution.Show | src/devdb_utils.py:132 | Defines `str(value)`: a string value as is, an integer as its decimal text with a `-` sign when negative. |
| Substitution.Token | src/devdb_utils.py:131 | Defines the placeholder `{{KEY}}` of a key. |
| Substitution.Replace | src/devdb_utils.py:132 | Defines `str.replace` for a non-empty pattern: scanning left to right, each occurrence not overlapping an earlier replaced one is replaced, and replaced text is not scanned again. |
| Substitution.Count | src/devdb_utils.py:132 | Defines `str.count`: the non-overlapping occurrences that `Replace` rewrites. |
| Substitution.Substitute | src/devdb_utils.py:130-132 | Defines the fold: one `Replace` per key, in the map's order, each on the previous result. |
| Substitution.ReplaceLength | src/devdb_utils.py:132 | `str.replace` changes the length by the number of occurrences times the length difference between replacement and pattern. |
| Substitution.CountZeroIffAbsent | src/devdb_utils.py:132 | The count of replaced occurrences is zero if and only if the pattern occurs nowhere in the text. |
| Substitution.ReplaceAbsent | src/devdb_utils.py:132 | A text without the token comes back unchanged. |
| Substitution.SubstituteAppend | src/devdb_utils.py:130-132 | Adding a key at the end of the map adds one replace step after all earlier ones. |
| Substitution.SubstituteWithoutTokens | src/devdb_utils.py:128-133 | A text holding no token of any key, and any text under the empty map, is returned unchanged. Unmatched placeholders are not an error. |
| Substitution.SubstituteStepLength | src/devdb_utils.py:131-132 | One key's step changes the length by occurrences times (value length minus token length). |
| Substitution.LaterKeyRewritesEarlierValue | src/devdb_utils.py:130-132 | For example, with `A` mapped to `{{B}}` and then `B` to `x`, the text `{{A}}` becomes `x`. With the two keys in the other order it becomes `{{B}}`, so the result depends on key order. |
| Substitution.ReplaceTemplateVariables | src/devdb_utils.py:128-133 | The loop's result equals the ordered fold of one replace per key. |
| DevdbUtils.Choice | src/devdb_utils.py:113-116 | `random.choice` returns a character of the given alphabet. |
| DevdbUtils.Shuffle | src/devdb_utils.py:123-124 | `random.shuffle` permutes the characters (same multiset). |
| DevdbUtils.DrawCharacters | src/devdb_utils.py:112-120 | The draw is twelve characters. The first four are an upper-case letter, a lower-case letter, a digit and a special character, in that order. The other eight come from the full alphabet. |
| DevdbUtils.RearrangedDrawIsStrong | src/devdb_utils.py:108-126 | Any permutation of such a draw is twelve characters from the alphabet with at least one of each class. |
| DevdbUtils.RearrangedDrawInAlphabet | src/devdb_utils.py:109-126 | Every character of a permuted draw lies in the alphabet. |
| DevdbUtils.ClassRepresented | src/devdb_utils.py:112-126 | A character class present in the draw is present in every permutation of it. |
| DevdbUtils.GenerateStrongPassword | src/devdb_utils.py:103-126 | The password has length 12, uses only the 70-character alphabet, and holds an upper-case letter, a lower-case letter, a digit and a special character. It is a permutation of the draw. |
| DevdbUtils.StripLeading | src/devdb_utils.py:157-158 | The result is a suffix of the input. It does not start with whitespace, and everything removed was whitespace. |
| DevdbUtils.StripTrailing | src/devdb_utils.py:157-158 | The result is a prefix of the input. It does not end with whitespace, and everything removed was whitespace. |
| DevdbUtils.IsSpace | src/devdb_utils.py:157-158 | Defines the characters `str.isspace` accepts, which `str.strip()` removes. |
| DevdbUtils.Strip | src/devdb_utils.py:157-158 | `str.strip()` is a slice of the input with only whitespace removed on either side. It starts and ends with a non-whitespace character. |
| DevdbUtils.GitUserInfo | src/devdb_utils.py:149-168 | If either git command fails, the author is `Unknown Author`. Otherwise it is `name <email>` when both are non-empty after stripping, the name alone when the email is empty, and `Unknown Author` when the name is empty. The result is never empty and is stripped. |
| DevdbUtils.CheckPythonDependencies | src/devdb_utils.py:56-72 | The missing list holds exactly the required packages that do not import. The check succeeds if and only if that list is empty, if and only if every required package imports. |
| DevdbUtils.Placeholder | src/devdb_utils.py:98-99 | Defines the two-line placeholder text naming the file. |
| DevdbUtils.TsqltContent | src/devdb_utils.py:88-99 | Defines the text written for one tSQLt file: the installation script for `tSQLt.class.sql` and the placeholder text for every other name. |
| DevdbUtils.DownloadTsqlt | src/devdb_utils.py:74-101 | The disk's new state and the result are those of the tSQLt specification function: mkdir, then five writes, stopping at the first that raises. |
| DevdbUtils.WritePlaceholders | src/devdb_utils.py:88-99 | Defines the placeholder loop: one write per name, in order, stopping at the first that raises. |
| DevdbUtils.TsqltPlaceholders | src/devdb_utils.py:74-101 | Defines `download_tsqlt`'s effect: make `.devdb/tSQLt`, then the placeholder loop; a raise shows as `ok == false`. |
| DevdbUtils.WritePlaceholdersEffect | src/devdb_utils.py:88-99 | Under an existing directory, and with none of the named paths a directory, the write loop completes and overlays exactly the named files, each with its own content. |
| DevdbUtils.TsqltPlaceholdersEffect | src/devdb_utils.py:74-101 | With no file blocking `.devdb/tSQLt` and none of the five file paths a directory, `download_tsqlt` completes and the directory exists. Exactly five files are written: the install script for `tSQLt.class.sql` and a placeholder naming the file for the others. Modes are untouched. |
| DevdbUtils.CopyAndProcessTemplate | src/devdb_utils.py:135-147 | The disk's new state and the result are those of the copy specification function. |
| DevdbUtils.CopyTemplate | src/devdb_utils.py:135-147 | Defines the copy: read the source (a missing path or directory raises), substitute, make the parent directories, write. |
| DevdbUtils.CopyTemplateEffect | src/devdb_utils.py:135-147 | A copy succeeds if and only if the source is a file, no file blocks the destination's parents and the destination is not a directory. On success the parents exist and the destination holds the substituted source. The only new directories are proper prefixes of the destination. No mode changes, no directory is removed, and a failed copy writes no file. |
| DevdbInit.ProjectVariables | src/devdb_init.py:115-129 | The map has exactly the seven keys in order, all distinct. Their values are the project name, the author, the password, the date, `1433`, `8081` and the decimal year. |
| DevdbInit.ProjectDir | src/devdb_init.py:66 | The target extends the base by at most one segment, and equals the base exactly when the project name is empty or `.`, as pathlib's `/` does. |
| DevdbInit.Validation | src/devdb_init.py:89-113 | A validation that does not succeed leaves the tree unchanged. The only change validation can make is the forced removal of the target. |
| DevdbInit.MakeSkeleton | src/devdb_init.py:147-148 | Defines the skeleton loop: one `mkdir` per directory, in order, stopping at the first that raises. |
| DevdbInit.Materialize | src/devdb_init.py:203-210 | Defines the copy loop: an entry whose source does not exist is skipped, and a copy that raises ends the loop. |
| DevdbInit.Structure | src/devdb_init.py:131-163 | Defines `_create_project_structure`: the skeleton, then the template check, then the copy loop; any raise shows as failure. |
| DevdbInit.Permissions | src/devdb_init.py:228-241 | Defines the chmod loop over the scripts that exist. |
| DevdbInit.Creation | src/devdb_init.py:59-87 | Defines `create_project`: validation, structure, tSQLt, permissions, with the first step that does not succeed ending the run and deciding the status. |
| DevdbInit.ManifestEntriesNonEmpty | src/devdb_init.py:169-201 | No manifest destination is the target itself. |
| DevdbInit.DevDBInit.constructor | src/devdb_init.py:32-56 | The materializer reads templates from the given templates tree. |
| DevdbInit.DevDBInit.CreateProject | src/devdb_init.py:59-87 | The target is the base joined with the project name as pathlib joins them. The status and new disk are those of `Creation` on the old disk, with the variables `_prepare_variables` builds. The password drawn after a passing validation is strong. |
| DevdbInit.DevDBInit.ValidateSetup | src/devdb_init.py:89-113 | The status and new disk are those of `Validation`: Docker (skipped in test mode), then dependencies, then the target directory. |
| DevdbInit.DevDBInit.PrepareVariables | src/devdb_init.py:115-129 | Returns the project variables with a strong generated password and the git author line. |
| DevdbInit.DevDBInit.CreateProjectStructure | src/devdb_init.py:131-163 | The new disk and result are those of `Structure`: skeleton loop, template check, manifest copy. |
| DevdbInit.DevDBInit.CopyTemplateFiles | src/devdb_init.py:165-210 | The new disk and result are those of `Materialize` over the manifest. |
| DevdbInit.DevDBInit.SetupDependencies | src/devdb_init.py:212-226 | Returns True whenever `download_tsqlt` does not raise, with its effect on the disk. |
| DevdbInit.DevDBInit.SetPermissions | src/devdb_init.py:228-241 | The new disk is that of `Permissions` over the three scripts. |
| DevdbInitProofs.AbsentHasNoEntries | src/devdb_init.py:103-105 | On a well-formed tree, a path that does not exist has nothing below it. |
| DevdbInitProofs.ValidationOutcome | src/devdb_init.py:94-113 | Validation succeeds if and only if the checks pass, the target is not a file, and `force` is given or the target has no entries. It raises if and only if the checks pass and the target is a file. After success the target has no entries. A missing target is left untouched. |
| DevdbInitProofs.RerunWithoutForceRefuses | src/devdb_init.py:103-108 | Without `force`, a target directory with entries makes the run return False and change nothing. |
| DevdbInitProofs.ForcedRunIsFreshRun | src/devdb_init.py:109-111 | With `force`, a run on an existing target directory is the run on the tree with that directory removed. |
| DevdbInitProofs.SkeletonEffect | src/devdb_init.py:138-148 | The skeleton loop completes if and only if no file blocks any skeleton directory. It then leaves each as a directory, without touching files or modes. |
| DevdbInitProofs.StructureWithoutTemplate | src/devdb_init.py:147-155 | A missing template fails the structure step after the skeleton is made, and no file is written. |
| DevdbInitProofs.AppendInjective | src/devdb_init.py:205 | Two relative paths that give the same path when joined to the same target are equal. |
| DevdbInitProofs.AppendDistinct | src/devdb_init.py:205 | Joining the same target to two different relative paths gives different paths. |
| DevdbInitProofs.MaterializeFrame | src/devdb_init.py:203-210 | The copy loop changes no mode and removes no directory. It leaves every non-destination file as it was, and any directory it creates lies above one of the destinations. |
| DevdbInitProofs.MaterializeWrites | src/devdb_init.py:203-210 | When the loop completes with distinct destinations, each existing source was a file. Its destination holds the substituted source. |
| DevdbInitProofs.PermissionsEffect | src/devdb_init.py:238-241 | A path becomes executable if and only if it already was, or it is one of the scripts and it exists. Files and directories are unchanged. |
| DevdbInitProofs.SkeletonKeepsValid | src/devdb_init.py:147-148 | The skeleton loop keeps the tree well formed. |
| DevdbInitProofs.CopyKeepsValid | src/devdb_utils.py:135-147 | A template copy keeps the tree well formed. |
| DevdbInitProofs.MaterializeKeepsValid | src/devdb_init.py:203-210 | The copy loop keeps the tree well formed. |
| DevdbInitProofs.WritePlaceholdersKeepsValid | src/devdb_utils.py:88-99 | The placeholder loop keeps the tree well formed. |
| DevdbInitProofs.PermissionsKeepsValid | src/devdb_init.py:238-241 | The chmod loop keeps the tree well formed. |
| DevdbInitProofs.CreationKeepsValid | src/devdb_init.py:59-87 | Whatever the outcome, `create_project` leaves a well-formed tree. |
| DevdbInitProofs.ConfinedTrans | src/devdb_init.py:59-87 | Staying within the target composes across steps. |
| DevdbInitProofs.PrefixOfExtension | src/devdb_init.py:148 | A prefix of a path below the target is either below the target or a proper prefix of it, so `mkdir(parents=True)` creates nothing beside the target. |
| DevdbInitProofs.MkdirConfined | src/devdb_init.py:148 | Creating a directory below the target changes nothing outside it except the directories leading to it. |
| DevdbInitProofs.CopyConfined | src/devdb_utils.py:135-147 | Copying to a destination below the target changes nothing outside it. |
| DevdbInitProofs.SkeletonConfined | src/devdb_init.py:147-148 | The skeleton loop changes nothing outside the target. |
| DevdbInitProofs.MaterializeConfined | src/devdb_init.py:203-210 | The copy loop changes nothing outside the target. |
| DevdbInitProofs.WritePlaceholdersConfined | src/devdb_utils.py:88-99 | The placeholder loop changes nothing outside the target. |
| DevdbInitProofs.TsqltConfined | src/devdb_utils.py:74-101 | `download_tsqlt` changes nothing outside the target. |
| DevdbInitProofs.PermissionsConfined | src/devdb_init.py:238-241 | The chmod loop changes nothing outside the target. |
| DevdbInitProofs.CreationConfined | src/devdb_init.py:59-87 | Whatever the outcome, a run changes nothing outside the target, except that directories leading to it may be created. |
| DevdbInitProofs.LayoutPrefixClosed | src/devdb_init.py:138-145 | Every prefix of a layout directory is a layout directory. |
| DevdbInitProofs.SlotUnder | src/devdb_init.py:169-199 | A name under a layout directory that is not itself a layout directory is a file slot. |
| DevdbInitProofs.DistinctConcat | src/devdb_init.py:201 | Joining two groups with distinct destinations keeps them distinct when their first segments differ. |
| DevdbInitProofs.TemplateFilesDistinct | src/devdb_init.py:169-180 | The ten top-level entries have distinct destinations. |
| DevdbInitProofs.TemplateFilesSlots | src/devdb_init.py:169-180 | Each top-level entry is written to a file slot of the layout. |
| DevdbInitProofs.TemplateFilesShape | src/devdb_init.py:169-180 | Each top-level entry copies a path to the same path, outside `.devdb/tSQLt`. |
| DevdbInitProofs.TemplateFilesFacts | src/devdb_init.py:169-180 | The top-level entries satisfy the group facts and never start with `schemas` or `tests`. |
| DevdbInitProofs.SchemaFilesDistinct | src/devdb_init.py:183-190 | The six schema entries have distinct destinations. |
| DevdbInitProofs.SchemaFilesSlots | src/devdb_init.py:183-190 | Each schema entry is a file slot under `schemas`. |
| DevdbInitProofs.SchemaFilesShape | src/devdb_init.py:183-190 | Each schema entry copies a path to the same path, two segments deep. |
| DevdbInitProofs.SchemaFilesFacts | src/devdb_init.py:183-190 | The schema entries satisfy the group facts and all start with `schemas`. |
| DevdbInitProofs.TestFilesDistinct | src/devdb_init.py:193-199 | The five test entries have distinct destinations. |
| DevdbInitProofs.TestFilesSlots | src/devdb_init.py:193-199 | Each test entry is a file slot under `tests`. |
| DevdbInitProofs.TestFilesShape | src/devdb_init.py:193-199 | Each test entry copies a path to the same path, two segments deep. |
| DevdbInitProofs.TestFilesFacts | src/devdb_init.py:193-199 | The test entries satisfy the group facts and all start with `tests`. |
| DevdbInitProofs.GroupFactsConcat | src/devdb_init.py:201 | The group facts hold for the joined manifest. |
| DevdbInitProofs.ManifestShape | src/devdb_init.py:169-201 | The manifest has 21 entries. Each copies a path to the same relative path, and the destinations are pairwise distinct file slots. None lies in `.devdb/tSQLt`. The first three entries are the three shell scripts. |
| DevdbInitProofs.FreshLayout | src/devdb_init.py:103-113 | A missing, unblocked target on a well-formed tree satisfies the layout invariant. |
| DevdbInitProofs.EmptyLayout | src/devdb_init.py:103-105 | An existing empty target directory on a well-formed tree satisfies the layout invariant. |
| DevdbInitProofs.StartLayout | src/devdb_init.py:103-113 | A target that validation passes through unchanged (missing, or an empty directory without `force`), with no file above it, satisfies the layout invariant. |
| DevdbInitProofs.MkdirLayout | src/devdb_init.py:148 | Creating a layout directory keeps the layout invariant and succeeds. |
| DevdbInitProofs.WriteLayout | src/devdb_utils.py:146-147 | Writing a file slot whose parent exists keeps the layout invariant and succeeds. |
| DevdbInitProofs.CopyLayout | src/devdb_utils.py:135-147 | Copying a template file to a file slot keeps the layout invariant and succeeds. |
| DevdbInitProofs.SkeletonLayout | src/devdb_init.py:147-148 | The skeleton loop over layout directories succeeds and keeps the layout invariant. |
| DevdbInitProofs.MaterializeLayout | src/devdb_init.py:203-210 | The copy loop over file slots whose present sources are files succeeds and keeps the layout invariant. |
| DevdbInitProofs.SkeletonFits | src/devdb_init.py:138-145 | Every skeleton directory is a layout directory. |
| DevdbInitProofs.TsqltFits | src/devdb_utils.py:76-86 | `.devdb/tSQLt` is a layout directory and its five files are file slots. |
| DevdbInitProofs.WritePlaceholdersFrame | src/devdb_utils.py:88-99 | The placeholder loop leaves every other path alone and changes no directory or mode. |
| DevdbInitProofs.WritePlaceholdersLayout | src/devdb_utils.py:88-99 | On a layout with the tSQLt directory, the placeholder loop succeeds and keeps the layout invariant. |
| DevdbInitProofs.MaterializeOnLayout | src/devdb_init.py:203-210 | On a layout, the copy loop completes and keeps every directory. Every present entry is written with its substituted source, and missing sources are skipped. |
| DevdbInitProofs.FreshStructure | src/devdb_init.py:131-163 | On a fresh target with an existing template whose present manifest sources are all regular files, the structure step completes with the skeleton and every present manifest entry in place. |
| DevdbInitProofs.TsqltFrame | src/devdb_utils.py:74-101 | `download_tsqlt` leaves alone every path that is not one of its five files. |
| DevdbInitProofs.TsqltKeepsMaterialized | src/devdb_init.py:217-219 | The tSQLt step keeps every written manifest entry. |
| DevdbInitProofs.WritePlaceholdersAdds | src/devdb_utils.py:88-99 | A completed placeholder loop keeps every file and adds each named one. |
| DevdbInitProofs.TsqltOnLayout | src/devdb_init.py:212-222 | On a layout, the tSQLt step completes and writes its five files. It removes no directory and changes no mode. |
| DevdbInitProofs.ScriptsMaterialized | src/devdb_init.py:169-172 | Each shell script that the template has is written to the project root. |
| DevdbInitProofs.FreshThroughTsqlt | src/devdb_init.py:75-80 | On a fresh target, the structure and tSQLt steps both complete. They leave the manifest, the skeleton, the tSQLt files and the present scripts in place. |
| DevdbInitProofs.PermissionsMarksScripts | src/devdb_init.py:238-241 | Every script present as a file becomes executable. Files and directories are unchanged. |
| DevdbInitProofs.FreshRunSucceeds | src/devdb_init.py:59-87 | On a well-formed tree, a run returns True when: the checks pass; no file lies at or above the target; the target is missing, or is an empty directory and `force` is not given; the template exists; and every present manifest source is a file. The tree it leaves is the permissions step applied to what the structure and tSQLt steps built. |
| DevdbInitProofs.FreshRunCreatesProject | src/devdb_init.py:59-87 | Under the same conditions, the run leaves the skeleton, every present manifest entry holding its substituted source, the five tSQLt files, and each script the template has marked executable. |
| DevdbInitProofs.StructureCompleted | src/devdb_init.py:131-163 | A structure step that completes has found the template, made the skeleton and written every present manifest entry. |
| DevdbInitProofs.TsqltCompleted | src/devdb_init.py:212-222 | A tSQLt step that completes keeps directories and manifest entries and adds its five files. |
| DevdbInitProofs.PermissionsKeepsMaterialized | src/devdb_init.py:238-241 | Setting permissions keeps every written manifest entry. |
| DevdbInitProofs.SuccessMeansComplete | src/devdb_init.py:66-87 | On any starting tree, a True result means all of the following held or hold: the checks passed, the template existed, the skeleton and tSQLt files exist, every present manifest entry holds its substituted source, and every script in the project is executable. |

## Left out

- Console output (`print_header`, `print_info`, `print_error`, the success message of `_print_success_message`) is not modelled, because it has no effect on the result or the filesystem.
- `check_docker` runs `docker --version` and `docker info`. It is a boolean input of the environment, because it is a subprocess call.
- The two `git config` subprocesses are inputs: each yields its standard output or a failure.
- `__import__` is modelled by the set of importable package names.
- `random.choice` and `random.shuffle` are arbitrary choices. The model shows that every possible outcome is a strong password, but not the distribution.
- `datetime.now()` is two inputs: the `%Y-%m-%d` text and the year.
- Template discovery in `DevDBInit.__init__` (`pkg_resources`, `_init_filesystem_templates`) is not modelled. The constructor takes the contents of the templates directory as a separate tree. A target that overlaps the templates directory is therefore not modelled.
- `Path.resolve()` is not modelled: the base path is taken as already resolved. The join with the project name follows pathlib for a plain name, an empty name and `.` (the last two give the base itself). A project name that contains path separators or `..` is not modelled.
- Text encoding (UTF-8) is not modelled. Files hold `string` values.
- `chmod(0o755)` is modelled as membership in a set of executable paths. The other mode bits are not modelled.
- Operating-system errors beyond those the tree can show (permissions, full disk, symbolic links) are not modelled. An exception is only one of the conditions the `Tree` can express.
- The command-line layer (`src/cli.py`), `setup.py` and `src/__init__.py` are not part of this model, nor are the default argument values of `create_project`.
- Only the `rmtree` behaviour common to all platforms is modelled: removing a regular file raises.
- `DevdbInit.DevDBInit.CreateProject`: requires that the project directory is not the filesystem root, which only running with an empty or `.` name at `/` would give, because the specification functions take a non-empty target.
- `DevdbInit.ProjectVariables`: states the decimal `YEAR` text only for a non-negative year, which is always the case for a clock reading.
- `DevdbInit.DevDBInit.CreateProject`: the generated password is a ghost out-parameter. When validation fails no password is drawn, and the contract says nothing about it.
