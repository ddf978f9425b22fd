# Verified model of lua-ada's installer, build locks and Lua binding

This project models, in Dafny, the parts of lua-ada that hold state and loop over it, and proves what
they do over whole runs. `dafny verify dfyconfig.toml` checks everything.

**The installer** (`install-core.c`, `install-posix.c`, `installer.c`, `deinstaller.c`, `instchk.c`,
`insthier.c`). A file system is a map from canonical paths to files, directories and links.
`HostSystem.Host` changes it by system calls, which of them fail of their own accord being an arbitrary function
of their number; `FileCopy`, `MakeDirectories`, `Translation` and
`Engine` are the C procedures on top of it, with their buffers, static or local; `Drivers` holds the
three main loops. Each of them is proved to take a step of `Steps`, where one call of install,
install_check or deinstall is described for every item, every file system and every way the system
calls can turn out. The theorems about whole runs (`InstallRuns`, `Strays`, `InstallCheck`,
`FakeRoot`, `WholeRuns`, `AllInstalls`, `Inspection`, `Hierarchy` and its companions) are about sequences of these
steps for an arbitrary table of items:

* installing a table and deinstalling it in reverse leaves the files and links that were there, less
  those that the items replaced; the directories that were there, less those that an item names and that
  are empty when their turn comes, whoever made them; and of the new directories only those above an
  item's or in which somebody else has put something - exactly if every file can be reached again when its
  turn comes and somebody accounts for every new directory, which the names of the items decide;
* an item that the file system allows is installed unless a call fails of its own accord, and then a whole table is,
  if each item finds what it needs at the start or made by the items before it; its place then holds what the item
  declares: the whole source, the text of the link, the mode, owner and group;
* after an installation in which every item succeeds, every file passes `instchk`; a directory passes if
  and only if all that its name passes through, also beside its path, was a directory or could be made one,
  and it could be made itself or, if it was there, its mode fits and its owner and group fit or are set; and
  whenever `instchk` is run later, it fails if and only if some file has gone or has another length, mode under
  0755, owner or group than it was left with, or some directory is not as asked;
* for the table of insthier.c all this comes together: `HierarchyInstalls.HierarchyFromStartToEnd` follows the three
  programs from a file system that has the sources to one that is as it was outside the table's places, with none of
  its files and no new directory but those above the table's;
* `install_rmkdir` makes every prefix of any path, "." and ".." included, if and only if no mkdir is
  blocked, and a second run then changes nothing; a blocked one stops every later one that passes through it;
* with a fake root, nothing outside it changes, whether calls succeed or fail, as long as no item leads over
  a symbolic link, neither one that was there nor one that another item has made;
* a copied file appears at its destination whole, with its mode and owner, or not at all.

A path string is resolved by its components: `Paths.Route` has the place it names and the directories that
must be there on the way, and every system call needs them. Links are not followed; of an item whose
calls lead over one, `Steps` says nothing.

**The parallel build** (`SYSDEPS/sysdep-system`, `sd-locker.c`, `sd-locker_posix.c`, `sd-compile`).
`ParallelBuild` is a state machine for any number of builds: scripts, lockers and their children, record
locks, program files. Its invariant gives mutual exclusion per lock file, at most one link per helper,
no use of a helper that is not finished although compiling and running take different locks, a shared
`sd-locker` that is never half-written, and absence of deadlock; `BuildEnds` shows that every run ends,
with every build finished; `BuildSucceeds` shows that a build in which nothing fails gets to its end with all its
helpers, and that one which stops has had an action of its own fail. `LockedCommands` holds the programs as
they are written, with other processes acting between any two of their actions, and proves that they
take these steps.

**The Lua binding** (`lua-lib.adb`, `lua-user_data.adb`, `lua.adb`). `LuaState` is a Lua state with its
stack and tables; `LuaLib` and `LuaUserData` are the Ada procedures as stack programs, proved against
functions on maps. `LoadFile` is the line loop of `Load_File` and the reader of `Load_Buffer`.

**Two smaller programs**: the command line that `sd-locker` builds on Win32 (`CommandLine`) and
`lua-ada-conf` (`Conf`).

## Where the code does not do what one might expect

* `iposix_mkdir` returns 1 or 0 (install-posix.c:204) and `install_rmkdir` tests for -1
  (install-core.c:506), so a directory that cannot be made is not an error. Hence the condition in
  `InstallCheck.DirsCheck`; `Witnesses.RefusedDirectory` and `Witnesses.BlockedSide` are items for which the
  installer reports success and `instchk` counts a failure, the second although nothing stands in the way of
  the item's own directory.
* Owner and group are set only when the owner differs from the process's own (install-core.c:231-245). A
  temporary file left over from before hands on its owner: `FileCopy.OwnerAsRequested` has the exact condition.
* A directory path of exactly 1023 characters without a slash at its end loses its last component and
  still succeeds (install-core.c:489-498): `Chains.ArgumentIsVisited` has the exact condition.
* A link whose name is absolute is created at that name but looked for, and removed, below its
  directory; `Items.SamePath` says exactly when the two agree, and `Items.CutLink` when they do although the
  joined path does not fit its buffer.
* deinst_mkdir removes an item's directory if it is empty, also if it was there before the installation;
  `InstallRuns.FinalOldDir` and `InstallRuns.EarlyDirRemoved` say exactly when.
* A directory item named with ".." may make a directory beside its path, which deinstalling does not remove:
  `Strays.AccountsExactly` has the exact condition, `Witnesses.SideDirectoryStays` an item for which it fails.
  With a fake root such an item may lead outside: `FakeRoot.ParentLeavesRoot`.
* rmdir refuses a name that ends in ".", and no file can be removed once a directory that its name passes
  through is gone; so "/d/." stays (`Witnesses.DotDirectoryStays`), and so does a file installed as "/a/../b/x"
  if a later item is "/a", which goes first (`Witnesses.LostWay`). `InstallRuns.RestoredExactly` has the exact
  condition for every run; names without ".." and a final "." meet it (`WholeRuns.StraightRoundTrip`).
* An item may lead over a link that another one has made, and then out of the fake root:
  `Witnesses.DirectoryBehindLink`.
* `instchk` counts only failed checks of files; an item that cannot be translated or whose owner is unknown
  is reported but does not make it fail (instchk.c:67-71): `Engine.Installer.Check`.
* `Load_File` adds an empty line after a line of exactly 4096 characters and drops an empty last line;
  `LoadFile.LinesKeptExactly` says for which files neither happens or both cancel out.
* `Register` leaves one value on the Lua stack the first time and two afterwards.
* `Lua.User_Data.Push` takes the 1 that `lua_setmetatable` always returns for an error and returns, which
  is harmless because nothing follows.

## Model

| member | source | states |
|---|---|---|
| Names.BaseName | install-core.c:527-569 | agrees with basename() (System Interfaces, IEEE Std 1003.1-2008) on every path below 1024 characters and fails on longer ones |
| Paths.BasenameIdempotent | install-core.c:527-569 | the last component of a last component is itself |
| Names.StrEnds | install-core.c:577-586 | the suffix relation, also when the suffix is the longer string |
| Names.LibName | install-core.c:592-643 | the longest beginning of the file without white space and NUL: it ends at the first of these, at the 1024th character or at the end of the file |
| Names.LibraryNameIs | install-core.c:592-643 | the same of the specification |
| Names.LibraryNameFitsExactly | install-core.c:592-643 | the terminator of the name stays inside the buffer if and only if the file is shorter than it or has white space in time |
| MakeDirectories.MakePath | install-core.c:467-521 | never leaves the 1024-character buffer, ends, calls mkdir on the strings MkdirStrings and leaves their directories made; fails, doing nothing, only for paths of 1024 characters or more |
| Chains.MkdirStringsAre | install-core.c:485-515 | these strings are exactly the slash-terminated prefixes, in increasing length, and the whole with a slash added if that fits |
| Chains.MkdirStringsTrail | install-core.c:485-515 | for every string: each visit passes through what the one before it passes through and through its place, and is to that place again, or above it, or to a child of it |
| Chains.ArgumentIsVisited | install-core.c:489-498 | the argument itself is reached, as the string with its slash and as the last visit, if and only if that fits the buffer |
| Chains.MkdirStringsOnTheWay | install-core.c:485-515 | without ".." every directory visited is the argument's or above it, even for a path that is cut short |
| Chains.PassedAreVisited | install-core.c:485-515 | all directories that the argument's name passes through are visited, also if the argument is not reached |
| Chains.LeadsToDirectory | install-core.c:467-521 | the visits lead to a directory if and only if all that the last one passes through, and its place, were directories or could be made; one that could not stops all visits that pass through it |
| Chains.AllPrefixesMade | install-core.c:467-521 | for every string: every prefix is a directory afterwards if and only if no mkdir is blocked, and a second run then changes nothing |
| FileCopy.InstallFileCopy | install-core.c:151-272 | for every course of reads, writes and failures: on success the destination is the whole source with mode and owner, on failure only the temporary name is touched and it is gone; at every step the destination is its old self or finished; and it fails only if a call has failed of its own accord or the file system does not allow the copy |
| FileCopy.WriteChunk | install-core.c:204-216 | bytes written and bytes remaining add up to the bytes read; the temporary file grows by exactly what was written; it ends |
| FileCopy.CopyContents | install-core.c:195-217 | the temporary file ends up with the whole text of the source, or with a part of it and an error |
| FileCopy.OwnerAsRequested | install-core.c:231-245 | exactly when the finished file has the owner and group that were asked for |
| Translation.Translator.TranslateCopyItem | install-core.c:819-886 | source and destination are those of the item as declared, whatever the static buffers held |
| Translation.Translator.TranslateCopyExecItem | install-core.c:888-923 | as for a copy, with the program suffix on both names |
| Translation.Translator.TranslateLinkItem | install-core.c:925-957 | the directory is moved below the fake root; the names stay |
| Translation.Translator.TranslateLiblinkItem | install-core.c:959-1026 | the source name survives the second base_name, which reuses the same buffer |
| Translation.Translator.TranslateMkdirItem | install-core.c:1028-1048 | the directory is moved below the fake root |
| Translation.Translator.TranslateItem | install-core.c:1290-1296 | the install and deinstall tables translate a declared item to one target, whatever earlier items left in the buffers |
| Translation.Translator.TranslateForCheck | install-core.c:1297-1303 | the check table arrives at the same target; a link at the path that deinstalling removes |
| Items.SamePath | install-core.c:695-735 | installing, checking and deinstalling agree on where a link lives whose joined path fits, if and only if its name is relative or climbs out of its directory's whole path |
| Items.AbsoluteLinkDiffers | install-core.c:1213-1243 | an absolute name without ".." agrees if and only if the directory is the root |
| Items.CutLink | install-core.c:1231-1235 | a link with a relative name without ".." whose joined path is cut short is removed where it was created if and only if the cut falls at a slash and takes only slashes and dots |
| Items.CutDirectory | install-core.c:1231-1235 | where the directory itself is cut short, the link's name plays no part in what is removed |
| Items.TranslateReadsVirtual | install-core.c:843-856 | translation looks at the file system only through the virtual library files and the ways to them |
| Items.CopyNames | install-core.c:819-923 | what a copied item needs to be translated, and its two names: what its names stand for, the last component, the directory, the fake root and the suffix |
| Items.LinkNames | install-core.c:925-1026 | the same for links and library links |
| Engine.Installer.InstCopy | install-core.c:649-693 | owners are looked up, then the copy is made or, in a dry run, nothing changes; an error only where owners are unknown, the file system does not allow it, or a call fails of its own accord |
| Engine.Installer.InstLink | install-core.c:695-738 | a link appears in the item's directory where nothing was; the working directory is restored; an error only as for a copy |
| Engine.Installer.InstMkdir | install-core.c:740-805 | the directories on the way are made and the last one gets its owner, or an error, only as for a copy |
| Engine.Installer.Install | install-core.c:1406-1424 | one call of install is a step of Steps.InstallStep for the item as declared, which promises nothing of an item that leads over a link; an item that the file system allows is OK unless a call fails of its own accord; a dry run changes nothing |
| Engine.Installer.Deinstall | install-core.c:1446-1464 | one call of deinstall removes the item's entry exactly if it can be removed by its name - every directory on the way is there, and for rmdir the name does not end in "."; OK if and only if the entry was there before and is gone after |
| Engine.Installer.CheckFile | install-core.c:319-459 | sizes, mode bits 0755, owner and group are compared and nothing else; Inspection.FileCheckExactly says what that means for a declared item |
| Engine.Installer.Check | install-core.c:1426-1444 | what install_check reports and whether it is counted as failed |
| Steps.ActKeepsDirs | install-core.c:649-805 | installing an item, with or without success, keeps every directory |
| Steps.NewLinksOnly | install-core.c:649-805 | with or without success, the only link that appears is the one a link item asks for |
| Steps.RemovalUndoes | install-core.c:1189-1270 | removing an item is undoing what it means; in the place where it was put if and only if the two paths agree |
| Drivers.RunInstaller | installer.c:54-74 | the run is one install step per item, in order; the fatal branch is never taken; if no call fails of its own accord, every item that the file system allows when its turn comes reports success |
| Drivers.RunDeinstaller | deinstaller.c:54-75 | the run is one removal per item, from the last to the first |
| Drivers.RunCheck | instchk.c:51-73 | install_failed is the number of counted failures, and the exit code is 1 exactly if there is one |
| AllInstalls.ReadyIsAllowed | install-core.c:649-805 | an item whose needs are there at the start or are made by the items before it is allowed by the file system when its turn comes |
| AllInstalls.EverythingInstalls | installer.c:54-74 | if every item is ready in this sense and no call fails of its own accord, every item reports success |
| InstallRuns.InstallEffect | install-core.c:649-805 | all that one successful installation step can do to the entries of the file system |
| InstallRuns.InstallThenDeinstall | installer.c:54-71 | any list of acts, all successful and restorable whatever others have added, and then undone in reverse, leaves what InstallRuns.Restored says |
| InstallRuns.RestoredExactly | deinstaller.c:54-72 | with nothing added, for every run: if and only if every file that is there can be taken away by one of its items and every new directory lies above an item's or has an item that gets to it once the files in it are gone |
| InstallRuns.UndoneExactly | deinstaller.c:54-72 | what undoing the acts in reverse removes: a file or link an item placed, and a directory an item names once the later items have taken everything in it; each only if its name is accepted and all it passes through is still there |
| InstallRuns.FinalLeaf | deinstaller.c:54-72 | which files and links remain, in both directions |
| InstallRuns.FinalNewDir | deinstaller.c:54-72 | why a new directory can remain |
| InstallRuns.FinalOldDir | install-core.c:1246-1270 | a directory that was there is removed if and only if an item takes it |
| InstallRuns.EarlyDirRemoved | install-core.c:1246-1270 | if its item comes before all that put something into it, and its way is there: if and only if the kernel allows it and nothing is left in it |
| InstallRuns.DotStays | install-core.c:1246-1270 | a directory whose items are all named with a final "." is never removed |
| Strays.StraightNamesRestore | deinstaller.c:54-72 | where removals pass only through their own places and what lies above, as without "..", the round trip restores everything if every visited path is covered by name |
| Strays.AccountsExactly | deinstaller.c:54-72 | with no mkdir blocked, no destination a temporary name and no directory beside a removal's place taken before it, the round trip restores everything if and only if every visited path is covered by name |
| InstallCheck.InstallThenCheck | instchk.c:51-73 | after an all-successful run every file checks, and a directory if and only if all that its name passes through was passable and it could be made or, if there, what was there allows it |
| InstallCheck.FilesCheck | install-core.c:319-459 | a file installed anywhere in the run passes at the end of it |
| InstallCheck.DirsCheck | install-core.c:740-805 | the check of a new directory succeeds if and only if it and all that its name passes through, beside its path too, were open at the start |
| InstallCheck.OldDirsCheck | install-core.c:740-805 | the check of one that was there succeeds if and only if the way to it was open, its mode fits and its owner and group fit or are set |
| Witnesses.RefusedDirectory | install-posix.c:200-205 | for a declared item whose mkdir is refused the installer reports success and instchk counts a failure |
| Witnesses.BlockedSide | install-core.c:506-508 | so it does for the declared item "/a/../b" with "/a" refused or a file, though "/b" could be made |
| FakeRoot.VisitsInside | install-core.c:467-521 | the directories that install_rmkdir visits lie inside the fake root or, on the way to it, are there already |
| FakeRoot.TameInside | install-core.c:868-882 | everything that an item without ".." writes lies inside the fake root, the temporary name included |
| FakeRoot.TestedRootExists | install-core.c:1347-1361 | for a fake root named without "..", what install_init tests is what the theorems ask for |
| FakeRoot.StepInside | install-core.c:649-805 | one step over no link, successful or not, changes nothing outside the fake root, including the ancestors visited again |
| FakeRoot.InstallStaysInside | installer.c:54-71 | a whole run of the installer changes nothing outside the fake root, if no item leads over a link that was there or that an item makes |
| FakeRoot.DeinstallStaysInside | deinstaller.c:54-72 | nor does a run of the deinstaller, if no removal leads over a link |
| Witnesses.DirectoryBehindLink | install-core.c:717-722 | a link in a directory and a directory behind it are tame, but the second leads over the link that the first makes |
| FakeRoot.ParentLeavesRoot | install-core.c:1038-1045 | with ".." an item is placed outside the fake root |
| WholeRuns.RunIsActRun | installer.c:54-71 | names translated anew by every call mean the same throughout the run, and no item comes to lead over a link |
| WholeRuns.DeinstallUndoes | deinstaller.c:54-72 | a run of the deinstaller undoes the installer's acts from the last to the first |
| WholeRuns.InstallerThenDeinstaller | deinstaller.c:54-72 | running the installer and then the deinstaller on a fresh copy of the table leaves what InstallRuns.Restored says, if it is restorable |
| WholeRuns.StraightRoundTrip | deinstaller.c:54-72 | which it is, whatever others add, for names without ".." if every visited path is covered by name |
| WholeRuns.RoundTripExactly | deinstaller.c:54-72 | with nothing added in between: if and only if it is restorable |
| WholeRuns.RoundTripByName | deinstaller.c:54-72 | where no mkdir is blocked and the ways are kept: if and only if every path that the items visit is covered by name |
| Witnesses.SideDirectoryStays | install-core.c:467-521 | the declared item "/a/../b" makes "/a" beside its path and leaves it behind |
| Witnesses.DotDirectoryStays | install-core.c:1262 | the declared item "/d/." makes "/d", which rmdir does not remove by that name |
| Witnesses.LostWayInstalls | installer.c:54-71 | the items "/b", x in "/a/../b" and "/a" all install, with "/a" there and empty |
| Witnesses.LostWay | deinstaller.c:54-72 | deinstalling them takes "/a" first, and the file and its directory stay |
| Witnesses.LostWayNotKept | deinstaller.c:54-72 | the condition that fails there: "/a" is a later item's directory beside the file's place |
| WholeRuns.InstallerThenCheck | instchk.c:51-73 | running instchk on a fresh copy passes every file; it counts no failure if and only if every directory passes, judged by the start and by all that its name passes through |
| Inspection.FileCheckExactly | install-core.c:1101-1123 | in any file system the check of a copied item is counted as failed if and only if source or file are not reached, or the lengths differ, or mode under 0755, owner or group are not as asked for |
| Inspection.DirCheckExactly | install-core.c:1149-1174 | likewise for a directory item: not reached, or another mode, owner or group |
| Inspection.LinkCheckExactly | install-core.c:1125-1147 | a link item is counted if nothing is reached at its joined path; what a link leads to is left open |
| Inspection.UnknownIsNotCounted | install-core.c:1426-1444 | an item that cannot be translated or whose owner is unknown is an error that is not counted |
| Inspection.UnknownIsNotInstalled | install-core.c:1406-1424 | such an item is not installed and nothing changes |
| Inspection.CopyIsThere | install-core.c:151-272 | after an all-successful run the place of a copied item holds its source as it was at the start, the mode asked for, the owner, and the group if that owner is not the process's own |
| Inspection.LinkIsThere | install-core.c:695-738 | the place of a link holds the text that the item declares |
| Inspection.LibraryLinkIsThere | install-core.c:959-1026 | that of a library link, with the suffix, holds the source or the last component of the name in the library file |
| Inspection.DirectoryIsThere | install-core.c:740-805 | a directory that was missing and could be made has the mode asked for, less the umask, and the owner and group asked for |
| Inspection.NewDirectoryMode | install-core.c:467-521 | every new directory, also on the way, has the mode that some directory item which visits it asks for, less the umask |
| Inspection.ChangedFileIsCounted | instchk.c:51-73 | whenever instchk looks at an installed file later, it counts a failure if and only if the file is not reached or has another length, mode under 0755, owner or group than it was left with |
| Inspection.OneChangedFile | instchk.c:51-73 | one such file is enough for instchk to fail, whatever else the table holds |
| Inspection.InstchkCountsChanges | instchk.c:51-73 | for a table of copies and directories instchk succeeds at any later time if and only if every file is unchanged and every directory as asked |
| Hierarchy.Table | insthier.c:4-50 | the item table for any configured directories; every row is of a plain kind |
| Hierarchy.HierarchyRoundTrip | insthier.c:4-50 | installing and deinstalling this table leaves what InstallRuns.Restored says, for directories named without ".." and a final "." and any fake root that exists |
| Hierarchy.TestedRootNamed | install-core.c:1347-1361 | for a fake root named without "..", what install_init tests is what these theorems ask for |
| Hierarchy.HierarchyInstallsInside | insthier.c:4-50 | with a fake root no run of the installer over this table changes anything outside it, unless an item leads over a link that was there |
| Hierarchy.HierarchyRemovesInside | insthier.c:4-50 | nor does one of the deinstaller |
| HierarchyCheck.SimpleTableChecks | instchk.c:51-73 | for any table of copies of plain names and directories whose places are apart: every file passes, and instchk succeeds if and only if every directory does |
| HierarchyCheck.TableDistinct | insthier.c:4-50 | no two rows of the table install the same file into the same directory, and none a temporary name of another |
| HierarchyCheck.HierarchyChecks | insthier.c:4-50 | the check theorem for this table and any five directories that are apart |
| HierarchyInstalls.SimpleTableInstalls | installer.c:54-74 | any table of copies of plain names and directories installs, if the sources are there, the directories can be made, nothing is refused and no call fails of its own accord; nothing then leads over a link |
| HierarchyInstalls.TableChecks | instchk.c:51-73 | instchk then succeeds if and only if those of the directories that were there already fit |
| HierarchyInstalls.TableIsRemoved | deinstaller.c:54-72 | deinstalling leaves everything outside the table's places as it was, none of its files, and of new directories only some above the table's |
| HierarchyInstalls.HierarchyFromStartToEnd | insthier.c:4-50 | the three programs one after the other on this table, by what is there at the start alone: all items succeed, every file is in its place, instchk succeeds if and only if the directories that were there have mode 0755 and the process's owner and group, and the deinstaller leaves everything outside the table's places as it was, none of its files, and no new directory but those above the five |
| ParallelBuild.PrepareKeeps | SYSDEPS/sysdep-system:11-30 | the steps of SDM_prepare_locker and of the test after it keep a process in order |
| ParallelBuild.LockerLocks | SYSDEPS/sd-locker_posix.c:33-117 | acquiring, releasing, closing and exiting keep locks exclusive and held by lockers at their calls |
| ParallelBuild.NoChildLocks | SYSDEPS/sd-locker_posix.c:135-137 | the child's close of the lock file drops no lock |
| ParallelBuild.OneAtHelper | SYSDEPS/sd-compile:42-48 | testing and linking a helper happens in one process at a time |
| ParallelBuild.CommandWrites | SYSDEPS/sd-compile:42-48 | a command writes no helper but its own and never destroys a finished one |
| ParallelBuild.StepKeepsInv | SYSDEPS/sysdep-system:11-107 | every step of every process keeps the invariant, and finished programs stay finished |
| ParallelBuild.OneCommandPerLock | SYSDEPS/sd-locker.c:211-217 | in every reachable state at most one command runs for each lock file |
| ParallelBuild.LockedAssertionsHold | SYSDEPS/sd-locker.c:166-182 | the assertions on locked hold in every reachable state |
| ParallelBuild.ExitCodeIsTheCommands | SYSDEPS/sd-locker_posix.c:119-146 | the locker exits with its command's status unless a system call of its own failed |
| ParallelBuild.LinkedAtMostOnce | SYSDEPS/sd-compile:42-48 | each helper is linked successfully at most once in a run, and exactly once if it is there now and was not at the start |
| ParallelBuild.RunsFinishedHelper | SYSDEPS/sysdep-system:184-316 | whoever runs a helper runs a finished program, and nobody is linking it |
| ParallelBuild.DoneHasHelpers | SYSDEPS/sysdep-system:91-107 | a script that gets to its end has every helper it compiles |
| ParallelBuild.LockerIsWhole | SYSDEPS/sysdep-system:11-52 | the shared sd-locker is absent or finished, stays once there, and is finished for whoever passes the second test |
| ParallelBuild.SomebodyGoesOn | SYSDEPS/sd-locker_posix.c:33-54 | no deadlock: while some build is not finished, some build can go on |
| BuildEnds.EveryRunEnds | SYSDEPS/sysdep-system:184-316 | every run has a bound that its start determines, and when nobody can go on, every build is finished: Done, or stopped as BuildSucceeds.FailureIsOwn says |
| BuildSucceeds.FailureIsOwn | SYSDEPS/sysdep-system:97-107 | a build that has failed or stopped has itself had a call fail or a program exit with another code than zero |
| BuildSucceeds.EveryCallMade | SYSDEPS/sysdep-system:91-107 | a build that gets to its end has gone through every one of its calls, in order |
| BuildSucceeds.AllBuildsSucceed | SYSDEPS/sysdep-system:184-316 | in every run in which nothing fails, once nobody can go on, every build is at its end and every helper it compiles is finished |
| BuildSucceeds.CodeIsReported | SYSDEPS/sd-locker_posix.c:119-146 | what a command exits with is what its sd-locker exits with, unless a system call of that fails, which makes it 1 |
| BuildSucceeds.ScriptGoesOn | SYSDEPS/sysdep-system:97-107 | the script goes on if its last locker has exited with 0, and else only after a run whose failure it does not mind; a failed compilation stops it |
| ParallelBuild.ScriptIsWellOrdered | SYSDEPS/sysdep-system:184-316 | the script compiles every helper before it uses it |
| LockedCommands.SdLocker.LockAcquire | SYSDEPS/sd-locker.c:107-119 | takes the lock, or waits because another process has it, or dies |
| LockedCommands.SdLocker.Execute | SYSDEPS/sd-locker_posix.c:119-146 | forks, waits, and takes over the status of the child |
| LockedCommands.SdLocker.SdCompile | SYSDEPS/sd-compile:42-48 | exits with 0 if the program was there to begin with, and only if it is there, finished, in the end |
| LockedCommands.SdLocker.LockRelease | SYSDEPS/sd-locker.c:121-133 | afterwards the flag is cleared and the lock is gone |
| LockedCommands.SdLocker.RunLocker | SYSDEPS/sd-locker.c:194-218 | main: the exit code of the state machine, or still waiting for the lock |
| LockedCommands.Script.PrepareLocker | SYSDEPS/sysdep-system:11-30 | ends before the second test or fails |
| LockedCommands.Script.LockAndRun | SYSDEPS/sysdep-system:36-84 | it fails, or has run a locker that is there, finished, or waits in it for the lock |
| LockedCommands.Script.RunScript | SYSDEPS/sysdep-system:184-316 | gets to its end, waits for a lock that another process has, or stops because an action of its own has failed or what it ran has exited with another code than zero |
| LuaLib.NewMetatable | lua-lib.adb:5-36 | one value more on the stack, the table registered under the name; True exactly if it is new |
| LuaLib.NewMetatableEffect | lua-lib.adb:5-36 | a new table leads to its name and back; everything else is as it was |
| LuaLib.CallsPair | lua-lib.adb:5-36 | after any calls from a registry without the names, names and tables lead to each other |
| LuaLib.DistinctTables | lua-lib.adb:5-36 | distinct names have distinct tables |
| LuaLib.RepeatedCall | lua-lib.adb:5-36 | a repeated call finds the first table, whatever calls came in between, and changes nothing |
| LuaLib.AddFunction | lua-lib.adb:58-65 | a closure over copies of the upvalues in their order goes into the table; the stack is as before |
| LuaLib.OpenLibrary | lua-lib.adb:38-68 | the stack below the upvalues is as it was, with the library's table on it, which holds under each name the last function of that name as a closure over the upvalues, and else what it held; the depth is bounded |
| LuaLib.OverriddenAt | lua-lib.adb:58-65 | of several functions of one name the last counts |
| LuaLib.OverriddenElsewhere | lua-lib.adb:58-65 | other keys keep their values |
| LuaLib.OpenedAt | lua-lib.adb:38-68 | in the table of an opened library the last function of a name is there, as a closure over the last count values of the old stack |
| LuaLib.OpenedElsewhere | lua-lib.adb:38-68 | under every other name there is what was there, or nothing in a new table |
| LuaLib.OtherTablesUnchanged | lua-lib.adb:38-68 | every other table is unchanged, but for the global of the library's name |
| LuaUserData.Register | lua-user_data.adb:19-35 | one value on the stack the first time, two later; the heap as specified |
| LuaUserData.FirstRegistration | lua-user_data.adb:19-35 | the new metatable's __index and __metatable are the global of the class's name, its other fields the meta functions; that global holds the methods, the last of each name |
| LuaUserData.RegisterAgain | lua-user_data.adb:19-35 | registering again leaves registry and metatable alone and enters the methods again |
| LuaUserData.RegisterTwice | lua-user_data.adb:19-35 | in particular right after the first time |
| LuaUserData.Push | lua-user_data.adb:37-57 | one new userdata on the stack, holding the item and the class's metatable |
| LuaUserData.Get | lua-user_data.adb:59-66 | the item that was pushed |
| LuaState.State.Pop | lua.adb:1229-1234 | that many values fewer |
| LoadFile.GatherFile | lua.adb:455-468 | the loop gathers the pieces that Get_Line reads, each with a line feed |
| LoadFile.Context.Read | lua.adb:387-403 | the buffer the first time, then nothing |
| LoadFile.LoadBuffer | lua.adb:411-426 | the loader gets the buffer exactly once |
| LoadFile.Load | lua.adb:455-468 | the chunk that reaches the loader has the characters of the file, line feeds aside, and is the file with every line ended if and only if the file is regular for a buffer of 4096 |
| LoadFile.NothingLost | lua.adb:455-468 | for every file the chunk has the characters of the file, line ends aside |
| LoadFile.LinesKeptExactly | lua.adb:455-468 | the chunk is the file with every line ended if and only if the file is regular |
| CommandLine.ConvertCommand | SYSDEPS/sd-locker_win32.c:136-207 | writes the line and its terminator, never beyond the allocation; null exactly if there is no memory |
| CommandLine.AllocationSuffices | SYSDEPS/sd-locker_win32.c:146-158 | the allocation is large enough if and only if there is an argument |
| CommandLine.DecodesExactly | SYSDEPS/sd-locker_win32.c:136-207 | the line begins with sh -c and a double quote, and a POSIX shell gets the arguments back if and only if none contains a quote of either kind |
| Conf.StrDiff | lua-ada-conf.c:132-143 | zero exactly for equal strings |
| Conf.SetsOneFlag | lua-ada-conf.c:10-18 | the flag bits are distinct |
| Conf.ParseFlags | lua-ada-conf.c:90-109 | a flag is set exactly if some argument is its name |
| Conf.CallFlags | lua-ada-conf.c:110-118 | prints what the flags stand for in table order, each directory with its compiler flag if entry 1 is chosen, help alone |
| Conf.Run | lua-ada-conf.c:20-129 | what is printed, by the names among the arguments: "-I" or "-L" only with compile, each directory, the link flags, the version and the newline in this order and each exactly if it is named; with help, the help text alone |
| Conf.OnlyTheSetCounts | lua-ada-conf.c:90-118 | order, repetition and unknown words make no difference |

## Left out

- Engine.Installer.Check: says nothing of the size of a directory or of what a symbolic link leads to, which instchk reads by following it; such checks may come out either way.
- Names.LibName: where a library file has more than 1023 characters and no white space among its first 1024, the C code writes the terminator one place behind its buffer; the model returns the name and `Names.LibraryNameFitsExactly` says when this happens.
- LockedCommands.SdLocker.RunLocker: it may stop with the locker waiting; `BuildEnds.EveryRunEnds` shows that no run can end there.
- CommandLine.ConvertCommand: the sum of the lengths is a number without a width; the wrap-around of size_t is not modelled.
- FakeRoot.InstallStaysInside: the virtual library files that items name lie outside the fake root, on ways over no link; a file inside it could be replaced during the run by one that names another place.
- WholeRuns.InstallerThenDeinstaller: the virtual library files are there at the start and the items write neither them nor remove the directories on the way to them; no removal leads over a symbolic link.
- Inspection.FileCheckExactly: the size of a directory is not modelled; where one is in the place of the file, the check is said to fail if mode, owner or group differ.
- Inspection.ChangedFileIsCounted: the source is as it was at the start, looking leads over no link, and nobody has put a directory in the place of the file.
- HierarchyInstalls.HierarchyFromStartToEnd: nobody changes anything between the three runs; Inspection.InstchkCountsChanges and Hierarchy.HierarchyRoundTrip say what happens if somebody does.
- WholeRuns.InstallerThenCheck: no item makes a symbolic link or leads over one.
- Hierarchy.HierarchyRoundTrip: the names fit their buffers, and the fake root's own name leads over no directory inside it.
- LuaLib.OpenLibrary: the global of the library's name is a table or nil, and tables carry no metatable of their own; errors that Lua would raise otherwise are not modelled.
- MakeDirectories.MakePath: in the model a mkdir whose way leads over a symbolic link fails, where the kernel would follow the link; the contract says what happens without such links.
- FileCopy.InstallFileCopy: likewise for opening, changing the owner and renaming.
- Engine.Installer.InstCopy: likewise; only Engine.Installer.Install, Engine.Installer.Deinstall and Engine.Installer.Check leave open what happens over a link.
- Engine.Installer.InstLink: likewise.
- Engine.Installer.InstMkdir: likewise.
- Permissions are two arbitrary sets, of paths at which the kernel refuses creation, removal and replacement, and of files it does not let be read; they do not follow from the modes of directories.
- chown does not clear set-id bits, and a new directory does not inherit its parent's group.
- stdio is what is read, written and renamed: it is assumed that fwrite returning nothing means an error and that the stream being written is never at its end (install-core.c:208); closing a stream twice after a failed close is not modelled.
- Item strings are C strings below the lengths the code accepts; snprintf's silent truncation is modelled, but the theorems on fake roots and links ask for paths that fit.
- install_init: reading the suffix file and finding the fake root happen before the runs; suffixes and fake root are arbitrary parameters.
- The check theorem covers directories and copied files; links are covered by the deinstallation, fake root and target theorems.
- A failed link of a helper leaves nothing executable, waitpid succeeds, and nobody kills a locker or deletes its lock file; `sd-clean`, and the Ada version query, which starts the locker without the second test, are not modelled.
- Garbage collection, memory errors and userdata of other classes in Lua; page terminators in Ada text files.
- The Win32 installer callbacks and the rest of the Win32 locker, which are foreign calls; message texts and callbacks; the other shell scripts, the build generator and the system probes.
