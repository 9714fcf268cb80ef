# PC-BSD installer wizard: disk layout and configuration

This project models the disk-layout and configuration core of the PC-BSD
graphical installer (`src-qt4/pc-installgui/installer.cpp`) in Dafny, and
proves properties of that model. The model covers:

- **The automatic layout planner (`autoGenPartitionLayout`).** It finds the
  target drive or slice in the disk inventory, reads its size, keeps a
  10 MB buffer, and writes a plan. On amd64 the plan is one ZFS pool with a
  fixed dataset list. Elsewhere it is `/`, swap, an optional `/var`, and
  `/usr`.
- **The disk summary (`getDiskSummary`) and the disk section of the
  pc-sysinstall configuration (`getDiskCfgSettings`).** Both consume a copy
  of the plan group by group, a group being the rows of one disk and slice.
  In each group they take the start-mount rows, then the first swap row,
  then the rest of the group, removing what they take.
- **The other configuration builders and their assembly in
  `startConfigGen`.** These are the global settings, the optional
  components, the users section and the install-type setup. The file write
  is not modelled.
- **Page navigation (`proceed`), the language-code extraction and the
  low-space check (`checkSpaceWarning`).**

Modules follow the program's structure:

- `Text` models the QString operations the code uses. This covers search,
  `split`/`join`, `replace`, and `setNum`/`toInt`, with `toInt` limited to
  the 32-bit range.
- `Plan` holds the plan rows, the inventory lookup and the planned layouts.
- `Traversal` holds recursive definitions of the consume-and-remove scans:
  what each scan takes, what it leaves, and the lines it writes.
- `Scans` holds the scans' loops as methods proved against `Traversal`.
- `Settings` holds the non-disk configuration builders, the page step and
  the space-check inputs.
- `Wizard` holds the `Installer` class, whose fields are the wizard's member
  state. Its methods update that state or build lists from it, and each is
  proved equal to the specification function for that operation.

Both traversals keep the start mount across groups: it becomes `/boot`
when a group row lists it (:351, :1157) and `/` when it is still unset
(:357, :1163). The summary shows no "Mount:" line for the ZFS rows of its
last pass (:446). It computes `sliceSize` (:435-439) but never prints it;
every summary entry shows the stored size.

Each operation is a specification function, and the loops of the source
are methods proved equal to it. The Definitions section below says which
source lines each specification function follows.

## Model

| member | source | states |
|---|---|---|
| Text.IndexOfFirst | src-qt4/pc-installgui/installer.cpp:332 | `indexOf` returns the first occurrence of the substring; it returns -1 exactly when there is none |
| Text.JoinSplit | src-qt4/pc-installgui/installer.cpp:378-389 | joining the pieces of a `split` with the same separator gives back the original string |
| Text.ParseIntToString | src-qt4/pc-installgui/installer.cpp:219 | the decimal that `setNum` writes for a 32-bit number reads back through `toInt` as that number, for negative numbers too |
| Text.LastIndexOf | src-qt4/pc-installgui/installer.cpp:834-835 | `lastIndexOf` of a character returns a position holding that character with none after it, or -1 |
| Plan.TargetOf | src-qt4/pc-installgui/installer.cpp:201-213 | a drive target has slice "ALL" and key field 1; a slice target is split into its disk and its last two characters, which concatenate back to the target, and has key field 2 |
| Plan.LastMatch | src-qt4/pc-installgui/installer.cpp:216-220 | the inventory row the lookup ends on: a matching row with no matching row after it, or none when no row matches |
| Plan.ResolveSizeCharacterized | src-qt4/pc-installgui/installer.cpp:215-227 | a size is found exactly when some row matches and the last matching row's size field parses; the size comes from that last match |
| Plan.SwapSize | src-qt4/pc-installgui/installer.cpp:259-266 | swap is 256 when less than 3000 MB would remain after twice the memory (the uncapped value), otherwise twice the memory; it is then capped at 2000 |
| Plan.PlannedLayoutCases | src-qt4/pc-installgui/installer.cpp:222-239 | on amd64 the plan is exactly one row (target disk and slice, the fixed dataset list, "ZFS", size minus 10, no options, no passphrase); otherwise it is the UFS layout of size minus 10 |
| Plan.PlannedLayoutHead | src-qt4/pc-installgui/installer.cpp:230-291 | every plan has one to four rows, all on the target's disk and slice, with empty options and passphrase |
| Plan.UfsLayoutShape | src-qt4/pc-installgui/installer.cpp:248-291 | the UFS rows in order: `/` UFS+SUJ "2000", SWAP with the swap size, `/var` UFS+SUJ "2048" exactly when more than 3000 MB remain after root and swap, and `/usr` with the remainder |
| Plan.UfsLayoutSizes | src-qt4/pc-installgui/installer.cpp:249-286 | each UFS row's size field is the decimal of the running size the planner computes for it |
| Plan.UfsSizesSum | src-qt4/pc-installgui/installer.cpp:249-286 | the UFS sizes add up exactly to the space left after the buffer; no guard keeps `/usr` non-negative |
| Plan.UfsSizesAddUp | src-qt4/pc-installgui/installer.cpp:249-286 | read back with `toInt`, the size fields of the UFS rows add up exactly to the space left after the buffer, when each size fits 32 bits |
| Plan.SizeSumOfSizes | src-qt4/pc-installgui/installer.cpp:252 | size fields written with `setNum` from 32-bit sizes read back to the sum of those sizes |
| Traversal.GroupSplit | src-qt4/pc-installgui/installer.cpp:1108-1251 | splitting the working list into one disk/slice group and the other rows keeps every row, counted with multiplicity |
| Traversal.GroupMembers | src-qt4/pc-installgui/installer.cpp:1213-1215 | a group holds only rows of its disk and slice; what is left after it holds none |
| Traversal.OthersRemoveAt | src-qt4/pc-installgui/installer.cpp:1206 | removing a row of the group leaves the rows outside the group unchanged |
| Traversal.NextStart | src-qt4/pc-installgui/installer.cpp:1150-1163 | the start mount is "/boot" exactly when it already was (it is never reset between groups) or a row of this group lists /boot among its mounts; it is otherwise "/" |
| Traversal.TakeSkipKeepsRows | src-qt4/pc-installgui/installer.cpp:1166-1192 | the start-mount scan, which steps over the row that shifts into the slot of a removed row, keeps every row: taken plus left is the input |
| Traversal.RootScanTakesStarts | src-qt4/pc-installgui/installer.cpp:1166-1192 | every row the start-mount scan takes belongs to the group and lists the start mount |
| Traversal.RootScanKeepsRows | src-qt4/pc-installgui/installer.cpp:1166-1192 | the start-mount scan loses no rows and adds none |
| Traversal.RootScanKeepsOthers | src-qt4/pc-installgui/installer.cpp:1166-1192 | the start-mount scan leaves the rows of other groups in place and in order |
| Traversal.FindSwap | src-qt4/pc-installgui/installer.cpp:1194-1209 | the swap scan takes the first swap row of the group; it finds none exactly when the group has no swap row |
| Traversal.ZeroLastSizes | src-qt4/pc-installgui/installer.cpp:1212-1242 | in the remaining-rows pass, a group row is written with size "0" exactly when it is also the last row of the whole working list; every other row keeps its stored size |
| Traversal.RestCfgSizes | src-qt4/pc-installgui/installer.cpp:1212-1242 | the same for the configuration lines: only a group row at the last index of the working list gets size "0" |
| Traversal.CfgGroup | src-qt4/pc-installgui/installer.cpp:1108-1251 | one group of the disk section removes exactly the group's rows and leaves the rest in order; the list shrinks, so the loop ends; the start mount stays "/" or "/boot" |
| Traversal.CfgPartsCoverGroup | src-qt4/pc-installgui/installer.cpp:1165-1242 | the rows one group writes (the start-mount rows, the swap row, and the group rows the last pass writes) are exactly the rows of the group, each once, so every planned partition of the group gets one `-part=` line |
| Traversal.CfgGroupFrame | src-qt4/pc-installgui/installer.cpp:1112-1248 | every section of the disk settings opens with its group's header (disk, partition, boot manager, scheme, `commitDiskPart`, comments) and closes with `commitDiskLabel` and a blank line |
| Traversal.CfgPartLinesShape | src-qt4/pc-installgui/installer.cpp:1174-1185 | a partition line is `disk<N>-part=<fs> <size> <mount>`, followed by ` (<options>)` only when the row has options; a passphrase adds exactly one `encpass=` line after it |
| Traversal.DiskCfgHead | src-qt4/pc-installgui/installer.cpp:1104-1122 | the disk section is empty exactly for a MANUAL plan; otherwise it opens with the first row's disk, numbered `disk0=` |
| Traversal.FormatDatasetsJoin | src-qt4/pc-installgui/installer.cpp:377-389 | the datasets shown lose nothing of the mount list: joined with "," they give back the list (with a leading "/" when it did not start at the pool root), as shown when no dataset has options, and once the inserted spaces are dropped when no dataset has a space of its own; assumes no later piece is the pool root itself |
| Traversal.FormatDatasetShown | src-qt4/pc-installgui/installer.cpp:380-387 | a dataset is shown after a "/" (the pool root "/" as it is); a dataset without options is otherwise unchanged; every "(" shown has a space before it; dropping those spaces gives back the dataset after its "/", for a dataset with no space of its own |
| Traversal.FindMirror | src-qt4/pc-installgui/installer.cpp:330-338 | the mirror step takes the first row whose mount names `MIRROR(<disk>)`; it finds none exactly when no row does |
| Traversal.SummaryGroup | src-qt4/pc-installgui/installer.cpp:343-457 | one group of the summary removes exactly the group's rows; the start mount stays "/" or "/boot" |
| Scans.UnusedSpaceSlice | src-qt4/pc-installgui/installer.cpp:1115-1120 | the inventory loop computes the partition name that `PartitionName` defines |
| Scans.ScanBoot | src-qt4/pc-installgui/installer.cpp:1150-1159 | the /boot loop sets the start mount to "/boot" exactly when a group row lists it, and otherwise keeps it |
| Scans.MountsHit | src-qt4/pc-installgui/installer.cpp:1167-1171 | the inner mount loop hits exactly when the row is in the group and lists the start mount |
| Scans.ScanStart | src-qt4/pc-installgui/installer.cpp:1165-1192 | the start-mount loop, with its `removeAt` and the `break` that exits only the inner loop, writes the lines of the rows `RootScan` takes and leaves the rows it leaves |
| Scans.ScanSwap | src-qt4/pc-installgui/installer.cpp:1194-1209 | the swap loop takes and removes the first swap row of the group, or changes nothing |
| Scans.RestCfg | src-qt4/pc-installgui/installer.cpp:1211-1242 | the remaining-rows loop, with its `i--`/`count--` fix-ups, writes `RestCfgLines` of the list and leaves exactly the rows of other groups |
| Scans.ScanMirror | src-qt4/pc-installgui/installer.cpp:330-338 | the mirror loop writes one "Disk:… Mirroring:…" line for the first mirror row and removes it, or changes nothing |
| Scans.ReformatDatasets | src-qt4/pc-installgui/installer.cpp:377-388 | the dataset loop leaves the list that `FormatDatasets` defines |
| Scans.EntryLines | src-qt4/pc-installgui/installer.cpp:367-395 | one taken row's summary entry: header, datasets or mount, and options |
| Scans.RestSummary | src-qt4/pc-installgui/installer.cpp:424-457 | the summary's remaining-rows loop writes every group row's entry with its stored size and leaves the rows of other groups |
| Settings.DeviceName | src-qt4/pc-installgui/installer.cpp:938-940 | the saved device is a prefix of the entry, and the whole entry when it has no ':' after position 0 |
| Settings.DeviceNameHasNoColon | src-qt4/pc-installgui/installer.cpp:938-940 | when the entry has a ':' after position 0, the device is cut at its first ':' and holds none |
| Settings.NetworkLinesShape | src-qt4/pc-installgui/installer.cpp:916-948 | FreeBSD network settings: one line for AUTO-DHCP; four lines (device plus the IPv6 lines) for AUTO-DHCP-SLAAC and IPv6-SLAAC; for a static device, cut at its first ':', eight lines: the device, its address and mask, the name server, the router, then the IPv6 lines |
| Settings.GlobalHeadLines | src-qt4/pc-installgui/installer.cpp:876-903 | the third global line is `installMode=extract` exactly for a MANUAL plan, followed by `installLocation=/mnt`, and otherwise `installMode=fresh`; the install type is PCBSD exactly for a desktop |
| Settings.GlobalTailLines | src-qt4/pc-installgui/installer.cpp:956-987 | a chosen language gives one `localizeLang=` line with its code; the first entry gives none; the list ends with " " |
| Settings.LanguageCodeOf | src-qt4/pc-installgui/installer.cpp:958-959 | the code of "name(code)suffix" is the code, when the code holds no parentheses and the suffix no ')' |
| Settings.ComponentLines | src-qt4/pc-installgui/installer.cpp:1516-1531 | there are no component lines exactly when neither src nor ports was chosen; otherwise three lines under "# Optional Components" |
| Settings.ComponentsListed | src-qt4/pc-installgui/installer.cpp:1519-1527 | the components line lists src, ports, or both, in that order |
| Settings.UsersLines | src-qt4/pc-installgui/installer.cpp:1591-1611 | the users section has 13 lines, carrying the root and user passwords, and ends with `commitUser` and a blank |
| Settings.UsersCommands | src-qt4/pc-installgui/installer.cpp:1595-1608 | every entry of the users section starts with a fixed key, so no entry is a `runCommand=` entry, whatever the fields hold |
| Settings.DesktopCommands | src-qt4/pc-installgui/installer.cpp:1018-1034 | the desktop setup runs sys-init with the language and the three first-boot touches; its note is not a command |
| Settings.NextPage | src-qt4/pc-installgui/installer.cpp:713-720 | Next moves up one page and Back down one, clamped at the last and the first page; an index in range stays in range |
| Settings.NextPageRoundTrip | src-qt4/pc-installgui/installer.cpp:718-720 | Back after Next, and Next after Back, return to the page they started from, away from the clamps |
| Settings.SpaceTargetOfPlanned | src-qt4/pc-installgui/installer.cpp:1641-1649 | a plan whose first row names the planner's target (a drive when "ALL", else the slice) makes the space check look at that same target and key field |
| Settings.AvailableSizeOfPlan | src-qt4/pc-installgui/installer.cpp:1651-1656 | for a plan the planner made, the space check reads back the very size the planner resolved |
| Wizard.LastMatchSize | src-qt4/pc-installgui/installer.cpp:216-220 | the inventory loop ends with the last matching row's size read with `toInt` (0 when unreadable) and its `ok`, or its initial value and false when nothing matches |
| Wizard.UfsSteps | src-qt4/pc-installgui/installer.cpp:248-289 | the step-by-step UFS appends and the running `totalSize` produce exactly `UfsLayout` |
| Wizard.CfgIteration | src-qt4/pc-installgui/installer.cpp:1110-1250 | one outer iteration of `getDiskCfgSettings` writes, removes and carries on exactly as `CfgGroup` says |
| Wizard.SummaryIteration | src-qt4/pc-installgui/installer.cpp:344-457 | one outer iteration of `getDiskSummary` after its mirror step does exactly what `SummaryGroup` says |
| Wizard.Installer.constructor | src-qt4/pc-installgui/installer.cpp:11-49 | the wizard starts with the inventory, architecture, memory and languages it was given, no plan, the boot manager on, the MBR scheme, no optional components, no space warning given, and the first page and language |
| Wizard.Installer.AutoGenPartitionLayout | src-qt4/pc-installgui/installer.cpp:187-293 | planning succeeds exactly when the size resolves; the plan is then the planned layout of that size, and empty on failure; the advisory is shown exactly for a successful non-amd64 plan |
| Wizard.Installer.GetDiskSummary | src-qt4/pc-installgui/installer.cpp:296-464 | the summary loop produces exactly `Summary` of the plan |
| Wizard.Installer.GetDiskCfgSettings | src-qt4/pc-installgui/installer.cpp:1094-1254 | the disk-section loop produces exactly `DiskCfg` of the inventory and plan |
| Wizard.Installer.CheckSpaceWarning | src-qt4/pc-installgui/installer.cpp:1629-1678 | the warning flag is set exactly when the size read for the plan's target is below the recommended size; it is never cleared |
| Wizard.Installer.StartConfigGen | src-qt4/pc-installgui/installer.cpp:991-1057 | the space check runs when no warning was given yet, and the configuration is the global settings, the disk section, the components, the save hook, the desk packages when on the medium, the install-type setup and newaliases |
| Wizard.Installer.AssembleConfig | src-qt4/pc-installgui/installer.cpp:1000-1057 | the appends of `startConfigGen` produce exactly the configuration: the global settings, then the disk section, then the tail |
| Wizard.Installer.AppendTail | src-qt4/pc-installgui/installer.cpp:1005-1057 | the appends after the disk section produce exactly the configuration's tail |
| Wizard.Installer.Proceed | src-qt4/pc-installgui/installer.cpp:713-728 | the page becomes `NextPage` of the old page, and the Back button shows exactly when the new page is past the first and not page 4 |
| Wizard.InstallMode | src-qt4/pc-installgui/installer.cpp:306-311 | with a MANUAL plan the global settings extract into /mnt, the summary is the single /mnt note and the disk section is empty; otherwise the install is fresh, the summary opens with its title and the disk section names `disk0=` |
| Wizard.InstallType | src-qt4/pc-installgui/installer.cpp:891-898 | the install-type line of the global settings is PCBSD exactly for a desktop install, and FreeBSD otherwise |
| Wizard.LanguageLine | src-qt4/pc-installgui/installer.cpp:951-987 | a chosen language adds its code just before the final " "; the first entry adds nothing after the medium lines |
| Wizard.ConfigFrame | src-qt4/pc-installgui/installer.cpp:1000-1057 | the configuration starts with the global settings, carries the disk section right after them, and ends by running newaliases |
| Wizard.VariantCommands | src-qt4/pc-installgui/installer.cpp:1014-1054 | the commands of the install-type section: the desktop setup and touches for a desktop; otherwise only the SSH switch when asked for, then the server setup for TrueOS |

## Definitions

Specification functions the lemmas above are about, with the source they follow:

- `Text.IndexOf`, `Text.Contains`, `Text.LastIndexOf`, `Text.Split`, `Text.Join` and `Text.Replace` are QString's `indexOf`, `lastIndexOf`, `split`, `join` and `replace`, as used at :332, :346, :378-389 and :834-835.
- `Text.IntToString` is `setNum` (:252, :1122). `Text.ParseInt` and `Plan.ToIntValue` are `toInt` with its `ok` flag (:219, :1655).
- `Plan.ResolveSize` is the size lookup of :196-227. `Plan.SwapSize` and `Plan.UfsSizes` are the running-size arithmetic of :248-289.
- `Plan.ZfsLayout` is :230-239. `Plan.UfsLayout` is :248-291. `Plan.PlannedLayout` is the branch at :230 after the buffer at :223.
- `Traversal.Group` and `Traversal.Others` are the rows with and without the working disk and slice (:1110-1111, :1213-1215).
- `Traversal.TakeSkip` and `Traversal.RootScan` are the start-mount scan with its `removeAt` and inner `break` (:359-402, :1165-1192). `Traversal.FindSwap` is the swap scan (:405-421, :1194-1209).
- `Traversal.IsUnusedSpace` and `Traversal.PartitionName` are :1115-1120.
- `Traversal.CfgHeader` is :1113-1148. `Traversal.CfgPartLines` is :1174-1185. `Traversal.CfgSwapLine` is :1200-1203.
- `Traversal.ZeroLast` and `Traversal.RestCfgLines` are :1211-1242.
- `Traversal.CfgGroup`, `Traversal.CfgFrom` and `Traversal.DiskCfg` are `getDiskCfgSettings` (:1094-1254).
- `Traversal.FormatDataset` and `Traversal.FormatDatasets` are :377-389. `Traversal.SummaryStartLines` is :367-393. `Traversal.SummaryRestLines` is :442-453.
- `Traversal.FindMirror` is :330-338. `Traversal.SummaryGroup`, `Traversal.SummaryFrom` and `Traversal.Summary` are `getDiskSummary` (:296-464).
- `Settings.DeviceName` is :937-938. `Settings.NetworkLines` is :912-948.
- `Settings.GlobalHead`, `Settings.GlobalBody` and `Settings.GlobalTail` are the three parts of `getGlobalCfgSettings`: :874-904, :903-953 and :955-987.
- `Settings.LanguageCode` is :834-835 and :958-959; `Settings.LanguageCodeGerman` is one instance of it, "German (de)" giving "de". `Settings.ComponentLines` is :1516-1531. `Settings.UsersLines` is :1591-1611.
- `Settings.DesktopSetup` is :1027-1033. `Settings.SshLines` is :1040-1041. `Settings.ServerSetup` is :1044.
- `Settings.NextPage` and `Settings.BackVisible` are :713-728.
- `Settings.SpaceTarget`, `Settings.AvailableSize` and `Settings.RecommendedSize` are :1641-1649, :1651-1656 and :1660-1663.
- `Wizard.Installer.IsDesktop` is the test at :1017.
- `Wizard.Installer.GlobalCfg` is `getGlobalCfgSettings` (:870-989).
- `Wizard.Installer.VariantLines` is :1017-1054.
- `Wizard.Installer.ConfigTail` is :1004-1057, and `Wizard.Installer.ConfigFile` is :1000-1057.
- `Wizard.Installer.LowSpace` is :1651-1669.

## Left out

- Traversal.FormatDatasetsJoin: a later piece that is exactly the pool root (",//" in the mount list) is shown as "/" without a slash added, so joining does not give the list back; the lemma assumes no such piece.
- Integer width: outside `toInt`, sizes and counters are unbounded integers. Only `Plan.UfsSizesAddUp` and `Plan.SizeSumOfSizes` assume the sizes fit 32 bits. A 32-bit overflow of `totalSize` or of `2 * systemMemory` is not modelled.
- `toInt` is modelled as an optional sign followed by decimal digits. Qt's tolerance of surrounding whitespace is not modelled.
- The file write in `startConfigGen` (:1060-1067) is not modelled.
- Settings.UsersCommands: states that no entry of the users section is a command entry. The file write puts a newline after each entry (:1063-1065). A password, name or shell that itself holds a newline followed by `runCommand=` would therefore give a command line in the written file, and the model does not exclude or cover that.
- `getDeskPkgCfg` reads meta-package files, so its lines are an input to `StartConfigGen`.
- The message boxes are not modelled. The planner's 32-bit advisory is the `warned` result. The low-space warning is the `haveWarnedSpace` flag.
- Widgets, the desktop wheel and its animation, and the slots are not modelled. This covers `slotSaveDiskChanges`, `slotSaveFBSDSettings`, `slotNext`, `slotBack` and the ones that only move data into fields. The current page, the last page and the language-box index are fields.
- `Scripts::Backend` calls are not modelled; disks, memory and languages are constructor arguments.
- Process and I/O plumbing is not modelled: `setArch`, `initInstall`, `loadDiskInfo`, `startInstall`, `installFailed`, `slotReadInstallerOutput` and translator loading (:825-854).
- `src-qt4/pc-updatecenter/updatecontroller.cpp` is not part of this model. It only emits signals.
- The values of `wFREEBSD` and `wPCSERVER` are not defined in the source file, so they are constructor arguments of `Installer`.
- Computed but unused values in `getDiskSummary` are left out: `tmpSlice` (:321-328), `sliceSize` (:435-439) and `disk`. The summary prints the stored size.
- The empty check at :1140-1142 in `getDiskCfgSettings` can never fire, so the model has no branch for it.
- The desktop setup passes sys-init the whole language-box entry (:1020-1027), such as "German (de)", and not its code. The model keeps this behaviour.
- A failed plan leaves the layout empty. `getDiskSummary`, `getDiskCfgSettings`, `getGlobalCfgSettings` and `checkSpaceWarning` then read `at(0)` of an empty list, which is undefined in Qt. The model requires a non-empty layout for them.
- Inventory rows must be long enough for the fields the code reads (`WellFormedInventory`), because Qt's `at()` out of range is undefined.
- FreeBSD network settings must have all eight fields, except in AUTO-DHCP mode (`NetComplete`), for the same reason.
