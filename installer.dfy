/** The installer wizard's state and the operations that read and update
    it: the automatic layout planner, the disk summary, the config
    builders and their assembly, the page navigation and the low-space
    check. The wizard's widgets are left out; the few widget values the
    operations read (the current page, the selected language) are fields. */
module Wizard {
  import opened Wrappers
  import opened Text
  import opened Plan
  import opened Traversal
  import opened Scans
  import opened Settings

  /** The inventory loop of the planner and of the space check: the size
      field of the last row that matches, read with `toInt`; `init` and
      `false` when no row matches. */
  method LastMatchSize(inv: seq<seq<string>>, t: Target, target: string, init: int)
    returns (totalSize: int, ok: bool)
    requires WellFormedInventory(inv)
    requires (t.kind == "DRIVE" && t.loc == 1) || (t.kind == "SLICE" && t.loc == 2)
    ensures LastMatch(inv, t, target).None? ==> totalSize == init && !ok
    ensures LastMatch(inv, t, target).Some? ==>
      var k := LastMatch(inv, t, target).value;
      ok == ParseInt(inv[k][t.loc + 1]).Some? && totalSize == ToIntValue(inv[k][t.loc + 1])
  {
    totalSize, ok := init, false;
    for i := 0 to |inv|
      invariant LastMatch(inv[..i], t, target).None? ==> totalSize == init && !ok
      invariant LastMatch(inv[..i], t, target).Some? ==>
        var k := LastMatch(inv[..i], t, target).value;
        k < i && ok == ParseInt(inv[k][t.loc + 1]).Some? && totalSize == ToIntValue(inv[k][t.loc + 1])
    {
      assert inv[..i + 1][..i] == inv[..i] && inv[..i + 1][i] == inv[i];
      assert WellFormedRow(inv[i]);
      if inv[i][0] == t.kind && target == inv[i][t.loc] {
        var parsed := ParseInt(inv[i][t.loc + 1]);
        ok := parsed.Some?;
        totalSize := if parsed.Some? then parsed.value else 0;
      }
    }
    assert inv[..|inv|] == inv;
  }

  /** The UFS branch of the planner: `/`, swap (twice the memory, 256 MB
      when that leaves less than 3000 MB, at most 2000 MB), `/var` when more
      than 3000 MB are left, and `/usr` with what remains of `totalSize`. */
  method UfsSteps(t: Target, totalSize0: int, systemMemory: int) returns (layout: seq<PlanRow>)
    ensures layout == UfsLayout(t, totalSize0, systemMemory)
  {
    var totalSize := totalSize0;
    layout := [];
    var mntsize := RootSize;
    layout := layout + [LayoutRow(t, "/", Ufs, mntsize)];
    totalSize := totalSize - mntsize;
    mntsize := systemMemory * 2;
    if totalSize - mntsize < Roomy {
      mntsize := SwapFallback;
    }
    if mntsize > SwapCap {
      mntsize := SwapCap;
    }
    assert mntsize == SwapSize(totalSize, systemMemory);
    layout := layout + [LayoutRow(t, "SWAP", "SWAP", mntsize)];
    totalSize := totalSize - mntsize;
    if totalSize > Roomy {
      mntsize := VarSize;
      layout := layout + [LayoutRow(t, "/var", Ufs, mntsize)];
      totalSize := totalSize - mntsize;
    }
    layout := layout + [LayoutRow(t, "/usr", Ufs, totalSize)];
  }

  /** One outer iteration of `getDiskCfgSettings` for the group of the
      head row: the header, the start-mount rows, the first swap row, the
      rest of the group and `commitDiskLabel`. The list is never empty at
      the source's "list is empty" check, so that `break` is left out. */
  method CfgIteration(inv: seq<seq<string>>, copy0: seq<PlanRow>, disk: nat, startPart0: string,
                      loadMBR: bool, loadGPT: bool)
    returns (lines: seq<string>, copy: seq<PlanRow>, startPart: string)
    requires WellFormedInventory(inv) && |copy0| > 0
    ensures Step(lines, copy, startPart) == CfgGroup(inv, copy0, disk, startPart0, loadMBR, loadGPT)
  {
    var wd, ws := copy0[0].disk, copy0[0].slice;
    var tmpSlice := UnusedSpaceSlice(inv, wd, ws);
    lines := CfgHeader(disk, wd, ws, tmpSlice, loadMBR, loadGPT);
    startPart := ScanBoot(copy0, wd, ws, startPart0);
    if startPart == "" {
      startPart := "/";
    }
    var roots;
    roots, copy := ScanStart(copy0, wd, ws, startPart, CfgPlain(disk));
    var swap;
    swap, copy := ScanSwap(copy, wd, ws);
    var swapLines := if swap.Some? then CfgSwapLine(disk, swap.value) else [];
    var rest;
    rest, copy := RestCfg(copy, wd, ws, disk);
    lines := lines + roots + swapLines + rest + ["commitDiskLabel", ""];
  }

  /** The group part of one outer iteration of `getDiskSummary`, after the
      mirror step: the start-mount entries, the first swap entry and the
      rest of the group. */
  method SummaryIteration(copy0: seq<PlanRow>, wd: string, ws: string, startPart0: string)
    returns (lines: seq<string>, copy: seq<PlanRow>, startPart: string)
    ensures Step(lines, copy, startPart) == SummaryGroup(copy0, wd, ws, startPart0)
  {
    startPart := ScanBoot(copy0, wd, ws, startPart0);
    if startPart == "" {
      startPart := "/";
    }
    var roots;
    roots, copy := ScanStart(copy0, wd, ws, startPart, SummaryStart);
    var swap;
    swap, copy := ScanSwap(copy, wd, ws);
    var swapLines := if swap.Some? then SummaryHead(swap.value) else [];
    var rest;
    rest, copy := RestSummary(copy, wd, ws);
    lines := roots + swapLines + rest;
  }

  /** The disk serialiser takes one group and goes on from what it leaves. */
  lemma CfgFromStep(inv: seq<seq<string>>, rows: seq<PlanRow>, n: nat, sp: string, mbr: bool, gpt: bool)
    requires WellFormedInventory(inv) && |rows| > 0
    ensures var g := CfgGroup(inv, rows, n, sp, mbr, gpt);
      CfgFrom(inv, rows, n, sp, mbr, gpt) == g.lines + CfgFrom(inv, g.rest, n + 1, g.start, mbr, gpt)
  {
  }

  lemma CfgFromEmpty(inv: seq<seq<string>>, rows: seq<PlanRow>, n: nat, sp: string, mbr: bool, gpt: bool)
    requires WellFormedInventory(inv) && |rows| == 0
    ensures CfgFrom(inv, rows, n, sp, mbr, gpt) == []
  {
  }

  /** The summary loop takes the mirror note and one group, and goes on
      from what they leave; it stops when the mirror row was the last
      row. */
  lemma SummaryFromStep(rows: seq<PlanRow>, sp: string, mirror: seq<string>, left: seq<PlanRow>)
    requires |rows| > 0
    requires FindMirror(rows, rows[0].disk).None? ==> mirror == [] && left == rows
    requires FindMirror(rows, rows[0].disk).Some? ==>
      var k := FindMirror(rows, rows[0].disk).value;
      mirror == ["Disk:" + rows[k].disk + " " + "Mirroring:" + rows[0].disk] && left == RemoveAt(rows, k)
    ensures |left| == 0 ==> SummaryFrom(rows, sp) == mirror
    ensures |left| > 0 ==>
      var g := SummaryGroup(left, rows[0].disk, rows[0].slice, sp);
      SummaryFrom(rows, sp) == mirror + g.lines + SummaryFrom(g.rest, g.start)
  {
  }

  /** The wizard. `wFreeBSD` and `wPCServer` are the desktop-wheel
      positions of the FreeBSD and TrueOS installs; position 12 is a
      server install too. */
  class Installer {
    const wFreeBSD: int
    const wPCServer: int

    /** The disk inventory: `["DRIVE", id, size, ...]` and
        `["SLICE", ..., disk+slice, size, label]` rows. */
    var sysDisks: seq<seq<string>>
    /** The planned layout. */
    var sysFinalDiskLayout: seq<PlanRow>
    var arch: string
    /** MB of physical memory. */
    var systemMemory: int
    var loadMBR: bool
    var loadGPT: bool
    var fSRC: bool
    var fPORTS: bool
    var fRootPW: string
    var fName: string
    var fUserName: string
    var fUserPW: string
    var fShell: string
    var fHost: string
    var fSSH: bool
    /** `[device, ip, mask, nameserver, router, ipv6, ipv6 nameserver,
        ipv6 router]`, or just the device for the automatic modes. */
    var fNetSettings: seq<string>
    var wheelCurItem: int
    var hasPkgsOnMedia: bool
    var haveWarnedSpace: bool
    /** The entries of the language box and its current index. */
    var languages: seq<string>
    var languageIndex: int
    /** The pages of the wizard: the current index, and the last index. */
    var pageIndex: int
    var lastPage: int
    var backVisible: bool

    /** The state the wizard starts from: boot manager on, MBR scheme, no
        optional components, no warning given yet, on the first page. */
    constructor (wFreeBSD: int, wPCServer: int, sysDisks: seq<seq<string>>, arch: string,
                 systemMemory: int, hasPkgsOnMedia: bool, languages: seq<string>, lastPage: int)
      ensures this.wFreeBSD == wFreeBSD && this.wPCServer == wPCServer
      ensures this.sysDisks == sysDisks && this.arch == arch && this.systemMemory == systemMemory
      ensures this.hasPkgsOnMedia == hasPkgsOnMedia && this.languages == languages && this.lastPage == lastPage
      ensures sysFinalDiskLayout == [] && loadMBR && !loadGPT && !fSRC && !fPORTS && !haveWarnedSpace
      ensures pageIndex == 0 && languageIndex == 0 && !backVisible
    {
      this.wFreeBSD := wFreeBSD;
      this.wPCServer := wPCServer;
      this.sysDisks := sysDisks;
      this.arch := arch;
      this.systemMemory := systemMemory;
      this.hasPkgsOnMedia := hasPkgsOnMedia;
      this.languages := languages;
      this.lastPage := lastPage;
      sysFinalDiskLayout := [];
      haveWarnedSpace := false;
      loadMBR := true;
      loadGPT := false;
      fSRC := false;
      fPORTS := false;
      fRootPW, fName, fUserName, fUserPW, fShell, fHost := "", "", "", "", "", "";
      fSSH := false;
      fNetSettings := [];
      wheelCurItem := 0;
      languageIndex := 0;
      pageIndex := 0;
      backVisible := false;
    }

    /** `autoGenPartitionLayout`: plans the layout of `target`, a drive or
        a slice. Fails, leaving the plan empty, unless the inventory gives
        the target a size; `warned` is the advisory shown when the system
        is not amd64. */
    method AutoGenPartitionLayout(target: string, isDisk: bool) returns (ok: bool, warned: bool)
      requires WellFormedInventory(sysDisks)
      modifies this`sysFinalDiskLayout
      ensures ok <==> ResolveSize(sysDisks, target, isDisk).Some?
      ensures ok ==>
        sysFinalDiskLayout == PlannedLayout(TargetOf(target, isDisk), arch, ResolveSize(sysDisks, target, isDisk).value, systemMemory)
      ensures !ok ==> sysFinalDiskLayout == []
      ensures warned <==> ok && arch != "amd64"
    {
      sysFinalDiskLayout := [];
      var t := TargetOf(target, isDisk);
      var totalSize;
      totalSize, ok := LastMatchSize(sysDisks, t, target, 0);
      ghost var size := totalSize;
      assert ok ==> ResolveSize(sysDisks, target, isDisk) == Some(size);
      totalSize := totalSize - RoundingBuffer;
      warned := false;
      if !ok {
        return;
      }
      if arch == "amd64" {
        sysFinalDiskLayout := ZfsLayout(t, totalSize);
        return;
      }
      warned := true;
      sysFinalDiskLayout := UfsSteps(t, totalSize, systemMemory);
    }

    /** `getDiskSummary`: the MANUAL note, or the title and, group by
        group, the mirror note and the group's entries. */
    method GetDiskSummary() returns (summaryList: seq<string>)
      requires |sysFinalDiskLayout| > 0
      ensures summaryList == Summary(sysFinalDiskLayout)
    {
      var copyList := sysFinalDiskLayout;
      if copyList[0].disk == "MANUAL" {
        return ["", "Installing to file-system mounted at /mnt"];
      }
      summaryList := ["", "<b>The disk will be setup with the following configuration:</b>"];
      ghost var goal := Summary(copyList);
      var startPart := "";
      while |copyList| > 0
        invariant summaryList + SummaryFrom(copyList, startPart) == goal
        decreases |copyList|
      {
        ghost var before, sp, done := copyList, startPart, summaryList;
        var wd, ws := copyList[0].disk, copyList[0].slice;
        var mirror;
        mirror, copyList := ScanMirror(copyList, wd);
        summaryList := summaryList + mirror;
        SummaryFromStep(before, sp, mirror, copyList);
        if |copyList| == 0 {
          break;
        }
        var lines;
        lines, copyList, startPart := SummaryIteration(copyList, wd, ws, startPart);
        summaryList := summaryList + lines;
        ghost var more := SummaryFrom(copyList, startPart);
        AppendAssoc(mirror, lines, more);
        AppendAssoc(done, mirror, lines + more);
        AppendAssoc(done + mirror, lines, more);
      }
    }

    /** `getDiskCfgSettings`: nothing for a MANUAL plan; otherwise one
        section per group, numbered from 0. */
    method GetDiskCfgSettings() returns (tmpList: seq<string>)
      requires WellFormedInventory(sysDisks) && |sysFinalDiskLayout| > 0
      ensures tmpList == DiskCfg(sysDisks, sysFinalDiskLayout, loadMBR, loadGPT)
    {
      var copyList := sysFinalDiskLayout;
      if copyList[0].disk == "MANUAL" {
        return [];
      }
      var inv, mbr, gpt := sysDisks, loadMBR, loadGPT;
      ghost var goal := CfgFrom(inv, copyList, 0, "", mbr, gpt);
      tmpList := [];
      assert tmpList + goal == goal;
      var startPart := "";
      var disk := 0;
      while |copyList| > 0
        invariant tmpList + CfgFrom(inv, copyList, disk, startPart, mbr, gpt) == goal
        decreases |copyList|
      {
        ghost var before, sp, done := copyList, startPart, tmpList;
        var lines;
        lines, copyList, startPart := CfgIteration(inv, copyList, disk, startPart, mbr, gpt);
        CfgFromStep(inv, before, disk, sp, mbr, gpt);
        tmpList := tmpList + lines;
        AppendAssoc(done, lines, CfgFrom(inv, copyList, disk + 1, startPart, mbr, gpt));
        disk := disk + 1;
      }
      CfgFromEmpty(inv, copyList, disk, startPart, mbr, gpt);
      assert tmpList + [] == tmpList;
    }

    /** The desktop wheel is on a PC-BSD desktop install, not on the
        FreeBSD or a TrueOS one. */
    predicate IsDesktop()
      reads this`wheelCurItem
    {
      wheelCurItem != wPCServer && wheelCurItem != 12 && wheelCurItem != wFreeBSD
    }

    /** What the global settings read: complete network settings for a
        FreeBSD or TrueOS install, and a language-box index that is 0 or
        names an entry. */
    predicate GlobalReady()
      reads this`wheelCurItem, this`fNetSettings, this`languageIndex, this`languages
    {
      && (!IsDesktop() ==> NetComplete(fNetSettings))
      && (languageIndex == 0 || 0 <= languageIndex < |languages|)
    }

    /** `getGlobalCfgSettings`. */
    function GlobalCfg(): seq<string>
      reads this`sysFinalDiskLayout, this`wheelCurItem, this`arch, this`fHost, this`fNetSettings, this`languages, this`languageIndex
      requires |sysFinalDiskLayout| > 0 && GlobalReady()
    {
      GlobalHead(IsManual(sysFinalDiskLayout), IsDesktop())
        + GlobalBody(IsDesktop(), arch, fHost, fNetSettings)
        + GlobalTail(languages, languageIndex)
    }

    /** The language handed to the desktop setup: the whole language-box
        entry, or "en_US" for the first entry. */
    function DesktopLang(): string
      reads this`languages, this`languageIndex
      requires languageIndex == 0 || 0 <= languageIndex < |languages|
    {
      if languageIndex != 0 then languages[languageIndex] else "en_US"
    }

    /** The install-type part of the config: first-boot setup for a
        desktop; the users, SSH and server setup for TrueOS; the users and
        SSH for FreeBSD. */
    function VariantLines(): seq<string>
      reads this`wheelCurItem, this`languages, this`languageIndex, this`fRootPW, this`fName, this`fUserName, this`fUserPW, this`fShell, this`fSSH
      requires languageIndex == 0 || 0 <= languageIndex < |languages|
    {
      if IsDesktop() then DesktopSetup(DesktopLang())
      else if wheelCurItem == wPCServer || wheelCurItem == 12 then
        UsersLines(fRootPW, fName, fUserName, fUserPW, fShell) + SshLines(fSSH) + ServerSetup
      else
        UsersLines(fRootPW, fName, fUserName, fUserPW, fShell) + SshLines(fSSH)
    }

    /** The config `startConfigGen` writes, around the disk section
        `disk`, given the desk-package lines. */
    function ConfigFile(disk: seq<string>, deskPkgCfg: seq<string>): seq<string>
      reads this`sysFinalDiskLayout, this`wheelCurItem, this`arch, this`fHost, this`fNetSettings, this`languages, this`languageIndex, this`fSRC, this`fPORTS, this`hasPkgsOnMedia, this`fRootPW, this`fName, this`fUserName, this`fUserPW, this`fShell, this`fSSH
      requires |sysFinalDiskLayout| > 0 && GlobalReady()
    {
      GlobalCfg() + disk + ConfigTail(deskPkgCfg)
    }

    /** What follows the disk section: the components, the save-config
        hook, the desk packages when installing from a package disk, the
        install-type setup and newaliases. */
    function ConfigTail(deskPkgCfg: seq<string>): seq<string>
      reads this`wheelCurItem, this`languages, this`languageIndex, this`fSRC, this`fPORTS, this`hasPkgsOnMedia, this`fRootPW, this`fName, this`fUserName, this`fUserPW, this`fShell, this`fSSH
      requires languageIndex == 0 || 0 <= languageIndex < |languages|
    {
      ComponentLines(fSRC, fPORTS) + SaveConfig + [""] + (if hasPkgsOnMedia then deskPkgCfg else []) + [""]
        + VariantLines() + NewAliases
    }

    /** The low-space condition of `checkSpaceWarning`. */
    predicate LowSpace()
      reads this`sysDisks, this`sysFinalDiskLayout, this`pageIndex, this`wheelCurItem
      requires WellFormedInventory(sysDisks) && |sysFinalDiskLayout| > 0
    {
      AvailableSize(sysDisks, sysFinalDiskLayout) < RecommendedSize(pageIndex, wheelCurItem, wFreeBSD, wPCServer)
    }

    /** `checkSpaceWarning`: records that the warning was given when the
        target is smaller than recommended. */
    method CheckSpaceWarning()
      requires WellFormedInventory(sysDisks) && |sysFinalDiskLayout| > 0
      modifies this`haveWarnedSpace
      ensures haveWarnedSpace == (old(haveWarnedSpace) || LowSpace())
    {
      var workingDisk, workingSlice := sysFinalDiskLayout[0].disk, sysFinalDiskLayout[0].slice;
      var t, target;
      if workingSlice == "ALL" {
        t, target := Target("DRIVE", workingDisk, workingSlice, 1), workingDisk;
      } else {
        t, target := Target("SLICE", workingDisk, workingSlice, 2), workingDisk + workingSlice;
      }
      assert SpaceTarget(sysFinalDiskLayout) == (t, target);
      var totalSize, ok := LastMatchSize(sysDisks, t, target, -1);
      assert totalSize == AvailableSize(sysDisks, sysFinalDiskLayout);
      var targetSize;
      if pageIndex == 1 && (wheelCurItem == wFreeBSD || wheelCurItem == wPCServer || wheelCurItem == 12) {
        targetSize := 20000;
      } else {
        targetSize := 50000;
      }
      assert targetSize == RecommendedSize(pageIndex, wheelCurItem, wFreeBSD, wPCServer);
      if totalSize < targetSize {
        haveWarnedSpace := true;
      }
    }

    /** `startConfigGen` without the file write: the configuration, after
        the space check when no warning was given yet. */
    method StartConfigGen(deskPkgCfg: seq<string>) returns (cfgList: seq<string>)
      requires WellFormedInventory(sysDisks) && |sysFinalDiskLayout| > 0 && GlobalReady()
      modifies this`haveWarnedSpace
      ensures haveWarnedSpace == (old(haveWarnedSpace) || LowSpace())
      ensures cfgList == ConfigFile(DiskCfg(sysDisks, sysFinalDiskLayout, loadMBR, loadGPT), deskPkgCfg)
    {
      if !haveWarnedSpace {
        CheckSpaceWarning();
      }
      var disk := GetDiskCfgSettings();
      cfgList := AssembleConfig(disk, deskPkgCfg);
    }

    /** The assembly in `startConfigGen` around the disk section: the
        global and component sections, the save-config hook, the desk
        packages when installing from a package disk, and the install-type
        setup. */
    method AssembleConfig(disk: seq<string>, deskPkgCfg: seq<string>) returns (cfgList: seq<string>)
      requires |sysFinalDiskLayout| > 0 && GlobalReady()
      ensures cfgList == ConfigFile(disk, deskPkgCfg)
    {
      cfgList := GlobalCfg();
      cfgList := cfgList + disk;
      cfgList := AppendTail(cfgList, deskPkgCfg);
    }

    /** The appends of `startConfigGen` after the disk section, onto the
        list built so far. */
    method AppendTail(front: seq<string>, deskPkgCfg: seq<string>) returns (cfgList: seq<string>)
      requires languageIndex == 0 || 0 <= languageIndex < |languages|
      ensures cfgList == front + ConfigTail(deskPkgCfg)
    {
      cfgList := front + ComponentLines(fSRC, fPORTS);
      ghost var tail := ComponentLines(fSRC, fPORTS);
      tail, cfgList := AppendStep(front, tail, cfgList, SaveConfig);
      tail, cfgList := AppendStep(front, tail, cfgList, [""]);
      ghost var beforePkgs := tail;
      if hasPkgsOnMedia {
        tail, cfgList := AppendStep(front, tail, cfgList, deskPkgCfg);
      }
      assert tail == beforePkgs + (if hasPkgsOnMedia then deskPkgCfg else []);
      tail, cfgList := AppendStep(front, tail, cfgList, [""]);
      tail, cfgList := AppendStep(front, tail, cfgList, VariantLines());
      tail, cfgList := AppendStep(front, tail, cfgList, NewAliases);
    }

    /** `proceed`: Next or Back, and whether the Back button shows. */
    method Proceed(forward: bool)
      modifies this`pageIndex, this`backVisible
      ensures pageIndex == NextPage(old(pageIndex), lastPage, forward)
      ensures backVisible == BackVisible(pageIndex)
    {
      var count := lastPage;
      var index := pageIndex;
      index := if forward then (if index == count then count else index + 1)
               else (if index == 0 then 0 else index - 1);
      backVisible := index > 0 && index != 4;
      pageIndex := index;
    }
  }

  /** One `cfgList +=` after the disk section: the list stays the global
      and disk lines followed by the tail built so far. */
  method AppendStep(ghost front: seq<string>, ghost tail: seq<string>, list: seq<string>, piece: seq<string>)
    returns (ghost tail': seq<string>, list': seq<string>)
    requires list == front + tail
    ensures list' == list + piece
    ensures tail' == tail + piece && list' == front + tail'
  {
    list' := list + piece;
    tail' := tail + piece;
    AppendAssoc(front, tail, piece);
  }

  /** The install mode is one decision made in three places: a MANUAL
      plan extracts into /mnt, has no disk section and is summarised as
      such; any other plan is a fresh install whose disk section opens on
      the plan's first disk. */
  lemma InstallMode(w: Installer)
    requires WellFormedInventory(w.sysDisks) && |w.sysFinalDiskLayout| > 0 && w.GlobalReady()
    ensures var g, plan := w.GlobalCfg(), w.sysFinalDiskLayout;
      && |g| > 4
      && (g[2] == "installMode=extract" <==> IsManual(plan))
      && (IsManual(plan) ==> g[3] == "installLocation=/mnt" && Summary(plan) == ManualSummary
                             && DiskCfg(w.sysDisks, plan, w.loadMBR, w.loadGPT) == [])
      && (!IsManual(plan) ==> g[2] == "installMode=fresh" && Summary(plan)[..2] == SummaryTitle
                              && DiskCfg(w.sysDisks, plan, w.loadMBR, w.loadGPT)[1] == "disk0=" + plan[0].disk)
  {
    var plan := w.sysFinalDiskLayout;
    var h := GlobalHead(IsManual(plan), w.IsDesktop());
    GlobalHeadLines(IsManual(plan), w.IsDesktop());
    assert w.GlobalCfg()[..|h|] == h;
    DiskCfgHead(w.sysDisks, plan, w.loadMBR, w.loadGPT);
  }

  /** The install type follows the chosen system: a PC-BSD desktop on
      anything but the FreeBSD and TrueOS entries. */
  lemma InstallType(w: Installer)
    requires |w.sysFinalDiskLayout| > 0 && w.GlobalReady()
    ensures var g, i := w.GlobalCfg(), if IsManual(w.sysFinalDiskLayout) then 4 else 3;
      && |g| > i
      && (g[i] == "installType=PCBSD" <==> w.IsDesktop())
      && (!w.IsDesktop() ==> g[i] == "installType=FreeBSD")
  {
    var h := GlobalHead(IsManual(w.sysFinalDiskLayout), w.IsDesktop());
    GlobalHeadLines(IsManual(w.sysFinalDiskLayout), w.IsDesktop());
    var i := if IsManual(w.sysFinalDiskLayout) then 4 else 3;
    assert w.GlobalCfg()[i] == h[i];
  }

  /** A chosen language follows the medium lines as its code; the list
      ends with a single blank. */
  lemma LanguageLine(w: Installer)
    requires |w.sysFinalDiskLayout| > 0 && w.GlobalReady()
    ensures var g := w.GlobalCfg();
      && |g| > 2 && g[|g| - 1] == " "
      && (w.languageIndex != 0 ==> g[|g| - 2] == "localizeLang=" + LanguageCode(w.languages[w.languageIndex]))
      && (w.languageIndex == 0 ==> g[|g| - 3..|g| - 1] == MediumLines)
  {
    var g := w.GlobalCfg();
    var hb := GlobalHead(IsManual(w.sysFinalDiskLayout), w.IsDesktop()) + GlobalBody(w.IsDesktop(), w.arch, w.fHost, w.fNetSettings);
    var t := GlobalTail(w.languages, w.languageIndex);
    GlobalBodyLines(w.IsDesktop(), w.arch, w.fHost, w.fNetSettings);
    GlobalTailLines(w.languages, w.languageIndex);
    assert g == hb + t;
    assert g[|g| - 1] == t[|t| - 1];
    if w.languageIndex != 0 {
      assert g[|g| - 2] == t[1];
    } else {
      assert g[|g| - 3..|g| - 1] == hb[|hb| - 2..];
    }
  }

  /** The written config starts with the global settings, carries the
      disk section right after them and ends by running newaliases. */
  lemma ConfigFrame(w: Installer, disk: seq<string>, deskPkgCfg: seq<string>)
    requires |w.sysFinalDiskLayout| > 0 && w.GlobalReady()
    ensures var c, g := w.ConfigFile(disk, deskPkgCfg), w.GlobalCfg();
      && |c| > |g| + |disk|
      && c[..|g|] == g
      && c[|g|..|g| + |disk|] == disk
      && c[|c| - 1] == RunCommand + "newaliases"
  {
    var c, g, t := w.ConfigFile(disk, deskPkgCfg), w.GlobalCfg(), w.ConfigTail(deskPkgCfg);
    assert c == g + disk + t;
    assert c[|c| - 1] == t[|t| - 1];
    assert (g + disk)[..|g|] == g;
    assert c[..|g + disk|] == g + disk;
  }

  /** The commands the install-type section runs: the system setup and
      the first-boot touches for a desktop; otherwise the SSH switch when
      asked for, then the server setup for TrueOS. No entry of the
      users section is a command entry. */
  lemma VariantCommands(w: Installer)
    requires w.languageIndex == 0 || 0 <= w.languageIndex < |w.languages|
    ensures Commands(w.VariantLines()) ==
      if w.IsDesktop() then [SysInit + "desktop " + w.DesktopLang()] + FirstBootFlags
      else SshLines(w.fSSH) + (if w.wheelCurItem == w.wPCServer || w.wheelCurItem == 12 then ServerSetup else [])
  {
    if w.IsDesktop() {
      DesktopCommands(w.DesktopLang());
    } else {
      UsersSetupCommands(w.fRootPW, w.fName, w.fUserName, w.fUserPW, w.fShell, w.fSSH,
                         w.wheelCurItem == w.wPCServer || w.wheelCurItem == 12);
    }
  }

}
