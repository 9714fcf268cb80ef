/** The straight-line pieces of the installer's configuration and page
    logic: the network lines of a FreeBSD or TrueOS install, the language
    code of a language-box entry, the optional-components and user
    sections, the page index after a Next or Back click, and the
    low-space check's target and threshold. */
module Settings {
  import opened Wrappers
  import opened Text
  import opened Plan

  // ---------------------------------------------------------------------
  // Network

  /** The network settings hold what the FreeBSD network lines read: the
      mode or device, and for every mode but "AUTO-DHCP" the eight fields
      `[device, ip, mask, nameserver, router, ipv6, ipv6 nameserver, ipv6
      router]`. */
  predicate NetComplete(net: seq<string>) {
    |net| >= 1 && (net[0] != "AUTO-DHCP" ==> |net| >= 8)
  }

  /** The device name with any `:<alias>` suffix cut off; a ':' at the
      very start is kept. */
  function DeviceName(dev: string): (r: string)
    ensures |r| <= |dev| && r == dev[..|r|]
    ensures IndexOf(dev, ":") <= 0 ==> r == dev
  {
    var k := IndexOf(dev, ":");
    if k > 0 then dev[..k] else dev
  }

  /** Cutting at the first ':' leaves a name without one. */
  lemma DeviceNameHasNoColon(dev: string)
    requires IndexOf(dev, ":") > 0
    ensures forall j :: 0 <= j < |DeviceName(dev)| ==> DeviceName(dev)[j] != ':'
    ensures |DeviceName(dev)| < |dev| && dev[|DeviceName(dev)|] == ':'
  {
    var k := IndexOf(dev, ":");
    IndexOfFirst(dev, ":");
    forall j | 0 <= j < k
      ensures dev[j] != ':'
    {
      assert !OccursAt(dev, ":", j);
      assert dev[j..j + 1] == [dev[j]];
    }
    assert dev[k..k + 1] == ":";
  }

  function Ipv6Lines(net: seq<string>): seq<string>
    requires |net| >= 8
  {
    ["netSaveIPv6=" + net[5], "netSaveIPv6NameServer=" + net[6], "netSaveIPv6DefaultRouter=" + net[7]]
  }

  /** The network lines of a FreeBSD or TrueOS install. */
  function NetworkLines(net: seq<string>): (r: seq<string>)
    requires NetComplete(net)
    ensures |r| > 0
  {
    if net[0] == "AUTO-DHCP" then ["netSaveDev=AUTO-DHCP"]
    else if net[0] == "AUTO-DHCP-SLAAC" then ["netSaveDev=AUTO-DHCP-SLAAC"] + Ipv6Lines(net)
    else if net[0] == "IPv6-SLAAC" then ["netSaveDev=IPv6-SLAAC"] + Ipv6Lines(net)
    else
      var dev := DeviceName(net[0]);
      [ "netSaveDev=" + dev,
        "netSaveIP_" + dev + "=" + net[1],
        "netSaveMask_" + dev + "=" + net[2],
        "netSaveNameServer=" + net[3],
        "netSaveDefaultRouter=" + net[4] ]
        + Ipv6Lines(net)
  }

  /** The automatic modes name themselves as the device; a static setup
      names the device without its alias and writes address, mask, name
      server and router before the IPv6 lines, which every mode but
      plain DHCP ends with. */
  lemma NetworkLinesShape(net: seq<string>)
    requires NetComplete(net)
    ensures var r := NetworkLines(net);
      var auto := net[0] == "AUTO-DHCP" || net[0] == "AUTO-DHCP-SLAAC" || net[0] == "IPv6-SLAAC";
      && r[0] == "netSaveDev=" + (if auto then net[0] else DeviceName(net[0]))
      && |r| == (if net[0] == "AUTO-DHCP" then 1 else if auto then 4 else 8)
      && (net[0] != "AUTO-DHCP" ==> r[|r| - 3..] == Ipv6Lines(net))
      && (!auto ==>
            && r[1] == "netSaveIP_" + DeviceName(net[0]) + "=" + net[1]
            && r[2] == "netSaveMask_" + DeviceName(net[0]) + "=" + net[2]
            && r[3] == "netSaveNameServer=" + net[3]
            && r[4] == "netSaveDefaultRouter=" + net[4])
  {
    var r := NetworkLines(net);
    if net[0] == "AUTO-DHCP" {
      assert "netSaveDev=" + "AUTO-DHCP" == "netSaveDev=AUTO-DHCP";
    } else if net[0] == "AUTO-DHCP-SLAAC" {
      assert "netSaveDev=" + "AUTO-DHCP-SLAAC" == "netSaveDev=AUTO-DHCP-SLAAC";
      assert r[1..] == Ipv6Lines(net);
    } else if net[0] == "IPv6-SLAAC" {
      assert "netSaveDev=" + "IPv6-SLAAC" == "netSaveDev=IPv6-SLAAC";
      assert r[1..] == Ipv6Lines(net);
    } else {
      var dev := DeviceName(net[0]);
      var head := [ "netSaveDev=" + dev,
                    "netSaveIP_" + dev + "=" + net[1],
                    "netSaveMask_" + dev + "=" + net[2],
                    "netSaveNameServer=" + net[3],
                    "netSaveDefaultRouter=" + net[4] ];
      assert r == head + Ipv6Lines(net);
      assert r[5..] == Ipv6Lines(net);
    }
  }

  // ---------------------------------------------------------------------
  // Global settings

  const GlobalHeader: seq<string> := ["# Auto-Generated pc-sysinstall configuration", "installInteractive=no"]

  /** A MANUAL plan extracts into /mnt; any other plan is a fresh install. */
  function ModeLines(manual: bool): seq<string> {
    if manual then ["installMode=extract", "installLocation=/mnt"] else ["installMode=fresh"]
  }

  function TypeLines(desktop: bool): seq<string> {
    if desktop then ["installType=PCBSD", "packageType=dist"] else ["installType=FreeBSD", "packageType=dist"]
  }

  /** The distribution sets; amd64 adds the 32-bit libraries. */
  function DistLines(arch: string): seq<string> {
    ["distFiles=" + (if arch == "amd64" then BaseDists + " lib32" else BaseDists), ""]
  }

  const BaseDists: string := "base doc games kernel"

  function HostLines(host: string): seq<string> {
    if host != "" then ["hostname=" + host] else []
  }

  /** A desktop install always uses DHCP with SLAAC. */
  function NetLines(desktop: bool, net: seq<string>): seq<string>
    requires !desktop ==> NetComplete(net)
  {
    if desktop then ["netSaveDev=AUTO-DHCP-SLAAC"] else NetworkLines(net)
  }

  const MediumLines: seq<string> := ["installMedium=local", "localPath=/dist"]

  /** The language lines: none for the first entry of the language box. */
  function LangLines(languages: seq<string>, index: int): seq<string>
    requires index == 0 || 0 <= index < |languages|
  {
    if index != 0 then ["", "localizeLang=" + LanguageCode(languages[index])] else []
  }

  /** The opening of the global settings: the install mode and type. */
  function GlobalHead(manual: bool, desktop: bool): seq<string> {
    GlobalHeader + ModeLines(manual) + TypeLines(desktop)
  }

  /** The middle: distribution sets, host name, network and medium. */
  function GlobalBody(desktop: bool, arch: string, host: string, net: seq<string>): seq<string>
    requires !desktop ==> NetComplete(net)
  {
    DistLines(arch) + HostLines(host) + NetLines(desktop, net) + MediumLines
  }

  /** The close: the language, then a single blank. */
  function GlobalTail(languages: seq<string>, index: int): seq<string>
    requires index == 0 || 0 <= index < |languages|
  {
    LangLines(languages, index) + [" "]
  }

  /** The install mode comes third, extracting into /mnt exactly for a
      MANUAL plan; the install type follows, PC-BSD exactly for a
      desktop. */
  lemma GlobalHeadLines(manual: bool, desktop: bool)
    ensures var h := GlobalHead(manual, desktop);
      && |h| == (if manual then 6 else 5)
      && (h[2] == "installMode=extract" <==> manual)
      && (manual ==> h[3] == "installLocation=/mnt")
      && (!manual ==> h[2] == "installMode=fresh")
      && (h[|h| - 2] == "installType=PCBSD" <==> desktop)
      && (!desktop ==> h[|h| - 2] == "installType=FreeBSD")
  {
    var h := GlobalHead(manual, desktop);
    var m := ModeLines(manual);
    assert h[2] == m[0];
    assert h[|h| - 2] == TypeLines(desktop)[0];
    if manual {
      assert h[3] == m[1];
    }
  }

  /** The medium lines close the body. */
  lemma GlobalBodyLines(desktop: bool, arch: string, host: string, net: seq<string>)
    requires !desktop ==> NetComplete(net)
    ensures var b := GlobalBody(desktop, arch, host, net);
      |b| >= 2 && b[|b| - 2..] == MediumLines
  {
  }

  /** A chosen language is given by its code before the final blank;
      the first entry of the language box adds nothing. */
  lemma GlobalTailLines(languages: seq<string>, index: int)
    requires index == 0 || 0 <= index < |languages|
    ensures var t := GlobalTail(languages, index);
      && t[|t| - 1] == " "
      && (index != 0 ==> |t| == 3 && t[1] == "localizeLang=" + LanguageCode(languages[index]))
      && (index == 0 ==> t == [" "])
  {
  }

  // ---------------------------------------------------------------------
  // Install-type setup

  /** A line pc-sysinstall runs as a shell command. */
  predicate IsCommand(line: string) {
    |line| >= |RunCommand| && line[..|RunCommand|] == RunCommand
  }

  const RunCommand: string := "runCommand="

  lemma RunCommandIsCommand(rest: string)
    ensures IsCommand(RunCommand + rest)
  {
    assert (RunCommand + rest)[..|RunCommand|] == RunCommand;
  }

  /** First-boot setup of a desktop install, in language `lang`. */
  function DesktopSetup(lang: string): seq<string> {
    [SysInit + "desktop " + lang, FirstBootNote] + FirstBootFlags
  }

  const SysInit: string := RunCommand + "sh /usr/local/share/pcbsd/scripts/sys-init.sh "

  const FirstBootNote: string := "# " + "Touch flags to enable PC-BSD setup at first boot"

  /** The flags that start the desktop setup at first boot. */
  const FirstBootFlags: seq<string> := [
    RunCommand + "touch /var/.runxsetup",
    RunCommand + "touch /var/.pcbsd-firstboot",
    RunCommand + "touch /var/.pcbsd-firstgui" ]

  function SshLines(ssh: bool): seq<string> {
    if ssh then [EnableSsh] else []
  }

  const EnableSsh: string := RunCommand + "echo 'sshd_enable=\"YES\"' >>/etc/rc.conf"

  const ServerSetup: seq<string> := [SysInit + "server"]

  /** The lines around the disk and component sections of the config. */
  const SaveConfig: seq<string> := ["runExtCommand=/root/save-config.sh"]
  const NewAliases: seq<string> := [RunCommand + "newaliases"]

  /** The lines of `lines` that are commands, in order. */
  function Commands(lines: seq<string>): (r: seq<string>)
    ensures |r| <= |lines|
    ensures forall k :: 0 <= k < |r| ==> IsCommand(r[k]) && r[k] in lines
  {
    if |lines| == 0 then []
    else (if IsCommand(lines[0]) then [lines[0]] else []) + Commands(lines[1..])
  }

  /** Filtering the commands distributes over concatenation. */
  lemma {:induction false} CommandsAppend(a: seq<string>, b: seq<string>)
    ensures Commands(a + b) == Commands(a) + Commands(b)
    decreases |a|
  {
    if |a| > 0 {
      CommandsAppend(a[1..], b);
      assert (a + b)[1..] == a[1..] + b;
    } else {
      assert a + b == b;
    }
  }

  /** A list with no command line filters to nothing. */
  lemma {:induction false} CommandsNone(lines: seq<string>)
    requires forall k :: 0 <= k < |lines| ==> !IsCommand(lines[k])
    ensures Commands(lines) == []
    decreases |lines|
  {
    if |lines| > 0 {
      CommandsNone(lines[1..]);
    }
  }

  /** A key whose second character is not the 'u' of "runCommand="
      keeps any line it starts from being a command. */
  lemma KeyedLineIsData(key: string, value: string)
    requires |key| >= 2 && key[1] != 'u'
    ensures !IsCommand(key + value)
  {
    assert RunCommand[1] == 'u';
  }

  /** The users section only sets values: each of its entries starts
      with a fixed key, so no entry is a `runCommand=` entry, whatever
      the fields hold. (This is about list entries; a field holding a
      newline is split into further lines only when the file is
      written.) */
  lemma UsersLinesAreData(rootPW: string, name: string, userName: string, userPW: string, shell: string)
    ensures forall k :: 0 <= k < 13 ==> !IsCommand(UsersLines(rootPW, name, userName, userPW, shell)[k])
  {
    var r := UsersLines(rootPW, name, userName, userPW, shell);
    forall k | 0 <= k < 13
      ensures !IsCommand(r[k])
    {
      var key, value := KeyOf(k), ValueOf(k, rootPW, name, userName, userPW, shell);
      assert r[k] == key + value;
      if key != "" {
        KeyedLineIsData(key, value);
      }
    }
  }

  lemma NoteIsData()
    ensures !IsCommand(FirstBootNote)
  {
    assert FirstBootNote[1] == "# "[1];
  }

  /** The desktop setup runs the system setup and the three first-boot
      touches; its note is not a command. */
  lemma DesktopCommands(lang: string)
    ensures Commands(DesktopSetup(lang)) == [SysInit + "desktop " + lang] + FirstBootFlags
  {
    var d := DesktopSetup(lang);
    RunCommandIsCommand("sh /usr/local/share/pcbsd/scripts/sys-init.sh desktop " + lang);
    assert SysInit + "desktop " + lang == RunCommand + ("sh /usr/local/share/pcbsd/scripts/sys-init.sh desktop " + lang);
    NoteIsData();
    RunCommandIsCommand("touch /var/.runxsetup");
    RunCommandIsCommand("touch /var/.pcbsd-firstboot");
    RunCommandIsCommand("touch /var/.pcbsd-firstgui");
    assert d[1..][1..] == FirstBootFlags;
    assert Commands(FirstBootFlags[2..]) == FirstBootFlags[2..];
    assert Commands(FirstBootFlags[1..]) == FirstBootFlags[1..];
    assert Commands(FirstBootFlags) == FirstBootFlags;
    assert Commands(d[1..]) == FirstBootFlags;
  }

  /** The SSH switch and the server setup are commands throughout. */
  lemma SetupCommands(ssh: bool)
    ensures Commands(SshLines(ssh)) == SshLines(ssh)
    ensures Commands(ServerSetup) == ServerSetup
  {
    RunCommandIsCommand("echo 'sshd_enable=\"YES\"' >>/etc/rc.conf");
    RunCommandIsCommand("sh /usr/local/share/pcbsd/scripts/sys-init.sh server");
    assert SysInit + "server" == RunCommand + "sh /usr/local/share/pcbsd/scripts/sys-init.sh server";
    if ssh {
      assert SshLines(ssh)[1..] == [];
    }
    assert ServerSetup[1..] == [];
  }

  /** So the users section contributes no `runCommand=` entry. */
  lemma UsersCommands(rootPW: string, name: string, userName: string, userPW: string, shell: string)
    ensures Commands(UsersLines(rootPW, name, userName, userPW, shell)) == []
  {
    UsersLinesAreData(rootPW, name, userName, userPW, shell);
    CommandsNone(UsersLines(rootPW, name, userName, userPW, shell));
  }

  /** After the users section, only the SSH switch and, for TrueOS, the
      server setup are commands. */
  lemma UsersSetupCommands(rootPW: string, name: string, userName: string, userPW: string, shell: string, ssh: bool, server: bool)
    ensures var users := UsersLines(rootPW, name, userName, userPW, shell);
      && Commands(users + SshLines(ssh)) == SshLines(ssh)
      && (server ==> Commands(users + SshLines(ssh) + ServerSetup) == SshLines(ssh) + ServerSetup)
  {
    var users := UsersLines(rootPW, name, userName, userPW, shell);
    UsersCommands(rootPW, name, userName, userPW, shell);
    SetupCommands(ssh);
    CommandsAppend(users, SshLines(ssh));
    if server {
      CommandsAppend(users + SshLines(ssh), ServerSetup);
    }
  }

  /** The fixed key that starts the `k`-th line of the users section. */
  function KeyOf(k: nat): string
  {
    match k
    case 1 => "# Root Password"
    case 2 => "rootPass="
    case 4 => "# Users"
    case 5 => "userName="
    case 6 => "userComment="
    case 7 => "userPass="
    case 8 => "userShell="
    case 9 => "userHome=/home/"
    case 10 => "userGroups=wheel,operator"
    case 11 => "commitUser"
    case _ => ""
  }

  /** The typed value that follows the key on the `k`-th line. */
  function ValueOf(k: nat, rootPW: string, name: string, userName: string, userPW: string, shell: string): string
  {
    match k
    case 2 => rootPW
    case 5 => userName
    case 6 => name
    case 7 => userPW
    case 8 => shell
    case 9 => userName
    case _ => ""
  }

  // ---------------------------------------------------------------------
  // Language

  /** The language code of a language-box entry such as "German (de)":
      the text after the last '(' before the last ')'. `truncate` at -1
      empties the string when there is no ')' (Qt 4). */
  function LanguageCode(entry: string): (code: string)
    ensures |code| <= |entry|
    ensures LastIndexOf(entry, ')') < 0 ==> code == ""
  {
    var close := LastIndexOf(entry, ')');
    var cut := if close < 0 then "" else entry[..close];
    var open := LastIndexOf(cut, '(');
    cut[open + 1..]
  }

  /** For an entry `<name>(<code>)<suffix>` whose code has no parentheses
      and whose suffix has no ')', the extracted code is `<code>`. */
  lemma LanguageCodeOf(name: string, code: string, suffix: string)
    requires forall k :: 0 <= k < |code| ==> code[k] != '(' && code[k] != ')'
    requires forall k :: 0 <= k < |suffix| ==> suffix[k] != ')'
    ensures LanguageCode(name + "(" + code + ")" + suffix) == code
  {
    var e := name + "(" + code + ")" + suffix;
    var p := |name| + 1 + |code|;
    assert e[p] == ')';
    forall k | p < k < |e|
      ensures e[k] != ')'
    {
      assert e[k] == suffix[k - p - 1];
    }
    var close := LastIndexOf(e, ')');
    assert close == p;
    var cut := e[..close];
    assert cut == name + "(" + code;
    assert cut[|name|] == '(';
    forall k | |name| < k < |cut|
      ensures cut[k] != '('
    {
      assert cut[k] == code[k - |name| - 1];
    }
    assert LastIndexOf(cut, '(') == |name|;
    assert cut[|name| + 1..] == code;
  }

  lemma LanguageCodeGerman()
    ensures LanguageCode("German (de)") == "de"
  {
    LanguageCodeOf("German ", "de", "");
    assert "German " + "(" + "de" + ")" + "" == "German (de)";
  }

  // ---------------------------------------------------------------------
  // Components and users

  /** The optional-components section: nothing, or a comment and the
      comma-joined list of the chosen components in the order src, ports. */
  function ComponentLines(src: bool, ports: bool): (r: seq<string>)
    ensures r == [] <==> !src && !ports
    ensures r != [] ==> |r| == 3 && r[..2] == ["", "# Optional Components"]
  {
    var com := (if src then ["src"] else []) + (if ports then ["ports"] else []);
    if |com| == 0 then [] else ["", "# Optional Components", "installComponents=" + Join(com, ",")]
  }

  /** Which components the section installs. */
  lemma ComponentsListed(src: bool, ports: bool)
    requires src || ports
    ensures ComponentLines(src, ports)[2] == "installComponents="
      + (if src && ports then "src,ports" else if src then "src" else "ports")
  {
    if src && ports {
      var com := ["src"] + ["ports"];
      assert com == ["src", "ports"] && com[1..] == ["ports"];
      assert Join(com, ",") == "src" + "," + Join(["ports"], ",");
    }
  }

  /** The root password and the one user account. */
  function UsersLines(rootPW: string, name: string, userName: string, userPW: string, shell: string): (r: seq<string>)
    ensures |r| == 13 && r[0] == "" && r[|r| - 1] == ""
    ensures r[2] == "rootPass=" + rootPW && r[7] == "userPass=" + userPW
    ensures r[|r| - 2] == "commitUser"
  {
    [ "",
      "# Root Password",
      "rootPass=" + rootPW,
      "",
      "# Users",
      "userName=" + userName,
      "userComment=" + name,
      "userPass=" + userPW,
      "userShell=" + shell,
      "userHome=/home/" + userName,
      "userGroups=wheel,operator",
      "commitUser",
      "" ]
  }

  // ---------------------------------------------------------------------
  // Pages

  /** The page index after Next (`forward`) or Back: one page on, or one
      back, but never past the last page `count` nor before page 0. */
  function NextPage(index: int, count: int, forward: bool): (r: int)
    ensures 0 <= index <= count ==> 0 <= r <= count
    ensures forward ==> r == index + 1 || (index == count && r == count)
    ensures !forward ==> r == index - 1 || (index == 0 && r == 0)
  {
    if forward then (if index == count then count else index + 1)
    else (if index == 0 then 0 else index - 1)
  }

  /** Back then Next, or Next then Back, returns to the page one started
      from, except at the ends. */
  lemma NextPageRoundTrip(index: int, count: int)
    requires 0 <= index <= count
    ensures index < count ==> NextPage(NextPage(index, count, true), count, false) == index
    ensures index > 0 ==> NextPage(NextPage(index, count, false), count, true) == index
  {
  }

  /** The Back button shows on every page but the first and page 4. */
  predicate BackVisible(index: int) {
    index > 0 && index != 4
  }

  // ---------------------------------------------------------------------
  // Low-space check

  /** What the space check measures: a drive when the plan's first row
      covers the whole disk ("ALL"), else the slice `disk+slice`. */
  function SpaceTarget(plan: seq<PlanRow>): (r: (Target, string))
    requires |plan| > 0
    ensures r.0.kind == "DRIVE" <==> plan[0].slice == "ALL"
    ensures r.0.kind == "DRIVE" ==> r.0.loc == 1 && r.1 == plan[0].disk
    ensures r.0.kind != "DRIVE" ==> r.0.kind == "SLICE" && r.0.loc == 2 && r.1 == plan[0].disk + plan[0].slice
  {
    var d, s := plan[0].disk, plan[0].slice;
    if s == "ALL" then (Target("DRIVE", d, s, 1), d) else (Target("SLICE", d, s, 2), d + s)
  }

  /** The size the space check reads: -1 when no inventory row matches,
      else the last match's size field read with `toInt` (0 when that
      fails). */
  function AvailableSize(inv: seq<seq<string>>, plan: seq<PlanRow>): (size: int)
    requires WellFormedInventory(inv) && |plan| > 0
  {
    var (t, target) := SpaceTarget(plan);
    match LastMatch(inv, t, target)
    case None => -1
    case Some(k) => ToIntValue(inv[k][t.loc + 1])
  }

  /** The recommended MB: 20000 on page 1 for the FreeBSD and TrueOS
      installs, 50000 otherwise. */
  function RecommendedSize(page: int, wheel: int, wFreeBSD: int, wPCServer: int): (mb: int)
    ensures mb == 20000 || mb == 50000
    ensures mb == 20000 <==> page == 1 && (wheel == wFreeBSD || wheel == wPCServer || wheel == 12)
  {
    if page == 1 && (wheel == wFreeBSD || wheel == wPCServer || wheel == 12) then 20000 else 50000
  }

  /** A plan whose first row names the planner's target makes the space
      check look at that same target. */
  lemma SpaceTargetOfPlanned(plan: seq<PlanRow>, target: string, isDisk: bool)
    requires |plan| > 0
    requires plan[0].disk == TargetOf(target, isDisk).disk && plan[0].slice == TargetOf(target, isDisk).slice
    ensures SpaceTarget(plan) == (TargetOf(target, isDisk), target)
  {
    var t := TargetOf(target, isDisk);
    if !isDisk {
      assert |t.slice| < 3;
    }
  }

  /** The space check measures the target the planner planned: for a plan
      made from `target`, the size it reads is the size the planner
      resolved. */
  lemma AvailableSizeOfPlan(inv: seq<seq<string>>, target: string, isDisk: bool, arch: string, memory: int)
    requires WellFormedInventory(inv) && ResolveSize(inv, target, isDisk).Some?
    ensures var plan := PlannedLayout(TargetOf(target, isDisk), arch, ResolveSize(inv, target, isDisk).value, memory);
      |plan| > 0 && AvailableSize(inv, plan) == ResolveSize(inv, target, isDisk).value
  {
    var t := TargetOf(target, isDisk);
    var size := ResolveSize(inv, target, isDisk).value;
    var plan := PlannedLayout(t, arch, size, memory);
    PlannedLayoutHead(t, arch, size, memory);
    SpaceTargetOfPlanned(plan, target, isDisk);
  }
}
