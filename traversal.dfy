/** The consume-and-remove traversal shared by `Installer::getDiskSummary`
    and `Installer::getDiskCfgSettings`, stated as recursive functions over
    the working copy of the plan. Each outer iteration takes the (disk,
    slice) of the head row as its group and then:
    - picks the start mount ("/boot" if a group row lists it, else "/");
      the choice is never reset, so once "/boot" it stays "/boot";
    - scans for rows mounting the start mount; after removing one the scan
      steps past the row that moved into its slot (`RootScan`);
    - takes the first SWAP row of the group (`FindSwap`);
    - writes every remaining row of the group in list order; only a row at
      the last index of the whole working list gets size "0" (`RestCfgLines`).
    The summary first hoists one `MIRROR(<disk>)` row. The imperative
    versions in module Scans are proved equal to these functions. */
module Traversal {
  import opened Wrappers
  import opened Text
  import opened Plan

  predicate InGroup(r: PlanRow, d: string, s: string) {
    r.disk == d && r.slice == s
  }

  /** The group rows, in list order. */
  function Group(rows: seq<PlanRow>, d: string, s: string): (g: seq<PlanRow>)
    ensures |g| <= |rows|
  {
    if |rows| == 0 then []
    else (if InGroup(rows[0], d, s) then [rows[0]] else []) + Group(rows[1..], d, s)
  }

  /** The rows of other groups, in list order. */
  function Others(rows: seq<PlanRow>, d: string, s: string): (o: seq<PlanRow>)
    ensures |o| <= |rows|
    ensures |rows| > 0 && InGroup(rows[0], d, s) ==> |o| < |rows|
  {
    if |rows| == 0 then []
    else (if InGroup(rows[0], d, s) then [] else [rows[0]]) + Others(rows[1..], d, s)
  }

  /** Every row of the group belongs to it, and no other row does. */
  lemma {:induction false} GroupMembers(rows: seq<PlanRow>, d: string, s: string)
    ensures forall k :: 0 <= k < |Group(rows, d, s)| ==> InGroup(Group(rows, d, s)[k], d, s)
    ensures forall k :: 0 <= k < |Others(rows, d, s)| ==> !InGroup(Others(rows, d, s)[k], d, s)
  {
    if |rows| > 0 {
      GroupMembers(rows[1..], d, s);
    }
  }

  /** Splitting a list into its group and the rest loses and adds no row. */
  lemma {:induction false} GroupSplit(rows: seq<PlanRow>, d: string, s: string)
    ensures multiset(Group(rows, d, s)) + multiset(Others(rows, d, s)) == multiset(rows)
  {
    if |rows| > 0 {
      GroupSplit(rows[1..], d, s);
      MultisetHead(rows);
      if InGroup(rows[0], d, s) {
        MultisetCons(rows[0], Group(rows[1..], d, s));
      } else {
        MultisetCons(rows[0], Others(rows[1..], d, s));
      }
    }
  }

  function RemoveAt(rows: seq<PlanRow>, k: nat): (r: seq<PlanRow>)
    requires k < |rows|
    ensures |r| == |rows| - 1
  {
    rows[..k] + rows[k + 1..]
  }

  lemma {:induction false} OthersAppend(a: seq<PlanRow>, b: seq<PlanRow>, d: string, s: string)
    ensures Others(a + b, d, s) == Others(a, d, s) + Others(b, d, s)
  {
    if |a| > 0 {
      assert (a + b)[1..] == a[1..] + b;
      OthersAppend(a[1..], b, d, s);
    } else {
      assert a + b == b;
    }
  }

  lemma {:induction false} GroupAppend(a: seq<PlanRow>, b: seq<PlanRow>, d: string, s: string)
    ensures Group(a + b, d, s) == Group(a, d, s) + Group(b, d, s)
  {
    if |a| > 0 {
      assert (a + b)[1..] == a[1..] + b;
      GroupAppend(a[1..], b, d, s);
    } else {
      assert a + b == b;
    }
  }

  /** Removing a group row leaves the other groups as they were. */
  lemma OthersRemoveAt(rows: seq<PlanRow>, k: nat, d: string, s: string)
    requires k < |rows| && InGroup(rows[k], d, s)
    ensures Others(RemoveAt(rows, k), d, s) == Others(rows, d, s)
  {
    assert rows == rows[..k] + ([rows[k]] + rows[k + 1..]);
    OthersAppend(rows[..k], [rows[k]] + rows[k + 1..], d, s);
    OthersAppend(rows[..k], rows[k + 1..], d, s);
    assert ([rows[k]] + rows[k + 1..])[1..] == rows[k + 1..];
  }

  // ---------------------------------------------------------------------
  // The start mount

  /** Some group row lists "/boot" among its comma-separated mounts. */
  predicate HasBoot(rows: seq<PlanRow>, d: string, s: string) {
    exists k :: 0 <= k < |rows| && InGroup(rows[k], d, s) && "/boot" in Split(rows[k].mount, ",")
  }

  /** The start mount after a group's /boot scan, from the previous value
      `sp` ("" before the first group). */
  function NextStart(sp: string, rows: seq<PlanRow>, d: string, s: string): (r: string)
    ensures sp in {"", "/", "/boot"} ==> r in {"/", "/boot"}
    ensures r == "/boot" <==> sp == "/boot" || HasBoot(rows, d, s)
    ensures sp == "/boot" ==> r == "/boot"
  {
    var scanned := if HasBoot(rows, d, s) then "/boot" else sp;
    if scanned == "" then "/" else scanned
  }

  /** The row is in the group and lists the start mount. */
  predicate IsStart(r: PlanRow, d: string, s: string, sp: string) {
    InGroup(r, d, s) && sp in Split(r.mount, ",")
  }

  /** The shape of the start-mount scan for any row test `take`: a
      taken row is written and removed, and the scan then steps over the
      row that shifted into its slot. Returns what was taken and what is
      left, both in list order. */
  function TakeSkip(take: PlanRow -> bool, rows: seq<PlanRow>): (res: (seq<PlanRow>, seq<PlanRow>))
    ensures |res.0| + |res.1| == |rows|
    decreases |rows|
  {
    if |rows| == 0 then ([], [])
    else if take(rows[0]) then
      if |rows| == 1 then ([rows[0]], [])
      else
        var r := TakeSkip(take, rows[2..]);
        ([rows[0]] + r.0, [rows[1]] + r.1)
    else
      var r := TakeSkip(take, rows[1..]);
      (r.0, [rows[0]] + r.1)
  }

  lemma {:induction false} TakeSkipTakes(take: PlanRow -> bool, rows: seq<PlanRow>)
    ensures forall k :: 0 <= k < |TakeSkip(take, rows).0| ==> take(TakeSkip(take, rows).0[k])
    decreases |rows|
  {
    if |rows| > 1 && take(rows[0]) {
      TakeSkipTakes(take, rows[2..]);
    } else if |rows| > 0 && !take(rows[0]) {
      TakeSkipTakes(take, rows[1..]);
    }
  }

  lemma MultisetHead<T>(xs: seq<T>)
    requires |xs| > 0
    ensures multiset(xs) == multiset{xs[0]} + multiset(xs[1..])
  {
    assert xs == [xs[0]] + xs[1..];
  }

  lemma MultisetCons<T>(x: T, ys: seq<T>)
    ensures multiset([x] + ys) == multiset{x} + multiset(ys)
  {
  }

  lemma {:induction false} TakeSkipKeepsRows(take: PlanRow -> bool, rows: seq<PlanRow>)
    ensures multiset(TakeSkip(take, rows).0) + multiset(TakeSkip(take, rows).1) == multiset(rows)
    decreases |rows|
  {
    if |rows| == 0 {
    } else if take(rows[0]) {
      if |rows| == 1 {
        assert TakeSkip(take, rows).0 == rows;
      } else {
        var r := TakeSkip(take, rows[2..]);
        TakeSkipKeepsRows(take, rows[2..]);
        MultisetHead(rows);
        MultisetHead(rows[1..]);
        assert rows[1..][1..] == rows[2..];
        MultisetCons(rows[0], r.0);
        MultisetCons(rows[1], r.1);
      }
    } else {
      var r := TakeSkip(take, rows[1..]);
      TakeSkipKeepsRows(take, rows[1..]);
      MultisetHead(rows);
      MultisetCons(rows[0], r.1);
    }
  }

  lemma {:induction false} TakeSkipKeepsOthers(take: PlanRow -> bool, rows: seq<PlanRow>, d: string, s: string)
    requires forall r :: take(r) ==> InGroup(r, d, s)
    ensures Others(TakeSkip(take, rows).1, d, s) == Others(rows, d, s)
    decreases |rows|
  {
    if |rows| == 0 {
    } else if take(rows[0]) {
      if |rows| > 1 {
        var r := TakeSkip(take, rows[2..]);
        TakeSkipKeepsOthers(take, rows[2..], d, s);
        assert rows[1..][1..] == rows[2..];
        assert ([rows[1]] + r.1)[1..] == r.1;
      }
    } else {
      var r := TakeSkip(take, rows[1..]);
      TakeSkipKeepsOthers(take, rows[1..], d, s);
      assert ([rows[0]] + r.1)[1..] == r.1;
    }
  }

  /** The start-mount scan of a group: the rows it writes, and what it
      leaves. */
  function RootScan(rows: seq<PlanRow>, d: string, s: string, sp: string): (res: (seq<PlanRow>, seq<PlanRow>))
    ensures |res.0| + |res.1| == |rows|
  {
    TakeSkip(r => IsStart(r, d, s, sp), rows)
  }

  /** Every row the start-mount scan writes is a group row listing the
      start mount. */
  lemma RootScanTakesStarts(rows: seq<PlanRow>, d: string, s: string, sp: string)
    ensures forall k :: 0 <= k < |RootScan(rows, d, s, sp).0| ==> IsStart(RootScan(rows, d, s, sp).0[k], d, s, sp)
  {
    TakeSkipTakes(r => IsStart(r, d, s, sp), rows);
  }

  /** The start-mount scan only takes rows out: what it writes and what it
      leaves together are the rows it was given. */
  lemma RootScanKeepsRows(rows: seq<PlanRow>, d: string, s: string, sp: string)
    ensures var res := RootScan(rows, d, s, sp);
      multiset(res.0) + multiset(res.1) == multiset(rows)
  {
    TakeSkipKeepsRows(r => IsStart(r, d, s, sp), rows);
  }

  /** The rows of other groups all survive the start-mount scan, in order. */
  lemma RootScanKeepsOthers(rows: seq<PlanRow>, d: string, s: string, sp: string)
    ensures Others(RootScan(rows, d, s, sp).1, d, s) == Others(rows, d, s)
  {
    TakeSkipKeepsOthers(r => IsStart(r, d, s, sp), rows, d, s);
  }

  predicate IsSwap(r: PlanRow, d: string, s: string) {
    InGroup(r, d, s) && r.mount == "SWAP"
  }

  /** The position of the group's first SWAP row. */
  function FindSwap(rows: seq<PlanRow>, d: string, s: string): (r: Option<nat>)
    ensures r.Some? ==> r.value < |rows| && IsSwap(rows[r.value], d, s)
    ensures r.Some? ==> forall k :: 0 <= k < r.value ==> !IsSwap(rows[k], d, s)
    ensures r.None? ==> forall k :: 0 <= k < |rows| ==> !IsSwap(rows[k], d, s)
  {
    if |rows| == 0 then None
    else if IsSwap(rows[0], d, s) then Some(0)
    else match FindSwap(rows[1..], d, s)
      case None => None
      case Some(k) => Some(k + 1)
  }

  // ---------------------------------------------------------------------
  // Config lines

  /** ` (<options>)`, or nothing. */
  function Extra(r: PlanRow): string {
    if r.options == "" then "" else " (" + r.options + ")"
  }

  /** A partition line written with `size`, and its `encpass=` line. */
  function CfgPartLines(n: nat, r: PlanRow, size: string): seq<string> {
    ["disk" + IntToString(n) + "-part=" + r.fs + " " + size + " " + r.mount + Extra(r)]
      + (if r.passphrase == "" then [] else ["encpass=" + r.passphrase])
  }

  function CfgSwapLine(n: nat, r: PlanRow): seq<string> {
    ["disk" + IntToString(n) + "-part=" + r.fs + " " + r.size + " none"]
  }

  /** How one written row is rendered. */
  datatype Style = CfgPlain(n: nat) | SummaryStart | SummaryRest

  function RowLines(st: Style, r: PlanRow): seq<string> {
    match st
    case CfgPlain(n) => CfgPartLines(n, r, r.size)
    case SummaryStart => SummaryStartLines(r)
    case SummaryRest => SummaryRestLines(r)
  }

  lemma AppendAssoc<T>(x: seq<T>, y: seq<T>, z: seq<T>)
    ensures (x + y) + z == x + (y + z)
  {
  }

  /** The lines of a list of rows, each rendered by `f`, in list order. */
  function Concat(f: PlanRow -> seq<string>, rows: seq<PlanRow>): seq<string> {
    if |rows| == 0 then [] else f(rows[0]) + Concat(f, rows[1..])
  }

  lemma {:induction false} ConcatAppend(f: PlanRow -> seq<string>, a: seq<PlanRow>, b: seq<PlanRow>)
    ensures Concat(f, a + b) == Concat(f, a) + Concat(f, b)
  {
    if |a| > 0 {
      ConcatAppend(f, a[1..], b);
      assert (a + b)[1..] == a[1..] + b;
    } else {
      assert a + b == b;
    }
  }

  function Flatten(st: Style, rows: seq<PlanRow>): seq<string> {
    Concat(r => RowLines(st, r), rows)
  }

  /** A single row renders as its own lines. */
  lemma FlattenOne(st: Style, r: PlanRow)
    ensures Flatten(st, [r]) == RowLines(st, r)
  {
    assert [r][1..] == [];
    assert Concat(x => RowLines(st, x), [r]) == RowLines(st, r) + Concat(x => RowLines(st, x), []);
  }

  /** Rendering one more row in front prepends its lines. */
  lemma FlattenCons(st: Style, r: PlanRow, rows: seq<PlanRow>)
    ensures Flatten(st, [r] + rows) == RowLines(st, r) + Flatten(st, rows)
  {
    FlattenAppend(st, [r], rows);
    FlattenOne(st, r);
  }

  /** Rendering one more row at the end appends its lines. */
  lemma FlattenSnoc(st: Style, rows: seq<PlanRow>, r: PlanRow)
    ensures Flatten(st, rows + [r]) == Flatten(st, rows) + RowLines(st, r)
  {
    FlattenAppend(st, rows, [r]);
    FlattenOne(st, r);
  }

  /** One step of the rendering of a group: the head row contributes its
      lines when it belongs to the group. */
  lemma FlattenGroupCons(st: Style, rows: seq<PlanRow>, d: string, s: string)
    requires |rows| > 0
    ensures Flatten(st, Group(rows, d, s))
         == (if InGroup(rows[0], d, s) then RowLines(st, rows[0]) else []) + Flatten(st, Group(rows[1..], d, s))
  {
    var head := if InGroup(rows[0], d, s) then [rows[0]] else [];
    assert Group(rows, d, s) == head + Group(rows[1..], d, s);
    FlattenAppend(st, head, Group(rows[1..], d, s));
    if InGroup(rows[0], d, s) {
      assert head[1..] == [];
    }
  }

  lemma FlattenAppend(st: Style, a: seq<PlanRow>, b: seq<PlanRow>)
    ensures Flatten(st, a + b) == Flatten(st, a) + Flatten(st, b)
  {
    ConcatAppend(r => RowLines(st, r), a, b);
  }

  /** Rendering with two renderers that agree on every row gives the same
      lines. */
  lemma {:induction false} ConcatSame(f: PlanRow -> seq<string>, h: PlanRow -> seq<string>, rows: seq<PlanRow>)
    requires forall r :: f(r) == h(r)
    ensures Concat(f, rows) == Concat(h, rows)
  {
    if |rows| > 0 {
      ConcatSame(f, h, rows[1..]);
    }
  }

  /** The last loop of a group with the partition renderer left open:
      `part(row, size)`, where the size is "0" for a group row at the last
      index of the working list and the row's own size otherwise. */
  function ZeroLast(part: (PlanRow, string) -> seq<string>, rows: seq<PlanRow>, d: string, s: string): seq<string> {
    if |rows| == 0 then []
    else
      (if InGroup(rows[0], d, s) then part(rows[0], if |rows| == 1 then "0" else rows[0].size) else [])
        + ZeroLast(part, rows[1..], d, s)
  }

  /** The size-"0" rule, for any renderer: the last group row gets "0"
      exactly when it is also the last row of the list. */
  lemma {:induction false} ZeroLastSizes(part: (PlanRow, string) -> seq<string>, rows: seq<PlanRow>, d: string, s: string)
    ensures var g := Group(rows, d, s);
      if |rows| > 0 && InGroup(rows[|rows| - 1], d, s) then
        |g| > 0 && ZeroLast(part, rows, d, s) == Concat((r: PlanRow) => part(r, r.size), g[..|g| - 1]) + part(g[|g| - 1], "0")
      else ZeroLast(part, rows, d, s) == Concat((r: PlanRow) => part(r, r.size), g)
  {
    var own := (r: PlanRow) => part(r, r.size);
    if |rows| == 0 {
    } else if |rows| == 1 {
      assert rows[1..] == [];
      if InGroup(rows[0], d, s) {
        assert Group(rows, d, s) == [rows[0]];
        assert Group(rows, d, s)[..0] == [];
      }
    } else {
      var t := rows[1..];
      ZeroLastSizes(part, t, d, s);
      var g := Group(rows, d, s);
      var gt := Group(t, d, s);
      assert rows[|rows| - 1] == t[|t| - 1];
      if InGroup(rows[0], d, s) {
        var head := part(rows[0], rows[0].size);
        assert g == [rows[0]] + gt;
        assert ZeroLast(part, rows, d, s) == head + ZeroLast(part, t, d, s);
        if InGroup(t[|t| - 1], d, s) {
          var front := gt[..|gt| - 1];
          assert g[..|g| - 1] == [rows[0]] + front;
          assert ([rows[0]] + front)[1..] == front;
          assert Concat(own, [rows[0]] + front) == head + Concat(own, front);
          assert g[|g| - 1] == gt[|gt| - 1];
          AppendAssoc(head, Concat(own, front), part(gt[|gt| - 1], "0"));
        } else {
          assert ([rows[0]] + gt)[1..] == gt;
          assert Concat(own, g) == head + Concat(own, gt);
        }
      } else {
        assert g == gt;
      }
    }
  }

  /** The last loop of a group, as the source runs it: every group row in
      list order, the one at the last index of the working list with size
      "0". */
  function RestCfgLines(rows: seq<PlanRow>, d: string, s: string, n: nat): seq<string> {
    ZeroLast((r, size) => CfgPartLines(n, r, size), rows, d, s)
  }

  /** The size-"0" rule compares against the whole working list: the last
      group row is written with size "0" exactly when it is also the last
      row of the list; every other row keeps its stored size. */
  lemma RestCfgSizes(rows: seq<PlanRow>, d: string, s: string, n: nat)
    ensures var g := Group(rows, d, s);
      if |rows| > 0 && InGroup(rows[|rows| - 1], d, s) then
        |g| > 0 && RestCfgLines(rows, d, s, n) == Flatten(CfgPlain(n), g[..|g| - 1]) + CfgPartLines(n, g[|g| - 1], "0")
      else RestCfgLines(rows, d, s, n) == Flatten(CfgPlain(n), g)
  {
    var part := (r: PlanRow, size: string) => CfgPartLines(n, r, size);
    ZeroLastSizes(part, rows, d, s);
    var g := Group(rows, d, s);
    ConcatSame((r: PlanRow) => part(r, r.size), r => RowLines(CfgPlain(n), r), g);
    if |g| > 0 {
      ConcatSame((r: PlanRow) => part(r, r.size), r => RowLines(CfgPlain(n), r), g[..|g| - 1]);
    }
  }

  /** The header written for each group. */
  function CfgHeader(n: nat, wd: string, ws: string, partition: string, mbr: bool, gpt: bool): seq<string> {
    [ "# Disk Setup for " + wd,
      "disk" + IntToString(n) + "=" + wd,
      "partition=" + partition,
      if mbr then "bootManager=bsd" else "bootManager=none",
      if gpt then "partscheme=GPT" else "partscheme=MBR",
      "commitDiskPart",
      "",
      "# Partition Setup for " + wd + "(" + ws + ")" ]
    + FsTypeNotes
  }

  /** The comment lines that close every section header. */
  const FsTypeNotes: seq<string> := [
    "# All sizes are expressed in MB",
    "# Avail FS Types, UFS, UFS+S, UFS+SUJ, UFS+J, ZFS, SWAP",
    "# UFS.eli, UFS+S.eli, UFS+SUJ, UFS+J.eli, ZFS.eli, SWAP.eli" ]

  /** The inventory lists `disk+slice` as a slice labelled "Unused Space". */
  predicate IsUnusedSpace(inv: seq<seq<string>>, wd: string, ws: string)
    requires WellFormedInventory(inv)
  {
    exists z :: 0 <= z < |inv| && inv[z][0] == "SLICE" && inv[z][2] == wd + ws && inv[z][4] == "Unused Space"
  }

  /** The `partition=` value: "free" for unused space, else the slice. */
  function PartitionName(inv: seq<seq<string>>, wd: string, ws: string): (p: string)
    requires WellFormedInventory(inv)
    ensures p == "free" || p == ws
    ensures IsUnusedSpace(inv, wd, ws) ==> p == "free"
    ensures !IsUnusedSpace(inv, wd, ws) ==> p == ws
  {
    if IsUnusedSpace(inv, wd, ws) then "free" else ws
  }

  /** What one outer iteration writes, what it leaves, and the start mount
      it hands on. */
  datatype Step = Step(lines: seq<string>, rest: seq<PlanRow>, start: string)

  /** The rows one config group writes, in order: start-mount rows, the
      swap row, the remaining rows of the group. */
  datatype GroupParts = GroupParts(roots: seq<PlanRow>, swap: Option<PlanRow>, tail: seq<PlanRow>, start: string)

  function CfgParts(rows: seq<PlanRow>, sp: string): GroupParts
    requires |rows| > 0
  {
    var d, s := rows[0].disk, rows[0].slice;
    var start := NextStart(sp, rows, d, s);
    var r := RootScan(rows, d, s, start);
    var k := FindSwap(r.1, d, s);
    match k
    case None => GroupParts(r.0, None, r.1, start)
    case Some(i) => GroupParts(r.0, Some(r.1[i]), RemoveAt(r.1, i), start)
  }

  lemma CfgPartsTail(rows: seq<PlanRow>, sp: string)
    requires |rows| > 0
    ensures Others(CfgParts(rows, sp).tail, rows[0].disk, rows[0].slice) == Others(rows, rows[0].disk, rows[0].slice)
  {
    var d, s := rows[0].disk, rows[0].slice;
    var r := RootScan(rows, d, s, NextStart(sp, rows, d, s));
    RootScanKeepsOthers(rows, d, s, NextStart(sp, rows, d, s));
    var k := FindSwap(r.1, d, s);
    if k.Some? { OthersRemoveAt(r.1, k.value, d, s); }
  }

  /** The rows one config group writes are exactly the group's rows: the
      start-mount rows, the swap row and the group rows left to the last
      pass (which writes each of them, `RestCfgSizes`) together make up
      `Group(rows)`, each row once. */
  lemma CfgPartsCoverGroup(rows: seq<PlanRow>, sp: string)
    requires |rows| > 0
    ensures var p := CfgParts(rows, sp);
      var d, s := rows[0].disk, rows[0].slice;
      multiset(p.roots) + (if p.swap.Some? then multiset{p.swap.value} else multiset{}) + multiset(Group(p.tail, d, s))
        == multiset(Group(rows, d, s))
  {
    var d, s := rows[0].disk, rows[0].slice;
    var start := NextStart(sp, rows, d, s);
    var r := RootScan(rows, d, s, start);
    var p := CfgParts(rows, sp);
    var g := multiset(Group(rows, d, s));
    assert multiset(r.0) + multiset(Group(r.1, d, s)) == g by {
      RootScanCoversGroup(rows, d, s, start);
    }
    match FindSwap(r.1, d, s)
    case None =>
      assert p.roots == r.0 && p.swap == None && p.tail == r.1;
    case Some(i) =>
      assert p.roots == r.0 && p.swap == Some(r.1[i]) && p.tail == RemoveAt(r.1, i);
      assert multiset{r.1[i]} + multiset(Group(RemoveAt(r.1, i), d, s)) == multiset(Group(r.1, d, s)) by {
        RemoveAtCoversGroup(r.1, i, d, s);
      }
  }

  /** The start-mount rows and the group rows the scan leaves make up the
      group. */
  lemma RootScanCoversGroup(rows: seq<PlanRow>, d: string, s: string, sp: string)
    ensures var r := RootScan(rows, d, s, sp);
      multiset(r.0) + multiset(Group(r.1, d, s)) == multiset(Group(rows, d, s))
  {
    var r := RootScan(rows, d, s, sp);
    RootScanKeepsRows(rows, d, s, sp);
    RootScanKeepsOthers(rows, d, s, sp);
    GroupSplit(rows, d, s);
    GroupSplit(r.1, d, s);
    MultisetCancel(multiset(Group(rows, d, s)), multiset(r.0) + multiset(Group(r.1, d, s)), multiset(Others(rows, d, s)));
  }

  /** Taking a group row out moves it from the group to the side. */
  lemma RemoveAtCoversGroup(rows: seq<PlanRow>, i: nat, d: string, s: string)
    requires i < |rows| && InGroup(rows[i], d, s)
    ensures multiset{rows[i]} + multiset(Group(RemoveAt(rows, i), d, s)) == multiset(Group(rows, d, s))
  {
    var t := RemoveAt(rows, i);
    var a, b := rows[..i], rows[i + 1..];
    assert multiset(rows) == multiset{rows[i]} + multiset(t) by {
      assert rows == a + [rows[i]] + b;
      assert t == a + b;
    }
    assert multiset(Group(t, d, s)) + multiset(Others(rows, d, s)) == multiset(t) by {
      OthersRemoveAt(rows, i, d, s);
      GroupSplit(t, d, s);
    }
    GroupSplit(rows, d, s);
    MultisetCancel(multiset{rows[i]} + multiset(Group(t, d, s)), multiset(Group(rows, d, s)), multiset(Others(rows, d, s)));
  }

  /** The same part added to two multisets can be taken off again. */
  lemma MultisetCancel<T>(a: multiset<T>, b: multiset<T>, c: multiset<T>)
    requires a + c == b + c
    ensures a == b
  {
    forall x
      ensures a[x] == b[x]
    {
      assert (a + c)[x] == (b + c)[x];
    }
  }

  /** One outer iteration of the disk serialiser. */
  function CfgGroup(inv: seq<seq<string>>, rows: seq<PlanRow>, n: nat, sp: string, mbr: bool, gpt: bool): (g: Step)
    requires WellFormedInventory(inv) && |rows| > 0
    ensures g.rest == Others(rows, rows[0].disk, rows[0].slice)
    ensures |g.rest| < |rows|
    ensures sp in {"", "/", "/boot"} ==> g.start in {"/", "/boot"}
  {
    var d, s := rows[0].disk, rows[0].slice;
    var p := CfgParts(rows, sp);
    var swapLines := match p.swap case None => [] case Some(w) => CfgSwapLine(n, w);
    CfgPartsTail(rows, sp);
    Step(CfgHeader(n, d, s, PartitionName(inv, d, s), mbr, gpt)
           + Flatten(CfgPlain(n), p.roots) + swapLines + RestCfgLines(p.tail, d, s, n)
           + ["commitDiskLabel", ""],
         Others(p.tail, d, s), p.start)
  }

  /** Every section opens with its group's header and closes with
      `commitDiskLabel` and a blank line. */
  lemma CfgGroupFrame(inv: seq<seq<string>>, rows: seq<PlanRow>, n: nat, sp: string, mbr: bool, gpt: bool)
    requires WellFormedInventory(inv) && |rows| > 0
    ensures var d, s := rows[0].disk, rows[0].slice;
      var h := CfgHeader(n, d, s, PartitionName(inv, d, s), mbr, gpt);
      var l := CfgGroup(inv, rows, n, sp, mbr, gpt).lines;
      && |l| >= |h| + 2
      && l[..|h|] == h
      && l[|l| - 2..] == ["commitDiskLabel", ""]
  {
    var d, s := rows[0].disk, rows[0].slice;
    var h := CfgHeader(n, d, s, PartitionName(inv, d, s), mbr, gpt);
    var p := CfgParts(rows, sp);
    var swapLines := match p.swap case None => [] case Some(w) => CfgSwapLine(n, w);
    var x1 := h + Flatten(CfgPlain(n), p.roots);
    var x2 := x1 + swapLines;
    var x3 := x2 + RestCfgLines(p.tail, d, s, n);
    var close := ["commitDiskLabel", ""];
    assert CfgGroup(inv, rows, n, sp, mbr, gpt).lines == x3 + close;
    PrefixOfAppend(h, Flatten(CfgPlain(n), p.roots), |h|);
    PrefixOfAppend(x1, swapLines, |h|);
    PrefixOfAppend(x2, RestCfgLines(p.tail, d, s, n), |h|);
    PrefixOfAppend(x3, close, |h|);
    assert (x3 + close)[|x3|..] == close;
  }

  /** A prefix of the first part is a prefix of the whole. */
  lemma PrefixOfAppend<T>(a: seq<T>, b: seq<T>, k: nat)
    requires k <= |a|
    ensures (a + b)[..k] == a[..k]
  {
  }

  /** A partition line carries ` (<options>)` only for a row with
      options, and a row with a passphrase adds its `encpass=` line right
      after it. */
  lemma CfgPartLinesShape(n: nat, r: PlanRow, size: string)
    ensures var l := CfgPartLines(n, r, size);
      var line := "disk" + IntToString(n) + "-part=" + r.fs + " " + size + " " + r.mount;
      && |l| == (if r.passphrase == "" then 1 else 2)
      && l[0] == (if r.options == "" then line else line + " (" + r.options + ")")
      && (r.passphrase != "" ==> l[1] == "encpass=" + r.passphrase)
  {
  }

  /** The disk serialiser from the `n`-th group on. */
  function CfgFrom(inv: seq<seq<string>>, rows: seq<PlanRow>, n: nat, sp: string, mbr: bool, gpt: bool): seq<string>
    requires WellFormedInventory(inv)
    decreases |rows|
  {
    if |rows| == 0 then []
    else
      var g := CfgGroup(inv, rows, n, sp, mbr, gpt);
      g.lines + CfgFrom(inv, g.rest, n + 1, g.start, mbr, gpt)
  }

  /** `getDiskCfgSettings`: nothing for a MANUAL plan. */
  function DiskCfg(inv: seq<seq<string>>, plan: seq<PlanRow>, mbr: bool, gpt: bool): seq<string>
    requires WellFormedInventory(inv) && |plan| > 0
  {
    if IsManual(plan) then [] else CfgFrom(inv, plan, 0, "", mbr, gpt)
  }

  /** A planned install opens its disk section on the first row's disk,
      numbered 0; a MANUAL plan has no disk section. */
  lemma DiskCfgHead(inv: seq<seq<string>>, plan: seq<PlanRow>, mbr: bool, gpt: bool)
    requires WellFormedInventory(inv) && |plan| > 0
    ensures var r := DiskCfg(inv, plan, mbr, gpt);
      && (IsManual(plan) <==> r == [])
      && (!IsManual(plan) ==> |r| > 2 && r[0] == "# Disk Setup for " + plan[0].disk && r[1] == "disk0=" + plan[0].disk)
  {
    if !IsManual(plan) {
      var d, s := plan[0].disk, plan[0].slice;
      var g := CfgGroup(inv, plan, 0, "", mbr, gpt);
      var h := CfgHeader(0, d, s, PartitionName(inv, d, s), mbr, gpt);
      FirstHeaderLines(d, s, PartitionName(inv, d, s), mbr, gpt);
      assert g.lines[..|h|] == h;
      var r := CfgFrom(inv, plan, 0, "", mbr, gpt);
      assert r == g.lines + CfgFrom(inv, g.rest, 1, g.start, mbr, gpt);
      assert r[0] == h[0] && r[1] == h[1];
    }
  }

  /** The first disk's header names it and numbers it 0. */
  lemma FirstHeaderLines(wd: string, ws: string, partition: string, mbr: bool, gpt: bool)
    ensures var h := CfgHeader(0, wd, ws, partition, mbr, gpt);
      |h| == 11 && h[0] == "# Disk Setup for " + wd && h[1] == "disk0=" + wd
  {
    assert IntToString(0) == "0";
  }


  // ---------------------------------------------------------------------
  // Summary lines

  /** One ZFS dataset as the summary shows it: with a leading "/" (the
      pool root "/" stays as it is) and " (" before its options. */
  function FormatDataset(p: string): (q: string)
    ensures q == "/" || (|q| > 0 && q[0] == '/')
  {
    var slashed := if p != "/" then "/" + p else p;
    if Contains(slashed, "(") then Replace(slashed, '(', " (") else slashed
  }

  /** What the reformatting does to a dataset: the piece follows its "/"
      unchanged when it has no options; every '(' shown has a space before
      it; and dropping those spaces gives back the piece after its "/",
      when the piece had no space of its own. */
  lemma FormatDatasetShown(p: string)
    ensures var q := FormatDataset(p);
      var slashed := if p != "/" then "/" + p else p;
      && ('(' !in p ==> q == slashed)
      && (forall k :: 0 <= k < |q| && q[k] == '(' ==> k > 0 && q[k - 1] == ' ')
      && (' ' !in p ==> DropBefore(q, ' ', '(') == slashed)
  {
    var slashed := if p != "/" then "/" + p else p;
    assert "(" == ['('] && " (" == [' ', '('];
    ContainsChar(slashed, '(');
    if !Contains(slashed, "(") {
      ReplaceAbsent(slashed, '(', [' ', '(']);
    }
    assert FormatDataset(p) == Replace(slashed, '(', [' ', '(']);
    ReplacePrefixes(slashed, ' ', '(');
    if ' ' !in p {
      assert ' ' !in slashed;
      DropBeforeReplace(slashed, ' ', '(');
    }
  }

  function FormatDatasets(mount: string): (ds: seq<string>)
    ensures |ds| == |Split(mount, ",/")|
    ensures forall k :: 0 <= k < |ds| ==> ds[k] == FormatDataset(Split(mount, ",/")[k])
  {
    var ps := Split(mount, ",/");
    seq(|ps|, k requires 0 <= k < |ps| => FormatDataset(ps[k]))
  }

  /** Joining slash-prefixed pieces with "," is the slash before the
      pieces joined with ",/". */
  lemma {:induction false} JoinSlashed(ds: seq<string>, qs: seq<string>)
    requires |qs| >= 1 && |ds| == |qs|
    requires forall k :: 0 <= k < |qs| ==> ds[k] == "/" + qs[k]
    ensures Join(ds, ",") == "/" + Join(qs, ",/")
    decreases |qs|
  {
    if |qs| > 1 {
      JoinSlashed(ds[1..], qs[1..]);
      assert ",/" == "," + "/";
    }
  }

  /** The reformatted datasets lose nothing of the mount list: joined with
      "," they give back the list, with a leading "/" added when it did not
      start with the pool root. This holds as shown when no dataset has
      options, and once the inserted spaces are dropped when no dataset
      has a space of its own. */
  lemma FormatDatasetsJoin(mount: string)
    requires forall k :: 0 < k < |Split(mount, ",/")| ==> Split(mount, ",/")[k] != "/"
    ensures var ds := FormatDatasets(mount);
      var whole := if Split(mount, ",/")[0] == "/" then mount else "/" + mount;
      && ('(' !in mount ==> Join(ds, ",") == whole)
      && (' ' !in mount ==> Join(seq(|ds|, k requires 0 <= k < |ds| => DropBefore(ds[k], ' ', '(')), ",") == whole)
  {
    var ps := Split(mount, ",/");
    var ds := FormatDatasets(mount);
    var es := seq(|ds|, k requires 0 <= k < |ds| => DropBefore(ds[k], ' ', '('));
    var whole := if ps[0] == "/" then mount else "/" + mount;
    JoinSplit(mount, ",/");
    forall k | 0 <= k < |ps|
      ensures '(' !in ps[k] ==> ds[k] == (if ps[k] != "/" then "/" + ps[k] else ps[k])
      ensures ' ' !in ps[k] ==> es[k] == (if ps[k] != "/" then "/" + ps[k] else ps[k])
    {
      FormatDatasetShown(ps[k]);
    }
    if '(' !in mount {
      SplitNoChar(mount, ",/", '(');
      JoinPieces(ds, ps, mount);
    }
    if ' ' !in mount {
      SplitNoChar(mount, ",/", ' ');
      JoinPieces(es, ps, mount);
    }
  }

  /** The join step of `FormatDatasetsJoin`, for any pieces shown
      slash-prefixed except a leading pool root. */
  lemma JoinPieces(ds: seq<string>, ps: seq<string>, mount: string)
    requires |ps| >= 1 && |ds| == |ps| && Join(ps, ",/") == mount
    requires forall k :: 0 <= k < |ps| ==> ds[k] == (if ps[k] != "/" then "/" + ps[k] else ps[k])
    requires forall k :: 0 < k < |ps| ==> ps[k] != "/"
    ensures Join(ds, ",") == if ps[0] == "/" then mount else "/" + mount
  {
    if |ps| > 1 {
      var j := Join(ps[1..], ",/");
      JoinTailSlashed(ds, ps);
      assert Join(ds, ",") == ds[0] + "," + Join(ds[1..], ",");
      assert mount == ps[0] + ",/" + j;
      JoinStep(ds[0], ps[0], j, mount);
    }
  }

  /** Past the first piece every piece is shown slash-prefixed. */
  lemma JoinTailSlashed(ds: seq<string>, ps: seq<string>)
    requires |ps| > 1 && |ds| == |ps|
    requires forall k :: 0 <= k < |ps| ==> ds[k] == (if ps[k] != "/" then "/" + ps[k] else ps[k])
    requires forall k :: 0 < k < |ps| ==> ps[k] != "/"
    ensures Join(ds[1..], ",") == "/" + Join(ps[1..], ",/")
  {
    forall k | 0 <= k < |ps[1..]|
      ensures ds[1..][k] == "/" + ps[1..][k]
    {
      assert ds[1..][k] == ds[k + 1] && ps[1..][k] == ps[k + 1];
    }
    JoinSlashed(ds[1..], ps[1..]);
  }

  /** The string arithmetic of the join step. */
  lemma JoinStep(d0: string, p0: string, j: string, mount: string)
    requires mount == p0 + ",/" + j
    requires d0 == if p0 != "/" then "/" + p0 else p0
    ensures d0 + "," + ("/" + j) == if p0 == "/" then mount else "/" + mount
  {
    assert ",/" == "," + "/";
    AppendAssoc(d0 + ",", "/", j);
    if p0 != "/" {
      AppendAssoc("/", p0, ",/");
      AppendAssoc("/", p0 + ",/", j);
    }
  }

  function SummaryHead(r: PlanRow): seq<string> {
    ["", "Partition: " + r.disk + "(" + r.slice + "):", "FileSystem: " + r.fs, "Size: " + r.size + "MB "]
  }

  function OptionLines(r: PlanRow): seq<string> {
    if r.options == "" then [] else ["Options: " + r.options]
  }

  /** The start-mount entry: ZFS rows show their dataset list. */
  function SummaryStartLines(r: PlanRow): seq<string> {
    SummaryHead(r)
      + (if r.fs == "ZFS" then ["ZFS Datasets:<br> " + Join(FormatDatasets(r.mount), "<br>")] else ["Mount: " + r.mount])
      + OptionLines(r)
  }

  /** Other entries: always the stored size; ZFS rows show no mount. */
  function SummaryRestLines(r: PlanRow): seq<string> {
    SummaryHead(r) + (if r.fs != "ZFS" then ["Mount: " + r.mount] else []) + OptionLines(r)
  }

  /** The position of the first row naming `MIRROR(<wd>)`. */
  function FindMirror(rows: seq<PlanRow>, wd: string): (r: Option<nat>)
    ensures r.Some? ==> r.value < |rows| && Contains(rows[r.value].mount, "MIRROR(" + wd + ")")
    ensures r.Some? ==> forall k :: 0 <= k < r.value ==> !Contains(rows[k].mount, "MIRROR(" + wd + ")")
    ensures r.None? ==> forall k :: 0 <= k < |rows| ==> !Contains(rows[k].mount, "MIRROR(" + wd + ")")
  {
    if |rows| == 0 then None
    else if Contains(rows[0].mount, "MIRROR(" + wd + ")") then Some(0)
    else match FindMirror(rows[1..], wd)
      case None => None
      case Some(k) => Some(k + 1)
  }

  /** The group part of one summary iteration, on the list left after the
      mirror step; the group is that of `wd`/`ws`. */
  function SummaryGroup(rows: seq<PlanRow>, wd: string, ws: string, sp: string): (g: Step)
    ensures g.rest == Others(rows, wd, ws)
    ensures sp in {"", "/", "/boot"} ==> g.start in {"/", "/boot"}
  {
    var start := NextStart(sp, rows, wd, ws);
    var r := RootScan(rows, wd, ws, start);
    var k := FindSwap(r.1, wd, ws);
    var swapLines := match k case None => [] case Some(i) => SummaryHead(r.1[i]);
    var tail := match k case None => r.1 case Some(i) => (OthersRemoveAt(r.1, i, wd, ws); RemoveAt(r.1, i));
    RootScanKeepsOthers(rows, wd, ws, start);
    Step(Flatten(SummaryStart, r.0) + swapLines + Flatten(SummaryRest, Group(tail, wd, ws)),
         Others(tail, wd, ws), start)
  }

  /** The summary loop from some point on. */
  function SummaryFrom(rows: seq<PlanRow>, sp: string): seq<string>
    decreases |rows|
  {
    if |rows| == 0 then []
    else
      var wd, ws := rows[0].disk, rows[0].slice;
      var m := FindMirror(rows, wd);
      var mirrorLines := match m case None => [] case Some(i) => ["Disk:" + rows[i].disk + " " + "Mirroring:" + wd];
      var left := match m case None => rows case Some(i) => RemoveAt(rows, i);
      if |left| == 0 then mirrorLines
      else
        var g := SummaryGroup(left, wd, ws, sp);
        mirrorLines + g.lines + SummaryFrom(g.rest, g.start)
  }

  const ManualSummary: seq<string> := ["", "Installing to file-system mounted at /mnt"]
  const SummaryTitle: seq<string> := ["", "<b>The disk will be setup with the following configuration:</b>"]

  /** `getDiskSummary`. */
  function Summary(plan: seq<PlanRow>): seq<string>
    requires |plan| > 0
  {
    if IsManual(plan) then ManualSummary else SummaryTitle + SummaryFrom(plan, "")
  }
}
