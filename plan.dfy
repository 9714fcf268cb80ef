/** The disk inventory, the planned layout and the automatic layout planner
    (`Installer::autoGenPartitionLayout`) as specification functions. The
    imperative planner in module Wizard is proved against these. */
module Plan {
  import opened Wrappers
  import opened Text

  /** One planned partition: `[disk, slice, mount, fs, size, options,
      passphrase]`. A first row whose `disk` is "MANUAL" means "do not
      partition, extract into /mnt". `mount` is a mount point, "SWAP", a
      comma-joined ZFS dataset list, or a `MIRROR(<disk>)` directive. */
  datatype PlanRow = PlanRow(
    disk: string, slice: string, mount: string, fs: string,
    size: string, options: string, passphrase: string)

  /** A plan whose first row is the "no partitioning" sentinel. */
  predicate IsManual(plan: seq<PlanRow>)
    requires |plan| > 0
  {
    plan[0].disk == "MANUAL"
  }

  /** An inventory row is `["DRIVE", id, size, ...]`, `["SLICE", ...,
      disk+slice, size, label]` or a row of some other kind; the installer
      reads field 0 of every row and the fields a DRIVE or SLICE row must
      have. */
  predicate WellFormedRow(r: seq<string>) {
    |r| >= 1 && (r[0] == "DRIVE" ==> |r| >= 3) && (r[0] == "SLICE" ==> |r| >= 5)
  }

  predicate WellFormedInventory(inv: seq<seq<string>>) {
    forall k :: 0 <= k < |inv| ==> WellFormedRow(inv[k])
  }

  /** What to look for in the inventory: the row kind, the disk and slice
      the plan rows get, and the field holding the identifier (the size is
      the field after it). */
  datatype Target = Target(kind: string, disk: string, slice: string, loc: nat)

  /** A whole drive is planned as slice "ALL"; a slice target such as
      "ada0s1" is split into its disk ("ada0") and its last two characters
      ("s1"). Shorter names follow QString's truncate/remove, which leave the
      disk empty and the slice whole. */
  function TargetOf(target: string, isDisk: bool): (t: Target)
    ensures t.loc == (if isDisk then 1 else 2)
    ensures t.kind == (if isDisk then "DRIVE" else "SLICE")
    ensures isDisk ==> t.disk == target && t.slice == "ALL"
    ensures !isDisk ==> t.disk + t.slice == target
    ensures !isDisk && |target| >= 2 ==> |t.slice| == 2
  {
    if isDisk then Target("DRIVE", target, "ALL", 1)
    else if |target| >= 2 then Target("SLICE", target[..|target| - 2], target[|target| - 2..], 2)
    else Target("SLICE", "", target, 2)
  }

  /** The inventory row describes the target: same kind, same identifier. */
  predicate Matches(r: seq<string>, t: Target, target: string) {
    |r| > t.loc + 1 && r[0] == t.kind && r[t.loc] == target
  }

  /** The position of the last inventory row that matches. */
  function LastMatch(inv: seq<seq<string>>, t: Target, target: string): (r: Option<nat>)
    ensures r.Some? ==> r.value < |inv| && Matches(inv[r.value], t, target)
    ensures r.Some? ==> forall k :: r.value < k < |inv| ==> !Matches(inv[k], t, target)
    ensures r.None? ==> forall k :: 0 <= k < |inv| ==> !Matches(inv[k], t, target)
  {
    if |inv| == 0 then None
    else if Matches(inv[|inv| - 1], t, target) then Some(|inv| - 1)
    else LastMatch(inv[..|inv| - 1], t, target)
  }

  /** The target's size in MB as the planner reads it: the size field of
      the last matching row, when that parses as an integer. */
  function ResolveSize(inv: seq<seq<string>>, target: string, isDisk: bool): Option<int> {
    var t := TargetOf(target, isDisk);
    match LastMatch(inv, t, target)
    case None => None
    case Some(k) => ParseInt(inv[k][t.loc + 1])
  }

  /** `QString::toInt`'s value: 0 when the conversion fails. */
  function ToIntValue(s: string): int {
    match ParseInt(s)
    case Some(v) => v
    case None => 0
  }

  /** Planning succeeds exactly when some row matches and the last matching
      row's size field parses; the size is that row's. */
  lemma ResolveSizeCharacterized(inv: seq<seq<string>>, target: string, isDisk: bool)
    ensures var t := TargetOf(target, isDisk);
      ResolveSize(inv, target, isDisk).Some? <==>
        exists k :: 0 <= k < |inv| && Matches(inv[k], t, target)
          && (forall j :: k < j < |inv| ==> !Matches(inv[j], t, target))
          && ParseInt(inv[k][t.loc + 1]).Some?
    ensures var t := TargetOf(target, isDisk);
      forall k :: (0 <= k < |inv| && Matches(inv[k], t, target)
        && (forall j :: k < j < |inv| ==> !Matches(inv[j], t, target))) ==>
        ResolveSize(inv, target, isDisk) == ParseInt(inv[k][t.loc + 1])
  {
  }

  // ---------------------------------------------------------------------
  // The layout

  /** The dataset list of the single ZFS pool row planned on amd64. */
  const ZfsDatasets: string :=
    "/,/tmp(compress=lzjb),/usr(canmount=off),/usr/home,/usr/jails,/usr/obj(compress=lzjb),/usr/pbi,/usr/ports(compress=gzip),/usr/ports/distfiles(compress=off),/usr/src(compress=gzip),/var(canmount=off),/var/audit(compress=lzjb),/var/log(compress=gzip),/var/tmp(compress=lzjb)"

  /** MB reserved for rounding errors. */
  const RoundingBuffer: int := 10
  const RootSize: int := 2000
  const VarSize: int := 2048
  const SwapFallback: int := 256
  const SwapCap: int := 2000
  /** Below this much room the planner shrinks swap and skips /var. */
  const Roomy: int := 3000

  /** Swap size given `avail`, the space left after the root partition. The
      fallback test uses the uncapped twice-memory value. */
  function SwapSize(avail: int, memory: int): (s: int)
    ensures s <= SwapCap
    ensures avail - 2 * memory < Roomy ==> s == SwapFallback
    ensures avail - 2 * memory >= Roomy ==> s == if 2 * memory > SwapCap then SwapCap else 2 * memory
  {
    var want := memory * 2;
    var fallback := if avail - want < Roomy then SwapFallback else want;
    if fallback > SwapCap then SwapCap else fallback
  }

  /** Sizes of the UFS partitions `/`, swap, optional `/var`, `/usr` when
      `free` MB (target size minus the buffer) are available. */
  function UfsSizes(free: int, memory: int): (sizes: seq<int>)
    ensures |sizes| == 3 || |sizes| == 4
  {
    var afterRoot := free - RootSize;
    var swap := SwapSize(afterRoot, memory);
    var afterSwap := afterRoot - swap;
    if afterSwap > Roomy then [RootSize, swap, VarSize, afterSwap - VarSize]
    else [RootSize, swap, afterSwap]
  }

  function Sum(xs: seq<int>): int {
    if |xs| == 0 then 0 else xs[0] + Sum(xs[1..])
  }

  /** A planned row on the target, with no options and no passphrase. */
  function LayoutRow(t: Target, mount: string, fs: string, size: int): PlanRow {
    PlanRow(t.disk, t.slice, mount, fs, IntToString(size), "", "")
  }

  const Ufs: string := "UFS+SUJ"

  /** The amd64 plan: one ZFS pool over `free` MB. */
  function ZfsLayout(t: Target, free: int): seq<PlanRow> {
    [LayoutRow(t, ZfsDatasets, "ZFS", free)]
  }

  /** Elsewhere: `/`, swap, `/var` when more than `Roomy` MB remain after
      those, and `/usr` with the rest of `free`. */
  function UfsLayout(t: Target, free: int, memory: int): seq<PlanRow> {
    var afterRoot := free - RootSize;
    var swap := SwapSize(afterRoot, memory);
    var afterSwap := afterRoot - swap;
    if afterSwap > Roomy then
      [LayoutRow(t, "/", Ufs, RootSize), LayoutRow(t, "SWAP", "SWAP", swap),
       LayoutRow(t, "/var", Ufs, VarSize), LayoutRow(t, "/usr", Ufs, afterSwap - VarSize)]
    else
      [LayoutRow(t, "/", Ufs, RootSize), LayoutRow(t, "SWAP", "SWAP", swap), LayoutRow(t, "/usr", Ufs, afterSwap)]
  }

  /** The layout planned for a target of `size` MB, less the buffer. */
  function PlannedLayout(t: Target, arch: string, size: int, memory: int): seq<PlanRow> {
    var free := size - RoundingBuffer;
    if arch == "amd64" then ZfsLayout(t, free) else UfsLayout(t, free, memory)
  }

  /** On amd64 the plan is one ZFS row spanning the target minus the
      buffer; elsewhere it is the UFS layout of the target minus the buffer. */
  lemma PlannedLayoutCases(t: Target, arch: string, size: int, memory: int)
    ensures arch == "amd64" ==>
      PlannedLayout(t, arch, size, memory) == [PlanRow(t.disk, t.slice, ZfsDatasets, "ZFS", IntToString(size - 10), "", "")]
    ensures arch != "amd64" ==> PlannedLayout(t, arch, size, memory) == UfsLayout(t, size - 10, memory)
  {
  }

  /** Every planned row lies on the target and has no options and no
      passphrase; there is at least one row and at most four. */
  lemma PlannedLayoutHead(t: Target, arch: string, size: int, memory: int)
    ensures var p := PlannedLayout(t, arch, size, memory);
      && 0 < |p| <= 4
      && forall k :: 0 <= k < |p| ==> p[k].disk == t.disk && p[k].slice == t.slice && p[k].options == "" && p[k].passphrase == ""
  {
  }

  /** `setNum` of the fixed sizes. */
  lemma FixedSizeStrings()
    ensures IntToString(RootSize) == "2000" && IntToString(VarSize) == "2048"
  {
    assert NatToString(2000) == NatToString(200) + "0";
    assert NatToString(200) == NatToString(20) + "0";
    assert NatToString(2048) == NatToString(204) + "8";
    assert NatToString(204) == NatToString(20) + "4";
    assert NatToString(20) == NatToString(2) + "0";
  }

  /** The UFS plan of `free` MB is `/` (2000 MB), `SWAP`, `/var` (2048 MB)
      only when more than 3000 MB are left after root and swap, and `/usr`
      with the rest, all UFS+SUJ except the swap, all on the target with no
      options and no passphrase. */
  lemma UfsLayoutShape(t: Target, free: int, memory: int)
    ensures var p := UfsLayout(t, free, memory);
      var swap := SwapSize(free - 2000, memory);
      var afterSwap := free - 2000 - swap;
      && (|p| == 4 <==> afterSwap > 3000)
      && (|p| == 3 <==> afterSwap <= 3000)
      && p[0] == PlanRow(t.disk, t.slice, "/", "UFS+SUJ", "2000", "", "")
      && p[1] == PlanRow(t.disk, t.slice, "SWAP", "SWAP", IntToString(swap), "", "")
      && (|p| == 4 ==> p[2] == PlanRow(t.disk, t.slice, "/var", "UFS+SUJ", "2048", "", ""))
      && p[|p| - 1] == PlanRow(t.disk, t.slice, "/usr", "UFS+SUJ", IntToString(if |p| == 4 then afterSwap - 2048 else afterSwap), "", "")
  {
    FixedSizeStrings();
  }

  /** The size field of every planned row is the planned size at its
      position. */
  lemma UfsLayoutSizes(t: Target, free: int, memory: int)
    ensures var p := UfsLayout(t, free, memory);
      var sizes := UfsSizes(free, memory);
      |p| == |sizes| && forall k :: 0 <= k < |p| ==> p[k].size == IntToString(sizes[k])
  {
  }

  /** The parsed sizes of a plan's rows. */
  function SizeSum(rows: seq<PlanRow>): int {
    if |rows| == 0 then 0 else ToIntValue(rows[0].size) + SizeSum(rows[1..])
  }

  /** Reading back the size fields of rows written from 32-bit sizes gives
      the sizes' sum. */
  lemma {:induction false} SizeSumOfSizes(rows: seq<PlanRow>, sizes: seq<int>)
    requires |rows| == |sizes|
    requires forall k :: 0 <= k < |sizes| ==> Int32Min <= sizes[k] <= Int32Max && rows[k].size == IntToString(sizes[k])
    ensures SizeSum(rows) == Sum(sizes)
  {
    if |sizes| > 0 {
      ParseIntToString(sizes[0]);
      SizeSumOfSizes(rows[1..], sizes[1..]);
    }
  }

  /** The UFS sizes share out all of `free`: `/usr` gets the rest. */
  lemma UfsSizesSum(free: int, memory: int)
    ensures Sum(UfsSizes(free, memory)) == free
  {
    var sizes := UfsSizes(free, memory);
    assert Sum(sizes[|sizes| - 1..]) == sizes[|sizes| - 1];
    assert Sum(sizes[2..]) == sizes[2] + Sum(sizes[3..]);
    assert Sum(sizes[1..]) == sizes[1] + Sum(sizes[2..]);
  }

  /** The UFS sizes, as the config will read them back, add up to `free`,
      the target's size minus the 10 MB buffer: `/usr` gets exactly the
      rest. */
  lemma UfsSizesAddUp(t: Target, free: int, memory: int)
    requires var s := UfsSizes(free, memory);
      forall k :: 0 <= k < |s| ==> Int32Min <= s[k] <= Int32Max
    ensures SizeSum(UfsLayout(t, free, memory)) == free
  {
    UfsLayoutSizes(t, free, memory);
    SizeSumOfSizes(UfsLayout(t, free, memory), UfsSizes(free, memory));
    UfsSizesSum(free, memory);
  }
}
