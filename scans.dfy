/** The loops of `getDiskSummary` and `getDiskCfgSettings` over the working
    copy of the plan (`copyList`), written as the source runs them
    (`removeAt`, and `i--`/`count--` after a removal), each proved equal to
    its specification in module Traversal. */
module Scans {
  import opened Wrappers
  import opened Text
  import opened Plan
  import opened Traversal

  /** The `partition=` value: the loop over the inventory that turns it
      into "free" when the slice is labelled "Unused Space". */
  method UnusedSpaceSlice(inv: seq<seq<string>>, wd: string, ws: string) returns (tmpSlice: string)
    requires WellFormedInventory(inv)
    ensures tmpSlice == PartitionName(inv, wd, ws)
  {
    tmpSlice := ws;
    for z := 0 to |inv|
      invariant tmpSlice == (if exists y :: 0 <= y < z && inv[y][0] == "SLICE" && inv[y][2] == wd + ws
                                                      && inv[y][4] == "Unused Space" then "free" else ws)
    {
      if inv[z][0] == "SLICE" && inv[z][2] == wd + ws && inv[z][4] == "Unused Space" {
        tmpSlice := "free";
      }
    }
  }

  /** The /boot scan: every mount of every group row is compared. */
  method ScanBoot(copy: seq<PlanRow>, wd: string, ws: string, startPart0: string) returns (startPart: string)
    ensures startPart == if HasBoot(copy, wd, ws) then "/boot" else startPart0
  {
    startPart := startPart0;
    for i := 0 to |copy|
      invariant startPart == if HasBoot(copy[..i], wd, ws) then "/boot" else startPart0
    {
      var mounts := Split(copy[i].mount, ",");
      ghost var before := startPart;
      for z := 0 to |mounts|
        invariant startPart == if InGroup(copy[i], wd, ws) && "/boot" in mounts[..z] then "/boot" else before
      {
        if copy[i].disk == wd && copy[i].slice == ws && mounts[z] == "/boot" {
          startPart := "/boot";
        }
        assert mounts[..z + 1] == mounts[..z] + [mounts[z]];
      }
      assert mounts[..|mounts|] == mounts;
      assert copy[..i + 1] == copy[..i] + [copy[i]];
      assert HasBoot(copy[..i + 1], wd, ws) <==>
        (HasBoot(copy[..i], wd, ws) || (InGroup(copy[i], wd, ws) && "/boot" in mounts)) by {
        if HasBoot(copy[..i + 1], wd, ws) && !(InGroup(copy[i], wd, ws) && "/boot" in mounts) {
          var k :| 0 <= k < i + 1 && InGroup(copy[..i + 1][k], wd, ws) && "/boot" in Split(copy[..i + 1][k].mount, ",");
          assert k < i && copy[..i][k] == copy[..i + 1][k];
        }
        if HasBoot(copy[..i], wd, ws) {
          var k :| 0 <= k < i && InGroup(copy[..i][k], wd, ws) && "/boot" in Split(copy[..i][k].mount, ",");
          assert copy[..i + 1][k] == copy[..i][k];
        }
        if InGroup(copy[i], wd, ws) && "/boot" in mounts {
          assert copy[..i + 1][i] == copy[i];
        }
      }
    }
    assert copy[..|copy|] == copy;
  }

  /** How the loop renders one taken row; for the summary of a ZFS row this
      runs the dataset reformatting loop. */
  method EntryLines(st: Style, r: PlanRow) returns (lines: seq<string>)
    ensures lines == RowLines(st, r)
  {
    if st.SummaryStart? {
      lines := SummaryHead(r);
      if r.fs == "ZFS" {
        var ds := ReformatDatasets(r.mount);
        lines := lines + ["ZFS Datasets:<br> " + Join(ds, "<br>")];
      } else {
        lines := lines + ["Mount: " + r.mount];
      }
      if r.options != "" {
        lines := lines + ["Options: " + r.options];
      }
    } else {
      lines := RowLines(st, r);
    }
  }

  /** The dataset loop of the summary: split on ",/", then a leading "/"
      and " (" for each piece. */
  method ReformatDatasets(mount: string) returns (zDS: seq<string>)
    ensures zDS == FormatDatasets(mount)
  {
    zDS := Split(mount, ",/");
    ghost var pieces := zDS;
    for ds := 0 to |zDS|
      invariant |zDS| == |pieces|
      invariant forall k :: 0 <= k < ds ==> zDS[k] == FormatDataset(pieces[k])
      invariant forall k :: ds <= k < |zDS| ==> zDS[k] == pieces[k]
    {
      if zDS[ds] != "/" {
        zDS := zDS[ds := "/" + zDS[ds]];
      }
      if IndexOf(zDS[ds], "(") != -1 {
        var zTMP := Replace(zDS[ds], '(', " (");
        zDS := zDS[ds := zTMP];
      }
    }
  }

  /** The inner loop of the start-mount scan: the mounts of one row,
      left at the first that is the start mount. */
  method MountsHit(r: PlanRow, wd: string, ws: string, sp: string) returns (hit: bool)
    ensures hit == IsStart(r, wd, ws, sp)
  {
    var mounts := Split(r.mount, ",");
    hit := false;
    for z := 0 to |mounts|
      invariant !hit ==> !(InGroup(r, wd, ws) && sp in mounts[..z])
      invariant hit ==> IsStart(r, wd, ws, sp)
    {
      if r.disk == wd && r.slice == ws && mounts[z] == sp {
        hit := true;
        break;
      }
      assert mounts[..z + 1] == mounts[..z] + [mounts[z]];
    }
    assert mounts[..|mounts|] == mounts;
  }

  /** Where the start-mount scan stands at index `i` of the working list:
      `done` are the rows taken so far, and the rest of the scan, run on
      what is left from `i`, completes the result. Past the end (the last
      row was taken), the result is what was taken and what is left. */
  ghost predicate ScanStartAt(copy0: seq<PlanRow>, copy: seq<PlanRow>, i: int, done: seq<PlanRow>,
                              d: string, s: string, sp: string)
  {
    && 0 <= i <= |copy| + 1
    && (i <= |copy| ==>
          && RootScan(copy0, d, s, sp).0 == done + RootScan(copy[i..], d, s, sp).0
          && RootScan(copy0, d, s, sp).1 == copy[..i] + RootScan(copy[i..], d, s, sp).1)
    && (i == |copy| + 1 ==> RootScan(copy0, d, s, sp).0 == done && RootScan(copy0, d, s, sp).1 == copy)
  }

  /** The start-mount scan on a list whose first row it takes. */
  lemma RootScanHit(rows: seq<PlanRow>, d: string, s: string, sp: string)
    requires |rows| > 0 && IsStart(rows[0], d, s, sp)
    ensures |rows| == 1 ==> RootScan(rows, d, s, sp) == ([rows[0]], [])
    ensures |rows| > 1 ==>
      RootScan(rows, d, s, sp) == ([rows[0]] + RootScan(rows[2..], d, s, sp).0, [rows[1]] + RootScan(rows[2..], d, s, sp).1)
  {
  }

  /** The start-mount scan on a list whose first row it keeps. */
  lemma RootScanMiss(rows: seq<PlanRow>, d: string, s: string, sp: string)
    requires |rows| > 0 && !IsStart(rows[0], d, s, sp)
    ensures RootScan(rows, d, s, sp) == (RootScan(rows[1..], d, s, sp).0, [rows[0]] + RootScan(rows[1..], d, s, sp).1)
  {
  }

  /** A hit at `i` that is not the last row: the next row moves into its
      place and is passed over. */
  lemma ScanStartHitInside(copy0: seq<PlanRow>, copy: seq<PlanRow>, i: nat, done: seq<PlanRow>,
                           d: string, s: string, sp: string)
    requires i + 1 < |copy| && ScanStartAt(copy0, copy, i, done, d, s, sp) && IsStart(copy[i], d, s, sp)
    ensures ScanStartAt(copy0, RemoveAt(copy, i), i + 1, done + [copy[i]], d, s, sp)
  {
    var suffix := copy[i..];
    var after := RemoveAt(copy, i);
    assert suffix[0] == copy[i] && suffix[1] == copy[i + 1];
    RootScanHit(suffix, d, s, sp);
    var r := RootScan(suffix[2..], d, s, sp);
    assert suffix[2..] == after[i + 1..];
    assert after[..i + 1] == copy[..i] + [suffix[1]];
    assert done + ([copy[i]] + r.0) == (done + [copy[i]]) + r.0;
    assert copy[..i] + ([suffix[1]] + r.1) == after[..i + 1] + r.1;
  }

  /** A hit at the last row: the scan ends past the end of the list. */
  lemma ScanStartHitLast(copy0: seq<PlanRow>, copy: seq<PlanRow>, i: nat, done: seq<PlanRow>,
                         d: string, s: string, sp: string)
    requires i + 1 == |copy| && ScanStartAt(copy0, copy, i, done, d, s, sp) && IsStart(copy[i], d, s, sp)
    ensures ScanStartAt(copy0, RemoveAt(copy, i), i + 1, done + [copy[i]], d, s, sp)
  {
    var suffix := copy[i..];
    assert suffix == [copy[i]];
    RootScanHit(suffix, d, s, sp);
    assert RemoveAt(copy, i) == copy[..i];
    assert copy[..i] + [] == copy[..i];
  }

  /** A miss at `i`: the row stays and the scan moves to the next one. */
  lemma ScanStartMiss(copy0: seq<PlanRow>, copy: seq<PlanRow>, i: nat, done: seq<PlanRow>,
                      d: string, s: string, sp: string)
    requires i < |copy| && ScanStartAt(copy0, copy, i, done, d, s, sp) && !IsStart(copy[i], d, s, sp)
    ensures ScanStartAt(copy0, copy, i + 1, done, d, s, sp)
  {
    var suffix := copy[i..];
    assert suffix[0] == copy[i] && suffix[1..] == copy[i + 1..];
    RootScanMiss(suffix, d, s, sp);
    var r := RootScan(copy[i + 1..], d, s, sp);
    assert copy[..i + 1] == copy[..i] + [copy[i]];
    assert copy[..i] + ([copy[i]] + r.1) == copy[..i + 1] + r.1;
  }

  /** One step of the start-mount scan at index `i`: a hit takes the row
      and passes over the one that moves into its place. */
  lemma ScanStartAdvance(copy0: seq<PlanRow>, copy: seq<PlanRow>, i: nat, done: seq<PlanRow>,
                         d: string, s: string, sp: string)
    requires i < |copy| && ScanStartAt(copy0, copy, i, done, d, s, sp)
    ensures IsStart(copy[i], d, s, sp) ==> ScanStartAt(copy0, RemoveAt(copy, i), i + 1, done + [copy[i]], d, s, sp)
    ensures !IsStart(copy[i], d, s, sp) ==> ScanStartAt(copy0, copy, i + 1, done, d, s, sp)
  {
    if !IsStart(copy[i], d, s, sp) {
      ScanStartMiss(copy0, copy, i, done, d, s, sp);
    } else if i + 1 < |copy| {
      ScanStartHitInside(copy0, copy, i, done, d, s, sp);
    } else {
      ScanStartHitLast(copy0, copy, i, done, d, s, sp);
    }
  }

  /** The start-mount scan. The inner loop over the mounts stops at the
      first hit; the row is then removed and the outer index still moves
      on, past the row that took its place. */
  method ScanStart(copy0: seq<PlanRow>, wd: string, ws: string, sp: string, st: Style)
    returns (lines: seq<string>, copy: seq<PlanRow>)
    ensures lines == Flatten(st, RootScan(copy0, wd, ws, sp).0)
    ensures copy == RootScan(copy0, wd, ws, sp).1
  {
    copy := copy0;
    lines := [];
    ghost var done: seq<PlanRow> := [];
    var i := 0;
    assert copy[i..] == copy0 && copy[..i] == [];
    assert done + RootScan(copy0, wd, ws, sp).0 == RootScan(copy0, wd, ws, sp).0;
    assert copy[..i] + RootScan(copy0, wd, ws, sp).1 == RootScan(copy0, wd, ws, sp).1;
    while i < |copy|
      invariant ScanStartAt(copy0, copy, i, done, wd, ws, sp)
      invariant lines == Flatten(st, done)
      decreases |copy| + 1 - i
    {
      var hit := MountsHit(copy[i], wd, ws, sp);
      ScanStartAdvance(copy0, copy, i, done, wd, ws, sp);
      if hit {
        var more := EntryLines(st, copy[i]);
        FlattenSnoc(st, done, copy[i]);
        lines := lines + more;
        done := done + [copy[i]];
        copy := RemoveAt(copy, i);
      }
      i := i + 1;
    }
    if i == |copy| {
      assert copy[i..] == [] && copy[..i] == copy;
      assert RootScan(copy[i..], wd, ws, sp) == ([], []);
      assert done + [] == done && copy + [] == copy;
    }
  }

  /** The first SWAP row of the group, taken out of the list. */
  method ScanSwap(copy0: seq<PlanRow>, wd: string, ws: string) returns (swap: Option<PlanRow>, copy: seq<PlanRow>)
    ensures FindSwap(copy0, wd, ws).None? ==> swap.None? && copy == copy0
    ensures FindSwap(copy0, wd, ws).Some? ==>
      var k := FindSwap(copy0, wd, ws).value; swap == Some(copy0[k]) && copy == RemoveAt(copy0, k)
  {
    copy := copy0;
    swap := None;
    for i := 0 to |copy|
      invariant copy == copy0 && swap.None?
      invariant forall k :: 0 <= k < i ==> !IsSwap(copy0[k], wd, ws)
    {
      if copy[i].disk == wd && copy[i].slice == ws && copy[i].mount == "SWAP" {
        swap := Some(copy[i]);
        copy := RemoveAt(copy, i);
        return;
      }
    }
  }

  /** The first row naming `MIRROR(<wd>)`, with the summary's note about
      it, taken out of the list. */
  method ScanMirror(copy0: seq<PlanRow>, wd: string) returns (lines: seq<string>, copy: seq<PlanRow>)
    ensures FindMirror(copy0, wd).None? ==> lines == [] && copy == copy0
    ensures FindMirror(copy0, wd).Some? ==>
      var k := FindMirror(copy0, wd).value;
      lines == ["Disk:" + copy0[k].disk + " " + "Mirroring:" + wd] && copy == RemoveAt(copy0, k)
  {
    copy := copy0;
    lines := [];
    for i := 0 to |copy|
      invariant copy == copy0 && lines == []
      invariant forall k :: 0 <= k < i ==> !Contains(copy0[k].mount, "MIRROR(" + wd + ")")
    {
      if IndexOf(copy[i].mount, "MIRROR(" + wd + ")") != -1 {
        lines := ["Disk:" + copy[i].disk + " " + "Mirroring:" + wd];
        copy := RemoveAt(copy, i);
        return;
      }
    }
  }

  /** Removing a group row at `i` keeps the rows before `i` and shifts
      the rest down by one. */
  lemma RemoveAtShape(copy: seq<PlanRow>, i: nat)
    requires i < |copy|
    ensures RemoveAt(copy, i)[..i] == copy[..i]
    ensures RemoveAt(copy, i)[i..] == copy[i + 1..]
  {
  }

  /** One step of the scans that remove every group row: what remains of
      the other groups before and after index `i`. */
  lemma OthersStep(copy: seq<PlanRow>, i: nat, d: string, s: string)
    requires i < |copy|
    ensures InGroup(copy[i], d, s) ==>
      copy[..i] + Others(copy[i..], d, s) == RemoveAt(copy, i)[..i] + Others(RemoveAt(copy, i)[i..], d, s)
    ensures !InGroup(copy[i], d, s) ==>
      copy[..i] + Others(copy[i..], d, s) == copy[..i + 1] + Others(copy[i + 1..], d, s)
  {
    var suffix := copy[i..];
    assert suffix[0] == copy[i] && suffix[1..] == copy[i + 1..];
    RemoveAtShape(copy, i);
    if !InGroup(copy[i], d, s) {
      assert Others(suffix, d, s) == [copy[i]] + Others(suffix[1..], d, s);
      assert copy[..i + 1] == copy[..i] + [copy[i]];
    }
  }

  /** One step of the config's last loop. */
  lemma RestCfgStep(copy: seq<PlanRow>, i: nat, d: string, s: string, n: nat)
    requires i < |copy|
    ensures InGroup(copy[i], d, s) ==>
      RestCfgLines(copy[i..], d, s, n)
        == CfgPartLines(n, copy[i], if i == |copy| - 1 then "0" else copy[i].size) + RestCfgLines(RemoveAt(copy, i)[i..], d, s, n)
    ensures !InGroup(copy[i], d, s) ==> RestCfgLines(copy[i..], d, s, n) == RestCfgLines(copy[i + 1..], d, s, n)
  {
    var suffix := copy[i..];
    assert suffix[0] == copy[i] && suffix[1..] == copy[i + 1..];
    RemoveAtShape(copy, i);
  }

  /** One step of the summary's last loop. */
  lemma RestSummaryStep(copy: seq<PlanRow>, i: nat, d: string, s: string)
    requires i < |copy|
    ensures InGroup(copy[i], d, s) ==>
      Flatten(SummaryRest, Group(copy[i..], d, s))
        == SummaryRestLines(copy[i]) + Flatten(SummaryRest, Group(RemoveAt(copy, i)[i..], d, s))
    ensures !InGroup(copy[i], d, s) ==>
      Flatten(SummaryRest, Group(copy[i..], d, s)) == Flatten(SummaryRest, Group(copy[i + 1..], d, s))
  {
    var suffix := copy[i..];
    assert suffix[0] == copy[i] && suffix[1..] == copy[i + 1..];
    RemoveAtShape(copy, i);
    FlattenGroupCons(SummaryRest, suffix, d, s);
  }

  /** The config's last loop over a group: every group row, with size "0"
      at the last index of the working list. */
  method RestCfg(copy0: seq<PlanRow>, wd: string, ws: string, n: nat) returns (lines: seq<string>, copy: seq<PlanRow>)
    ensures lines == RestCfgLines(copy0, wd, ws, n)
    ensures copy == Others(copy0, wd, ws)
  {
    copy := copy0;
    lines := [];
    var count := |copy|;
    var i := 0;
    assert copy[i..] == copy0 && copy[..i] == [];
    while i < count
      invariant count == |copy| && 0 <= i <= count
      invariant RestCfgLines(copy0, wd, ws, n) == lines + RestCfgLines(copy[i..], wd, ws, n)
      invariant Others(copy0, wd, ws) == copy[..i] + Others(copy[i..], wd, ws)
      decreases count - i
    {
      OthersStep(copy, i, wd, ws);
      RestCfgStep(copy, i, wd, ws, n);
      if copy[i].disk == wd && copy[i].slice == ws {
        var sliceSize := if i == count - 1 then "0" else copy[i].size;
        var more := CfgPartLines(n, copy[i], sliceSize);
        assert lines + (more + RestCfgLines(RemoveAt(copy, i)[i..], wd, ws, n))
            == (lines + more) + RestCfgLines(RemoveAt(copy, i)[i..], wd, ws, n);
        lines := lines + more;
        copy := RemoveAt(copy, i);
        i := i - 1;
        count := count - 1;
      }
      i := i + 1;
    }
    assert copy[i..] == [] && copy[..i] == copy;
  }

  /** The summary's last loop over a group: every group row, each with its
      stored size. */
  method RestSummary(copy0: seq<PlanRow>, wd: string, ws: string) returns (lines: seq<string>, copy: seq<PlanRow>)
    ensures lines == Flatten(SummaryRest, Group(copy0, wd, ws))
    ensures copy == Others(copy0, wd, ws)
  {
    copy := copy0;
    lines := [];
    var count := |copy|;
    var i := 0;
    assert copy[i..] == copy0 && copy[..i] == [];
    while i < count
      invariant count == |copy| && 0 <= i <= count
      invariant Flatten(SummaryRest, Group(copy0, wd, ws)) == lines + Flatten(SummaryRest, Group(copy[i..], wd, ws))
      invariant Others(copy0, wd, ws) == copy[..i] + Others(copy[i..], wd, ws)
      decreases count - i
    {
      OthersStep(copy, i, wd, ws);
      RestSummaryStep(copy, i, wd, ws);
      if copy[i].disk == wd && copy[i].slice == ws {
        var more := SummaryRestLines(copy[i]);
        assert lines + (more + Flatten(SummaryRest, Group(RemoveAt(copy, i)[i..], wd, ws)))
            == (lines + more) + Flatten(SummaryRest, Group(RemoveAt(copy, i)[i..], wd, ws));
        lines := lines + more;
        copy := RemoveAt(copy, i);
        i := i - 1;
        count := count - 1;
      }
      i := i + 1;
    }
    assert copy[i..] == [] && copy[..i] == copy;
  }
}
