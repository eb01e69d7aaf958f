// The integer side of the metrics report: disk usage summed over the
// mounted disks, and the sectors read and written summed over the whole
// devices listed in the block-device statistics.

module Metrics {
  import opened Wrappers
  import opened Text

  // ---------------------------------------------------------------------
  // Disk usage
  // ---------------------------------------------------------------------

  /** A mounted disk: its size and the space still available, in bytes. */
  datatype Disk = Disk(total: nat, available: nat)

  datatype DiskUsage = DiskUsage(total: nat, used: nat)

  /** `saturating_sub` */
  function SaturatingSub(a: nat, b: nat): (r: nat)
    ensures r <= a
    ensures b <= a ==> r + b == a
    ensures b >= a ==> r == 0
  {
    if a >= b then a - b else 0
  }

  /** The fold over the disks: sizes summed, and the used space (size less available, at least 0) summed. */
  function Usage(disks: seq<Disk>): DiskUsage
    decreases |disks|
  {
    if |disks| == 0 then DiskUsage(0, 0)
    else
      var rest := Usage(disks[..|disks| - 1]);
      var d := disks[|disks| - 1];
      DiskUsage(rest.total + d.total, rest.used + SaturatingSub(d.total, d.available))
  }

  function TotalAvailable(disks: seq<Disk>): nat
    decreases |disks|
  {
    if |disks| == 0 then 0 else TotalAvailable(disks[..|disks| - 1]) + disks[|disks| - 1].available
  }

  /** The used space never exceeds the total size, so the usage is at most 100%. */
  lemma {:induction false} UsedAtMostTotal(disks: seq<Disk>)
    ensures Usage(disks).used <= Usage(disks).total
    decreases |disks|
  {
    if |disks| > 0 {
      UsedAtMostTotal(disks[..|disks| - 1]);
    }
  }

  /** When no disk reports more space available than it has, the used space is the total less the available space. */
  lemma {:induction false} UsedIsTotalLessAvailable(disks: seq<Disk>)
    requires forall i :: 0 <= i < |disks| ==> disks[i].available <= disks[i].total
    ensures Usage(disks).used + TotalAvailable(disks) == Usage(disks).total
    decreases |disks|
  {
    if |disks| > 0 {
      UsedIsTotalLessAvailable(disks[..|disks| - 1]);
    }
  }

  /** The disk usage percentage, before rounding: 0 when there is no disk space at all. */
  function DiskPercent(u: DiskUsage): (p: real)
    requires u.used <= u.total
    ensures 0.0 <= p <= 100.0
    ensures p == 0.0 <==> u.total == 0 || u.used == 0
    ensures p == 100.0 <==> u.total > 0 && u.used == u.total
  {
    if u.total > 0 then (u.used as real / u.total as real) * 100.0 else 0.0
  }

  // ---------------------------------------------------------------------
  // Block-device statistics
  // ---------------------------------------------------------------------

  /** Fewer fields than this and a statistics line is skipped. */
  const MIN_FIELDS: nat := 14

  /** The last char of a text, or the default when it is empty. */
  function LastOr(s: string, default: char): (c: char)
    ensures |s| > 0 ==> c == s[|s| - 1]
    ensures |s| == 0 ==> c == default
  {
    if |s| > 0 then s[|s| - 1] else default
  }

  /**
   * A device whose name ends in a digit is taken for a partition and not
   * counted; an empty name counts as ending in `0`.
   */
  predicate IsPartition(name: string) {
    IsAsciiDigit(LastOr(name, '0'))
  }

  /**
   * The sectors read and written on one statistics line: the sixth and the
   * tenth field, when the line has at least fourteen fields, names a whole
   * device in its third, and both counts parse as `u64`.
   */
  function DeviceSectors(line: string): (r: Option<(nat, nat)>)
    ensures r.Some? ==> r.value.0 < U64_LIMIT && r.value.1 < U64_LIMIT
  {
    var parts := SplitWhitespace(line);
    if |parts| < MIN_FIELDS || IsPartition(parts[2]) then None
    else match (ParseU64(parts[5]), ParseU64(parts[9]))
      case (Some(read), Some(written)) => Some((read, written))
      case _ => None
  }

  datatype Sectors = Sectors(read: nat, written: nat)

  /**
   * The sectors of the lines that give any, summed; `sectorsOf` reads one
   * line, and is `DeviceSectors` in the report.
   */
  function SectorTotals(lines: seq<string>, sectorsOf: string -> Option<(nat, nat)>): Sectors
    decreases |lines|
  {
    if |lines| == 0 then Sectors(0, 0)
    else
      var rest := SectorTotals(lines[..|lines| - 1], sectorsOf);
      match sectorsOf(lines[|lines| - 1])
      case Some((r, w)) => Sectors(rest.read + r, rest.written + w)
      case None => rest
  }

  datatype Platform = Linux | OtherOs

  /**
   * `get_io_stats` in sectors: the totals over the statistics file's lines,
   * or nothing read or written when the file cannot be read or the system
   * is not Linux.
   */
  function IoSectors(platform: Platform, diskstats: Option<string>): (s: Sectors)
    ensures platform == OtherOs || diskstats.None? ==> s == Sectors(0, 0)
  {
    if platform == OtherOs || diskstats.None? then Sectors(0, 0)
    else SectorTotals(Lines(diskstats.value), DeviceSectors)
  }

  /** The totals of a file are the totals of its parts. */
  lemma {:induction false} SectorTotalsAppend(a: seq<string>, b: seq<string>, sectorsOf: string -> Option<(nat, nat)>)
    ensures SectorTotals(a + b, sectorsOf).read == SectorTotals(a, sectorsOf).read + SectorTotals(b, sectorsOf).read
    ensures SectorTotals(a + b, sectorsOf).written == SectorTotals(a, sectorsOf).written + SectorTotals(b, sectorsOf).written
    decreases |b|
  {
    if |b| == 0 {
      assert a + b == a;
    } else {
      SectorTotalsAppend(a, b[..|b| - 1], sectorsOf);
      assert (a + b)[..|a + b| - 1] == a + b[..|b| - 1];
    }
  }

  /** A line that gives no sectors adds nothing wherever it stands. */
  lemma SkippedLineAddsNothing(a: seq<string>, line: string, b: seq<string>, sectorsOf: string -> Option<(nat, nat)>)
    requires sectorsOf(line).None?
    ensures SectorTotals(a + [line] + b, sectorsOf) == SectorTotals(a + b, sectorsOf)
  {
    SectorTotalsAppend(a + [line], b, sectorsOf);
    SectorTotalsAppend(a, [line], sectorsOf);
    SectorTotalsAppend(a, b, sectorsOf);
    assert [line][..0] == [];
  }

  /** The words of a statistics line whose fields are all well formed. */
  predicate WellFormedFields(fields: seq<string>) {
    forall i :: 0 <= i < |fields| ==> |fields[i]| > 0 && NoWhitespace(fields[i])
  }

  /** A line naming a whole device gives back the printed sixth and tenth fields. */
  lemma WholeDeviceCounted(fields: seq<string>, read: nat, written: nat)
    requires WellFormedFields(fields) && |fields| >= MIN_FIELDS
    requires !IsAsciiDigit(fields[2][|fields[2]| - 1])
    requires read < U64_LIMIT && fields[5] == NatToString(read)
    requires written < U64_LIMIT && fields[9] == NatToString(written)
    ensures DeviceSectors(JoinWords(fields)) == Some((read, written))
  {
    SplitWhitespaceJoin(fields);
    ParseU64OfPrinted(read);
    ParseU64OfPrinted(written);
  }

  /** A line naming a partition is skipped, whatever its counts. */
  lemma PartitionSkipped(fields: seq<string>)
    requires WellFormedFields(fields) && |fields| >= MIN_FIELDS
    requires IsAsciiDigit(fields[2][|fields[2]| - 1])
    ensures DeviceSectors(JoinWords(fields)).None?
  {
    SplitWhitespaceJoin(fields);
  }

  /** A line with fewer than fourteen fields is skipped. */
  lemma ShortLineSkipped(fields: seq<string>)
    requires WellFormedFields(fields) && |fields| < MIN_FIELDS
    ensures DeviceSectors(JoinWords(fields)).None?
  {
    SplitWhitespaceJoin(fields);
  }

  /** A count that is not a `u64` (too large, signed, empty of digits) skips the line. */
  lemma UnparsableCountSkipped(line: string)
    requires var parts := SplitWhitespace(line);
             |parts| >= MIN_FIELDS && (ParseU64(parts[5]).None? || ParseU64(parts[9]).None?)
    ensures DeviceSectors(line).None?
  {
  }
}
