/**
 * Sampling: the `top` process table is read, every well-formed row is
 * added to a running total, and the rows owned by the current user to a
 * separate sub-total (SystemMonitor.get_system_usage).
 */
module Usage {
  import opened Wrappers
  import Text
  import Decimal

  /** A row that was counted: its owner and its CPU and memory percentages. */
  datatype Record = Record(owner: string, cpu: real, mem: real)

  /** The running sums over counted rows. */
  datatype Sums = Sums(totalCpu: real, totalMem: real, userCpu: real, userMem: real)

  /** One sample: CPU and memory of the current user and of everyone else, in percent. */
  datatype Sample = Sample(userCpu: real, othersCpu: real, userMem: real, othersMem: real)

  /** Lines of `top` output before the process rows. */
  const HeaderLines: nat := 7
  /** A row with fewer whitespace-separated tokens is skipped. */
  const MinColumns: nat := 10
  const DefaultCpuColumn: nat := 8
  const DefaultMemColumn: nat := 9
  const OwnerColumn: nat := 1

  const NoSums := Sums(0.0, 0.0, 0.0, 0.0)
  const ZeroSample := Sample(0.0, 0.0, 0.0, 0.0)

  /** The candidate process rows: `output.strip().split('\n')[7:]`. */
  function DataLines(output: string): (r: seq<string>)
    ensures var lines := Text.Split(Text.Strip(output), "\n");
      && |r| == (if |lines| <= HeaderLines then 0 else |lines| - HeaderLines)
      && forall k :: 0 <= k < |r| ==> r[k] == lines[HeaderLines + k]
  {
    Text.Drop(Text.Split(Text.Strip(output), "\n"), HeaderLines)
  }

  /**
   * The CPU and memory column indices after scanning the first `n` tokens:
   * a token containing `%CPU` moves the CPU column to it, otherwise one
   * containing `%MEM` moves the memory column to it.
   */
  function Columns(parts: seq<string>, n: nat): (r: (nat, nat))
    requires n <= |parts|
    ensures r.0 == DefaultCpuColumn || r.0 < n
    ensures r.1 == DefaultMemColumn || r.1 < n
  {
    if n == 0 then (DefaultCpuColumn, DefaultMemColumn)
    else
      var (c, m) := Columns(parts, n - 1);
      if Text.Contains(parts[n - 1], "%CPU") then (n - 1, m)
      else if Text.Contains(parts[n - 1], "%MEM") then (c, n - 1)
      else (c, m)
  }

  /** The record a tokenised row contributes, or None when either value is not a number. */
  function ParseParts(parts: seq<string>): Option<Record>
    requires |parts| >= MinColumns
  {
    var (c, m) := Columns(parts, |parts|);
    match (Decimal.ParseDecimal(parts[c]), Decimal.ParseDecimal(parts[m]))
    case (Some(cpu), Some(mem)) => Some(Record(parts[OwnerColumn], cpu, mem))
    case _ => None
  }

  /** The record one line contributes, or None when the line is skipped. */
  function ParseLine(line: string): (r: Option<Record>)
    ensures |Text.Tokens(line)| < MinColumns ==> r.None?
    ensures r.Some? ==> r.value.owner == Text.Tokens(line)[OwnerColumn] && r.value.owner != []
  {
    var parts := Text.Tokens(line);
    if |parts| < MinColumns then None else ParseParts(parts)
  }

  /** What each line contributes, in order. */
  function Rows(lines: seq<string>): (r: seq<Option<Record>>)
    ensures |r| == |lines|
  {
    if |lines| == 0 then [] else Rows(lines[..|lines| - 1]) + [ParseLine(lines[|lines| - 1])]
  }

  /** The rows of one more line are the rows so far and that line's. */
  lemma RowsStep(lines: seq<string>, i: nat)
    requires i < |lines|
    ensures Rows(lines[..i + 1]) == Rows(lines[..i]) + [ParseLine(lines[i])]
  {
    assert lines[..i + 1][..i] == lines[..i];
  }

  /** Adds one line's contribution: to the totals, and to the user's sums when the owner matches. */
  function Add(s: Sums, r: Option<Record>, user: string): Sums {
    match r
    case None => s
    case Some(rec) =>
      if rec.owner == user then
        Sums(s.totalCpu + rec.cpu, s.totalMem + rec.mem, s.userCpu + rec.cpu, s.userMem + rec.mem)
      else
        Sums(s.totalCpu + rec.cpu, s.totalMem + rec.mem, s.userCpu, s.userMem)
  }

  /** The sums after processing the rows in order. */
  function SumRows(rows: seq<Option<Record>>, user: string): (r: Sums)
    ensures (forall k :: 0 <= k < |rows| ==> rows[k].None?) ==> r == NoSums
  {
    if |rows| == 0 then NoSums
    else Add(SumRows(rows[..|rows| - 1], user), rows[|rows| - 1], user)
  }

  function Clamp(x: real): (r: real)
    ensures 0.0 <= r <= 100.0
    ensures 0.0 <= x <= 100.0 ==> r == x
    ensures x < 0.0 ==> r == 0.0
    ensures x > 100.0 ==> r == 100.0
  {
    if x > 100.0 then 100.0 else if x < 0.0 then 0.0 else x
  }

  predicate InRange(s: Sample) {
    && 0.0 <= s.userCpu <= 100.0 && 0.0 <= s.othersCpu <= 100.0
    && 0.0 <= s.userMem <= 100.0 && 0.0 <= s.othersMem <= 100.0
  }

  /** A CPU sum as a share of the whole machine: `x * 100 / (100 * cores)`. */
  function PerCore(x: real, cores: int): real
    requires cores != 0
  {
    x * (100.0 / (100.0 * cores as real))
  }

  /** Scales the sums to a sample: CPU per core, the others as total minus user, all clamped. */
  function Scale(s: Sums, cores: int): (r: Sample)
    requires cores != 0
    ensures InRange(r)
  {
    Sample(Clamp(PerCore(s.userCpu, cores)), Clamp(PerCore(s.totalCpu - s.userCpu, cores)),
           Clamp(s.userMem), Clamp(s.totalMem - s.userMem))
  }

  /**
   * What get_system_usage returns for the output of `top` (None when the
   * command failed), the USER variable (None when unset) and the core
   * count (None when unknown). Every failure gives four zeros.
   */
  function SystemUsage(output: Option<string>, userEnv: Option<string>, cpuCount: Option<int>): (r: Sample)
    ensures InRange(r)
  {
    match output
    case None => ZeroSample
    case Some(text) => UsageOf(SumRows(Rows(DataLines(text)), userEnv.GetOr("")), cpuCount)
  }

  /** The sample for given sums: zeros when the core count is unknown or zero. */
  function UsageOf(s: Sums, cpuCount: Option<int>): (r: Sample)
    ensures InRange(r)
  {
    if cpuCount.None? || cpuCount.value == 0 then ZeroSample else Scale(s, cpuCount.value)
  }

  /** The column scan over a row's tokens: the last `%CPU` and the last `%MEM` header token win. */
  method ScanColumns(parts: seq<string>) returns (cpuIdx: nat, memIdx: nat)
    ensures (cpuIdx, memIdx) == Columns(parts, |parts|)
  {
    cpuIdx, memIdx := DefaultCpuColumn, DefaultMemColumn;
    var k := 0;
    while k < |parts|
      invariant 0 <= k <= |parts|
      invariant (cpuIdx, memIdx) == Columns(parts, k)
    {
      if Text.Contains(parts[k], "%CPU") {
        cpuIdx := k;
      } else if Text.Contains(parts[k], "%MEM") {
        memIdx := k;
      }
      k := k + 1;
    }
  }

  /** The body of the per-line loop: strip, tokenise, locate the columns, convert. */
  method ParseRow(line: string) returns (r: Option<Record>)
    ensures r == ParseLine(line)
  {
    if Text.Strip(line) == [] {
      Text.BlankHasNoTokens(line);
      return None;
    }
    var parts := Text.Tokens(line);
    if |parts| < MinColumns {
      return None;
    }
    var cpuIdx, memIdx := ScanColumns(parts);
    var cpuVal := Decimal.ParseDecimal(parts[cpuIdx]);
    var memVal := Decimal.ParseDecimal(parts[memIdx]);
    if cpuVal.Some? && memVal.Some? {
      r := Some(Record(parts[OwnerColumn], cpuVal.value, memVal.value));
    } else {
      r := None;
    }
  }

  /** The counter updates for one row: a counted row adds to the totals, and to the user's sums if theirs. */
  method Accumulate(totalCpu: real, totalMem: real, userCpu: real, userMem: real,
                    row: Option<Record>, currentUser: string)
    returns (totalCpu': real, totalMem': real, userCpu': real, userMem': real)
    ensures Sums(totalCpu', totalMem', userCpu', userMem')
         == Add(Sums(totalCpu, totalMem, userCpu, userMem), row, currentUser)
  {
    totalCpu', totalMem', userCpu', userMem' := totalCpu, totalMem, userCpu, userMem;
    if row.Some? {
      totalCpu' := totalCpu' + row.value.cpu;
      totalMem' := totalMem' + row.value.mem;
      if row.value.owner == currentUser {
        userCpu' := userCpu' + row.value.cpu;
        userMem' := userMem' + row.value.mem;
      }
    }
  }

  /** The loop over the rows: the counters after every row has been read. */
  method SumTable(lines: seq<string>, currentUser: string)
    returns (totalCpu: real, totalMem: real, userCpu: real, userMem: real)
    ensures Sums(totalCpu, totalMem, userCpu, userMem) == SumRows(Rows(lines), currentUser)
  {
    totalCpu, totalMem, userCpu, userMem := 0.0, 0.0, 0.0, 0.0;
    var i := 0;
    while i < |lines|
      invariant 0 <= i <= |lines|
      invariant Sums(totalCpu, totalMem, userCpu, userMem) == SumRows(Rows(lines[..i]), currentUser)
    {
      var row := ParseRow(lines[i]);
      ghost var before := Sums(totalCpu, totalMem, userCpu, userMem);
      totalCpu, totalMem, userCpu, userMem := Accumulate(totalCpu, totalMem, userCpu, userMem, row, currentUser);
      LoopStep(lines, i, currentUser, row, before, Sums(totalCpu, totalMem, userCpu, userMem));
      i := i + 1;
    }
    assert lines[..i] == lines;
  }

  /**
   * get_system_usage: read the rows, then scale and clamp. Every failure
   * (no output, unknown or zero core count) gives four zeros.
   */
  method GetSystemUsage(output: Option<string>, userEnv: Option<string>, cpuCount: Option<int>)
    returns (r: Sample)
    ensures r == SystemUsage(output, userEnv, cpuCount)
  {
    var currentUser := userEnv.GetOr("");
    if output.None? {
      return ZeroSample;
    }
    var lines := DataLines(output.value);
    var totalCpu, totalMem, userCpu, userMem := SumTable(lines, currentUser);
    r := ToSample(totalCpu, totalMem, userCpu, userMem, cpuCount);
  }

  /** The tail of get_system_usage: the others' shares, the division by the core count, the clamping. */
  method ToSample(totalCpu: real, totalMem: real, userCpu: real, userMem: real, cpuCount: Option<int>)
    returns (r: Sample)
    ensures r == UsageOf(Sums(totalCpu, totalMem, userCpu, userMem), cpuCount)
  {
    if cpuCount.None? || cpuCount.value == 0 {
      return ZeroSample;
    }
    var othersCpu := totalCpu - userCpu;
    var othersMem := totalMem - userMem;
    var userShare := PerCore(userCpu, cpuCount.value);
    var othersShare := PerCore(othersCpu, cpuCount.value);
    r := Sample(Clamp(userShare), Clamp(othersShare), Clamp(userMem), Clamp(othersMem));
  }

  // ---------------------------------------------------------------------
  // An independent description of the sums: the list of counted records,
  // split by owner.

  /** The records of the counted rows, in order. */
  function Counted(rows: seq<Option<Record>>): seq<Record> {
    if |rows| == 0 then []
    else
      var last := rows[|rows| - 1];
      Counted(rows[..|rows| - 1]) + (if last.Some? then [last.value] else [])
  }

  function OwnedBy(recs: seq<Record>, user: string): seq<Record> {
    if |recs| == 0 then []
    else OwnedBy(recs[..|recs| - 1], user) + (if recs[|recs| - 1].owner == user then [recs[|recs| - 1]] else [])
  }

  function NotOwnedBy(recs: seq<Record>, user: string): seq<Record> {
    if |recs| == 0 then []
    else NotOwnedBy(recs[..|recs| - 1], user) + (if recs[|recs| - 1].owner != user then [recs[|recs| - 1]] else [])
  }

  function CpuSum(recs: seq<Record>): real {
    if |recs| == 0 then 0.0 else CpuSum(recs[..|recs| - 1]) + recs[|recs| - 1].cpu
  }

  function MemSum(recs: seq<Record>): real {
    if |recs| == 0 then 0.0 else MemSum(recs[..|recs| - 1]) + recs[|recs| - 1].mem
  }

  /** Summing a list with one more record adds that record's values. */
  lemma SumsSnoc(recs: seq<Record>, rec: Record)
    ensures CpuSum(recs + [rec]) == CpuSum(recs) + rec.cpu
    ensures MemSum(recs + [rec]) == MemSum(recs) + rec.mem
  {
    InitOfAppend(recs, [rec]);
  }

  /** Filtering a list with one more record keeps or drops that record. */
  lemma FiltersSnoc(recs: seq<Record>, rec: Record, user: string)
    ensures OwnedBy(recs + [rec], user) == OwnedBy(recs, user) + (if rec.owner == user then [rec] else [])
    ensures NotOwnedBy(recs + [rec], user) == NotOwnedBy(recs, user) + (if rec.owner != user then [rec] else [])
  {
    InitOfAppend(recs, [rec]);
  }

  /** The records a user owns and those others own add up to all the records. */
  lemma {:induction false} SplitByOwner(recs: seq<Record>, user: string)
    ensures CpuSum(recs) == CpuSum(OwnedBy(recs, user)) + CpuSum(NotOwnedBy(recs, user))
    ensures MemSum(recs) == MemSum(OwnedBy(recs, user)) + MemSum(NotOwnedBy(recs, user))
    decreases |recs|
  {
    if |recs| != 0 {
      var init, rec := recs[..|recs| - 1], recs[|recs| - 1];
      SplitByOwner(init, user);
      assert recs == init + [rec];
      SumsSnoc(init, rec);
      FiltersSnoc(init, rec, user);
      if rec.owner == user {
        assert OwnedBy(recs, user) == OwnedBy(init, user) + [rec];
        assert NotOwnedBy(recs, user) == NotOwnedBy(init, user);
        SumsSnoc(OwnedBy(init, user), rec);
      } else {
        assert OwnedBy(recs, user) == OwnedBy(init, user);
        assert NotOwnedBy(recs, user) == NotOwnedBy(init, user) + [rec];
        SumsSnoc(NotOwnedBy(init, user), rec);
      }
    }
  }

  /** The totals and the user's sums over the rows so far, as sums over the counted records. */
  lemma {:induction false} SumsAreRecordSums(rows: seq<Option<Record>>, user: string)
    ensures SumRows(rows, user).totalCpu == CpuSum(Counted(rows))
    ensures SumRows(rows, user).totalMem == MemSum(Counted(rows))
    ensures SumRows(rows, user).userCpu == CpuSum(OwnedBy(Counted(rows), user))
    ensures SumRows(rows, user).userMem == MemSum(OwnedBy(Counted(rows), user))
    decreases |rows|
  {
    if |rows| != 0 {
      var init, last := rows[..|rows| - 1], rows[|rows| - 1];
      SumsAreRecordSums(init, user);
      var recs := Counted(init);
      assert SumRows(rows, user) == Add(SumRows(init, user), last, user);
      if last.Some? {
        var rec := last.value;
        assert Counted(rows) == recs + [rec];
        SumsSnoc(recs, rec);
        FiltersSnoc(recs, rec, user);
        if rec.owner == user {
          assert OwnedBy(Counted(rows), user) == OwnedBy(recs, user) + [rec];
          SumsSnoc(OwnedBy(recs, user), rec);
        } else {
          assert OwnedBy(Counted(rows), user) == OwnedBy(recs, user);
        }
      } else {
        assert Counted(rows) == recs;
      }
    }
  }

  /**
   * The loop's totals are the sums over all counted rows, its user sums
   * the sums over the rows the user owns, and total minus user is exactly
   * the sum over the rows anybody else owns.
   */
  lemma SumsByOwner(rows: seq<Option<Record>>, user: string)
    ensures SumRows(rows, user).totalCpu == CpuSum(Counted(rows))
    ensures SumRows(rows, user).totalMem == MemSum(Counted(rows))
    ensures SumRows(rows, user).userCpu == CpuSum(OwnedBy(Counted(rows), user))
    ensures SumRows(rows, user).userMem == MemSum(OwnedBy(Counted(rows), user))
    ensures SumRows(rows, user).totalCpu - SumRows(rows, user).userCpu == CpuSum(NotOwnedBy(Counted(rows), user))
    ensures SumRows(rows, user).totalMem - SumRows(rows, user).userMem == MemSum(NotOwnedBy(Counted(rows), user))
  {
    SumsAreRecordSums(rows, user);
    SplitByOwner(Counted(rows), user);
  }

  /** Sums of two consecutive parts of the table add up. */
  function Merge(a: Sums, b: Sums): Sums {
    Sums(a.totalCpu + b.totalCpu, a.totalMem + b.totalMem, a.userCpu + b.userCpu, a.userMem + b.userMem)
  }

  lemma InitOfAppend<T>(a: seq<T>, b: seq<T>)
    requires |b| != 0
    ensures (a + b)[..|a + b| - 1] == a + b[..|b| - 1]
    ensures (a + b)[|a + b| - 1] == b[|b| - 1]
  {
  }

  /** One turn of the row loop: adding the next line's row extends the sums to one more line. */
  lemma LoopStep(lines: seq<string>, i: nat, user: string, row: Option<Record>, before: Sums, after: Sums)
    requires i < |lines| && row == ParseLine(lines[i])
    requires before == SumRows(Rows(lines[..i]), user)
    requires after == Add(before, row, user)
    ensures after == SumRows(Rows(lines[..i + 1]), user)
  {
    RowsStep(lines, i);
    SumRowsSnoc(Rows(lines[..i]), row, user);
  }

  /** One more row at the end adds that row. */
  lemma SumRowsSnoc(rows: seq<Option<Record>>, row: Option<Record>, user: string)
    ensures SumRows(rows + [row], user) == Add(SumRows(rows, user), row, user)
  {
    InitOfAppend(rows, [row]);
  }

  /** Extending a prefix of the rows by one row adds that row. */
  lemma SumRowsStep(rows: seq<Option<Record>>, i: nat, user: string)
    requires i < |rows|
    ensures SumRows(rows[..i + 1], user) == Add(SumRows(rows[..i], user), rows[i], user)
  {
    assert rows[..i + 1][..i] == rows[..i];
  }

  lemma AddMerge(x: Sums, y: Sums, r: Option<Record>, user: string)
    ensures Add(Merge(x, y), r, user) == Merge(x, Add(y, r, user))
  {
  }

  lemma {:induction false} SumRowsAppend(a: seq<Option<Record>>, b: seq<Option<Record>>, user: string)
    ensures SumRows(a + b, user) == Merge(SumRows(a, user), SumRows(b, user))
    decreases |b|
  {
    if |b| == 0 {
      assert a + b == a;
    } else {
      var init, last := b[..|b| - 1], b[|b| - 1];
      SumRowsAppend(a, init, user);
      InitOfAppend(a, b);
      var x, y := SumRows(a, user), SumRows(init, user);
      assert SumRows(a + b, user) == Add(SumRows(a + init, user), last, user);
      assert SumRows(b, user) == Add(y, last, user);
      AddMerge(x, y, last, user);
      assert SumRows(a + b, user) == Add(Merge(x, y), last, user);
    }
  }

  /** A line that is skipped leaves the sums of the other lines as they are. */
  lemma SkippedRowNeutral(before: seq<Option<Record>>, after: seq<Option<Record>>, user: string)
    ensures SumRows(before + [None] + after, user) == SumRows(before + after, user)
  {
    SumRowsAppend(before + [None], after, user);
    SumRowsAppend(before, [None], user);
    SumRowsAppend(before, after, user);
    var skipped: seq<Option<Record>> := [None];
    assert skipped[..0] == [];
  }

  /**
   * A row where some token contains `%CPU`, or some token contains `%MEM`,
   * is never counted: the column index is moved onto that token, which is
   * not a number.
   */
  lemma MarkedRowDropped(parts: seq<string>, j: nat)
    requires |parts| >= MinColumns && j < |parts|
    requires Text.Contains(parts[j], "%CPU") || Text.Contains(parts[j], "%MEM")
    ensures ParseParts(parts).None?
  {
    MarkedColumns(parts, |parts|, j);
    var (c, m) := Columns(parts, |parts|);
    if Text.Contains(parts[c], "%CPU") {
      PercentInside(parts[c], "%CPU");
      Decimal.RejectsNonNumeral(parts[c], '%');
    } else {
      PercentInside(parts[m], "%MEM");
      Decimal.RejectsNonNumeral(parts[m], '%');
    }
  }

  lemma PercentInside(s: string, pat: string)
    requires pat != [] && pat[0] == '%' && Text.Contains(s, pat)
    ensures '%' in s
  {
    var i := Text.IndexOf(s, pat).value;
    assert s[i..i + |pat|][0] == s[i];
  }

  /** After scanning a marked token, one of the two chosen columns holds a marked token. */
  lemma {:induction false} MarkedColumns(parts: seq<string>, n: nat, j: nat)
    requires j < n <= |parts|
    requires Text.Contains(parts[j], "%CPU") || Text.Contains(parts[j], "%MEM")
    ensures (Columns(parts, n).0 < n && Text.Contains(parts[Columns(parts, n).0], "%CPU"))
            || (Columns(parts, n).1 < n && Text.Contains(parts[Columns(parts, n).1], "%MEM"))
  {
    if j < n - 1 {
      MarkedColumns(parts, n - 1, j);
    }
  }

  /**
   * A row where no token carries a marker is read from the fixed columns:
   * CPU from token 8, memory from token 9, the owner from token 1.
   */
  lemma {:induction false} UnmarkedColumns(parts: seq<string>, n: nat)
    requires n <= |parts|
    requires forall j :: 0 <= j < n ==> !Text.Contains(parts[j], "%CPU") && !Text.Contains(parts[j], "%MEM")
    ensures Columns(parts, n) == (DefaultCpuColumn, DefaultMemColumn)
  {
    if n > 0 {
      UnmarkedColumns(parts, n - 1);
    }
  }

  /** The CPU column is the last token containing `%CPU`. */
  lemma {:induction false} LastCpuMarkerWins(parts: seq<string>, n: nat, j: nat)
    requires j < n <= |parts| && Text.Contains(parts[j], "%CPU")
    requires forall k :: j < k < n ==> !Text.Contains(parts[k], "%CPU")
    ensures Columns(parts, n).0 == j
  {
    if j < n - 1 {
      LastCpuMarkerWins(parts, n - 1, j);
    }
  }

  /**
   * The memory column is the last token containing `%MEM` but not `%CPU`:
   * a token holding both markers only moves the CPU column.
   */
  lemma {:induction false} LastMemMarkerWins(parts: seq<string>, n: nat, j: nat)
    requires j < n <= |parts|
    requires Text.Contains(parts[j], "%MEM") && !Text.Contains(parts[j], "%CPU")
    requires forall k :: j < k < n ==> !Text.Contains(parts[k], "%MEM") || Text.Contains(parts[k], "%CPU")
    ensures Columns(parts, n).1 == j
  {
    if j < n - 1 {
      LastMemMarkerWins(parts, n - 1, j);
    }
  }

  lemma DefaultColumnsRead(parts: seq<string>)
    requires |parts| >= MinColumns
    requires forall j :: 0 <= j < |parts| ==> !Text.Contains(parts[j], "%CPU") && !Text.Contains(parts[j], "%MEM")
    ensures ParseParts(parts).Some? <==>
            Decimal.ParseDecimal(parts[8]).Some? && Decimal.ParseDecimal(parts[9]).Some?
    ensures ParseParts(parts).Some? ==>
            ParseParts(parts).value == Record(parts[1], Decimal.ParseDecimal(parts[8]).value, Decimal.ParseDecimal(parts[9]).value)
  {
    UnmarkedColumns(parts, |parts|);
  }

  /** With USER unset (or empty) no row is the user's: owners are non-empty tokens. */
  lemma {:induction false} UnsetUserOwnsNothing(lines: seq<string>)
    ensures SumRows(Rows(lines), "").userCpu == 0.0 && SumRows(Rows(lines), "").userMem == 0.0
    decreases |lines|
  {
    if lines != [] {
      var init := lines[..|lines| - 1];
      UnsetUserOwnsNothing(init);
      assert Rows(lines)[..|lines| - 1] == Rows(init);
      var line := lines[|lines| - 1];
      if ParseLine(line).Some? {
        assert ParseLine(line).value.owner == Text.Tokens(line)[OwnerColumn];
      }
    }
  }

  lemma UnsetUserSample(output: string, cores: int)
    requires cores != 0
    ensures SystemUsage(Some(output), None, Some(cores)).userCpu == 0.0
    ensures SystemUsage(Some(output), None, Some(cores)).userMem == 0.0
  {
    var sums := SumRows(Rows(DataLines(output)), "");
    assert SystemUsage(Some(output), None, Some(cores)) == Scale(sums, cores);
    UnsetUserOwnsNothing(DataLines(output));
    NothingOwnedScalesToZero(sums, cores);
  }

  lemma NothingOwnedScalesToZero(s: Sums, cores: int)
    requires cores != 0 && s.userCpu == 0.0 && s.userMem == 0.0
    ensures Scale(s, cores).userCpu == 0.0 && Scale(s, cores).userMem == 0.0
  {
  }

  /** When `top` fails, or the core count is unknown or zero, the sample is all zeros. */
  lemma FailureGivesZeros(output: Option<string>, userEnv: Option<string>, cpuCount: Option<int>)
    requires output.None? || cpuCount.None? || cpuCount == Some(0)
    ensures SystemUsage(output, userEnv, cpuCount) == ZeroSample
  {
  }

  /** Output with no more than the seven header lines holds no rows: the sample is all zeros. */
  lemma HeaderOnlyGivesZeros(output: string, userEnv: Option<string>, cores: int)
    requires |Text.Split(Text.Strip(output), "\n")| <= HeaderLines
    ensures SystemUsage(Some(output), userEnv, Some(cores)) == ZeroSample
  {
    assert DataLines(output) == [];
    assert SumRows(Rows(DataLines(output)), userEnv.GetOr("")) == NoSums;
    if cores != 0 {
      assert PerCore(0.0, cores) == 0.0;
    }
  }

  /**
   * Three rows on a two-core machine, two of them the user's: the user's
   * CPU is halved, memory is not scaled.
   */
  lemma TwoCoreExample()
    ensures var rows := [Some(Record("alice", 10.0, 5.0)), Some(Record("bob", 30.0, 20.0)),
                         Some(Record("alice", 5.0, 5.0))];
            UsageOf(SumRows(rows, "alice"), Some(2)) == Sample(7.5, 15.0, 10.0, 20.0)
  {
    var rows := [Some(Record("alice", 10.0, 5.0)), Some(Record("bob", 30.0, 20.0)),
                 Some(Record("alice", 5.0, 5.0))];
    var one, two := rows[..1], rows[..2];
    assert one[..0] == [];
    assert SumRows(one, "alice") == Sums(10.0, 5.0, 10.0, 5.0);
    assert two[..1] == one;
    assert "bob" != "alice" by { assert "bob"[0] != "alice"[0]; }
    assert SumRows(two, "alice") == Sums(40.0, 25.0, 10.0, 5.0);
    assert rows[..2] == two;
    assert SumRows(rows, "alice") == Sums(45.0, 30.0, 15.0, 10.0);
  }

  /** Dividing by the core count distributes over a sum. */
  lemma PerCoreAdds(a: real, b: real, cores: int)
    requires cores != 0
    ensures PerCore(a, cores) + PerCore(b, cores) == PerCore(a + b, cores)
    ensures PerCore(a + b, cores) == (a + b) / cores as real
  {
  }

  /**
   * When no value needed clamping, the user's and the others' CPU add up
   * to the machine total divided by the core count, and the two memory
   * values to the machine's total memory percentage.
   */
  lemma UnclampedPartsAddUp(s: Sums, cores: int)
    requires cores != 0
    requires 0.0 <= PerCore(s.userCpu, cores) <= 100.0
    requires 0.0 <= PerCore(s.totalCpu - s.userCpu, cores) <= 100.0
    requires 0.0 <= s.userMem <= 100.0 && 0.0 <= s.totalMem - s.userMem <= 100.0
    ensures Scale(s, cores).userCpu + Scale(s, cores).othersCpu == s.totalCpu / cores as real
    ensures Scale(s, cores).userMem + Scale(s, cores).othersMem == s.totalMem
  {
    PerCoreAdds(s.userCpu, s.totalCpu - s.userCpu, cores);
  }
}
