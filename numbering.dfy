/** `detectar_numeracoes_puladas`: the NFC-e numbers missing from the live
    rows of the report. A row is live unless its status, upper-cased,
    mentions CANCELADO or INUTILIZADO; its number counts when `int()` accepts
    it; the missing numbers are those strictly between two neighbouring
    numbers in ascending order. */
module Numbering {
  import opened PyBuiltins
  import opened XmlTree
  import opened Envelope
  import opened Sorting

  // ---------------------------------------------------------------------------
  // The row filter and the numbers

  /** `status.upper()` contains `word`. pandas turns a status that is not a
      `str` into NaN, and `na=False` makes that a non-match. */
  predicate StatusMentions(status: Node, word: string) {
    status.Text? && Contains(Upper(status.s), word)
  }

  /** The rows the detector keeps: neither cancelled nor voided. */
  predicate Live(r: Record) {
    !StatusMentions(r.status, CancelledStatus) && !StatusMentions(r.status, VoidedStatus)
  }

  /** `int(row['Número NFCe'])`: None where Python raises TypeError (not a
      `str`) or ValueError (not a decimal literal). */
  function NumberOf(r: Record): Option<int> {
    if r.number.Text? then ParseInt(r.number.s) else None
  }

  /** What a row gives the detector: its number when the row is live and
      `int()` accepts the number, nothing otherwise. */
  function Reading(r: Record): Option<int> {
    if Live(r) then NumberOf(r) else None
  }

  /** The values `read` gives for the rows, in row order. */
  function Collect(rows: seq<Record>, read: Record -> Option<int>): seq<int>
    decreases |rows|
  {
    if |rows| == 0 then []
    else
      var last := read(rows[|rows| - 1]);
      Collect(rows[..|rows| - 1], read) + (if last.Some? then [last.value] else [])
  }

  /** The numbers the detector collects, in row order. */
  function LiveNumbers(rows: seq<Record>): seq<int> {
    Collect(rows, Reading)
  }

  function Values(s: seq<int>): set<int> {
    set x | x in s
  }

  // ---------------------------------------------------------------------------
  // The reference definition

  function Least(s: seq<int>): (m: int)
    requires |s| > 0
    ensures m in s && forall i :: 0 <= i < |s| ==> m <= s[i]
  {
    if |s| == 1 then s[0]
    else
      var m := Least(s[..|s| - 1]);
      if s[|s| - 1] < m then s[|s| - 1] else m
  }

  function Greatest(s: seq<int>): (m: int)
    requires |s| > 0
    ensures m in s && forall i :: 0 <= i < |s| ==> s[i] <= m
  {
    if |s| == 1 then s[0]
    else
      var m := Greatest(s[..|s| - 1]);
      if s[|s| - 1] > m then s[|s| - 1] else m
  }

  /** The integers of [lo, hi) that are not in `present`, ascending. */
  function Absent(lo: int, hi: int, present: set<int>): seq<int>
    decreases hi - lo
  {
    if hi <= lo then []
    else Absent(lo, hi - 1, present) + (if hi - 1 in present then [] else [hi - 1])
  }

  /** What the detector promises: with fewer than two numbers nothing;
      otherwise every integer from the least to the greatest number that is
      not one of the numbers, ascending. */
  function Missing(nums: seq<int>): seq<int> {
    if |nums| < 2 then [] else Absent(Least(nums), Greatest(nums) + 1, Values(nums))
  }

  // ---------------------------------------------------------------------------
  // The procedure

  /** `detectar_numeracoes_puladas(df)`: filter the live rows, collect their
      numbers, sort them, and list the integers between each pair of
      neighbours. */
  method DetectGaps(rows: seq<Record>) returns (gaps: seq<int>)
    ensures gaps == Missing(LiveNumbers(rows))
  {
    var live := 0;
    var nums: seq<int> := [];
    var i := 0;
    while i < |rows|
      invariant 0 <= i <= |rows|
      invariant nums == LiveNumbers(rows[..i])
      invariant |nums| <= live
    {
      assert rows[..i + 1][..i] == rows[..i];
      if Live(rows[i]) {
        live := live + 1;
        var n := NumberOf(rows[i]);
        if n.Some? {
          nums := nums + [n.value];
        }
      }
      i := i + 1;
    }
    assert rows[..|rows|] == rows;
    if live == 0 {
      return [];
    }
    gaps := GapsBetween(nums);
  }

  /** The second half of the detector: with fewer than two numbers nothing;
      otherwise sort them and list the integers strictly between each pair of
      neighbours. */
  method GapsBetween(nums: seq<int>) returns (gaps: seq<int>)
    ensures gaps == Missing(nums)
  {
    if |nums| < 2 {
      return [];
    }
    var s := Sort(nums);
    gaps := GapsOfSorted(s);
    SortedEnds(nums);
    SameValues(s, nums);
  }

  /** The loop over the sorted numbers: for each pair of neighbours, the
      integers strictly between them. */
  method GapsOfSorted(s: seq<int>) returns (gaps: seq<int>)
    requires Ascending(s) && |s| >= 2
    ensures gaps == Absent(s[0], s[|s| - 1] + 1, Values(s))
  {
    ghost var present := Values(s);
    gaps := [];
    var j := 0;
    while j < |s| - 1
      invariant 0 <= j <= |s| - 1
      invariant gaps == Absent(s[0], s[j], present)
    {
      var atual, proximo := s[j], s[j + 1];
      assert atual in present;
      AbsentStep(s[0], atual, present);
      if proximo - atual > 1 {
        NothingBetween(s, j);
        gaps := AppendMissing(gaps, atual, proximo, s[0], present);
      }
      j := j + 1;
    }
    assert s[|s| - 1] in present;
    AbsentStep(s[0], s[|s| - 1], present);
  }

  /** The inner loop: appends the integers strictly between `atual` and
      `proximo`, which extends the missing integers from `lo` on up to
      `proximo` when none of them is present. */
  method AppendMissing(gaps: seq<int>, atual: int, proximo: int, ghost lo: int, ghost present: set<int>)
    returns (r: seq<int>)
    requires lo <= atual + 1 <= proximo
    requires gaps == Absent(lo, atual + 1, present)
    requires forall k :: atual < k < proximo ==> k !in present
    ensures r == Absent(lo, proximo, present)
  {
    r := gaps;
    var k := atual + 1;
    while k < proximo
      invariant atual + 1 <= k <= proximo
      invariant r == Absent(lo, k, present)
    {
      AbsentStep(lo, k, present);
      r := r + [k];
      k := k + 1;
    }
  }

  /** Widening the range by one adds the new integer unless it is present. */
  lemma AbsentStep(lo: int, hi: int, present: set<int>)
    requires lo <= hi
    ensures Absent(lo, hi + 1, present) == Absent(lo, hi, present) + (if hi in present then [] else [hi])
  {
  }

  // ---------------------------------------------------------------------------
  // Helpers of the procedure's proof

  /** Sorting puts the least number first and the greatest last. */
  lemma SortedEnds(nums: seq<int>)
    requires |nums| > 0
    ensures Sort(nums)[0] == Least(nums)
    ensures Sort(nums)[|nums| - 1] == Greatest(nums)
  {
    LeastFirst(nums, Sort(nums));
    GreatestLast(nums, Sort(nums));
  }

  lemma LeastFirst(nums: seq<int>, s: seq<int>)
    requires |nums| > 0 && Ascending(s) && multiset(s) == multiset(nums)
    ensures |s| > 0 && s[0] == Least(nums)
  {
    var lo := Least(nums);
    assert lo in multiset(nums);
    FirstIsLeast(s, lo);
    assert s[0] in multiset(nums);
    var i :| 0 <= i < |nums| && nums[i] == s[0];
  }

  lemma GreatestLast(nums: seq<int>, s: seq<int>)
    requires |nums| > 0 && Ascending(s) && multiset(s) == multiset(nums)
    ensures |s| > 0 && s[|s| - 1] == Greatest(nums)
  {
    var hi := Greatest(nums);
    assert hi in multiset(nums);
    LastIsGreatest(s, hi);
    assert s[|s| - 1] in multiset(nums);
    var i :| 0 <= i < |nums| && nums[i] == s[|s| - 1];
  }

  lemma SameValues(s: seq<int>, t: seq<int>)
    requires multiset(s) == multiset(t)
    ensures Values(s) == Values(t)
    ensures forall x :: x in s <==> x in t
  {
    assert forall x :: x in s <==> x in multiset(s);
    assert forall x :: x in t <==> x in multiset(t);
  }

  /** No number lies strictly between two neighbours of an ascending list. */
  lemma NothingBetween(s: seq<int>, j: int)
    requires Ascending(s) && 0 <= j < |s| - 1
    ensures forall k :: s[j] < k < s[j + 1] ==> k !in Values(s)
  {
    assert forall m :: 0 <= m <= j ==> s[m] <= s[j];
    assert forall m :: j + 1 <= m < |s| ==> s[j + 1] <= s[m];
  }

  // ---------------------------------------------------------------------------
  // Properties of Absent

  lemma {:induction false} AbsentMembers(lo: int, hi: int, present: set<int>, x: int)
    ensures x in Absent(lo, hi, present) <==> lo <= x < hi && x !in present
    decreases hi - lo
  {
    if hi > lo {
      AbsentMembers(lo, hi - 1, present, x);
    }
  }

  lemma {:induction false} AbsentAscending(lo: int, hi: int, present: set<int>)
    ensures StrictlyAscending(Absent(lo, hi, present))
    decreases hi - lo
  {
    if hi > lo {
      AbsentAscending(lo, hi - 1, present);
      var before := Absent(lo, hi - 1, present);
      var r := Absent(lo, hi, present);
      forall i | 0 <= i < |before|
        ensures before[i] < hi - 1
      {
        AbsentMembers(lo, hi - 1, present, before[i]);
      }
      forall i, j | 0 <= i < j < |r|
        ensures r[i] < r[j]
      {
        assert r[i] == before[i];
        if j == |before| {
          assert r[j] == hi - 1;
        } else {
          assert r[j] == before[j];
        }
      }
    }
  }

  function PresentIn(lo: int, hi: int, present: set<int>): set<int> {
    set x | x in present && lo <= x < hi
  }

  lemma {:induction false} AbsentLength(lo: int, hi: int, present: set<int>)
    requires lo <= hi
    ensures |Absent(lo, hi, present)| == (hi - lo) - |PresentIn(lo, hi, present)|
    decreases hi - lo
  {
    if hi == lo {
      assert PresentIn(lo, hi, present) == {};
    } else {
      AbsentLength(lo, hi - 1, present);
      if hi - 1 in present {
        assert PresentIn(lo, hi, present) == PresentIn(lo, hi - 1, present) + {hi - 1};
      } else {
        assert PresentIn(lo, hi, present) == PresentIn(lo, hi - 1, present);
      }
    }
  }

  // ---------------------------------------------------------------------------
  // Properties of the detector

  /** A number is reported missing exactly when there are at least two
      numbers, it lies between the least and the greatest, and it is not one
      of them. */
  lemma MissingMembers(nums: seq<int>, x: int)
    ensures x in Missing(nums) <==>
      |nums| >= 2 && Least(nums) <= x <= Greatest(nums) && x !in nums
  {
    if |nums| >= 2 {
      AbsentMembers(Least(nums), Greatest(nums) + 1, Values(nums), x);
    }
  }

  /** The report is in ascending order and names each missing number once. */
  lemma MissingAscending(nums: seq<int>)
    ensures StrictlyAscending(Missing(nums))
  {
    if |nums| >= 2 {
      AbsentAscending(Least(nums), Greatest(nums) + 1, Values(nums));
    }
  }

  /** How many are missing: the width of the range less the distinct numbers
      in it. */
  lemma MissingCount(nums: seq<int>)
    requires |nums| >= 2
    ensures |Missing(nums)| == (Greatest(nums) - Least(nums) + 1) - |Values(nums)|
  {
    var lo, hi := Least(nums), Greatest(nums) + 1;
    AbsentLength(lo, hi, Values(nums));
    assert PresentIn(lo, hi, Values(nums)) == Values(nums);
  }

  /** Each missing number lies strictly between two neighbours of the sorted
      numbers, which is where the procedure's inner loop finds it. */
  lemma MissingBetweenNeighbours(nums: seq<int>, x: int)
    requires x in Missing(nums)
    ensures exists i :: 0 <= i < |nums| - 1 && Sort(nums)[i] < x < Sort(nums)[i + 1]
  {
    MissingMembers(nums, x);
    Neighbours(nums, Sort(nums), x);
  }

  lemma Neighbours(nums: seq<int>, s: seq<int>, x: int)
    requires Ascending(s) && multiset(s) == multiset(nums)
    requires |nums| >= 2 && Least(nums) <= x <= Greatest(nums) && x !in nums
    ensures exists i :: 0 <= i < |s| - 1 && s[i] < x < s[i + 1]
  {
    LeastFirst(nums, s);
    GreatestLast(nums, s);
    assert x !in multiset(nums);
    assert x !in s;
    Straddle(s, x);
  }

  lemma {:induction false} Straddle(s: seq<int>, x: int)
    requires Ascending(s) && |s| >= 2 && s[0] < x < s[|s| - 1] && x !in s
    ensures exists i :: 0 <= i < |s| - 1 && s[i] < x < s[i + 1]
    decreases |s|
  {
    if x < s[1] {
      assert s[0] < x < s[1];
    } else {
      var t := s[1..];
      assert s[1] != x;
      assert t[0] < x < t[|t| - 1] && x !in t;
      Straddle(t, x);
      var i :| 0 <= i < |t| - 1 && t[i] < x < t[i + 1];
      assert s[i + 1] < x < s[i + 2];
    }
  }

  /** The report depends only on which numbers occur: not on their order,
      nor on how often each occurs. */
  lemma MissingDependsOnValues(a: seq<int>, b: seq<int>)
    requires Values(a) == Values(b)
    ensures Missing(a) == Missing(b)
  {
    if |a| >= 2 && |b| >= 2 {
      assert forall x :: x in a <==> x in Values(a);
      assert forall x :: x in b <==> x in Values(b);
      assert Least(a) == Least(b) && Greatest(a) == Greatest(b);
    } else if |a| >= 2 {
      SingleValue(a, b);
    } else if |b| >= 2 {
      SingleValue(b, a);
    }
  }

  /** Two or more entries with the values of a list of at most one entry
      repeat a single number, so nothing is missing. */
  lemma SingleValue(a: seq<int>, b: seq<int>)
    requires |a| >= 2 && |b| < 2
    requires Values(a) == Values(b)
    ensures Missing(a) == []
  {
    assert a[0] in Values(a);
    var v := b[0];
    forall i | 0 <= i < |a|
      ensures a[i] == v
    {
      assert a[i] in Values(b);
    }
    assert Least(a) == v && Greatest(a) == v;
    assert v in Values(a);
    AbsentStep(v, v, Values(a));
  }

  /** Each collected value comes from some row, and every row that gives a
      value contributes it. */
  lemma {:induction false} CollectMembers(rows: seq<Record>, read: Record -> Option<int>, x: int)
    ensures x in Collect(rows, read) <==> exists i :: 0 <= i < |rows| && read(rows[i]) == Some(x)
    decreases |rows|
  {
    if |rows| > 0 {
      var init := rows[..|rows| - 1];
      CollectMembers(init, read, x);
      assert forall i :: 0 <= i < |init| ==> rows[i] == init[i];
    }
  }

  /** The numbers collected are exactly those of live rows whose number
      `int()` accepts. */
  lemma LiveNumbersMembers(rows: seq<Record>, x: int)
    ensures x in LiveNumbers(rows) <==>
      exists i :: 0 <= i < |rows| && Live(rows[i]) && NumberOf(rows[i]) == Some(x)
  {
    CollectMembers(rows, Reading, x);
    assert forall i :: 0 <= i < |rows| ==>
      (Reading(rows[i]) == Some(x) <==> Live(rows[i]) && NumberOf(rows[i]) == Some(x));
  }

  /** Collecting from the same rows in another order collects the same
      values. */
  lemma CollectOrderIrrelevant(a: seq<Record>, b: seq<Record>, read: Record -> Option<int>)
    requires forall r :: r in a <==> r in b
    ensures Values(Collect(a, read)) == Values(Collect(b, read))
  {
    forall x
      ensures x in Values(Collect(a, read)) <==> x in Values(Collect(b, read))
    {
      CollectMembers(a, read, x);
      CollectMembers(b, read, x);
      if exists i :: 0 <= i < |a| && read(a[i]) == Some(x) {
        var i :| 0 <= i < |a| && read(a[i]) == Some(x);
        assert a[i] in a;
        var k :| 0 <= k < |b| && b[k] == a[i];
      }
      if exists i :: 0 <= i < |b| && read(b[i]) == Some(x) {
        var i :| 0 <= i < |b| && read(b[i]) == Some(x);
        assert b[i] in b;
        var k :| 0 <= k < |a| && a[k] == b[i];
      }
    }
  }

  /** Re-ordering the rows, as sorting the report by key does, changes
      nothing the detector reports. */
  lemma RowOrderIrrelevant(a: seq<Record>, b: seq<Record>)
    requires forall r :: r in a <==> r in b
    ensures Missing(LiveNumbers(a)) == Missing(LiveNumbers(b))
  {
    CollectOrderIrrelevant(a, b, Reading);
    MissingDependsOnValues(LiveNumbers(a), LiveNumbers(b));
  }

  /** The filter ignores letter case: a status holding any spelling whose
      upper case is CANCELADO or INUTILIZADO takes its row out. */
  lemma ExcludedInAnyCase(r: Record, t: string)
    requires r.status.Text? && Contains(r.status.s, t)
    requires Upper(t) == CancelledStatus || Upper(t) == VoidedStatus
    ensures !Live(r)
  {
    ContainsUpper(r.status.s, t);
  }

  /** A status that is not a `str` never excludes its row. */
  lemma NonTextStatusIsLive(r: Record)
    requires !r.status.Text?
    ensures Live(r)
  {
  }

  // ---------------------------------------------------------------------------
  // The demonstration data of test_numeracao.py

  const Authorised: string := "AUTORIZADO"

  /** An authorised row with the given number. */
  function Authorized(day: string, key: string, number: string, name: string, taxId: string,
                      total: real, protocol: string): Record
  {
    Record(Kept(Text(day)), KeyOf(Text(key)), Text(number), Text(name), Text(taxId), total,
           Text(Authorised), Text(protocol), EmptyText)
  }

  /** Notes 1, 2, 3 and 5: note 4 is missing. */
  const GapExample: seq<Record> := [
    Authorized("2024-01-01", "12345678901234567890123456789012345678901234", "1", "Cliente A",
               "123.456.789-00", 100.0, "123456789012345"),
    Authorized("2024-01-02", "12345678901234567890123456789012345678901235", "2", "Cliente B",
               "987.654.321-00", 200.0, "123456789012346"),
    Authorized("2024-01-03", "12345678901234567890123456789012345678901236", "3", "Cliente C",
               "111.222.333-44", 150.0, "123456789012347"),
    Authorized("2024-01-05", "12345678901234567890123456789012345678901238", "5", "Cliente E",
               "555.666.777-88", 300.0, "123456789012349")]

  /** Notes 1 to 4: nothing is missing. */
  const ContinuousExample: seq<Record> := [
    Authorized("2024-01-01", "12345678901234567890123456789012345678901234", "1", "Cliente A",
               "123.456.789-00", 100.0, "123456789012345"),
    Authorized("2024-01-02", "12345678901234567890123456789012345678901235", "2", "Cliente B",
               "987.654.321-00", 200.0, "123456789012346"),
    Authorized("2024-01-03", "12345678901234567890123456789012345678901236", "3", "Cliente C",
               "111.222.333-44", 150.0, "123456789012347"),
    Authorized("2024-01-04", "12345678901234567890123456789012345678901237", "4", "Cliente D",
               "555.666.777-88", 300.0, "123456789012348")]

  /** An AUTORIZADO row is live. */
  lemma AuthorisedIsLive(r: Record)
    requires r.status == Text(Authorised)
    ensures Live(r)
  {
    AuthorisedUpper();
    AuthorisedNotCancelled();
    AuthorisedNotVoided();
  }

  lemma AuthorisedUpper()
    ensures Upper(Authorised) == Authorised
  {
    UpperUnchanged(Authorised);
  }

  lemma AuthorisedNotCancelled()
    ensures !Contains(Authorised, CancelledStatus)
  {
    WordAbsent(Authorised, CancelledStatus, 0);
  }

  lemma AuthorisedNotVoided()
    ensures !Contains(Authorised, VoidedStatus)
  {
    WordAbsent(Authorised, VoidedStatus, 0);
  }

  /** A number written the way Python prints an int is read back as that
      int. */
  lemma PrintedNumber(r: Record, n: int)
    requires r.number == Text(IntToString(n))
    ensures NumberOf(r) == Some(n)
  {
    ParseIntOfIntToString(n);
  }

  /** An AUTORIZADO row gives the detector its number. */
  lemma AuthorisedReading(r: Record, n: int)
    requires r.status == Text(Authorised) && r.number == Text(IntToString(n))
    ensures Reading(r) == Some(n)
  {
    AuthorisedIsLive(r);
    PrintedNumber(r, n);
  }

  /** Rows that each give a value yield those values in row order. */
  lemma {:induction false} CollectAll(rows: seq<Record>, read: Record -> Option<int>, nums: seq<int>)
    requires |rows| == |nums|
    requires forall i :: 0 <= i < |rows| ==> read(rows[i]) == Some(nums[i])
    ensures Collect(rows, read) == nums
    decreases |rows|
  {
    if |rows| > 0 {
      var n := |rows| - 1;
      CollectAll(rows[..n], read, nums[..n]);
      assert nums == nums[..n] + [nums[n]];
    }
  }

  /** AUTORIZADO rows yield their numbers in row order. */
  lemma AuthorisedRows(rows: seq<Record>, nums: seq<int>)
    requires |rows| == |nums|
    requires forall i :: 0 <= i < |rows| ==>
      rows[i].status == Text(Authorised) && rows[i].number == Text(IntToString(nums[i]))
    ensures LiveNumbers(rows) == nums
  {
    forall i | 0 <= i < |rows|
      ensures Reading(rows[i]) == Some(nums[i])
    {
      AuthorisedReading(rows[i], nums[i]);
    }
    CollectAll(rows, Reading, nums);
  }

  lemma GapExampleNumbers()
    ensures LiveNumbers(GapExample) == [1, 2, 3, 5]
  {
    var g := GapExample;
    assert g[0].status == g[1].status == g[2].status == g[3].status == Text(Authorised);
    assert IntToString(1) == "1" && IntToString(2) == "2";
    assert IntToString(3) == "3" && IntToString(5) == "5";
    AuthorisedRows(g, [1, 2, 3, 5]);
  }

  /** The first demonstration: the detector reports note 4. */
  lemma GapExampleReportsFour()
    ensures Missing(LiveNumbers(GapExample)) == [4]
  {
    GapExampleNumbers();
    OnlyFourMissing();
  }

  lemma OnlyFourMissing()
    ensures Missing([1, 2, 3, 5]) == [4]
  {
    var nums := [1, 2, 3, 5];
    assert Least(nums) == 1 && Greatest(nums) == 5;
    assert Values(nums) == {1, 2, 3, 5};
    assert Absent(1, 4, {1, 2, 3, 5}) == [];
  }

  lemma ContinuousExampleNumbers()
    ensures LiveNumbers(ContinuousExample) == [1, 2, 3, 4]
  {
    var g := ContinuousExample;
    assert g[0].status == g[1].status == g[2].status == g[3].status == Text(Authorised);
    assert IntToString(1) == "1" && IntToString(2) == "2";
    assert IntToString(3) == "3" && IntToString(4) == "4";
    AuthorisedRows(g, [1, 2, 3, 4]);
  }

  /** The second demonstration: numbering is continuous, nothing reported. */
  lemma ContinuousExampleReportsNothing()
    ensures Missing(LiveNumbers(ContinuousExample)) == []
  {
    ContinuousExampleNumbers();
    NothingMissing();
  }

  lemma NothingMissing()
    ensures Missing([1, 2, 3, 4]) == []
  {
    var nums := [1, 2, 3, 4];
    assert Least(nums) == 1 && Greatest(nums) == 4;
    assert Values(nums) == {1, 2, 3, 4};
    assert Absent(1, 3, {1, 2, 3, 4}) == [];
  }
}
