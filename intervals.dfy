/** `agrupar_em_intervalos`: the numbers, sorted, cut into maximal runs of
    consecutive integers, each run written as its number alone or as
    "first até last". */
module Intervals {
  import opened PyBuiltins
  import opened Sorting

  /** The integers first, first + 1, ..., last. */
  datatype Run = Run(first: int, last: int)

  /** The runs the loop builds from a list of numbers, read left to right: a
      number one above the end of the current run extends it; any other
      number closes the run and opens a new one of its own. */
  function Runs(s: seq<int>): (r: seq<Run>)
    requires |s| > 0
    ensures |r| > 0
    decreases |s|
  {
    if |s| == 1 then [Run(s[0], s[0])]
    else
      var before := Runs(s[..|s| - 1]);
      var current := before[|before| - 1];
      var n := s[|s| - 1];
      if n == current.last + 1 then before[..|before| - 1] + [Run(current.first, n)]
      else before + [Run(n, n)]
  }

  /** The separator of a run of two or more numbers. */
  const Until: string := " até "

  /** `f"{inicio}"` for a run of one number, `f"{inicio} até {fim}"` for a
      longer one. */
  function Render(r: Run): string {
    if r.first == r.last then IntToString(r.first)
    else IntToString(r.first) + Until + IntToString(r.last)
  }

  function RenderAll(rs: seq<Run>): seq<string>
    decreases |rs|
  {
    if |rs| == 0 then [] else RenderAll(rs[..|rs| - 1]) + [Render(rs[|rs| - 1])]
  }

  /** What `agrupar_em_intervalos` returns: nothing for no numbers, otherwise
      the rendered runs of the sorted numbers. */
  function Intervals(numbers: seq<int>): seq<string> {
    if |numbers| == 0 then [] else RenderAll(Runs(Sort(numbers)))
  }

  // ---------------------------------------------------------------------------
  // The procedure

  /** `agrupar_em_intervalos(numeros)`. */
  method GroupIntervals(numbers: seq<int>) returns (intervals: seq<string>)
    ensures intervals == Intervals(numbers)
  {
    if |numbers| == 0 {
      return [];
    }
    intervals := RenderRuns(Sort(numbers));
  }

  /** The loop of `agrupar_em_intervalos` over the sorted numbers `s`. */
  method RenderRuns(s: seq<int>) returns (intervals: seq<string>)
    requires |s| > 0
    ensures intervals == RenderAll(Runs(s))
  {
    intervals := [];
    ghost var closed: seq<Run> := [];
    var first, last := s[0], s[0];
    var i := 1;
    while i < |s|
      invariant 1 <= i <= |s|
      invariant Runs(s[..i]) == closed + [Run(first, last)]
      invariant intervals == RenderAll(closed)
    {
      var n := s[i];
      RunsStep(s, i, closed, Run(first, last));
      if n == last + 1 {
        last := n;
      } else {
        RenderAppend(closed, Run(first, last));
        intervals := intervals + [Render(Run(first, last))];
        closed := closed + [Run(first, last)];
        first, last := n, n;
      }
      i := i + 1;
    }
    assert s[..i] == s;
    RenderAppend(closed, Run(first, last));
    intervals := intervals + [Render(Run(first, last))];
  }

  /** One more number either extends the current run or opens a new one. */
  lemma RunsStep(s: seq<int>, i: int, closed: seq<Run>, current: Run)
    requires 1 <= i < |s| && Runs(s[..i]) == closed + [current]
    ensures s[i] == current.last + 1 ==> Runs(s[..i + 1]) == closed + [Run(current.first, s[i])]
    ensures s[i] != current.last + 1 ==> Runs(s[..i + 1]) == closed + [current] + [Run(s[i], s[i])]
  {
    assert s[..i + 1][..i] == s[..i];
    assert (closed + [current])[..|closed|] == closed;
  }

  lemma RenderAppend(rs: seq<Run>, r: Run)
    ensures RenderAll(rs + [r]) == RenderAll(rs) + [Render(r)]
  {
    assert (rs + [r])[..|rs|] == rs;
  }

  // ---------------------------------------------------------------------------
  // The runs cover the numbers

  /** The integers of [lo, hi). */
  function Range(lo: int, hi: int): seq<int>
    decreases hi - lo
  {
    if hi <= lo then [] else Range(lo, hi - 1) + [hi - 1]
  }

  /** The numbers the runs stand for, in order. */
  function Expand(rs: seq<Run>): seq<int>
    decreases |rs|
  {
    if |rs| == 0 then []
    else Expand(rs[..|rs| - 1]) + Range(rs[|rs| - 1].first, rs[|rs| - 1].last + 1)
  }

  predicate WellFormed(rs: seq<Run>) {
    forall k :: 0 <= k < |rs| ==> rs[k].first <= rs[k].last
  }

  /** No two neighbouring runs could have been one run. */
  predicate Maximal(rs: seq<Run>) {
    forall k :: 0 <= k < |rs| - 1 ==> rs[k + 1].first != rs[k].last + 1
  }

  /** Writing the runs out again gives back the list they were cut from,
      whatever its order: the runs lose no number and add none. */
  lemma {:induction false} RunsCover(s: seq<int>)
    requires |s| > 0
    ensures Expand(Runs(s)) == s
    decreases |s|
  {
    if |s| > 1 {
      var init, n := s[..|s| - 1], s[|s| - 1];
      RunsCover(init);
      RunsWellFormed(init);
      var before := Runs(init);
      var front, current := before[..|before| - 1], before[|before| - 1];
      assert before == front + [current];
      if n == current.last + 1 {
        assert Runs(s) == front + [Run(current.first, n)];
        ExtendCovers(front, current, n);
      } else {
        assert Runs(s) == before + [Run(n, n)];
        OpenCovers(before, n);
      }
      assert s == init + [n];
    } else {
      OpenCovers([], s[0]);
      assert Runs(s) == [] + [Run(s[0], s[0])];
    }
  }

  /** Extending the last run by the next integer writes that integer out
      at the end. */
  lemma ExtendCovers(front: seq<Run>, current: Run, n: int)
    requires current.first <= current.last && n == current.last + 1
    ensures Expand(front + [Run(current.first, n)]) == Expand(front + [current]) + [n]
  {
    ExpandAppend(front, Run(current.first, n));
    ExpandAppend(front, current);
    assert Range(current.first, n + 1) == Range(current.first, n) + [n];
  }

  /** A new run of one integer writes that integer out at the end. */
  lemma OpenCovers(rs: seq<Run>, n: int)
    ensures Expand(rs + [Run(n, n)]) == Expand(rs) + [n]
  {
    ExpandAppend(rs, Run(n, n));
    assert Range(n, n + 1) == [n];
  }

  /** Every run starts no later than it ends. */
  lemma {:induction false} RunsWellFormed(s: seq<int>)
    requires |s| > 0
    ensures WellFormed(Runs(s))
    decreases |s|
  {
    if |s| > 1 {
      RunsWellFormed(s[..|s| - 1]);
    }
  }

  lemma ExpandAppend(rs: seq<Run>, r: Run)
    ensures Expand(rs + [r]) == Expand(rs) + Range(r.first, r.last + 1)
  {
    assert (rs + [r])[..|rs|] == rs;
  }

  /** The loop never leaves two runs that touch. */
  lemma {:induction false} RunsMaximal(s: seq<int>)
    requires |s| > 0
    ensures Maximal(Runs(s))
    ensures Runs(s)[|Runs(s)| - 1].last == s[|s| - 1]
    decreases |s|
  {
    if |s| > 1 {
      RunsMaximal(s[..|s| - 1]);
    }
  }

  /** Strictly ascending numbers give ascending runs with at least one
      number left out between neighbours; the first run starts at the least
      number and the last ends at the greatest. */
  lemma {:induction false} RunsSeparated(s: seq<int>)
    requires |s| > 0 && StrictlyAscending(s)
    ensures forall k :: 0 <= k < |Runs(s)| - 1 ==> Runs(s)[k].last + 1 < Runs(s)[k + 1].first
    ensures Runs(s)[0].first == s[0]
    ensures Runs(s)[|Runs(s)| - 1].last == s[|s| - 1]
    decreases |s|
  {
    RunsMaximal(s);
    if |s| > 1 {
      var init := s[..|s| - 1];
      assert StrictlyAscending(init);
      RunsSeparated(init);
      var before := Runs(init);
      assert before[|before| - 1].last == init[|init| - 1] < s[|s| - 1];
    }
  }

  // ---------------------------------------------------------------------------
  // The text can be read back

  /** The position of the first `c` in `t`, or `|t|` when there is none. */
  function FirstIndex(t: string, c: char): (k: nat)
    ensures k <= |t| && c !in t[..k] && (k < |t| ==> t[k] == c)
  {
    if |t| == 0 then 0
    else if t[0] == c then 0
    else
      var k := FirstIndex(t[1..], c) + 1;
      assert t[..k] == [t[0]] + t[1..][..k - 1];
      k
  }

  /** Reads a rendered run back: a number alone, or two numbers joined by
      " até ". */
  function ReadRun(t: string): Option<Run> {
    var k := FirstIndex(t, ' ');
    if k == |t| then
      match ParseInt(t)
      case Some(a) => Some(Run(a, a))
      case None => None
    else if !StartsWith(t[k..], Until) then None
    else
      match (ParseInt(t[..k]), ParseInt(t[k + |Until|..]))
      case (Some(a), Some(b)) => Some(Run(a, b))
      case _ => None
  }

  predicate StartsWith(t: string, p: string) {
    |p| <= |t| && t[..|p|] == p
  }

  /** A printed int has no space in it. */
  lemma NoSpaceInNumber(n: int)
    ensures ' ' !in IntToString(n)
  {
    var t := IntToString(n);
    if n < 0 {
      assert t == "-" + NatToString(-n);
      assert forall i :: 0 <= i < |t| ==> t[i] == '-' || IsDigit(t[i]);
    }
  }

  /** Every rendered run reads back as itself, so the report names each
      missing number unambiguously. */
  lemma ReadRender(r: Run)
    ensures ReadRun(Render(r)) == Some(r)
  {
    if r.first == r.last {
      ReadSingle(r.first);
    } else {
      ReadPair(r.first, r.last);
    }
  }

  lemma ReadSingle(n: int)
    ensures ReadRun(IntToString(n)) == Some(Run(n, n))
  {
    NoSpaceInNumber(n);
    ParseIntOfIntToString(n);
    var a := IntToString(n);
    assert a[..|a|] == a;
    assert FirstIndex(a, ' ') == |a|;
  }

  lemma ReadPair(m: int, n: int)
    ensures ReadRun(IntToString(m) + Until + IntToString(n)) == Some(Run(m, n))
  {
    var a, b := IntToString(m), IntToString(n);
    var t := a + Until + b;
    SpaceAfterNumber(m, b);
    assert t[|a|..][..|Until|] == Until;
    assert t[|a| + |Until|..] == b;
    assert t[..|a|] == a;
    ParseIntOfIntToString(m);
    ParseIntOfIntToString(n);
  }

  /** In a number followed by " até ", the first space is the one after the
      number. */
  lemma SpaceAfterNumber(m: int, b: string)
    ensures FirstIndex(IntToString(m) + Until + b, ' ') == |IntToString(m)|
  {
    var a := IntToString(m);
    var t := a + Until + b;
    NoSpaceInNumber(m);
    var k := FirstIndex(t, ' ');
    assert forall i :: 0 <= i < |a| ==> t[i] == a[i] && t[i] != ' ';
    assert t[|a|] == ' ';
  }

  // ---------------------------------------------------------------------------
  // The example in the documentation of agrupar_em_intervalos

  /** A block of consecutive numbers is a single run. */
  lemma {:induction false} ConsecutiveIsOneRun(lo: int, hi: int)
    requires lo <= hi
    ensures |Range(lo, hi + 1)| > 0 && Runs(Range(lo, hi + 1)) == [Run(lo, hi)]
    decreases hi - lo
  {
    var s := Range(lo, hi + 1);
    if lo < hi {
      ConsecutiveIsOneRun(lo, hi - 1);
      assert s[..|s| - 1] == Range(lo, hi);
      assert s[|s| - 1] == hi;
    } else {
      assert Range(lo, lo) == [];
      assert s == [lo];
    }
  }

  lemma DocumentedRun()
    ensures Runs([2, 3, 4, 5, 6, 7, 8, 9]) == [Run(2, 9)]
  {
    ConsecutiveIsOneRun(2, 9);
    assert Range(2, 10) == [2, 3, 4, 5, 6, 7, 8, 9];
  }

  lemma DocumentedSorted()
    ensures Sort([2, 3, 4, 5, 6, 7, 8, 9]) == [2, 3, 4, 5, 6, 7, 8, 9]
  {
    SortAscending([2, 3, 4, 5, 6, 7, 8, 9]);
  }

  lemma DocumentedText()
    ensures RenderAll([Run(2, 9)]) == ["2 até 9"]
  {
    assert IntToString(2) == "2" && IntToString(9) == "9";
    assert Render(Run(2, 9)) == "2" + Until + "9" == "2 até 9";
    assert RenderAll([Run(2, 9)]) == RenderAll([]) + [Render(Run(2, 9))];
  }

  /** [2, 3, 4, 5, 6, 7, 8, 9] becomes the single interval "2 até 9". */
  lemma DocumentedExample()
    ensures Intervals([2, 3, 4, 5, 6, 7, 8, 9]) == ["2 até 9"]
  {
    DocumentedSorted();
    DocumentedRun();
    DocumentedText();
  }
}
