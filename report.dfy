/** What the report does with the records once they are collected: the files
    it could not read, the ordering key `chave_int`, the numbering check and
    its alert, and the three sheets of the workbook split by status. */
module Report {
  import opened PyBuiltins
  import opened XmlTree
  import opened Envelope
  import opened Sorting
  import opened Numbering
  import opened Intervals

  // ---------------------------------------------------------------------------
  // Collecting the records of the uploaded files

  /** The records of the files, in upload order. `process` is what
      `process_xml_file` returns for a document (Envelope.Classify); a result
      Python finds false (None, or an empty list) gives none. */
  function Gathered(process: Document -> Outcome, files: seq<(string, Document)>): seq<Record>
    decreases |files|
  {
    if |files| == 0 then []
    else Gathered(process, files[..|files| - 1]) + RecordsOf(process(files[|files| - 1].1))
  }

  /** The names of the files that gave no record, in upload order. */
  function Skipped(process: Document -> Outcome, files: seq<(string, Document)>): seq<string>
    decreases |files|
  {
    if |files| == 0 then []
    else
      var last := files[|files| - 1];
      Skipped(process, files[..|files| - 1]) + (if RecordsOf(process(last.1)) == [] then [last.0] else [])
  }

  /** The loop over the uploaded files: extend the data with a list result,
      append a single record, and note the name of a file whose result is
      false. The count shown to the user is the number of records gathered. */
  method CollectResults(process: Document -> Outcome, files: seq<(string, Document)>)
    returns (data: seq<Record>, skipped: seq<string>, processed: nat)
    ensures data == Gathered(process, files)
    ensures skipped == Skipped(process, files)
    ensures processed == |data|
  {
    data, skipped, processed := [], [], 0;
    var i := 0;
    while i < |files|
      invariant 0 <= i <= |files|
      invariant data == Gathered(process, files[..i])
      invariant skipped == Skipped(process, files[..i])
      invariant processed == |data|
    {
      var (name, doc) := files[i];
      assert files[..i + 1][..i] == files[..i];
      var result := process(doc);
      if result.Many? && result.records != [] {
        data := data + result.records;
        processed := processed + |result.records|;
      } else if result.One? {
        data := data + [result.record];
        processed := processed + 1;
      } else {
        skipped := skipped + [name];
      }
      i := i + 1;
    }
    assert files[..|files|] == files;
  }

  /** A file is listed as not processed exactly when it gives no record. */
  lemma {:induction false} SkippedFiles(process: Document -> Outcome, files: seq<(string, Document)>, name: string)
    ensures name in Skipped(process, files) <==>
      exists i :: 0 <= i < |files| && files[i].0 == name && RecordsOf(process(files[i].1)) == []
    decreases |files|
  {
    if |files| > 0 {
      var init := files[..|files| - 1];
      SkippedFiles(process, init, name);
      assert forall i :: 0 <= i < |init| ==> init[i] == files[i];
    }
  }

  /** Every gathered record comes from one of the files. */
  lemma {:induction false} GatheredFrom(process: Document -> Outcome, files: seq<(string, Document)>, r: Record)
    ensures r in Gathered(process, files) <==>
      exists i :: 0 <= i < |files| && r in RecordsOf(process(files[i].1))
    decreases |files|
  {
    if |files| > 0 {
      var init := files[..|files| - 1];
      GatheredFrom(process, init, r);
      assert forall i :: 0 <= i < |init| ==> init[i] == files[i];
    }
  }

  /** A file that is not well-formed XML is listed as not processed. */
  lemma UnparsableSkipped(p: Parsers, files: seq<(string, Document)>, i: int)
    requires 0 <= i < |files| && files[i].1.Unparsable?
    ensures files[i].0 in Skipped(d => Classify(p, d), files)
  {
    var process := d => Classify(p, d);
    assert process(files[i].1).Malformed?;
    SkippedFiles(process, files, files[i].0);
  }

  // ---------------------------------------------------------------------------
  // The ordering key

  /** The value of 'Chave da Nota' as Python holds it: the `str` from the
      tree, or the range text `f"{ini} - {fin}"`, where `show` is `str()` of
      a tree value; None for a value that is not a `str`. */
  function KeyText(show: Node -> string, k: NoteKey): Option<string> {
    match k
    case KeyOf(n) => if n.Text? then Some(n.s) else None
    case KeyRange(first, last) => Some(show(first) + " - " + show(last))
  }

  /** `chave_int(chave)`: `int(chave)`, or 0 where that raises. */
  function SortKey(show: Node -> string, k: NoteKey): int {
    match KeyText(show, k)
    case None => 0
    case Some(s) =>
      match ParseInt(s)
      case Some(n) => n
      case None => 0
  }

  /** An access key of digits orders by its numeric value. */
  lemma SortKeyOfDigits(show: Node -> string, d: string)
    requires |d| > 0 && forall i :: 0 <= i < |d| ==> IsDigit(d[i])
    ensures SortKey(show, KeyOf(Text(d))) == RunValue(d)
  {
    ParseIntOfDigits(d);
  }

  /** A voided range orders as 0, whatever its two numbers print as: the
      spaced dash can never be read by int(). */
  lemma SortKeyOfRange(show: Node -> string, first: Node, last: Node)
    ensures SortKey(show, KeyRange(first, last)) == 0
  {
    SpacedDashIsNotInt(show(first), show(last));
  }

  /** A key that is text but not an integer orders as 0, as does a key that
      is not text at all. */
  lemma SortKeyOfOther(show: Node -> string, k: NoteKey)
    requires k.KeyOf?
    requires !k.node.Text? || ParseInt(k.node.s).None?
    ensures SortKey(show, k) == 0
  {
  }

  // ---------------------------------------------------------------------------
  // The numbering check and its alert

  /** The numbering check `app.py` runs on the emitted sheet,
      `detectar_numeracoes_puladas` followed by `agrupar_em_intervalos`:
      the missing numbers, grouped into intervals only when there are any. */
  method CheckNumbering(rows: seq<Record>) returns (gaps: seq<int>, intervals: seq<string>)
    ensures gaps == Missing(LiveNumbers(rows))
    ensures gaps == [] ==> intervals == []
    ensures gaps != [] ==> intervals == RenderAll(Runs(gaps))
  {
    gaps := DetectGaps(rows);
    intervals := [];
    if gaps != [] {
      intervals := GroupIntervals(gaps);
      MissingAscending(LiveNumbers(rows));
      SortAscending(gaps);
    }
  }

  /** The intervals of the alert stand for exactly the missing numbers, in
      ascending order, with at least one present number between two
      intervals. */
  lemma AlertIntervals(nums: seq<int>)
    requires Missing(nums) != []
    ensures Expand(Runs(Missing(nums))) == Missing(nums)
    ensures forall k :: 0 <= k < |Runs(Missing(nums))| - 1 ==>
      Runs(Missing(nums))[k].last + 1 < Runs(Missing(nums))[k + 1].first
  {
    var g := Missing(nums);
    MissingAscending(nums);
    RunsCover(g);
    RunsSeparated(g);
  }

  // ---------------------------------------------------------------------------
  // The sheets of the workbook

  predicate Cancelled(r: Record) {
    StatusMentions(r.status, CancelledStatus)
  }

  predicate Voided(r: Record) {
    StatusMentions(r.status, VoidedStatus)
  }

  predicate CancelledAndVoided(r: Record) {
    Cancelled(r) && Voided(r)
  }

  /** The rows `keep` accepts, in their order. */
  function Filter(rows: seq<Record>, keep: Record -> bool): seq<Record>
    decreases |rows|
  {
    if |rows| == 0 then []
    else Filter(rows[..|rows| - 1], keep) + (if keep(rows[|rows| - 1]) then [rows[|rows| - 1]] else [])
  }

  /** 'NFCe Emitidas', 'NFCe Inutilizadas' and 'NFCe Canceladas'. */
  datatype Workbook = Workbook(emitted: seq<Record>, voided: seq<Record>, cancelled: seq<Record>)

  function Sheets(rows: seq<Record>): Workbook {
    Workbook(Filter(rows, Live), Filter(rows, Voided), Filter(rows, Cancelled))
  }

  lemma {:induction false} FilterMembers(rows: seq<Record>, keep: Record -> bool, r: Record)
    ensures r in Filter(rows, keep) <==> r in rows && keep(r)
    decreases |rows|
  {
    if |rows| > 0 {
      var init := rows[..|rows| - 1];
      FilterMembers(init, keep, r);
      assert rows == init + [rows[|rows| - 1]];
    }
  }

  /** A row is on the 'NFCe Emitidas' sheet exactly when it is on neither of
      the other two. */
  lemma SheetsPartition(rows: seq<Record>, r: Record)
    requires r in rows
    ensures var w := Sheets(rows);
      r in w.emitted <==> r !in w.voided && r !in w.cancelled
  {
    FilterMembers(rows, Live, r);
    FilterMembers(rows, Voided, r);
    FilterMembers(rows, Cancelled, r);
  }

  /** Each row is written once, except that a row whose status mentions both
      words is written to both the voided and the cancelled sheet. */
  lemma {:induction false} SheetsCount(rows: seq<Record>)
    ensures var w := Sheets(rows);
      |w.emitted| + |w.voided| + |w.cancelled| == |rows| + |Filter(rows, CancelledAndVoided)|
    decreases |rows|
  {
    if |rows| > 0 {
      SheetsCount(rows[..|rows| - 1]);
    }
  }

  /** The detector reads exactly the rows of the 'NFCe Emitidas' sheet. */
  lemma {:induction false} DetectorReadsEmittedSheet(rows: seq<Record>)
    ensures LiveNumbers(Sheets(rows).emitted) == LiveNumbers(rows)
    decreases |rows|
  {
    if |rows| > 0 {
      var init, r := rows[..|rows| - 1], rows[|rows| - 1];
      DetectorReadsEmittedSheet(init);
      var kept := Filter(init, Live);
      if Live(r) {
        assert Filter(rows, Live) == kept + [r];
        assert (kept + [r])[..|kept|] == kept;
      } else {
        assert Filter(rows, Live) == kept;
      }
    }
  }

  // ---------------------------------------------------------------------------
  // Where the records of each envelope kind land

  /** A cancellation goes to 'NFCe Canceladas' only. */
  lemma CancellationSheet(r: Record)
    requires r.status == Text(CancelledStatus)
    ensures Cancelled(r) && !Voided(r) && !Live(r)
  {
    CancelledUpper();
    CancelledMentioned();
  }

  lemma CancelledUpper()
    ensures Upper(CancelledStatus) == CancelledStatus
  {
    UpperUnchanged(CancelledStatus);
  }

  lemma CancelledMentioned()
    ensures Contains(CancelledStatus, CancelledStatus) && !Contains(CancelledStatus, VoidedStatus)
  {
    assert CancelledStatus[..|CancelledStatus|] == CancelledStatus;
  }

  /** A voiding with the default status goes to 'NFCe Inutilizadas' only. */
  lemma VoidingSheet(r: Record)
    requires r.status == Text(VoidedStatus)
    ensures Voided(r) && !Cancelled(r) && !Live(r)
  {
    VoidedUpper();
    VoidedMentioned();
    VoidedNotCancelled();
  }

  lemma VoidedUpper()
    ensures Upper(VoidedStatus) == VoidedStatus
  {
    UpperUnchanged(VoidedStatus);
  }

  lemma VoidedMentioned()
    ensures Contains(VoidedStatus, VoidedStatus)
  {
    assert VoidedStatus[..|VoidedStatus|] == VoidedStatus;
  }

  lemma VoidedNotCancelled()
    ensures !Contains(VoidedStatus, CancelledStatus)
  {
    WordAbsent(VoidedStatus, CancelledStatus, 0);
  }

  /** A submitted document without a protocol is an emitted note. */
  lemma SubmissionSheet(r: Record)
    requires r.status == Text(SentStatus)
    ensures Live(r)
  {
    SentUpper();
    SentNotCancelled();
    SentNotVoided();
  }

  lemma SentUpper()
    ensures Upper(SentStatus) == SentStatus
  {
    UpperUnchanged(SentStatus);
  }

  lemma SentNotCancelled()
    ensures !Contains(SentStatus, CancelledStatus)
  {
    WordAbsent(SentStatus, CancelledStatus, 0);
  }

  lemma SentNotVoided()
    ensures !Contains(SentStatus, VoidedStatus)
  {
    WordAbsent(SentStatus, VoidedStatus, 1);
  }

  /** The answer text of an accepted voiding request, "Inutilizacao de
      numero homologado", in three pieces that are upper-cased one by one. */
  const VoidingAccepted: string := AcceptedWord + AcceptedOf + AcceptedDone
  const AcceptedWord: string := "Inutilizacao"
  const AcceptedOf: string := " de numero"
  const AcceptedDone: string := " homologado"

  /** A voided range whose answer carries that text spells the word with
      "cao" rather than "ado", so the row counts as emitted, lands on the
      'NFCe Emitidas' sheet, and its first number takes part in the
      numbering check. */
  lemma AcceptedVoidingIsEmitted(r: Record)
    requires r.status == Text(VoidingAccepted)
    ensures Live(r) && !Voided(r) && !Cancelled(r)
  {
    AcceptedUpper();
    AcceptedNotVoided();
    AcceptedNotCancelled();
  }

  const VoidingAcceptedUpper: string := "INUTILIZACAO" + " DE NUMERO" + " HOMOLOGADO"

  lemma AcceptedUpper()
    ensures Upper(VoidingAccepted) == VoidingAcceptedUpper
  {
    UpperConcat(AcceptedWord + AcceptedOf, AcceptedDone);
    UpperConcat(AcceptedWord, AcceptedOf);
    AcceptedWordUpper();
    AcceptedOfUpper();
    AcceptedDoneUpper();
  }

  lemma AcceptedWordUpper() ensures Upper(AcceptedWord) == "INUTILIZACAO" { UpperAscii(AcceptedWord); }
  lemma AcceptedOfUpper() ensures Upper(AcceptedOf) == " DE NUMERO" { UpperAscii(AcceptedOf); }
  lemma AcceptedDoneUpper() ensures Upper(AcceptedDone) == " HOMOLOGADO" { UpperAscii(AcceptedDone); }

  lemma AcceptedNotVoided()
    ensures !Contains(VoidingAcceptedUpper, VoidedStatus)
  {
    WordAbsent(VoidingAcceptedUpper, VoidedStatus, 10);
  }

  lemma AcceptedNotCancelled()
    ensures !Contains(VoidingAcceptedUpper, CancelledStatus)
  {
    WordAbsent(VoidingAcceptedUpper, CancelledStatus, 2);
  }
}
