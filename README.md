# NFC-e report: envelope classifier and numbering check

This project models the decision logic of a report generator for Brazilian
electronic consumer invoices (NFC-e). It covers two parts:

- **The envelope classifier** `process_xml_file`, with its helper
  `find_key_ignore_ns`. It takes the tree that `xmltodict` builds from one XML
  file and decides which of six envelope kinds the file is. The kinds are
  tried in order: a confirmed voiding `ProcInutNFe`, an event batch
  `envEvento`, a voiding request `inutNFe`, a submission batch `enviNFe`, a
  processed event `procEventoNFe`, and an authorised document `nfeProc`. The
  classifier turns the match into one or more nine-column report rows. It
  returns nothing in three cases: the XML is malformed, the shape is not
  recognised, or an exception escapes.
- **The numbering check.** This covers:
  - `detectar_numeracoes_puladas`: the numbers missing between neighbouring
    NFC-e numbers of the rows that are neither cancelled nor voided;
  - `agrupar_em_intervalos`: the missing numbers folded into runs written
    `"N"` or `"A até B"`;
  - the status filter that also splits the workbook into its three sheets;
  - the ordering key `chave_int`;
  - the loop that gathers the rows of every uploaded file;
  - the copy of the detector in `test_numeracao.py` and its two sample tables.

Modules:

| file | module | contents |
|---|---|---|
| `python_builtins.dfy` | `PyBuiltins` | The Python string built-ins the code uses: `strip`, `upper`, `lower`, `in`, `replace`, `split(...)[-1]`, `int()` and `str()` of an int. |
| `xml_tree.dfy` | `XmlTree` | The `xmltodict` value, plus `dict.get` and the exceptions it raises on a value of the wrong kind. |
| `sorting.dfy` | `Sorting` | `sorted` and `list.sort` on integers. |
| `envelope.dfy` | `Envelope` | The classifier. It has two forms: the function `Classify` states the outcome, and the method `ProcessXmlFile` runs the key searches and record loops the way the source does. The method is proved equal to the function. |
| `envelope_facts.dfy` | `EnvelopeFacts` | Which branch decides for each envelope kind. |
| `record_facts.dfy` | `RecordFacts` | What each branch writes into a record. |
| `numbering.dfy` | `Numbering` | The detector, proved against a reference definition (the integers from least to greatest that are not present), with the properties of that definition and the two sample tables. |
| `intervals.dfy` | `Intervals` | The run compressor. Its properties are proved: coverage, maximality, separation, and that each written run reads back to the run. |
| `report.dfy` | `Report` | Gathering the files' rows, the sort key, the alert, and the sheet partition. |

## Model

| member | source | states |
|---|---|---|
| Envelope.FindKeyIgnoreNs | app/app.py:50-54 | Returns the key at the first matching position and none when no key matches; a miss never fails. |
| Envelope.ScanKeys | app/app.py:50-54 | The early-return loop over the keys finds the key at the first position the matcher accepts, or none. |
| Envelope.FirstFound | app/app.py:50-54 | The search finds a position whose key matches, no earlier key matches, and it reports nothing exactly when no key matches. |
| Envelope.FirstMatch | app/app.py:50-54 | For `find_key_ignore_ns`: the key found has the target as its local name after the last `:` or `}`, ignoring case; no earlier key does; none is found iff no key matches. |
| Envelope.LookupFoundKey | app/app.py:57-59 | Indexing the dict with the key found gives the value stored under it. |
| Envelope.LookupFirst | app/app.py:57-59 | A key that first occurs at position i looks up the value stored at i. |
| Envelope.FindChild | app/app.py:247-257 | `d[find_key_ignore_ns(d, t)]`: the child at the first matching key, or nothing when no key matches. |
| Envelope.CollectCancellations | app/app.py:102-133 | The envEvento loop returns exactly the cancellation records in order, or the first exception raised by an event. |
| Envelope.CancellationsRaise | app/app.py:103-122 | An exception raised in the first n events ends the whole loop with that exception. |
| Envelope.CollectSubmissions | app/app.py:172-202 | The enviNFe loop returns one record per document in order, or the first exception raised. |
| Envelope.SubmissionsRaise | app/app.py:173-190 | An exception raised in the first n documents ends the whole loop with that exception. |
| Envelope.IssuedAt | app/app.py:69-74 | A date is replaced by the parse of its first 19 characters when the text is non-empty and the parse succeeds; otherwise the value is kept as found. |
| Envelope.RangeKey | app/app.py:64-66 | 'Chave da Nota' is the range of ini and fin when they differ, and ini alone when they are equal. |
| Envelope.NumberFromKey | app/app.py:117-122 | The number is key[25:34] when the key has exactly 44 characters and 'Não identificado' otherwise; len() of an empty element raises TypeError. |
| Envelope.RecipientName | app/app.py:195 | An empty or missing dest gives 'Consumidor não identificado'; a truthy dict gives its xNome, or '' when it has none; a truthy dest that is not a dict raises. |
| Envelope.RecipientTaxId | app/app.py:196 | On a dict: the CPF when it is truthy, else the CNPJ when it is truthy, else 'Não informado'; the result is always truthy, and it raises unless dest is a dict. |
| Envelope.TotalOf | app/app.py:186 | A missing vNF is 0; a present one is whatever `float()` makes of it. |
| Envelope.TotalOrZero | app/app.py:186-190 | The value of vNF, or 0.0 where `float()` raises. |
| Envelope.ProcessedDocument | app/app.py:243-279 | The nfeProc branch gives a single record, an unrecognised shape or an exception, never a list. |
| Envelope.ReadReceipt | app/app.py:264-265 | The method reading infProt under the protNFe key agrees with the receipt function: nothing when there is no protNFe. |
| Envelope.ReadProcessedDocument | app/app.py:243-279 | The three nested key searches and the record built from them give exactly what `ProcessedDocument` defines. |
| Envelope.FromRecord | app/app.py:280-284 | A branch that builds one dict gives exactly that record, and an exception that escapes gives a crash with that exception. |
| Envelope.Classify | app/app.py:41-284 | Malformed exactly when the XML does not parse; a list result is never empty. |
| Envelope.ClassifyTree | app/app.py:57-284 | A parsed tree never gives the parse error, and a list result holds at least one record. |
| Envelope.AfterVoidingConfirmation | app/app.py:96-284 | The same holds for the kinds after ProcInutNFe. |
| Envelope.AfterEvents | app/app.py:138-284 | The same holds for the kinds after envEvento. |
| Envelope.AfterVoidingRequest | app/app.py:167-284 | The same holds for the kinds after inutNFe. |
| Envelope.AfterSubmissions | app/app.py:207-284 | The same holds for the kinds after enviNFe. |
| Envelope.ProcessXmlFile | app/app.py:41-284 | The step-by-step classifier returns exactly `Classify(doc)`. |
| Envelope.RecordsOf | app/app.py:793-802 | A dict result contributes itself, a list its rows, and None nothing. |
| XmlTree.Lookup | app/app.py:59 | A key is only found in a non-empty dict. |
| XmlTree.LookupFound | app/app.py:59 | What a lookup finds is stored under that key. |
| XmlTree.LookupMissing | app/app.py:59 | A lookup finds nothing exactly when no entry has the key. |
| XmlTree.Get | app/app.py:59-61 | `.get` succeeds exactly on a dict, giving the value stored under a present key, and raises AttributeError on anything else. |
| XmlTree.GetMissing | app/app.py:59-61 | `.get` on a dict without the key returns the default. |
| XmlTree.AsList | app/app.py:100-101 | A list is kept and any other value becomes a one-element list. |
| XmlTree.DictOr | app/app.py:183-185 | A dict is kept unchanged and any other value is replaced by `{}`. |
| XmlTree.Or | app/app.py:196 | `a or b` is truthy iff either is, and it is a when a is truthy. |
| XmlTree.Len | app/app.py:118 | `len()` raises exactly on an empty element (None). |
| XmlTree.Float | app/app.py:186-190 | `float()` succeeds exactly on text the float parser accepts, with that value. |
| EnvelopeFacts.PrefixIgnored | app/app.py:52 | A namespace prefix `p:` does not change whether a tag matches. |
| EnvelopeFacts.ExpandedNameIgnored | app/app.py:52 | A `{uri}` namespace does not change whether a tag matches. |
| EnvelopeFacts.PlainTagMatches | app/app.py:52 | A plain ASCII tag matches iff it equals the target letter by letter, ignoring case. |
| EnvelopeFacts.KindTag | app/app.py:57-243 | Each of the six kind names matches itself and none of the other five. |
| EnvelopeFacts.PrefixedKind | app/app.py:52 | The same holds for a kind name written with a namespace prefix. |
| EnvelopeFacts.ExpandedKind | app/app.py:52 | The same holds for a kind name written with an expanded `{uri}` namespace. |
| EnvelopeFacts.SingleRootSearch | app/app.py:50-54 | A one-key tree finds the key iff it matches. |
| EnvelopeFacts.UnknownRootIsUnrecognised | app/app.py:243-246 | A root matching none of the six kinds is unrecognised. |
| EnvelopeFacts.VoidingConfirmationDecides | app/app.py:57-93 | A ProcInutNFe root is decided by the voiding record. |
| EnvelopeFacts.EventBatchDecides | app/app.py:96-135 | An envEvento root gives its cancellations when there are any, and otherwise falls through to unrecognised. |
| EnvelopeFacts.SimpleVoidingDecides | app/app.py:138-164 | An inutNFe root is decided by the voiding record. |
| EnvelopeFacts.SubmissionBatchDecides | app/app.py:167-204 | An enviNFe root gives its documents when there are any, and otherwise is unrecognised. |
| EnvelopeFacts.ProcessedEventDecides | app/app.py:207-246 | A procEventoNFe root gives the processed event's record when it has one, the processed event's exception when it raises, and is otherwise unrecognised. |
| EnvelopeFacts.NfeProcWithoutNFe | app/app.py:248-251 | An nfeProc root whose dict has no NFe tag is unrecognised. |
| EnvelopeFacts.NFeWithoutInfNFe | app/app.py:253-256 | An nfeProc root whose NFe dict has no infNFe tag is unrecognised. |
| EnvelopeFacts.ProcessedDocumentDecides | app/app.py:243-279 | An nfeProc root is read as an authorised document. |
| EnvelopeFacts.NoProcessedDocument | app/app.py:243-246 | Without an nfeProc key the file is unrecognised. |
| RecordFacts.VoidingConfirmationRaises | app/app.py:59-61 | A confirmed voiding is read without error iff inutNFe, its infInut, retInutNFe and its infInut are dicts or absent. |
| RecordFacts.VoidingRecordShape | app/app.py:64-93 | The key is "nNFIni - nNFFin" of the request's infInut when the ends differ and nNFIni otherwise, the number is nNFIni, the justification its xJust; no recipient or tax id ('Não se aplica') and value 0.0. |
| RecordFacts.VoidingWithoutAnswer | app/app.py:61-81 | Without retInutNFe: status INUTILIZADO, empty protocol, empty date. |
| RecordFacts.VoidingStatusIsTheAnswer | app/app.py:80 | The status is the authority's xMotivo whenever it is present. |
| RecordFacts.VoidingStatusDefault | app/app.py:80 | An answer whose infInut has no xMotivo leaves the status at 'INUTILIZADO'. |
| RecordFacts.SimpleVoidingShape | app/app.py:140-164 | An inutNFe gives a record iff its infInut is a dict; its key is "nNFIni - nNFFin" when the ends differ and nNFIni otherwise, the number nNFIni, the date and justification its dhRecbto and xJust; the status is always INUTILIZADO, the protocol empty, the value 0.0, and both recipient fields 'Não se aplica'. |
| RecordFacts.EventCancellationKeeps | app/app.py:106 | An event yields a record iff its tpEvento, stripped, is 110111 or 110112. |
| RecordFacts.CancellationsKeepCancellations | app/app.py:102-133 | One record per cancellation event, each CANCELADO with value 0.0 and no recipient. |
| RecordFacts.CancellationsStep | app/app.py:103-133 | Each loop step keeps the earlier records and appends at most one CANCELADO record. |
| RecordFacts.CancellationNumber | app/app.py:117-120 | For a 44-character key, the key is chNFe and the number is the nine characters at offset 25. |
| RecordFacts.EmptyKeyCrashes | app/app.py:118 | An empty chNFe element raises TypeError at `len`. |
| RecordFacts.SubmissionsOnePerDocument | app/app.py:172-202 | One record per document, each 'ENVIADO (SEM PROTOCOLO)' with an empty protocol and justification. |
| RecordFacts.SubmissionKey | app/app.py:182 | For an @Id of "NFe" followed by digits, the key is the digits. |
| RecordFacts.DigitsHoldNoPrefix | app/app.py:182 | A string of digits does not contain "NFe", so removing it leaves the digits. |
| RecordFacts.SubmissionUnreadableTotal | app/app.py:186-190 | A vNF that `float()` rejects gives 0.0. |
| RecordFacts.SubmissionWithoutRecipient | app/app.py:195-196 | An empty dest gives 'Consumidor não identificado' and 'Não informado'. |
| RecordFacts.ProcessedEventProtocol | app/app.py:222 | The protocol is detEvento's nProt when it is truthy, and the receipt's nProt otherwise. |
| RecordFacts.ProcessedEventKeeps | app/app.py:212-213 | A processed event yields a record exactly when its stripped tpEvento is 110111. |
| RecordFacts.ProcessedSubstitutionDropped | app/app.py:213 | A processed cancellation by substitution (110112) gives no record. |
| RecordFacts.AuthorisedViaReceipt | app/app.py:257-279 | An authorised record is built from the ide date and the protNFe receipt. |
| RecordFacts.ReceiptFields | app/app.py:269-279 | Key, status and protocol come from infProt (chNFe, xMotivo, nProt); the justification is empty. |
| RecordFacts.NoReceiptNoKey | app/app.py:264-277 | Without protNFe the key, status and protocol are all empty. |
| RecordFacts.AuthorisedUnreadableTotal | app/app.py:275 | A vNF that `float()` rejects raises ValueError, so the whole file fails. |
| RecordFacts.AuthorisedEmptyRecipientCrashes | app/app.py:273 | An empty dest element (None) raises AttributeError. |
| RecordFacts.AuthorisedWithoutRecipient | app/app.py:273-274 | A missing dest gives 'Consumidor não identificado' and 'Não informado'. |
| Numbering.DetectGaps | app/app.py:586-621 | The detector returns exactly the missing numbers of the live rows' numbers. |
| Numbering.GapsBetween | app/app.py:605-621 | Fewer than two numbers give []; otherwise sort and enumerate gives exactly the missing numbers. |
| Numbering.GapsOfSorted | app/app.py:612-619 | On an ascending list the nested loops give the integers from the first to the last number that are absent. |
| Numbering.AppendMissing | app/app.py:616-619 | The inner loop appends exactly the integers strictly between two neighbours. |
| Numbering.AbsentStep | app/app.py:618-619 | Extending the range by one adds that integer iff it is absent. |
| Numbering.SortedEnds | app/app.py:608 | After sorting, the first number is the least and the last the greatest. |
| Numbering.AbsentMembers | app/app.py:612-619 | An integer is listed iff it lies in the range and is not present. |
| Numbering.AbsentAscending | app/app.py:612-619 | The listed integers are strictly ascending. |
| Numbering.AbsentLength | app/app.py:612-619 | The length is the width of the range minus the present integers in it. |
| Numbering.MissingMembers | app/app.py:605-621 | Missing iff there are at least two numbers and x lies between least and greatest and is not present. |
| Numbering.MissingAscending | app/app.py:608-621 | The report is strictly ascending, so each number appears once. |
| Numbering.MissingCount | app/app.py:608-621 | Its length is (max − min + 1) minus the number of distinct values. |
| Numbering.MissingBetweenNeighbours | test_numeracao.py:30-43 | Every reported number lies strictly between two adjacent sorted inputs. |
| Numbering.MissingDependsOnValues | test_numeracao.py:30-43 | The report depends only on the set of values, so order and duplicates do not matter. |
| Numbering.SingleValue | test_numeracao.py:27-43 | A list whose values are one number gives no gap, even when it repeats. |
| Numbering.CollectMembers | app/app.py:597-603 | The collection loop keeps exactly the values the reader accepts. |
| Numbering.LiveNumbersMembers | test_numeracao.py:13-25 | The numbers kept are those of live rows that `int()` accepts; other rows are skipped without raising. |
| Numbering.CollectOrderIrrelevant | app/app.py:597-603 | Rows in another order give the same set of values. |
| Numbering.RowOrderIrrelevant | app/app.py:586-621 | The report does not depend on row order. |
| Numbering.ExcludedInAnyCase | app/app.py:591 | A status containing "cancelado" or "inutilizado" in any case is excluded. |
| Numbering.NonTextStatusIsLive | app/app.py:591 | A status that is not a string counts as live (`na=False`). |
| Numbering.AuthorisedIsLive | test_numeracao.py:13 | An 'AUTORIZADO' row is live. |
| Numbering.PrintedNumber | test_numeracao.py:22 | `int()` of an integer's decimal text is that integer. |
| Numbering.AuthorisedRows | test_numeracao.py:13-25 | Authorised rows with printed numbers give exactly those numbers, in order. |
| Numbering.GapExampleNumbers | test_numeracao.py:45-56 | The first sample table gives the numbers 1, 2, 3, 5. |
| Numbering.GapExampleReportsFour | test_numeracao.py:45-67 | The first sample table reports [4]. |
| Numbering.ContinuousExampleNumbers | test_numeracao.py:78-89 | The second sample table gives the numbers 1, 2, 3, 4. |
| Numbering.ContinuousExampleReportsNothing | test_numeracao.py:78-96 | The second sample table reports []. |
| Sorting.Insert | app/app.py:608 | Inserting into an ascending list keeps it ascending and adds exactly x. |
| Sorting.Sort | app/app.py:608 | `sorted` is an ascending permutation. |
| Sorting.SortedPermutationUnique | app/app.py:608 | Two ascending permutations of a list are equal, so any correct sort gives `Sort`. |
| Sorting.SortKeepsMembers | app/app.py:608 | Sorting keeps membership. |
| Sorting.SortAscending | app/app.py:630 | Sorting an ascending list leaves it unchanged. |
| Intervals.GroupIntervals | app/app.py:623-647 | [] gives []; otherwise sort and fold into runs, exactly `Intervals`. |
| Intervals.RenderRuns | app/app.py:631-647 | The `inicio`/`fim` loop writes exactly the rendered runs of the list. |
| Intervals.RunsStep | app/app.py:634-642 | A number one above the current run extends it; any other number closes it and opens a new run. |
| Intervals.RenderAppend | app/app.py:638-646 | Closing a run appends its text. |
| Intervals.RunsCover | app/app.py:623-647 | Expanding the runs reproduces the input. |
| Intervals.RunsWellFormed | app/app.py:631-647 | Every run has first ≤ last. |
| Intervals.RunsMaximal | app/app.py:634-647 | No two adjacent runs could be joined, and the last run ends at the last number. |
| Intervals.RunsSeparated | app/app.py:623-647 | For strictly ascending input, runs are separated by a gap of at least 2 and span the first to the last number. |
| Intervals.ReadRender | app/app.py:638-646 | The text written for a run reads back to that run, so "N" and "A até B" are unambiguous. |
| Intervals.ConsecutiveIsOneRun | app/app.py:623-647 | A block of consecutive integers is a single run. |
| Intervals.DocumentedExample | app/app.py:626 | [2..9] gives ['2 até 9']. |
| Report.CollectResults | app/app.py:789-805 | The upload loop gathers the rows of every file in order, lists the files with none, and counts what it gathered. |
| Report.SkippedFiles | app/app.py:794-802 | A file is reported as not processed iff it gives no row. |
| Report.GatheredFrom | app/app.py:794-800 | Every gathered row comes from some file's result. |
| Report.UnparsableSkipped | app/app.py:801-802 | A file that is not well-formed XML is listed as not processed. |
| Report.SortKeyOfDigits | app/app.py:816-821 | A key of digits sorts by its numeric value. |
| Report.SortKeyOfRange | app/app.py:816-821 | A voided range "ini - fin" sorts as 0. |
| Report.SortKeyOfOther | app/app.py:816-821 | A key that is not an integer literal, or not a string, sorts as 0. |
| Report.CheckNumbering | app/app.py:834-841 | The alert's numbers are the missing ones, and the intervals are their runs when there are any. |
| Report.AlertIntervals | app/app.py:834-841 | The alert intervals stand for exactly the missing numbers, separated by present ones. |
| Report.FilterMembers | app/app.py:872-874 | A sheet holds exactly the rows its test accepts. |
| Report.SheetsPartition | app/app.py:872-874 | A row is on 'NFCe Emitidas' iff it is on neither of the other two sheets. |
| Report.SheetsCount | app/app.py:872-879 | Each row is written once, except a status mentioning both words, which goes to both other sheets. |
| Report.DetectorReadsEmittedSheet | app/app.py:874 | The detector reads exactly the rows of the 'NFCe Emitidas' sheet. |
| Report.CancellationSheet | app/app.py:872 | A CANCELADO record goes to 'NFCe Canceladas' only. |
| Report.VoidingSheet | app/app.py:873 | An INUTILIZADO record goes to 'NFCe Inutilizadas' only. |
| Report.SubmissionSheet | app/app.py:874 | An 'ENVIADO (SEM PROTOCOLO)' record is emitted and live. |
| Report.AcceptedVoidingIsEmitted | app/app.py:872-874 | A confirmed voiding whose xMotivo is the authority's 'Inutilizacao de numero homologado' mentions neither word, so it lands on 'NFCe Emitidas' and is read by the detector. |
| PyBuiltins.ParseIntOfIntToString | app/app.py:600 | `int(str(n)) == n`. |
| PyBuiltins.ParseIntOfDigits | app/app.py:818 | `int()` of a digit string is its decimal value. |
| PyBuiltins.SpacedDashIsNotInt | app/app.py:818 | Text of the form "x - y" is never an integer literal. |
| PyBuiltins.NonNumericText | app/app.py:600 | Text that starts with a non-digit, non-sign, non-space character is not an integer. |
| PyBuiltins.UpperConcat | app/app.py:591 | `upper` distributes over concatenation. |
| PyBuiltins.ContainsUpper | app/app.py:591 | A substring stays a substring after upper-casing both. |
| PyBuiltins.AfterLast | app/app.py:52 | `k.split(sep)[-1]` is the suffix after the last separator and holds no separator. |
| PyBuiltins.Take | app/app.py:72 | `s[:19]` is the prefix of length min(19, len(s)). |
| PyBuiltins.DropLeading | app/app.py:105 | `strip` removes exactly the leading whitespace. |
| PyBuiltins.DropTrailing | app/app.py:105 | `strip` removes exactly the trailing whitespace. |
| PyBuiltins.ReplaceAbsent | app/app.py:182 | `replace` of an absent pattern leaves the text unchanged. |

## Left out

- Streamlit UI, progress bar, metrics, session state and messages: I/O. The diagnostics are kept only as the outcome variants Malformed, Unrecognised and Crashed.
- ZIP extraction, UTF-8 decoding and the file filter: file plumbing. The batch takes the decoded documents as `(name, document)` pairs.
- PDF and Excel rendering, and column widths: thin wrappers over external libraries. Only the choice of the rows of the three sheets is modelled.
- `xmltodict.parse`: a foreign library. Its result is the input, either `Document.Tree` or `Document.Unparsable`.
- `datetime.strptime` and `float()`: their results are parameters (`Parsers.strptime`, `Parsers.parseFloat`). Calendar checks and floating point are not modelled, and 'Valor Total' is a `real`.
- Report.SortKey: `str()` of a non-string tree value inside a range key is the parameter `show`. Since " - " never parses as an integer, the key is 0 whatever `show` returns.
- Report.CollectResults: `process_xml_file` is the parameter `process`. `Report.UnparsableSkipped` instantiates it with `Classify`.
- The sort by `chave_int` itself (`sort_values`): only the key is modelled. pandas' order among equal keys does not matter to the detector, by `Numbering.RowOrderIrrelevant`.
- The statistics (sum and mean of 'Valor Total'): floating point.
- `normalize_str`: the Unicode decomposition tables are not part of this model.
- PyBuiltins.ParseInt: Unicode decimal digits other than ASCII 0-9, and CPython's 4300-digit limit, are not modelled.
- PyBuiltins.Upper and PyBuiltins.Lower follow Python exactly only for the characters whose case mapping involves an ASCII letter. Other characters map to themselves. This is enough to decide every test against the ASCII words CANCELADO and INUTILIZADO and the ASCII envelope tags.
- pandas' `.str` accessor raising on a status column that holds no string at all is not modelled. A non-string status is treated as `na=False`.
- `list.sort` in place and `sorted`: modelled as the value `Sorting.Sort` (insertion sort). `Sorting.SortedPermutationUnique` shows that any correct sort, Timsort included, gives the same list.
- Envelope.FindKeyIndex states only that its position is in range; its first-match meaning is `Envelope.FirstMatch`.
- Envelope.Classify and the stage functions state only the shape of the outcome. Which branch decides, and what each record holds, are the EnvelopeFacts and RecordFacts lemmas.
- Envelope.RangeKey compares the two ends structurally, so two dict ends with the same entries in another order count as different; Python's dict `!=` ignores key order. This matters only for range ends that carry attributes.
- The `try`/`except` around `chNFe[25:34]` cannot fire on a string of 44 characters and is not modelled as a separate path.
