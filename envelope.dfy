/** `process_xml_file` (app/app.py): recognises which of six NF-e/NFC-e
    envelope kinds a parsed XML file is and turns it into one or more
    nine-field report records.

    The classification is given twice: as the function Classify, which
    states what the outcome is, and as the method ProcessXmlFile, which does
    it the way `process_xml_file` does (key searches and record lists built in
    loops) and is proved to agree with Classify. */
module Envelope {
  import opened PyBuiltins
  import opened XmlTree

  // ---------------------------------------------------------------------------
  // Fixed texts of the records

  const NotApplicable: string := "Não se aplica"
  const NotIdentified: string := "Não identificado"
  const NotInformed: string := "Não informado"
  const UnidentifiedConsumer: string := "Consumidor não identificado"
  const VoidedStatus: string := "INUTILIZADO"
  const CancelledStatus: string := "CANCELADO"
  const SentStatus: string := "ENVIADO (SEM PROTOCOLO)"

  /** Event type codes: cancellation, and cancellation by substitution. */
  const CancelCode: string := "110111"
  const SubstitutionCancelCode: string := "110112"

  // ---------------------------------------------------------------------------
  // Data model

  /** 'Data Emissão': a parsed timestamp, or the value as it was found. */
  datatype Issued = Parsed(at: DateTime) | Kept(raw: Node)

  /** 'Chave da Nota': a value from the tree, or the voided range
      `f"{first} - {last}"`. */
  datatype NoteKey = KeyOf(node: Node) | KeyRange(first: Node, last: Node)

  /** One row of the report, its nine columns in the order `process_xml_file` writes them. Values
      copied from the tree keep the tree's type, as the Python dict does. */
  datatype Record = Record(
    issued: Issued,        // 'Data Emissão'
    key: NoteKey,          // 'Chave da Nota'
    number: Node,          // 'Número NFCe'
    recipient: Node,       // 'Destinatário'
    recipientId: Node,     // 'CPF/CNPJ Destinatário'
    total: real,           // 'Valor Total'
    status: Node,          // 'Status'
    protocol: Node,        // 'Protocolo'
    justification: Node)   // 'Justificativa'

  /** What `xmltodict.parse` yields: an expat failure, or the top-level dict. */
  datatype Document = Unparsable(reason: string) | Tree(top: seq<(string, Node)>)

  /** What `process_xml_file` returns, with its three `None` cases told apart
      by the diagnostic `process_xml_file` prints for each. */
  datatype Outcome =
    | Malformed(reason: string)   // ExpatError: "corrompido ou não é um XML válido"
    | Unrecognised                // warning: "não contém informações de NFCe válidas"
    | Crashed(error: PyError)     // any other exception, with its traceback
    | One(record: Record)         // a dict
    | Many(records: seq<Record>)  // a list

  /** The records an outcome contributes to the report. */
  function RecordsOf(o: Outcome): (rs: seq<Record>)
    ensures o.One? ==> rs == [o.record]
    ensures o.Many? ==> rs == o.records
    ensures !o.One? && !o.Many? ==> rs == []
  {
    match o
    case One(r) => [r]
    case Many(rs) => rs
    case _ => []
  }

  // ---------------------------------------------------------------------------
  // find_key_ignore_ns

  /** Whether tag `k` has local name `target`: the text after its last ':'
      or after its last '}' equals `target`, ignoring case. */
  predicate KeyMatches(k: string, target: string) {
    Lower(AfterLast(k, ':')) == Lower(target) || Lower(AfterLast(k, '}')) == Lower(target)
  }

  /** The position of the first entry whose tag `matches` accepts. */
  function FindFirst(entries: seq<(string, Node)>, matches: string -> bool): (r: Option<nat>)
    ensures r.Some? ==> r.value < |entries|
  {
    if |entries| == 0 then None
    else if matches(entries[0].0) then Some(0)
    else
      var r := FindFirst(entries[1..], matches);
      if r.Some? then Some(r.value + 1) else None
  }

  /** FindFirst finds the first accepted tag, and nothing exactly when no
      tag is accepted. */
  lemma {:induction false} FirstFound(entries: seq<(string, Node)>, matches: string -> bool)
    ensures var r := FindFirst(entries, matches);
      && (r.Some? ==> matches(entries[r.value].0))
      && (r.Some? ==> forall j :: 0 <= j < r.value ==> !matches(entries[j].0))
      && (r.None? <==> forall j :: 0 <= j < |entries| ==> !matches(entries[j].0))
  {
    if |entries| > 0 && !matches(entries[0].0) {
      FirstFound(entries[1..], matches);
      assert forall j :: 1 <= j < |entries| ==> entries[j] == entries[1..][j - 1];
    }
  }

  /** The test find_key_ignore_ns applies to each tag. */
  function Matcher(target: string): string -> bool {
    k => KeyMatches(k, target)
  }

  /** `find_key_ignore_ns(d, key)` as a position in the dict's entries, and
      never an error; FirstMatch states which position it is. */
  function FindKeyIndex(entries: seq<(string, Node)>, target: string): (r: Option<nat>)
    ensures r.Some? ==> r.value < |entries|
  {
    FindFirst(entries, Matcher(target))
  }

  /** The position found is that of the first matching tag, and nothing is
      found exactly when no tag matches. */
  lemma FirstMatch(entries: seq<(string, Node)>, target: string)
    ensures var r := FindKeyIndex(entries, target);
      && (r.Some? ==> KeyMatches(entries[r.value].0, target))
      && (r.Some? ==> forall j :: 0 <= j < r.value ==> !KeyMatches(entries[j].0, target))
      && (r.None? <==> forall j :: 0 <= j < |entries| ==> !KeyMatches(entries[j].0, target))
  {
    FirstFound(entries, Matcher(target));
    assert forall j :: 0 <= j < |entries| ==> (Matcher(target)(entries[j].0) <==> KeyMatches(entries[j].0, target));
  }

  /** `find_key_ignore_ns`: scans the keys in order and returns the first
      that matches, or None. */
  method FindKeyIgnoreNs(d: seq<(string, Node)>, key: string) returns (found: Option<string>)
    ensures found.None? <==> FindKeyIndex(d, key).None?
    ensures found.Some? ==> found.value == d[FindKeyIndex(d, key).value].0
  {
    found := ScanKeys(d, Matcher(key));
  }

  /** The loop of find_key_ignore_ns, for the test `matches` it applies. */
  method ScanKeys(d: seq<(string, Node)>, matches: string -> bool) returns (found: Option<string>)
    ensures found.None? <==> FindFirst(d, matches).None?
    ensures found.Some? ==> found.value == d[FindFirst(d, matches).value].0
  {
    FirstFound(d, matches);
    var i := 0;
    while i < |d|
      invariant 0 <= i <= |d|
      invariant forall j :: 0 <= j < i ==> !matches(d[j].0)
    {
      if matches(d[i].0) {
        return Some(d[i].0);
      }
      i := i + 1;
    }
    return None;
  }

  /** `d[k]` for the key find_key_ignore_ns returned: the entry it was found at. */
  lemma LookupFoundKey(d: seq<(string, Node)>, target: string)
    requires FindKeyIndex(d, target).Some?
    ensures Lookup(d, d[FindKeyIndex(d, target).value].0) == Some(d[FindKeyIndex(d, target).value].1)
  {
    var i := FindKeyIndex(d, target).value;
    FirstMatch(d, target);
    LookupFirst(d, i);
  }

  lemma {:induction false} LookupFirst(d: seq<(string, Node)>, i: nat)
    requires i < |d| && forall j :: 0 <= j < i ==> d[j].0 != d[i].0
    ensures Lookup(d, d[i].0) == Some(d[i].1)
  {
    if i > 0 {
      LookupFirst(d[1..], i - 1);
    }
  }

  // ---------------------------------------------------------------------------
  // Field rules shared by the branches

  /** 'Data Emissão': a non-empty `str` is replaced by `strptime` of its first
      19 characters when that succeeds; anything else, an empty string or a
      failed parse included, is kept exactly as found. */
  function IssuedAt(p: Parsers, v: Node): (r: Issued)
    ensures r.Kept? ==> r.raw == v
    ensures r.Parsed? <==> v.Text? && v.s != "" && p.strptime(Take(v.s, 19)).Some?
    ensures r.Parsed? ==> Some(r.at) == p.strptime(Take(v.s, 19))
  {
    if v.Text? && v.s != "" then
      var d := p.strptime(Take(v.s, 19));
      if d.Some? then Parsed(d.value) else Kept(v)
    else Kept(v)
  }

  /** 'Chave da Nota' of a voiding: "ini - fin" when they differ, else ini. */
  function RangeKey(ini: Node, fin: Node): (k: NoteKey)
    ensures k.KeyRange? <==> ini != fin
    ensures k.KeyRange? ==> k.first == ini && k.last == fin
    ensures k.KeyOf? ==> k.node == ini
  {
    if ini != fin then KeyRange(ini, fin) else KeyOf(ini)
  }

  /** 'Número NFCe' of a cancellation: `chNFe[25:34]` when `len(chNFe) == 44`,
      the sentinel otherwise. `len(None)` raises TypeError; slicing a dict
      raises inside the envEvento branch's own try and also yields the sentinel. */
  function NumberFromKey(ch: Node): (r: Py<Node>)
    ensures r.Raised? <==> ch.Null?
    ensures ch.Text? && |ch.s| == 44 ==> r == Ok(Text(ch.s[25..34]))
    ensures ch.Text? && |ch.s| != 44 ==> r == Ok(Text(NotIdentified))
    ensures ch.Dict? ==> r == Ok(Text(NotIdentified))
  {
    var n :- Len(ch);
    if n != 44 then Ok(Text(NotIdentified))
    else if ch.Text? then Ok(Text(ch.s[25..34]))
    else if ch.List? then Ok(List(ch.items[25..34]))
    else Ok(Text(NotIdentified))
  }

  /** 'Destinatário' of a document: `dest.get('xNome', '')` when `dest` is
      truthy, the unidentified-consumer sentinel when it is not. */
  function RecipientName(dest: Node): (r: Py<Node>)
    ensures !Truthy(dest) ==> r == Ok(Text(UnidentifiedConsumer))
    ensures Truthy(dest) && !dest.Dict? ==> r.Raised?
    ensures Truthy(dest) && dest.Dict? ==>
      r == Ok(if Lookup(dest.entries, "xNome").Some? then Lookup(dest.entries, "xNome").value else EmptyText)
  {
    if Truthy(dest) then Get(dest, "xNome", EmptyText) else Ok(Text(UnidentifiedConsumer))
  }

  /** 'CPF/CNPJ Destinatário': the CPF if it is truthy, else the CNPJ if it is,
      else "Não informado". */
  function RecipientTaxId(dest: Node): (r: Py<Node>)
    ensures r.Ok? <==> dest.Dict?
    ensures r.Ok? ==> Truthy(r.value)
    ensures dest.Dict? ==>
      var cpf, cnpj := Get(dest, "CPF", EmptyText).value, Get(dest, "CNPJ", EmptyText).value;
      r == Ok(if Truthy(cpf) then cpf else if Truthy(cnpj) then cnpj else Text(NotInformed))
  {
    var cpf :- Get(dest, "CPF", EmptyText);
    var cnpj :- Get(dest, "CNPJ", EmptyText);
    Ok(Or(cpf, Or(cnpj, Text(NotInformed))))
  }

  /** `float(x.get('vNF', 0))` on a dict `x`; a missing `vNF` gives `float(0)`. */
  function TotalOf(p: Parsers, totals: Node): (r: Py<real>)
    requires totals.Dict?
    ensures Lookup(totals.entries, "vNF").None? ==> r == Ok(0.0)
    ensures Lookup(totals.entries, "vNF").Some? ==> r == Float(p, Lookup(totals.entries, "vNF").value)
  {
    var v := Lookup(totals.entries, "vNF");
    if v.None? then Ok(0.0) else Float(p, v.value)
  }

  /** The same, with the submission branch's fallback: 0.0 where `float` raises. */
  function TotalOrZero(p: Parsers, totals: Node): (r: real)
    requires totals.Dict?
    ensures TotalOf(p, totals).Ok? ==> r == TotalOf(p, totals).value
    ensures TotalOf(p, totals).Raised? ==> r == 0.0
  {
    var t := TotalOf(p, totals);
    if t.Ok? then t.value else 0.0
  }

  // ---------------------------------------------------------------------------
  // 1. ProcInutNFe: confirmed voiding of a number range

  function VoidingConfirmation(p: Parsers, proc: Node): Py<Record> {
    var inutil :- Get(proc, "inutNFe", EmptyDict);
    var infInut :- Get(inutil, "infInut", EmptyDict);
    var retEnvelope :- Get(proc, "retInutNFe", EmptyDict);
    var retInut :- Get(retEnvelope, "infInut", EmptyDict);
    var ini :- Get(infInut, "nNFIni", EmptyText);
    var fin :- Get(infInut, "nNFFin", EmptyText);
    var received :- Get(retInut, "dhRecbto", EmptyText);
    var just :- Get(infInut, "xJust", EmptyText);
    var status :- Get(retInut, "xMotivo", Text(VoidedStatus));
    var protocol :- Get(retInut, "nProt", EmptyText);
    Ok(VoidingRecord(p, ini, fin, received, status, protocol, just))
  }

  /** The record of a voided range. */
  function VoidingRecord(p: Parsers, ini: Node, fin: Node, received: Node, status: Node, protocol: Node, just: Node): Record {
    Record(IssuedAt(p, received), RangeKey(ini, fin), ini, Text(NotApplicable), Text(NotApplicable),
           0.0, status, protocol, just)
  }

  // ---------------------------------------------------------------------------
  // 2. envEvento: a batch of events, of which only cancellations are kept

  /** The record of one cancellation event. */
  function CancellationRecord(p: Parsers, ch: Node, when: Node, number: Node, protocol: Node, just: Node): Record {
    Record(IssuedAt(p, when), KeyOf(ch), number, Text(NotApplicable), Text(NotApplicable),
           0.0, Text(CancelledStatus), protocol, just)
  }

  /** One iteration of the envEvento loop: a record for a cancellation by
      either code, None for any other event type. */
  function EventCancellation(p: Parsers, event: Node): Py<Option<Record>> {
    var inf :- Get(event, "infEvento", EmptyDict);
    var tp :- Get(inf, "tpEvento", EmptyText);
    if !(HasCode(tp, CancelCode) || HasCode(tp, SubstitutionCancelCode)) then Ok(None)
    else
      var ch :- Get(inf, "chNFe", EmptyText);
      var when :- Get(inf, "dhEvento", EmptyText);
      var det :- Get(inf, "detEvento", EmptyDict);
      var just :- Get(det, "xJust", EmptyText);
      var protocol :- Get(det, "nProt", EmptyText);
      var number :- NumberFromKey(ch);
      Ok(Some(CancellationRecord(p, ch, when, number, protocol, just)))
  }

  /** Whether an event is a cancellation the envEvento branch keeps. */
  predicate IsCancellationEvent(event: Node) {
    && event.Dict?
    && var inf := Get(event, "infEvento", EmptyDict).value;
    && inf.Dict?
    && var tp := Get(inf, "tpEvento", EmptyText).value;
    && (HasCode(tp, CancelCode) || HasCode(tp, SubstitutionCancelCode))
  }

  function Optional(r: Option<Record>): seq<Record> {
    if r.Some? then [r.value] else []
  }

  /** The records the envEvento loop collects from `events`, in order. */
  function Cancellations(p: Parsers, events: seq<Node>): Py<seq<Record>>
    decreases |events|
  {
    if |events| == 0 then Ok([])
    else
      var init :- Cancellations(p, events[..|events| - 1]);
      var last :- EventCancellation(p, events[|events| - 1]);
      Ok(init + Optional(last))
  }

  function EventBatch(p: Parsers, envelope: Node): Py<seq<Record>> {
    var events :- Get(envelope, "evento", List([]));
    Cancellations(p, AsList(events))
  }

  /** The envEvento loop. */
  method CollectCancellations(p: Parsers, events: seq<Node>) returns (r: Py<seq<Record>>)
    ensures r == Cancellations(p, events)
  {
    var results: seq<Record> := [];
    var i := 0;
    while i < |events|
      invariant 0 <= i <= |events|
      invariant Cancellations(p, events[..i]) == Ok(results)
    {
      var one := EventCancellation(p, events[i]);
      assert events[..i + 1][..i] == events[..i] && events[..i + 1][i] == events[i];
      if one.Raised? {
        CancellationsRaise(p, events, i + 1);
        return Raised(one.error);
      }
      assert Cancellations(p, events[..i + 1]) == Ok(results + Optional(one.value));
      if one.value.Some? {
        results := results + [one.value.value];
      } else {
        assert results + Optional(one.value) == results;
      }
      i := i + 1;
    }
    assert events[..i] == events;
    return Ok(results);
  }

  /** An exception in the first `n` events ends the whole loop with it. */
  lemma {:induction false} CancellationsRaise(p: Parsers, events: seq<Node>, n: nat)
    requires n <= |events| && Cancellations(p, events[..n]).Raised?
    ensures Cancellations(p, events) == Cancellations(p, events[..n])
    decreases |events| - n
  {
    if n < |events| {
      assert events[..n + 1][..n] == events[..n];
      CancellationsRaise(p, events, n + 1);
    } else {
      assert events[..n] == events;
    }
  }

  // ---------------------------------------------------------------------------
  // 3. inutNFe: a voiding request without the authority's answer

  function SimpleVoiding(p: Parsers, inutil: Node): Py<Record> {
    var infInut :- Get(inutil, "infInut", EmptyDict);
    var ini :- Get(infInut, "nNFIni", EmptyText);
    var fin :- Get(infInut, "nNFFin", EmptyText);
    var received :- Get(infInut, "dhRecbto", EmptyText);
    var just :- Get(infInut, "xJust", EmptyText);
    Ok(VoidingRecord(p, ini, fin, received, Text(VoidedStatus), EmptyText, just))
  }

  // ---------------------------------------------------------------------------
  // 4. enviNFe: a submission batch of documents without protocol

  /** One iteration of the enviNFe loop. */
  function Submission(p: Parsers, nfe: Node): Py<Record> {
    var inf :- Get(nfe, "infNFe", EmptyDict);
    var ide0 :- Get(inf, "ide", EmptyDict);
    var ide := DictOr(ide0);
    var when :- Get(ide, "dhEmi", EmptyText);
    var id :- Get(inf, "@Id", EmptyText);
    var key :- if !Truthy(id) then Ok(EmptyText)
               else if id.Text? then Ok(Text(ReplaceAll(id.s, "NFe", "")))
               else Raised(AttributeError);
    var dest0 :- Get(inf, "dest", EmptyDict);
    var dest := DictOr(dest0);
    var total0 :- Get(inf, "total", EmptyDict);
    var total := DictOr(total0);
    var icms0 :- Get(total, "ICMSTot", EmptyDict);
    var icms := DictOr(icms0);
    var amount := TotalOrZero(p, icms);
    var number :- Get(ide, "nNF", EmptyText);
    var recipient :- RecipientName(dest);
    var taxId :- RecipientTaxId(dest);
    Ok(Record(IssuedAt(p, when), KeyOf(key), number, recipient, taxId, amount,
              Text(SentStatus), EmptyText, EmptyText))
  }

  /** The records the enviNFe loop collects from `nfes`, in order. */
  function Submissions(p: Parsers, nfes: seq<Node>): Py<seq<Record>>
    decreases |nfes|
  {
    if |nfes| == 0 then Ok([])
    else
      var init :- Submissions(p, nfes[..|nfes| - 1]);
      var last :- Submission(p, nfes[|nfes| - 1]);
      Ok(init + [last])
  }

  function SubmissionBatch(p: Parsers, envelope: Node): Py<seq<Record>> {
    var nfes :- Get(envelope, "NFe", List([]));
    Submissions(p, AsList(nfes))
  }

  /** The enviNFe loop. */
  method CollectSubmissions(p: Parsers, nfes: seq<Node>) returns (r: Py<seq<Record>>)
    ensures r == Submissions(p, nfes)
  {
    var results: seq<Record> := [];
    var i := 0;
    while i < |nfes|
      invariant 0 <= i <= |nfes|
      invariant Submissions(p, nfes[..i]) == Ok(results)
    {
      var one := Submission(p, nfes[i]);
      assert nfes[..i + 1][..i] == nfes[..i] && nfes[..i + 1][i] == nfes[i];
      if one.Raised? {
        SubmissionsRaise(p, nfes, i + 1);
        return Raised(one.error);
      }
      results := results + [one.value];
      i := i + 1;
    }
    assert nfes[..i] == nfes;
    return Ok(results);
  }

  lemma {:induction false} SubmissionsRaise(p: Parsers, nfes: seq<Node>, n: nat)
    requires n <= |nfes| && Submissions(p, nfes[..n]).Raised?
    ensures Submissions(p, nfes) == Submissions(p, nfes[..n])
    decreases |nfes| - n
  {
    if n < |nfes| {
      assert nfes[..n + 1][..n] == nfes[..n];
      SubmissionsRaise(p, nfes, n + 1);
    } else {
      assert nfes[..n] == nfes;
    }
  }

  // ---------------------------------------------------------------------------
  // 5. procEventoNFe: one processed event, kept only for code 110111

  function ProcessedEvent(p: Parsers, proc: Node): Py<Option<Record>> {
    var event :- Get(proc, "evento", EmptyDict);
    var inf :- Get(event, "infEvento", EmptyDict);
    var tp :- Get(inf, "tpEvento", EmptyText);
    if !HasCode(tp, CancelCode) then Ok(None)
    else
      var ch :- Get(inf, "chNFe", EmptyText);
      var when :- Get(inf, "dhEvento", EmptyText);
      var det :- Get(inf, "detEvento", EmptyDict);
      var just :- Get(det, "xJust", EmptyText);
      var own :- Get(det, "nProt", EmptyText);
      var protocol :- if Truthy(own) then Ok(own) else ReceiptProtocol(proc);
      var number :- NumberFromKey(ch);
      Ok(Some(CancellationRecord(p, ch, when, number, protocol, just)))
  }

  /** `proc.get('retEvento', {}).get('infEvento', {}).get('nProt', '')`. */
  function ReceiptProtocol(proc: Node): Py<Node> {
    var ret :- Get(proc, "retEvento", EmptyDict);
    var inf :- Get(ret, "infEvento", EmptyDict);
    Get(inf, "nProt", EmptyText)
  }

  // ---------------------------------------------------------------------------
  // 6. nfeProc: an authorised document with its receipt

  /** `nfeproc.get(protNFe_key, {}).get('infProt', {}) if protNFe_key else {}`. */
  function Receipt(proc: seq<(string, Node)>): Py<Node> {
    var k := FindKeyIndex(proc, "protNFe");
    if k.Some? then Get(proc[k.value].1, "infProt", EmptyDict) else Ok(EmptyDict)
  }

  /** The record of an authorised document, fields read in the order the nfeProc branch reads them. */
  function AuthorisedRecord(p: Parsers, proc: seq<(string, Node)>, infNFe: Node): Py<Record> {
    var ide :- Get(infNFe, "ide", EmptyDict);
    var when :- Get(ide, "dhEmi", EmptyText);
    var prot :- Receipt(proc);
    RecordFromReceipt(p, infNFe, when, prot)
  }

  function RecordFromReceipt(p: Parsers, infNFe: Node, when: Node, prot: Node): Py<Record>
    requires infNFe.Dict?
  {
    var dest :- Get(infNFe, "dest", EmptyDict);
    var total0 :- Get(infNFe, "total", EmptyDict);
    var totals :- Get(total0, "ICMSTot", EmptyDict);
    var key :- Get(prot, "chNFe", EmptyText);
    var ide :- Get(infNFe, "ide", EmptyDict);
    var number :- Get(ide, "nNF", EmptyText);
    var recipient :- RecipientName(dest);
    var taxId :- RecipientTaxId(dest);
    var amount :- if totals.Dict? then TotalOf(p, totals) else Raised(AttributeError);
    var status :- Get(prot, "xMotivo", EmptyText);
    var protocol :- Get(prot, "nProt", EmptyText);
    Ok(Record(IssuedAt(p, when), KeyOf(key), number, recipient, taxId, amount, status, protocol, EmptyText))
  }

  /** The last kind: three nested searches, any of which may come back empty. */
  function ProcessedDocument(p: Parsers, top: seq<(string, Node)>): (o: Outcome)
    ensures o.Unrecognised? || o.Crashed? || o.One?
  {
    var k := FindKeyIndex(top, "nfeProc");
    if k.None? then Unrecognised
    else
      var proc := top[k.value].1;
      if !proc.Dict? then Crashed(AttributeError)
      else
        var kn := FindKeyIndex(proc.entries, "NFe");
        if kn.None? then Unrecognised
        else
          var nfe := proc.entries[kn.value].1;
          if !nfe.Dict? then Crashed(AttributeError)
          else
            var ki := FindKeyIndex(nfe.entries, "infNFe");
            if ki.None? then Unrecognised
            else FromRecord(AuthorisedRecord(p, proc.entries, nfe.entries[ki.value].1))
  }

  // ---------------------------------------------------------------------------
  // The classification

  /** What a parsed document can lead to: anything but the parse error, and
      a list only when it holds a record. */
  predicate FromTree(o: Outcome) {
    !o.Malformed? && (o.Many? ==> o.records != [])
  }

  function FromRecord(r: Py<Record>): (o: Outcome)
    ensures r.Ok? ==> o == One(r.value)
    ensures r.Raised? ==> o == Crashed(r.error)
  {
    if r.Ok? then One(r.value) else Crashed(r.error)
  }

  /** `process_xml_file`: the kinds are tried in the order ProcInutNFe,
      envEvento, inutNFe, enviNFe, procEventoNFe, nfeProc. envEvento and
      enviNFe only decide when they produce records, procEventoNFe only for
      code 110111; otherwise the next kind is tried. */
  function Classify(p: Parsers, doc: Document): (o: Outcome)
    ensures o.Malformed? <==> doc.Unparsable?
    ensures o.Many? ==> o.records != []
  {
    match doc
    case Unparsable(reason) => Malformed(reason)
    case Tree(top) => ClassifyTree(p, top)
  }

  /** Stage 1: a ProcInutNFe tag decides. */
  function ClassifyTree(p: Parsers, top: seq<(string, Node)>): (o: Outcome)
    ensures FromTree(o)
  {
    var k := FindKeyIndex(top, "ProcInutNFe");
    if k.Some? then FromRecord(VoidingConfirmation(p, top[k.value].1))
    else AfterVoidingConfirmation(p, top)
  }

  /** Stage 2: an envEvento tag decides when it yields cancellations. */
  function AfterVoidingConfirmation(p: Parsers, top: seq<(string, Node)>): (o: Outcome)
    ensures FromTree(o)
  {
    var k := FindKeyIndex(top, "envEvento");
    var cancelled := if k.Some? then EventBatch(p, top[k.value].1) else Ok([]);
    if cancelled.Raised? then Crashed(cancelled.error)
    else if cancelled.value != [] then Many(cancelled.value)
    else AfterEvents(p, top)
  }

  /** Stage 3: an inutNFe tag decides. */
  function AfterEvents(p: Parsers, top: seq<(string, Node)>): (o: Outcome)
    ensures FromTree(o)
  {
    var k := FindKeyIndex(top, "inutNFe");
    if k.Some? then FromRecord(SimpleVoiding(p, top[k.value].1))
    else AfterVoidingRequest(p, top)
  }

  /** Stage 4: an enviNFe tag decides when it yields documents. */
  function AfterVoidingRequest(p: Parsers, top: seq<(string, Node)>): (o: Outcome)
    ensures FromTree(o)
  {
    var k := FindKeyIndex(top, "enviNFe");
    var sent := if k.Some? then SubmissionBatch(p, top[k.value].1) else Ok([]);
    if sent.Raised? then Crashed(sent.error)
    else if sent.value != [] then Many(sent.value)
    else AfterSubmissions(p, top)
  }

  /** Stage 5: a procEventoNFe tag decides for a cancellation; stage 6 is nfeProc. */
  function AfterSubmissions(p: Parsers, top: seq<(string, Node)>): (o: Outcome)
    ensures FromTree(o)
  {
    var k := FindKeyIndex(top, "procEventoNFe");
    var event := if k.Some? then ProcessedEvent(p, top[k.value].1) else Ok(None);
    if event.Raised? then Crashed(event.error)
    else if event.value.Some? then One(event.value.value)
    else ProcessedDocument(p, top)
  }

  // ---------------------------------------------------------------------------
  // `process_xml_file` step by step

  /** `xml_dict[find_key_ignore_ns(xml_dict, target)]`, or None when no tag matches. */
  method FindChild(d: seq<(string, Node)>, target: string) returns (child: Option<Node>)
    ensures child.None? <==> FindKeyIndex(d, target).None?
    ensures child.Some? ==> child.value == d[FindKeyIndex(d, target).value].1
  {
    var k := FindKeyIgnoreNs(d, target);
    if k.None? {
      return None;
    }
    LookupFoundKey(d, target);
    child := Lookup(d, k.value);
  }

  method ReadReceipt(proc: seq<(string, Node)>) returns (r: Py<Node>)
    ensures r == Receipt(proc)
  {
    var prot := FindChild(proc, "protNFe");
    if prot.None? {
      return Ok(EmptyDict);
    }
    r := Get(prot.value, "infProt", EmptyDict);
  }

  method ReadProcessedDocument(p: Parsers, top: seq<(string, Node)>) returns (o: Outcome)
    ensures o == ProcessedDocument(p, top)
  {
    var proc := FindChild(top, "nfeProc");
    if proc.None? {
      return Unrecognised;
    }
    if !proc.value.Dict? {
      return Crashed(AttributeError);
    }
    var nfe := FindChild(proc.value.entries, "NFe");
    if nfe.None? {
      return Unrecognised;
    }
    if !nfe.value.Dict? {
      return Crashed(AttributeError);
    }
    var inf := FindChild(nfe.value.entries, "infNFe");
    if inf.None? {
      return Unrecognised;
    }
    var ide := Get(inf.value, "ide", EmptyDict);
    if ide.Raised? {
      return Crashed(ide.error);
    }
    var when := Get(ide.value, "dhEmi", EmptyText);
    if when.Raised? {
      return Crashed(when.error);
    }
    var prot := ReadReceipt(proc.value.entries);
    if prot.Raised? {
      return Crashed(prot.error);
    }
    o := FromRecord(RecordFromReceipt(p, inf.value, when.value, prot.value));
  }

  /** `process_xml_file(xml_content, filename)`. */
  method ProcessXmlFile(p: Parsers, doc: Document) returns (o: Outcome)
    ensures o == Classify(p, doc)
  {
    if doc.Unparsable? {
      return Malformed(doc.reason);
    }
    var top := doc.top;

    var procInut := FindChild(top, "ProcInutNFe");
    if procInut.Some? {
      return FromRecord(VoidingConfirmation(p, procInut.value));
    }

    var envEvento := FindChild(top, "envEvento");
    if envEvento.Some? {
      var events := Get(envEvento.value, "evento", List([]));
      if events.Raised? {
        return Crashed(events.error);
      }
      var results := CollectCancellations(p, AsList(events.value));
      if results.Raised? {
        return Crashed(results.error);
      }
      if results.value != [] {
        return Many(results.value);
      }
    }

    var inutNFe := FindChild(top, "inutNFe");
    if inutNFe.Some? {
      return FromRecord(SimpleVoiding(p, inutNFe.value));
    }

    var enviNFe := FindChild(top, "enviNFe");
    if enviNFe.Some? {
      var nfes := Get(enviNFe.value, "NFe", List([]));
      if nfes.Raised? {
        return Crashed(nfes.error);
      }
      var results := CollectSubmissions(p, AsList(nfes.value));
      if results.Raised? {
        return Crashed(results.error);
      }
      if results.value != [] {
        return Many(results.value);
      }
    }

    var procEvento := FindChild(top, "procEventoNFe");
    if procEvento.Some? {
      var event := ProcessedEvent(p, procEvento.value);
      if event.Raised? {
        return Crashed(event.error);
      }
      if event.value.Some? {
        return One(event.value.value);
      }
    }

    o := ReadProcessedDocument(p, top);
  }
}
