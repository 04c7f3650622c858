/** What each branch of `process_xml_file` puts in the records it builds,
    for any tree with the entries named: which fields come from where, which
    defaults apply when an element is missing, and which inputs raise. */
module RecordFacts {
  import opened PyBuiltins
  import opened XmlTree
  import opened Envelope

  /** `d.get(key, {})` on a dict. */
  function Child(d: Node, key: string): Node
    requires d.Dict?
  {
    Get(d, key, EmptyDict).value
  }

  /** `d` is a dict whose `key` is missing or holds a dict, so that
      `d.get(key, {}).get(...)` does not raise. */
  predicate DictChild(d: Node, key: string) {
    d.Dict? && Child(d, key).Dict?
  }

  /** `d` is a dict without `key`. */
  predicate Lacks(d: Node, key: string) {
    d.Dict? && Lookup(d.entries, key).None?
  }

  // ---------------------------------------------------------------------------
  // ProcInutNFe and inutNFe

  /** A confirmed voiding raises exactly when one of the four levels it reads
      through is present but is not a dict. */
  lemma VoidingConfirmationRaises(p: Parsers, proc: Node)
    ensures VoidingConfirmation(p, proc).Ok? <==>
      && DictChild(proc, "inutNFe") && DictChild(Child(proc, "inutNFe"), "infInut")
      && DictChild(proc, "retInutNFe") && DictChild(Child(proc, "retInutNFe"), "infInut")
  {
  }

  /** A voiding record names no recipient, carries no value, and its number
      is the first of the voided range: nNFIni of the request's infInut, with
      the key "nNFIni - nNFFin" when the ends differ and nNFIni alone otherwise. */
  lemma VoidingRecordShape(p: Parsers, proc: Node)
    requires VoidingConfirmation(p, proc).Ok?
    ensures DictChild(proc, "inutNFe") && DictChild(Child(proc, "inutNFe"), "infInut")
    ensures var r := VoidingConfirmation(p, proc).value;
      && r.recipient == Text(NotApplicable) && r.recipientId == Text(NotApplicable) && r.total == 0.0
      && (r.key.KeyRange? ==> r.number == r.key.first && r.key.first != r.key.last)
      && (r.key.KeyOf? ==> r.number == r.key.node)
    ensures var inf := Child(Child(proc, "inutNFe"), "infInut");
      var ini, fin := Get(inf, "nNFIni", EmptyText).value, Get(inf, "nNFFin", EmptyText).value;
      var r := VoidingConfirmation(p, proc).value;
      && r.key == RangeKey(ini, fin) && r.number == ini
      && r.justification == Get(inf, "xJust", EmptyText).value
  {
  }

  /** Without the authority's answer, a confirmed voiding is reported as
      INUTILIZADO, with no protocol and no date. */
  lemma VoidingWithoutAnswer(p: Parsers, proc: Node)
    requires Lacks(proc, "retInutNFe") && DictChild(proc, "inutNFe") && DictChild(Child(proc, "inutNFe"), "infInut")
    ensures VoidingConfirmation(p, proc).Ok?
    ensures var r := VoidingConfirmation(p, proc).value;
      r.status == Text(VoidedStatus) && r.protocol == EmptyText && r.issued == Kept(EmptyText)
  {
    assert Child(proc, "retInutNFe") == EmptyDict;
  }

  /** The authority's reason text, when present, is the status, whatever it says. */
  lemma VoidingStatusIsTheAnswer(p: Parsers, proc: Node, motive: Node)
    requires VoidingConfirmation(p, proc).Ok?
    requires Lookup(Child(Child(proc, "retInutNFe"), "infInut").entries, "xMotivo") == Some(motive)
    ensures VoidingConfirmation(p, proc).value.status == motive
  {
  }

  /** An answer without a reason text leaves the status at its default,
      INUTILIZADO. */
  lemma VoidingStatusDefault(p: Parsers, proc: Node)
    requires VoidingConfirmation(p, proc).Ok?
    requires Lookup(Child(Child(proc, "retInutNFe"), "infInut").entries, "xMotivo").None?
    ensures VoidingConfirmation(p, proc).value.status == Text(VoidedStatus)
  {
  }

  /** A voiding request without answer is always INUTILIZADO, with no
      protocol; its key, number, date and justification come from its infInut
      as for a confirmed voiding, and it names no recipient. */
  lemma SimpleVoidingShape(p: Parsers, inutil: Node)
    ensures SimpleVoiding(p, inutil).Ok? <==> DictChild(inutil, "infInut")
    ensures SimpleVoiding(p, inutil).Ok? ==>
      var r := SimpleVoiding(p, inutil).value;
      && r.status == Text(VoidedStatus) && r.protocol == EmptyText && r.total == 0.0
      && r.recipient == Text(NotApplicable) && r.recipientId == Text(NotApplicable)
      && r.issued == IssuedAt(p, Get(Child(inutil, "infInut"), "dhRecbto", EmptyText).value)
    ensures SimpleVoiding(p, inutil).Ok? ==>
      var inf := Child(inutil, "infInut");
      var ini, fin := Get(inf, "nNFIni", EmptyText).value, Get(inf, "nNFFin", EmptyText).value;
      var r := SimpleVoiding(p, inutil).value;
      && r.key == RangeKey(ini, fin) && r.number == ini
      && r.justification == Get(inf, "xJust", EmptyText).value
  {
  }

  // ---------------------------------------------------------------------------
  // envEvento

  /** The number of events in `events` the envEvento branch keeps. */
  function CancellationCount(events: seq<Node>): nat
    decreases |events|
  {
    if |events| == 0 then 0
    else CancellationCount(events[..|events| - 1]) + (if IsCancellationEvent(events[|events| - 1]) then 1 else 0)
  }

  /** Each event yields a record exactly when it is a cancellation by either code. */
  lemma EventCancellationKeeps(p: Parsers, event: Node)
    requires EventCancellation(p, event).Ok?
    ensures EventCancellation(p, event).value.Some? <==> IsCancellationEvent(event)
  {
  }

  /** The envEvento loop keeps one record per cancellation event, in order,
      each a CANCELADO record without recipient or value; every other event
      is dropped. */
  lemma {:induction false} CancellationsKeepCancellations(p: Parsers, events: seq<Node>)
    requires Cancellations(p, events).Ok?
    ensures var rs := Cancellations(p, events).value;
      && |rs| == CancellationCount(events)
      && forall i :: 0 <= i < |rs| ==> CancellationShape(rs[i])
    decreases |events|
  {
    if |events| > 0 {
      var init := events[..|events| - 1];
      CancellationsKeepCancellations(p, init);
      CancellationsStep(p, events);
      var rs := Cancellations(p, events).value;
      var before := Cancellations(p, init).value;
      assert forall i :: 0 <= i < |before| ==> rs[i] == before[i];
    }
  }

  /** A record as the cancellation branches build it. */
  predicate CancellationShape(r: Record) {
    r.status == Text(CancelledStatus) && r.total == 0.0 && r.recipient == Text(NotApplicable)
  }

  /** One step of the envEvento loop: the records so far, then the new one if any. */
  lemma CancellationsStep(p: Parsers, events: seq<Node>)
    requires |events| > 0 && Cancellations(p, events).Ok?
    ensures Cancellations(p, events[..|events| - 1]).Ok?
    ensures var rs := Cancellations(p, events).value;
      var before := Cancellations(p, events[..|events| - 1]).value;
      && |rs| == |before| + (if IsCancellationEvent(events[|events| - 1]) then 1 else 0)
      && rs[..|before|] == before
      && forall i :: |before| <= i < |rs| ==> CancellationShape(rs[i])
  {
    EventCancellationKeeps(p, events[|events| - 1]);
  }

  /** A cancellation's number is taken from the nine digits at offset 25 of
      its 44-character access key (the `nNF` field of the key layout). */
  lemma CancellationNumber(p: Parsers, event: Node, key: string)
    requires EventCancellation(p, event).Ok? && EventCancellation(p, event).value.Some?
    requires Lookup(Child(event, "infEvento").entries, "chNFe") == Some(Text(key)) && |key| == 44
    ensures var r := EventCancellation(p, event).value.value;
      r.key == KeyOf(Text(key)) && r.number == Text(key[25..34])
  {
  }

  /** A cancellation whose chNFe element is present but empty (`None` in the
      tree) raises TypeError at `len`, and with it the whole file fails. */
  lemma EmptyKeyCrashes(p: Parsers, event: Node)
    requires IsCancellationEvent(event)
    requires Lookup(Child(event, "infEvento").entries, "chNFe") == Some(Null)
    requires DictChild(Child(event, "infEvento"), "detEvento")
    ensures EventCancellation(p, event) == Raised(TypeError)
  {
  }

  // ---------------------------------------------------------------------------
  // enviNFe

  /** The enviNFe loop makes one record per document, in order, each sent
      without protocol or justification. */
  lemma {:induction false} SubmissionsOnePerDocument(p: Parsers, nfes: seq<Node>)
    requires Submissions(p, nfes).Ok?
    ensures var rs := Submissions(p, nfes).value;
      && |rs| == |nfes|
      && forall i :: 0 <= i < |rs| ==>
           rs[i].status == Text(SentStatus) && rs[i].protocol == EmptyText && rs[i].justification == EmptyText
    decreases |nfes|
  {
    if |nfes| > 0 {
      SubmissionsOnePerDocument(p, nfes[..|nfes| - 1]);
    }
  }

  /** A document without `Id` gets an empty key, and one whose `Id` is "NFe"
      followed by the digits of its key gets those digits. */
  lemma SubmissionKey(p: Parsers, nfe: Node, digits: string)
    requires Submission(p, nfe).Ok?
    requires Lookup(Child(nfe, "infNFe").entries, "@Id") == Some(Text("NFe" + digits))
    requires forall i :: 0 <= i < |digits| ==> IsDigit(digits[i])
    ensures Submission(p, nfe).value.key == KeyOf(Text(digits))
  {
    DigitsHoldNoPrefix(digits);
    ReplaceAbsent(digits, "NFe", "");
    var s := "NFe" + digits;
    assert s[..3] == "NFe" && s[3..] == digits;
    assert ReplaceAll(s, "NFe", "") == digits;
  }

  lemma DigitsHoldNoPrefix(digits: string)
    requires forall i :: 0 <= i < |digits| ==> IsDigit(digits[i])
    ensures !Contains(digits, "NFe")
  {
    forall i | 0 <= i <= |digits| - 3
      ensures !OccursAt(digits, "NFe", i)
    {
      assert digits[i..i + 3][0] == digits[i];
    }
    ContainsAt(digits, "NFe");
  }

  /** A submitted document whose value cannot be read as a number is reported
      with value 0.0: the enviNFe branch catches the exception. */
  lemma SubmissionUnreadableTotal(p: Parsers, nfe: Node, icms: Node, total: string)
    requires Submission(p, nfe).Ok?
    requires icms == DictOr(Get(DictOr(Get(Child(nfe, "infNFe"), "total", EmptyDict).value), "ICMSTot", EmptyDict).value)
    requires Lookup(icms.entries, "vNF") == Some(Text(total)) && p.parseFloat(total).None?
    ensures Submission(p, nfe).value.total == 0.0
  {
  }

  /** An empty `dest` element (`None` in the tree) reads as no recipient. */
  lemma SubmissionWithoutRecipient(p: Parsers, nfe: Node)
    requires Submission(p, nfe).Ok?
    requires Lookup(Child(nfe, "infNFe").entries, "dest") == Some(Null)
    ensures Submission(p, nfe).value.recipient == Text(UnidentifiedConsumer)
    ensures Submission(p, nfe).value.recipientId == Text(NotInformed)
  {
  }

  // ---------------------------------------------------------------------------
  // procEventoNFe

  /** A processed cancellation keeps the event's own protocol when it has a
      non-empty one, and otherwise takes the one in the authority's answer. */
  lemma ProcessedEventProtocol(p: Parsers, proc: Node, own: Node)
    requires ProcessedEvent(p, proc).Ok? && ProcessedEvent(p, proc).value.Some?
    requires Get(Child(Child(Child(proc, "evento"), "infEvento"), "detEvento"), "nProt", EmptyText) == Ok(own)
    ensures var r := ProcessedEvent(p, proc).value.value;
      && (Truthy(own) ==> r.protocol == own)
      && (!Truthy(own) ==> Ok(r.protocol) == ReceiptProtocol(proc))
  {
  }

  /** A processed event yields a record exactly when its tpEvento, stripped,
      is the cancellation code 110111. */
  lemma ProcessedEventKeeps(p: Parsers, proc: Node)
    requires ProcessedEvent(p, proc).Ok?
    ensures DictChild(proc, "evento") && DictChild(Child(proc, "evento"), "infEvento")
    ensures ProcessedEvent(p, proc).value.Some? <==>
      HasCode(Get(Child(Child(proc, "evento"), "infEvento"), "tpEvento", EmptyText).value, CancelCode)
  {
  }

  /** Only code 110111 is kept; a cancellation by substitution (110112) is
      dropped here although the envEvento branch keeps it. */
  lemma ProcessedSubstitutionDropped(p: Parsers, proc: Node)
    requires DictChild(proc, "evento") && DictChild(Child(proc, "evento"), "infEvento")
    requires HasCode(Get(Child(Child(proc, "evento"), "infEvento"), "tpEvento", EmptyText).value, SubstitutionCancelCode)
    ensures ProcessedEvent(p, proc) == Ok(None)
  {
  }

  // ---------------------------------------------------------------------------
  // nfeProc

  /** `infNFe.get('ide', {}).get('dhEmi', '')`. */
  function IssueDate(infNFe: Node): Node
    requires DictChild(infNFe, "ide")
  {
    Get(Child(infNFe, "ide"), "dhEmi", EmptyText).value
  }

  /** An authorised document is read through its receipt, which is looked up
      after the issue date and before everything else. */
  lemma AuthorisedViaReceipt(p: Parsers, proc: seq<(string, Node)>, infNFe: Node)
    requires AuthorisedRecord(p, proc, infNFe).Ok?
    ensures DictChild(infNFe, "ide") && Receipt(proc).Ok?
    ensures AuthorisedRecord(p, proc, infNFe) == RecordFromReceipt(p, infNFe, IssueDate(infNFe), Receipt(proc).value)
  {
  }

  /** The key, the status and the protocol of an authorised document are all
      the receipt's (`protNFe/infProt`); the `Id` of the document is not used. */
  lemma ReceiptFields(p: Parsers, infNFe: Node, when: Node, prot: Node)
    requires infNFe.Dict? && RecordFromReceipt(p, infNFe, when, prot).Ok?
    ensures var r := RecordFromReceipt(p, infNFe, when, prot).value;
      && r.key == KeyOf(Get(prot, "chNFe", EmptyText).value)
      && r.status == Get(prot, "xMotivo", EmptyText).value
      && r.protocol == Get(prot, "nProt", EmptyText).value
      && r.justification == EmptyText
  {
  }

  lemma NoReceiptNoKey(p: Parsers, proc: seq<(string, Node)>, infNFe: Node)
    requires AuthorisedRecord(p, proc, infNFe).Ok? && FindKeyIndex(proc, "protNFe").None?
    ensures var r := AuthorisedRecord(p, proc, infNFe).value;
      r.key == KeyOf(EmptyText) && r.status == EmptyText && r.protocol == EmptyText
  {
    AuthorisedViaReceipt(p, proc, infNFe);
    ReceiptFields(p, infNFe, IssueDate(infNFe), EmptyDict);
  }

  /** Unlike enviNFe, an authorised document whose value cannot be read as a
      number fails as a whole, with ValueError. */
  lemma AuthorisedUnreadableTotal(p: Parsers, proc: seq<(string, Node)>, infNFe: Node, total: string)
    requires DictChild(infNFe, "ide") && DictChild(infNFe, "total")
    requires Receipt(proc).Ok? && Receipt(proc).value.Dict?
    requires Child(infNFe, "dest").Dict?
    requires DictChild(Child(infNFe, "total"), "ICMSTot")
    requires Lookup(Child(Child(infNFe, "total"), "ICMSTot").entries, "vNF") == Some(Text(total))
    requires p.parseFloat(total).None?
    ensures AuthorisedRecord(p, proc, infNFe) == Raised(ValueError)
  {
  }

  /** Unlike enviNFe, an empty `dest` element (`None`) makes an authorised
      document fail with AttributeError, at `None.get('CPF')`. */
  lemma AuthorisedEmptyRecipientCrashes(p: Parsers, proc: seq<(string, Node)>, infNFe: Node)
    requires DictChild(infNFe, "ide") && DictChild(infNFe, "total")
    requires Receipt(proc).Ok? && Receipt(proc).value.Dict?
    requires Lookup(infNFe.entries, "dest") == Some(Null)
    requires DictChild(Child(infNFe, "total"), "ICMSTot")
    ensures AuthorisedRecord(p, proc, infNFe) == Raised(AttributeError)
  {
  }

  /** Without a `dest` element the consumer is unidentified and has no tax id. */
  lemma AuthorisedWithoutRecipient(p: Parsers, proc: seq<(string, Node)>, infNFe: Node)
    requires AuthorisedRecord(p, proc, infNFe).Ok? && Lacks(infNFe, "dest")
    ensures AuthorisedRecord(p, proc, infNFe).value.recipient == Text(UnidentifiedConsumer)
    ensures AuthorisedRecord(p, proc, infNFe).value.recipientId == Text(NotInformed)
  {
    assert Get(infNFe, "dest", EmptyDict) == Ok(EmptyDict);
    assert RecipientName(EmptyDict) == Ok(Text(UnidentifiedConsumer));
    assert RecipientTaxId(EmptyDict) == Ok(Text(NotInformed));
  }
}
