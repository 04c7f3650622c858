/** What `process_xml_file` does with each kind of envelope, stated over
    envelopes of the shape the Brazilian tax authority's schemas give them,
    with the payload values left as parameters. */
module EnvelopeFacts {
  import opened PyBuiltins
  import opened XmlTree
  import opened Envelope

  // ---------------------------------------------------------------------------
  // Tag matching

  /** A tag written in ASCII without a namespace separator. */
  predicate Plain(s: string) {
    forall i :: 0 <= i < |s| ==> s[i] < '\U{80}' && s[i] != ':' && s[i] != '}'
  }

  /** Two plain tags match when they agree letter by letter, ignoring case. */
  lemma PlainTagMatches(k: string, t: string)
    requires Plain(k) && Plain(t)
    ensures KeyMatches(k, t) <==> |k| == |t| && forall i :: 0 <= i < |k| ==> LowerChar(k[i])[0] == LowerChar(t[i])[0]
  {
    AfterLastAbsent(k, ':');
    AfterLastAbsent(k, '}');
    if Lower(k) == Lower(t) {
      LowerSameLetters(k, t);
    }
    if |k| == |t| && forall i :: 0 <= i < |k| ==> LowerChar(k[i])[0] == LowerChar(t[i])[0] {
      SameLettersLower(k, t);
    }
  }

  lemma LowerSameLetters(k: string, t: string)
    requires Plain(k) && Plain(t) && Lower(k) == Lower(t)
    ensures |k| == |t| && forall i :: 0 <= i < |k| ==> LowerChar(k[i])[0] == LowerChar(t[i])[0]
  {
    LowerAscii(k);
    LowerAscii(t);
  }

  lemma SameLettersLower(k: string, t: string)
    requires Plain(k) && Plain(t)
    requires |k| == |t| && forall i :: 0 <= i < |k| ==> LowerChar(k[i])[0] == LowerChar(t[i])[0]
    ensures Lower(k) == Lower(t)
  {
    LowerAscii(k);
    LowerAscii(t);
    assert forall i :: 0 <= i < |k| ==> Lower(k)[i] == Lower(t)[i];
  }

  /** Plain tags of different lengths never match. */
  lemma LengthsDiffer(k: string, t: string)
    requires Plain(k) && Plain(t) && |k| != |t|
    ensures !KeyMatches(k, t)
  {
    AfterLastAbsent(k, ':');
    AfterLastAbsent(k, '}');
    LowerAscii(k);
    LowerAscii(t);
  }

  /** Plain tags that differ in the letter at `i`, ignoring case, never match. */
  lemma LettersDiffer(k: string, t: string, i: nat)
    requires Plain(k) && Plain(t) && i < |k| && i < |t| && LowerChar(k[i])[0] != LowerChar(t[i])[0]
    ensures !KeyMatches(k, t)
  {
    AfterLastAbsent(k, ':');
    AfterLastAbsent(k, '}');
    LowerAscii(k);
    LowerAscii(t);
    assert Lower(k)[i] != Lower(t)[i];
  }

  /** A namespace prefix `ns:` in front of a tag is ignored. */
  lemma PrefixIgnored(prefix: string, local: string, t: string)
    requires Plain(local) && Plain(t)
    ensures KeyMatches(prefix + ":" + local, t) <==> KeyMatches(local, t)
  {
    var k := prefix + ":" + local;
    assert k == prefix + [':'] + local;
    AfterLastOf(prefix, ':', local);
    AfterLastAbsent(local, ':');
    AfterLastAbsent(local, '}');
    SeparatorSurvives(prefix, ':', '}', local);
    SeparatorBlocks(AfterLast(k, '}'), t, ':');
  }

  /** An expanded name `{uri}tag`, as a namespace-processing parser writes it,
      is reduced to its tag. */
  lemma ExpandedNameIgnored(uri: string, local: string, t: string)
    requires Plain(local) && Plain(t)
    ensures KeyMatches("{" + uri + "}" + local, t) <==> KeyMatches(local, t)
  {
    var k := "{" + uri + "}" + local;
    assert k == ("{" + uri) + ['}'] + local;
    AfterLastOf("{" + uri, '}', local);
    AfterLastAbsent(local, ':');
    AfterLastAbsent(local, '}');
    SeparatorSurvives("{" + uri, '}', ':', local);
    SeparatorBlocks(AfterLast(k, ':'), t, '}');
  }

  /** Splitting `pre + c + local` at its last `d` keeps the `c`, when
      `local` has no `d` and `c` is not `d`. */
  lemma SeparatorSurvives(pre: string, c: char, d: char, local: string)
    requires c != d && d !in local
    ensures c in AfterLast(pre + [c] + local, d)
  {
    var k := pre + [c] + local;
    var r := AfterLast(k, d);
    assert k[|pre|] == c && k[|pre| + 1..] == local;
    assert r[|r| - |local| - 1] == c;
  }

  /** A piece holding a separator cannot lower to a plain tag. */
  lemma SeparatorBlocks(r: string, t: string, c: char)
    requires (c == ':' || c == '}') && c in r && Plain(t)
    ensures Lower(r) != Lower(t)
  {
    LowerKeepsSeparator(r, c);
    LowerKeepsSeparator(t, c);
  }

  /** Tags that differ in length or in their first letter never match. */
  lemma Differ(k: string, t: string)
    requires Plain(k) && Plain(t)
    requires |k| != |t| || (|k| > 0 && |t| > 0 && LowerChar(k[0])[0] != LowerChar(t[0])[0])
    ensures !KeyMatches(k, t)
  {
    if |k| != |t| {
      LengthsDiffer(k, t);
    } else {
      LettersDiffer(k, t, 0);
    }
  }

  // ---------------------------------------------------------------------------
  // The six envelope tags

  /** The root tags, in the order `process_xml_file` tries them. */
  const Kinds: seq<string> := ["ProcInutNFe", "envEvento", "inutNFe", "enviNFe", "procEventoNFe", "nfeProc"]

  /** `root` is the tag of kind `n` and of no other. */
  predicate TagOfKind(root: string, n: nat)
    requires n < |Kinds|
  {
    && (KeyMatches(root, Kinds[0]) <==> n == 0)
    && (KeyMatches(root, Kinds[1]) <==> n == 1)
    && (KeyMatches(root, Kinds[2]) <==> n == 2)
    && (KeyMatches(root, Kinds[3]) <==> n == 3)
    && (KeyMatches(root, Kinds[4]) <==> n == 4)
    && (KeyMatches(root, Kinds[5]) <==> n == 5)
  }

  /** A plain tag matches itself. */
  lemma TagMatchesItself(t: string)
    requires Plain(t)
    ensures KeyMatches(t, t)
  {
    PlainTagMatches(t, t);
  }

  // Each pair of the six tags is told apart in a lemma of its own, which keeps
  // every proof about literal tags small.

  lemma Same0() ensures KeyMatches(Kinds[0], Kinds[0]) { TagMatchesItself(Kinds[0]); }
  lemma Same1() ensures KeyMatches(Kinds[1], Kinds[1]) { TagMatchesItself(Kinds[1]); }
  lemma Same2() ensures KeyMatches(Kinds[2], Kinds[2]) { TagMatchesItself(Kinds[2]); }
  lemma Same3() ensures KeyMatches(Kinds[3], Kinds[3]) { TagMatchesItself(Kinds[3]); }
  lemma Same4() ensures KeyMatches(Kinds[4], Kinds[4]) { TagMatchesItself(Kinds[4]); }
  lemma Same5() ensures KeyMatches(Kinds[5], Kinds[5]) { TagMatchesItself(Kinds[5]); }
  lemma Distinct01() ensures !KeyMatches(Kinds[0], Kinds[1]) { Differ(Kinds[0], Kinds[1]); }
  lemma Distinct02() ensures !KeyMatches(Kinds[0], Kinds[2]) { Differ(Kinds[0], Kinds[2]); }
  lemma Distinct03() ensures !KeyMatches(Kinds[0], Kinds[3]) { Differ(Kinds[0], Kinds[3]); }
  lemma Distinct04() ensures !KeyMatches(Kinds[0], Kinds[4]) { Differ(Kinds[0], Kinds[4]); }
  lemma Distinct05() ensures !KeyMatches(Kinds[0], Kinds[5]) { Differ(Kinds[0], Kinds[5]); }
  lemma Distinct10() ensures !KeyMatches(Kinds[1], Kinds[0]) { Differ(Kinds[1], Kinds[0]); }
  lemma Distinct12() ensures !KeyMatches(Kinds[1], Kinds[2]) { Differ(Kinds[1], Kinds[2]); }
  lemma Distinct13() ensures !KeyMatches(Kinds[1], Kinds[3]) { Differ(Kinds[1], Kinds[3]); }
  lemma Distinct14() ensures !KeyMatches(Kinds[1], Kinds[4]) { Differ(Kinds[1], Kinds[4]); }
  lemma Distinct15() ensures !KeyMatches(Kinds[1], Kinds[5]) { Differ(Kinds[1], Kinds[5]); }
  lemma Distinct20() ensures !KeyMatches(Kinds[2], Kinds[0]) { Differ(Kinds[2], Kinds[0]); }
  lemma Distinct21() ensures !KeyMatches(Kinds[2], Kinds[1]) { Differ(Kinds[2], Kinds[1]); }
  lemma Distinct23() ensures !KeyMatches(Kinds[2], Kinds[3]) { Differ(Kinds[2], Kinds[3]); }
  lemma Distinct24() ensures !KeyMatches(Kinds[2], Kinds[4]) { Differ(Kinds[2], Kinds[4]); }
  lemma Distinct25() ensures !KeyMatches(Kinds[2], Kinds[5]) { Differ(Kinds[2], Kinds[5]); }
  lemma Distinct30() ensures !KeyMatches(Kinds[3], Kinds[0]) { Differ(Kinds[3], Kinds[0]); }
  lemma Distinct31() ensures !KeyMatches(Kinds[3], Kinds[1]) { Differ(Kinds[3], Kinds[1]); }
  lemma Distinct32() ensures !KeyMatches(Kinds[3], Kinds[2]) { Differ(Kinds[3], Kinds[2]); }
  lemma Distinct34() ensures !KeyMatches(Kinds[3], Kinds[4]) { Differ(Kinds[3], Kinds[4]); }
  lemma Distinct35() ensures !KeyMatches(Kinds[3], Kinds[5]) { Differ(Kinds[3], Kinds[5]); }
  lemma Distinct40() ensures !KeyMatches(Kinds[4], Kinds[0]) { Differ(Kinds[4], Kinds[0]); }
  lemma Distinct41() ensures !KeyMatches(Kinds[4], Kinds[1]) { Differ(Kinds[4], Kinds[1]); }
  lemma Distinct42() ensures !KeyMatches(Kinds[4], Kinds[2]) { Differ(Kinds[4], Kinds[2]); }
  lemma Distinct43() ensures !KeyMatches(Kinds[4], Kinds[3]) { Differ(Kinds[4], Kinds[3]); }
  lemma Distinct45() ensures !KeyMatches(Kinds[4], Kinds[5]) { Differ(Kinds[4], Kinds[5]); }
  lemma Distinct50() ensures !KeyMatches(Kinds[5], Kinds[0]) { Differ(Kinds[5], Kinds[0]); }
  lemma Distinct51() ensures !KeyMatches(Kinds[5], Kinds[1]) { Differ(Kinds[5], Kinds[1]); }
  lemma Distinct52() ensures !KeyMatches(Kinds[5], Kinds[2]) { Differ(Kinds[5], Kinds[2]); }
  lemma Distinct53() ensures !KeyMatches(Kinds[5], Kinds[3]) { Differ(Kinds[5], Kinds[3]); }
  lemma Distinct54() ensures !KeyMatches(Kinds[5], Kinds[4]) { Differ(Kinds[5], Kinds[4]); }

  /** `ProcInutNFe` names kind 0 and no other. */
  lemma ProcInutNFeTag()
    ensures TagOfKind(Kinds[0], 0)
  {
    Same0();
    Distinct01(); Distinct02(); Distinct03(); Distinct04(); Distinct05();
  }

  /** `envEvento` names kind 1 and no other. */
  lemma EnvEventoTag()
    ensures TagOfKind(Kinds[1], 1)
  {
    Same1();
    Distinct10(); Distinct12(); Distinct13(); Distinct14(); Distinct15();
  }

  /** `inutNFe` names kind 2 and no other. */
  lemma InutNFeTag()
    ensures TagOfKind(Kinds[2], 2)
  {
    Same2();
    Distinct20(); Distinct21(); Distinct23(); Distinct24(); Distinct25();
  }

  /** `enviNFe` names kind 3 and no other. */
  lemma EnviNFeTag()
    ensures TagOfKind(Kinds[3], 3)
  {
    Same3();
    Distinct30(); Distinct31(); Distinct32(); Distinct34(); Distinct35();
  }

  /** `procEventoNFe` names kind 4 and no other. */
  lemma ProcEventoNFeTag()
    ensures TagOfKind(Kinds[4], 4)
  {
    Same4();
    Distinct40(); Distinct41(); Distinct42(); Distinct43(); Distinct45();
  }

  /** `nfeProc` names kind 5 and no other. */
  lemma NfeProcTag()
    ensures TagOfKind(Kinds[5], 5)
  {
    Same5();
    Distinct50(); Distinct51(); Distinct52(); Distinct53(); Distinct54();
  }

  lemma KindTag(n: nat)
    requires n < |Kinds|
    ensures TagOfKind(Kinds[n], n)
  {
    if n == 0 { ProcInutNFeTag(); }
    else if n == 1 { EnvEventoTag(); }
    else if n == 2 { InutNFeTag(); }
    else if n == 3 { EnviNFeTag(); }
    else if n == 4 { ProcEventoNFeTag(); }
    else { NfeProcTag(); }
  }

  /** Each of the six tags behind a namespace prefix names the same kind. */
  lemma PrefixedKind(prefix: string, n: nat)
    requires n < |Kinds|
    ensures TagOfKind(prefix + ":" + Kinds[n], n)
  {
    KindTag(n);
    PlainKind(n);
    PlainKind(0); PrefixIgnored(prefix, Kinds[n], Kinds[0]);
    PlainKind(1); PrefixIgnored(prefix, Kinds[n], Kinds[1]);
    PlainKind(2); PrefixIgnored(prefix, Kinds[n], Kinds[2]);
    PlainKind(3); PrefixIgnored(prefix, Kinds[n], Kinds[3]);
    PlainKind(4); PrefixIgnored(prefix, Kinds[n], Kinds[4]);
    PlainKind(5); PrefixIgnored(prefix, Kinds[n], Kinds[5]);
  }

  /** And so does each of them in expanded `{uri}tag` form. */
  lemma ExpandedKind(uri: string, n: nat)
    requires n < |Kinds|
    ensures TagOfKind("{" + uri + "}" + Kinds[n], n)
  {
    KindTag(n);
    PlainKind(n);
    PlainKind(0); ExpandedNameIgnored(uri, Kinds[n], Kinds[0]);
    PlainKind(1); ExpandedNameIgnored(uri, Kinds[n], Kinds[1]);
    PlainKind(2); ExpandedNameIgnored(uri, Kinds[n], Kinds[2]);
    PlainKind(3); ExpandedNameIgnored(uri, Kinds[n], Kinds[3]);
    PlainKind(4); ExpandedNameIgnored(uri, Kinds[n], Kinds[4]);
    PlainKind(5); ExpandedNameIgnored(uri, Kinds[n], Kinds[5]);
  }

  lemma PlainKind(n: nat)
    requires n < |Kinds|
    ensures Plain(Kinds[n])
  {
    if n == 0 { assert Plain(Kinds[0]); }
    else if n == 1 { assert Plain(Kinds[1]); }
    else if n == 2 { assert Plain(Kinds[2]); }
    else if n == 3 { assert Plain(Kinds[3]); }
    else if n == 4 { assert Plain(Kinds[4]); }
    else { assert Plain(Kinds[5]); }
  }

  // ---------------------------------------------------------------------------
  // Which branch decides, for the single-root dict xmltodict builds

  /** In a single-root dict, a tag search finds the root or nothing. */
  lemma SingleRootSearch(root: string, v: Node, t: string)
    ensures FindKeyIndex([(root, v)], t) == if KeyMatches(root, t) then Some(0) else None
  {
  }

  /** The root tag is none of the six. */
  predicate UnknownTag(root: string) {
    && !KeyMatches(root, Kinds[0]) && !KeyMatches(root, Kinds[1]) && !KeyMatches(root, Kinds[2])
    && !KeyMatches(root, Kinds[3]) && !KeyMatches(root, Kinds[4]) && !KeyMatches(root, Kinds[5])
  }

  /** Past the procEventoNFe stage, a root that is not nfeProc is unrecognised. */
  lemma NoProcessedDocument(p: Parsers, root: string, v: Node)
    requires !KeyMatches(root, Kinds[5])
    ensures ProcessedDocument(p, [(root, v)]) == Unrecognised
  {
    SingleRootSearch(root, v, "nfeProc");
  }

  /** Past the enviNFe stage, a root of a later-unknown kind is unrecognised. */
  lemma NothingAfterSubmissions(p: Parsers, root: string, v: Node)
    requires !KeyMatches(root, Kinds[4]) && !KeyMatches(root, Kinds[5])
    ensures AfterSubmissions(p, [(root, v)]) == Unrecognised
  {
    SingleRootSearch(root, v, "procEventoNFe");
    NoProcessedDocument(p, root, v);
  }

  lemma NothingAfterVoidingRequest(p: Parsers, root: string, v: Node)
    requires !KeyMatches(root, Kinds[3]) && !KeyMatches(root, Kinds[4]) && !KeyMatches(root, Kinds[5])
    ensures AfterVoidingRequest(p, [(root, v)]) == Unrecognised
  {
    SingleRootSearch(root, v, "enviNFe");
    NothingAfterSubmissions(p, root, v);
  }

  lemma NothingAfterEvents(p: Parsers, root: string, v: Node)
    requires !KeyMatches(root, Kinds[2]) && !KeyMatches(root, Kinds[3])
    requires !KeyMatches(root, Kinds[4]) && !KeyMatches(root, Kinds[5])
    ensures AfterEvents(p, [(root, v)]) == Unrecognised
  {
    SingleRootSearch(root, v, "inutNFe");
    NothingAfterVoidingRequest(p, root, v);
  }

  lemma NothingAfterVoidingConfirmation(p: Parsers, root: string, v: Node)
    requires !KeyMatches(root, Kinds[1]) && !KeyMatches(root, Kinds[2]) && !KeyMatches(root, Kinds[3])
    requires !KeyMatches(root, Kinds[4]) && !KeyMatches(root, Kinds[5])
    ensures AfterVoidingConfirmation(p, [(root, v)]) == Unrecognised
  {
    SingleRootSearch(root, v, "envEvento");
    NothingAfterEvents(p, root, v);
  }

  /** A document whose root is of no known kind is reported as carrying no
      invoice information. */
  lemma UnknownRootIsUnrecognised(p: Parsers, root: string, v: Node)
    requires UnknownTag(root)
    ensures Classify(p, Tree([(root, v)])) == Unrecognised
  {
    SingleRootSearch(root, v, "ProcInutNFe");
    NothingAfterVoidingConfirmation(p, root, v);
  }

  /** A ProcInutNFe root always decides, with one record or an exception. */
  lemma VoidingConfirmationDecides(p: Parsers, root: string, v: Node)
    requires TagOfKind(root, 0)
    ensures Classify(p, Tree([(root, v)])) == FromRecord(VoidingConfirmation(p, v))
  {
    SingleRootSearch(root, v, "ProcInutNFe");
  }

  /** An envEvento root decides only when it holds a cancellation; a batch of
      other events is reported as carrying no invoice information. */
  lemma EventBatchDecides(p: Parsers, root: string, v: Node)
    requires TagOfKind(root, 1)
    ensures var b := EventBatch(p, v);
      Classify(p, Tree([(root, v)])) == if b.Raised? then Crashed(b.error) else if b.value != [] then Many(b.value) else Unrecognised
  {
    SingleRootSearch(root, v, "ProcInutNFe");
    SingleRootSearch(root, v, "envEvento");
    NothingAfterEvents(p, root, v);
  }

  /** An inutNFe root always decides. */
  lemma SimpleVoidingDecides(p: Parsers, root: string, v: Node)
    requires TagOfKind(root, 2)
    ensures Classify(p, Tree([(root, v)])) == FromRecord(SimpleVoiding(p, v))
  {
    SingleRootSearch(root, v, "ProcInutNFe");
    SingleRootSearch(root, v, "envEvento");
    SingleRootSearch(root, v, "inutNFe");
  }

  /** An enviNFe root decides unless it holds no document. */
  lemma SubmissionBatchDecides(p: Parsers, root: string, v: Node)
    requires TagOfKind(root, 3)
    ensures var b := SubmissionBatch(p, v);
      Classify(p, Tree([(root, v)])) == if b.Raised? then Crashed(b.error) else if b.value != [] then Many(b.value) else Unrecognised
  {
    SingleRootSearch(root, v, "ProcInutNFe");
    SingleRootSearch(root, v, "envEvento");
    SingleRootSearch(root, v, "inutNFe");
    SingleRootSearch(root, v, "enviNFe");
    NothingAfterSubmissions(p, root, v);
  }

  /** A procEventoNFe root decides for a cancellation (code 110111) only; any
      other event, a cancellation by substitution included, is reported as
      carrying no invoice information. */
  lemma ProcessedEventDecides(p: Parsers, root: string, v: Node)
    requires TagOfKind(root, 4)
    ensures var e := ProcessedEvent(p, v);
      Classify(p, Tree([(root, v)])) == if e.Raised? then Crashed(e.error) else if e.value.Some? then One(e.value.value) else Unrecognised
  {
    SingleRootSearch(root, v, "ProcInutNFe");
    SingleRootSearch(root, v, "envEvento");
    SingleRootSearch(root, v, "inutNFe");
    SingleRootSearch(root, v, "enviNFe");
    SingleRootSearch(root, v, "procEventoNFe");
    NoProcessedDocument(p, root, v);
  }

  /** An nfeProc root is read as an authorised document. */
  lemma ProcessedDocumentDecides(p: Parsers, root: string, v: Node)
    requires TagOfKind(root, 5)
    ensures Classify(p, Tree([(root, v)])) == ProcessedDocument(p, [(root, v)])
  {
    SingleRootSearch(root, v, "ProcInutNFe");
    SingleRootSearch(root, v, "envEvento");
    SingleRootSearch(root, v, "inutNFe");
    SingleRootSearch(root, v, "enviNFe");
    SingleRootSearch(root, v, "procEventoNFe");
  }

  /** An nfeProc root whose dict holds no NFe tag is unrecognised. */
  lemma NfeProcWithoutNFe(p: Parsers, root: string, v: Node)
    requires TagOfKind(root, 5) && v.Dict? && FindKeyIndex(v.entries, "NFe").None?
    ensures Classify(p, Tree([(root, v)])) == Unrecognised
  {
    ProcessedDocumentDecides(p, root, v);
    SingleRootSearch(root, v, "nfeProc");
  }

  /** An nfeProc root whose NFe dict holds no infNFe tag is unrecognised. */
  lemma NFeWithoutInfNFe(p: Parsers, root: string, v: Node)
    requires TagOfKind(root, 5) && v.Dict? && FindKeyIndex(v.entries, "NFe").Some?
    requires v.entries[FindKeyIndex(v.entries, "NFe").value].1.Dict?
    requires FindKeyIndex(v.entries[FindKeyIndex(v.entries, "NFe").value].1.entries, "infNFe").None?
    ensures Classify(p, Tree([(root, v)])) == Unrecognised
  {
    ProcessedDocumentDecides(p, root, v);
    SingleRootSearch(root, v, "nfeProc");
  }
}
