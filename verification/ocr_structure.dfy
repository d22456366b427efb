/** Structured extraction: the document type picks an instruction template,
    the text-completion collaborator answers, and the first brace-delimited
    block of the answer (the Python regex `\{[^}]+\}`) is handed to the JSON
    parser. The collaborator and the JSON parser are inputs. */
module OcrStructure {
  import opened Wrappers
  import opened Json
  import opened OcrModel

  // ---------------------------------------------------------------------
  // Template selection

  datatype Template = ContractTemplate | InvoiceTemplate | WaybillTemplate | GenericTemplate

  /** Contracts, invoices and waybills get their own template; every other
      type, `auto` included, gets the generic one. */
  function TemplateFor(d: DocumentType): (t: Template)
    ensures t == GenericTemplate <==> d !in {Contract, Invoice, Waybill}
    ensures t == ContractTemplate <==> d == Contract
    ensures t == InvoiceTemplate <==> d == Invoice
    ensures t == WaybillTemplate <==> d == Waybill
  {
    match d
    case Contract => ContractTemplate
    case Invoice => InvoiceTemplate
    case Waybill => WaybillTemplate
    case _ => GenericTemplate
  }

  /** What the collaborator is asked: the prompt template filled with the
      recognised text, and the context passed along with it. */
  datatype Query = Query(template: Template, text: string, context: map<string, Value>)

  /** The text-completion collaborator (`AIOrchestrator.process_query`): its
      reply to a query, or the message of the exception it raised. */
  type Collaborator = Query -> Result<Value, string>

  /** The query sent for a document of type `d`. */
  function QueryFor(text: string, d: DocumentType): (q: Query)
    ensures q.text == text
    ensures q.template == TemplateFor(d) && q.context == QueryContext(d)
  {
    Query(TemplateFor(d), text, QueryContext(d))
  }

  /** The context passed along with the prompt. */
  function QueryContext(d: DocumentType): (c: map<string, Value>)
    ensures c.Keys == {"type", "document_type"}
    ensures c["type"] == Str("document_parsing")
    ensures c["document_type"] == Str(DocumentTypeValue(d))
  {
    map["type" := Str("document_parsing"), "document_type" := Str(DocumentTypeValue(d))]
  }

  // ---------------------------------------------------------------------
  // The brace scan

  /** `\{[^}]+\}` matches `s[i..j+1]`: an opening brace at `i`, at least one
      character that is not `}`, and the first closing brace after it at `j`. */
  predicate MatchAt(s: string, i: int, j: int) {
    && 0 <= i && i + 2 <= j < |s|
    && s[i] == '{' && s[j] == '}'
    && forall k :: i < k < j ==> s[k] != '}'
  }

  /** Index of the first `}` at or after `k`, or `|s|` when there is none. */
  function NextClose(s: string, k: nat): (r: nat)
    requires k <= |s|
    ensures k <= r <= |s|
    ensures r < |s| ==> s[r] == '}'
    ensures forall m :: k <= m < r ==> s[m] != '}'
    decreases |s| - k
  {
    if k == |s| || s[k] == '}' then k else NextClose(s, k + 1)
  }

  /** The leftmost match starting at or after `from`. */
  function ScanFrom(s: string, from: nat): (r: Option<(nat, nat)>)
    requires from <= |s|
    ensures r.Some? ==> from <= r.value.0 && MatchAt(s, r.value.0, r.value.1)
    ensures r.Some? ==> forall i, j :: from <= i < r.value.0 ==> !MatchAt(s, i, j)
    ensures r.None? ==> forall i, j :: from <= i ==> !MatchAt(s, i, j)
    decreases |s| - from
  {
    if from == |s| then None
    else if s[from] == '{' && from + 1 < |s| && NextClose(s, from + 1) < |s| && NextClose(s, from + 1) >= from + 2 then
      Some((from, NextClose(s, from + 1)))
    else
      var rest := ScanFrom(s, from + 1);
      assert forall j :: !MatchAt(s, from, j);
      rest
  }

  /** `re.search(r'\{[^}]+\}', s)`: the leftmost match, or none. */
  function FirstMatch(s: string): (r: Option<(nat, nat)>)
    ensures r.Some? ==> MatchAt(s, r.value.0, r.value.1)
    ensures r.Some? ==> forall i, j :: 0 <= i < r.value.0 ==> !MatchAt(s, i, j)
    ensures r.None? ==> forall i, j :: !MatchAt(s, i, j)
  {
    ScanFrom(s, 0)
  }

  /** The matched text, `json_match.group(0)`. */
  function MatchedBlock(s: string): (b: Option<string>)
    ensures b.Some? ==> |b.value| >= 3 && b.value[0] == '{' && b.value[|b.value| - 1] == '}'
    ensures b.Some? ==> forall k :: 0 < k < |b.value| - 1 ==> b.value[k] != '}'
    ensures b.None? <==> forall i, j :: !MatchAt(s, i, j)
    // the block is the leftmost match
    ensures b.Some? ==> exists i, j :: (MatchAt(s, i, j) && b.value == s[i..j + 1]
                                        && forall i0, j0 :: 0 <= i0 < i ==> !MatchAt(s, i0, j0))
  {
    match FirstMatch(s)
    case None => None
    case Some((i, j)) => Some(s[i..j + 1])
  }

  /** Text without any `{` has no match. */
  lemma NoOpeningBraceNoMatch(s: string)
    requires forall k :: 0 <= k < |s| ==> s[k] != '{'
    ensures MatchedBlock(s) == None
  {
  }

  /** Before the first `{`, a block that holds no `}` is matched whole, up to
      its closing brace, whatever follows it. */
  lemma BlockUpToFirstClose(pre: string, a: string, post: string)
    requires forall k :: 0 <= k < |pre| ==> pre[k] != '{'
    requires |a| > 0 && forall k :: 0 <= k < |a| ==> a[k] != '}'
    ensures MatchedBlock(pre + "{" + a + "}" + post) == Some("{" + a + "}")
  {
    var s := pre + "{" + a + "}" + post;
    var i, j := |pre|, |pre| + 1 + |a|;
    assert s[i] == '{' && s[j] == '}';
    assert forall k :: i < k < j ==> s[k] == a[k - i - 1];
    assert MatchAt(s, i, j);
    var fm := FirstMatch(s).value;
    assert fm.0 == i by {
      assert forall k :: 0 <= k < i ==> s[k] == pre[k];
    }
    assert fm.1 == j;
    assert s[i..j + 1] == "{" + a + "}";
  }

  /** A nested object is cut at its first inner `}`: the block handed to the
      parser is not the whole object. */
  lemma NestedObjectIsTruncated()
    ensures var inner := "\"a\": {\"b\": 1";
      MatchedBlock("x " + "{" + inner + "}" + "} y") == Some("{" + inner + "}")
  {
    BlockUpToFirstClose("x ", "\"a\": {\"b\": 1", "} y");
  }

  // ---------------------------------------------------------------------
  // Extraction

  /** A JSON parser: `Some(object)` when the text parses. Only objects can
      come back, because the text it is given starts with `{`. */
  type JsonParser = string -> Option<map<string, Value>>

  /** `_parse_structure_with_ai`: the collaborator is asked once, with the
      document's text, the template of its type and the parsing context, and
      its reply is read as `ReadReply` says. */
  function ParseStructure(text: string, d: DocumentType, ask: Collaborator, parse: JsonParser): (r: map<string, Value>)
    ensures var reply := ask(QueryFor(text, d));
      && (reply.Failure? ==> r == map[])
      && (reply.Success? && !reply.value.Obj? ==> r == map[])
      && (reply.Success? && reply.value.Obj? && "answer" !in reply.value.fields ==> r == ExtractFromText("", parse))
      && (reply.Success? && reply.value.Obj? && "answer" in reply.value.fields ==>
            r == (if reply.value.fields["answer"].Str? then ExtractFromText(reply.value.fields["answer"].s, parse) else map[]))
  {
    ReadReply(ask(QueryFor(text, d)), parse)
  }

  /** What becomes of the collaborator's reply (or the message of the
      exception it raised): any exception degrades to `{}`, a string
      `answer` (missing counts as empty) goes to the brace scan, and any other
      reply raises inside the `try` and so also gives `{}`. */
  function ReadReply(reply: Result<Value, string>, parse: JsonParser): (r: map<string, Value>)
    ensures reply.Failure? ==> r == map[]
    ensures reply.Success? && !reply.value.Obj? ==> r == map[]
    ensures reply.Success? && reply.value.Obj? && "answer" !in reply.value.fields ==> r == ExtractFromText("", parse)
    ensures reply.Success? && reply.value.Obj? && "answer" in reply.value.fields ==>
      r == (if reply.value.fields["answer"].Str? then ExtractFromText(reply.value.fields["answer"].s, parse) else map[])
  {
    match reply
    case Failure(_) => map[]                    // any exception degrades to {}
    case Success(Obj(answerFields)) =>
      (match Get(answerFields, "answer", Str(""))
       case Str(text) => ExtractFromText(text, parse)
       case _ => map[])                         // re.search on a non-string raises
    case Success(_) => map[]                    // `.get` on a non-dict raises
  }

  /** The brace scan and parse applied to the answer text. */
  function ExtractFromText(text: string, parse: JsonParser): (r: map<string, Value>)
    ensures MatchedBlock(text).None? ==> r == map["raw_response" := Str(text)]
    ensures MatchedBlock(text).Some? && parse(MatchedBlock(text).value).Some? ==> r == parse(MatchedBlock(text).value).value
    ensures MatchedBlock(text).Some? && parse(MatchedBlock(text).value).None? ==> r == map["raw_response" := Str(text)]
  {
    match MatchedBlock(text)
    case None => map["raw_response" := Str(text)]
    case Some(block) =>
      match parse(block)
      case Some(obj) => obj
      case None => map["raw_response" := Str(text)]
  }

  /** The answer text is never lost: either a parsed object comes back, or
      the whole answer is kept under `raw_response`. */
  lemma ExtractKeepsAnswer(text: string, parse: JsonParser)
    ensures ExtractFromText(text, parse) == map["raw_response" := Str(text)]
         || (exists b :: parse(b).Some? && MatchedBlock(text) == Some(b) && ExtractFromText(text, parse) == parse(b).value)
  {
  }

  /** An answer whose first block is a flat object that parses yields that
      object: the query for the document is what decides it. */
  lemma FlatAnswerParsed(text: string, d: DocumentType, ask: Collaborator, parse: JsonParser,
                         pre: string, a: string, post: string, o: map<string, Value>)
    requires ask(QueryFor(text, d)).Success? && ask(QueryFor(text, d)).value.Obj?
    requires Get(ask(QueryFor(text, d)).value.fields, "answer", Str("")) == Str(pre + "{" + a + "}" + post)
    requires forall k :: 0 <= k < |pre| ==> pre[k] != '{'
    requires |a| > 0 && forall k :: 0 <= k < |a| ==> a[k] != '}'
    requires parse("{" + a + "}") == Some(o)
    ensures ParseStructure(text, d, ask, parse) == o
  {
    BlockUpToFirstClose(pre, a, post);
  }

  /** A reply with no `answer` key is treated as the empty answer, which has
      no block, so only `raw_response: ""` comes back. */
  lemma MissingAnswerGivesEmptyRaw(fields: map<string, Value>, parse: JsonParser)
    requires "answer" !in fields
    ensures ReadReply(Success(Obj(fields)), parse) == map["raw_response" := Str("")]
  {
  }
}
