# 1C AI Stack: OCR orchestration, BSL selection resolution, diagnostics — a Dafny model

This project models five pieces of the 1C AI Stack and proves properties about them.

- **OCR service** (`OCRService`): builds the service and probes which backends are available; recognises an image with the configured primary backend; on failure, walks the fallback chain (Chandra, then Tesseract); builds the `OCRResult` with its provenance metadata; optionally extracts a structured document through the AI orchestrator, taking the first `{...}` block of its answer; post-processes Tesseract's word boxes; processes a batch with per-item degradation; answers which file formats each provider reads; estimates processing time.
- **EDT plug-in, `BslSelectionHelper`**: resolves the BSL function under the user's selection. A structured selection is inspected by reflection and EMF. Otherwise the text editor is used: walk up from the cursor to the `Процедура`/`Функция` header, then down to the matching `КонецПроцедуры`/`КонецФункции`. The module name comes from the file's project path, and the configuration is inferred from the module name.
- **EDT plug-in, `ShowCallGraphAction`**: the guard that decides whether a call graph can be shown, and the text of the call-graph message built from the backend's answer.
- **`check_llm_endpoints.py`**: provider defaults from YAML, HTTP status classification, and the exit-status rule.
- **`eval_model.py`**: JSONL loading with a limit, the missing-field counters, and the score.

Backends, the AI orchestrator, the network, `json.loads`/YAML parsing and the file system are parameters: each call's outcome is an input. A run is therefore a pure function of its inputs.

Layout: `wrappers.dfy` (Option/Result, `FirstSome`), `text.dfy` (string helpers with Python and Java semantics), `json.dfy` (dynamic values and Python truthiness), `ocr_*.dfy` (the OCR service), `bsl_document.dfy` (an Eclipse document as lines), `bsl_region.dfy` (the method-region finder and the three findings), `bsl_resolve.dfy`, `call_graph.dfy`, `llm_endpoints.dfy`, `eval_model.dfy`.

Behaviour of the code that is easy to misread, as the model has it:

- Text inside braces that is not valid JSON yields `{"raw_response": answer}` (`ocr_service.py:588-595`).
- A 2 000 000-byte file counts as 3 pages: the estimate floors, 2 000 000 // 512 000 = 3 (`ocr_service.py:716`).
- When every provider fails, the aggregated message names only the primary's error. Fallback errors are logged, never collected (`ocr_service.py:234-248`, `337-375`).
- `DocumentType` has an `act` member (`ocr_service.py:29`).
- The error line uses the provider's value (`deepseek: …`). This is how `(str, Enum)` members format in f-strings on Python up to 3.10.

## Model

| member | source | states |
|---|---|---|
| OcrModel.ProviderFromValue | src/services/ocr_service.py:17-22 | looking a provider up by value finds the member with exactly that value and fails for every other string |
| OcrModel.ProviderValueRoundTrip | src/services/ocr_service.py:17-22 | every provider is found again from its value, so the four values are distinct |
| OcrModel.DocumentTypeFromValue | src/services/ocr_service.py:25-34 | looking a document type up by value finds the member with exactly that value and fails for every other string |
| OcrModel.DocumentTypeValueRoundTrip | src/services/ocr_service.py:25-34 | every document type, `act` included, is found again from its value |
| OcrModel.NewResult | src/services/ocr_service.py:40-52 | text, confidence and type are kept; a missing metadata or structured-data dict becomes `{}` |
| OcrModel.NewResultDefaults | src/services/ocr_service.py:40-52 | a result built from text alone has confidence 0, type `other` and empty dicts |
| OcrService.NewService | src/services/ocr_service.py:70-198 | construction fails, with that error, exactly when DeepSeek is primary and its model does not load, or Chandra is primary and `import chandra` raises something other than `ImportError`; with fallback on, the availability flags are the probe results; with fallback off, only the primary's own backend can be marked available, by its probe; a DeepSeek service keeps the device its model loaded on, and no other service has one |
| OcrService.PrimaryCalledIffInstalled | src/services/ocr_service.py:88-98 | a built service calls its primary exactly when that backend's probe found it installed, and otherwise fails with "… not available" |
| OcrService.NoFallbackNoOtherBackend | src/services/ocr_service.py:96-98 | without fallback, a built service recognises an image exactly when its primary does |
| OcrService.PrimaryAttempt | src/services/ocr_service.py:225-233 | DeepSeek's outcome is the backend's; a Chandra or Tesseract primary fails with "… not available" unless that backend is available |
| OcrService.UsedProviderValue | src/services/ocr_service.py:366 | the `used_provider` value is the lower-cased fallback name: `chandra` or `tesseract` |
| OcrService.FallbackCandidates | src/services/ocr_service.py:346-354 | Chandra is a candidate iff available, Tesseract iff available, and Chandra always comes first |
| OcrService.Annotate | src/services/ocr_service.py:364-366 | the fallback's metadata gains exactly `fallback_from` (the primary's value) and `used_provider`, and every other key is unchanged |
| OcrService.FirstSuccess | src/services/ocr_service.py:357-375 | the fallback loop returns the first candidate whose call succeeds, after only failures; it returns none iff every candidate fails |
| OcrService.TryFallback | src/services/ocr_service.py:337-375 | the fallback used is an available candidate that succeeded, Tesseract only when Chandra was not an available success; the result is that backend's recognition with exactly the two provenance keys added; there is none iff every available fallback fails |
| OcrService.Recognize | src/services/ocr_service.py:222-248 | a primary success is used as is; after a failed primary, a success is the fallback's annotated result; the call fails iff the primary fails and fallback is off or exhausted, and the message names only the primary |
| OcrService.ErrorLine | src/services/ocr_service.py:237 | an error line starts with the provider's value and ends with the error message, with `: ` between them |
| OcrService.AllFailedMessage | src/services/ocr_service.py:245-248 | the message starts with the header line `All OCR providers failed:`; with one error it is the header followed by that error |
| OcrService.ResultMetadata | src/services/ocr_service.py:250-258 | the result's metadata is `provider` and `image_path` overridden by every key the backend returned |
| OcrService.ProcessImage | src/services/ocr_service.py:200-278 | fails exactly when recognition fails; otherwise keeps text and confidence, tags the requested type, merges the metadata, and fills structured data only when AI parsing is on and the text is non-empty, from the collaborator's answer about that text |
| OcrService.PrimarySuccessMetadata | src/services/ocr_service.py:225-260 | after a primary success the metadata is the service's provenance merged with the backend's, without `fallback_from` unless the backend itself sent one |
| OcrService.FallbackChosen | src/services/ocr_service.py:337-375 | the fallback loop picks the first available fallback that succeeds, Chandra before Tesseract, and returns that backend's text |
| OcrService.FallbackSuccessMetadata | src/services/ocr_service.py:234-260 | after a failed primary, the first successful fallback's text is returned, and its metadata records the primary and the fallback used |
| OcrService.ChandraBeforeTesseract | src/services/ocr_service.py:346-354 | an available Chandra that succeeds is the fallback used, whatever Tesseract would return |
| OcrService.UnavailableFallbackIgnored | src/services/ocr_service.py:352-354 | when Tesseract is unavailable, its outcome cannot change the recognition |
| OcrService.NoFallbackPrimaryOnly | src/services/ocr_service.py:234-248 | with fallback off, a failing primary fails the call with "All OCR providers failed:" and the primary's error |
| OcrService.FallbackErrorsNotReported | src/services/ocr_service.py:234-248 | even after every fallback fails, the message names only the primary's error |
| OcrService.SingleErrorMessage | src/services/ocr_service.py:244-248 | the aggregated message for a single error is the header line followed by `provider: error` |
| OcrService.StructuredOnlyWhenEnabled | src/services/ocr_service.py:262-267 | with AI parsing off, or with empty text, the structured data is empty |
| OcrService.ChandraPrimaryRetried | src/services/ocr_service.py:170-179 | a failing Chandra primary is tried again as the Chandra fallback, and that success is reported as `used_provider: chandra` |
| OcrStructure.TemplateFor | src/services/ocr_service.py:505-567 | contracts, invoices and waybills get their own prompt; every other type gets the generic one |
| OcrStructure.QueryContext | src/services/ocr_service.py:570-576 | the context is exactly `type: document_parsing` and `document_type` with the type's value |
| OcrStructure.ScanFrom | src/services/ocr_service.py:586 | the scan returns the leftmost `\{[^}]+\}` match at or after its start, or none if there is no such match |
| OcrStructure.FirstMatch | src/services/ocr_service.py:586 | `re.search` returns the leftmost match, and none only when the text has no match at all |
| OcrStructure.MatchedBlock | src/services/ocr_service.py:586-590 | the block handed to the parser is the leftmost match: it opens with `{`, closes with `}`, has at least one character between and no `}` inside |
| OcrStructure.NoOpeningBraceNoMatch | src/services/ocr_service.py:586-588 | an answer without `{` yields no block |
| OcrStructure.BlockUpToFirstClose | src/services/ocr_service.py:586 | before the first `{`, a block without `}` is matched whole, up to its closing brace, whatever follows it |
| OcrStructure.NestedObjectIsTruncated | src/services/ocr_service.py:586 | a nested object is cut at its first inner `}` |
| OcrStructure.ParseStructure | src/services/ocr_service.py:568-599 | the collaborator is asked about the document's text with its type's template and context; a failure or a non-object reply yields `{}`; a string answer, a missing one counting as empty, goes to the brace scan; any other answer yields `{}` |
| OcrStructure.ReadReply | src/services/ocr_service.py:579-599 | a raised exception or a non-object reply gives `{}`; a string `answer`, a missing one counting as empty, goes to the brace scan; any other answer gives `{}` |
| OcrStructure.FlatAnswerParsed | src/services/ocr_service.py:570-595 | when the answer's first block is a flat object that parses, that object is the structured data |
| OcrStructure.ExtractFromText | src/services/ocr_service.py:583-595 | the parsed block is returned when it parses; otherwise `{"raw_response": answer}` |
| OcrStructure.ExtractKeepsAnswer | src/services/ocr_service.py:588-595 | the answer is never lost: the result is either what the parser returned or the raw answer |
| OcrStructure.MissingAnswerGivesEmptyRaw | src/services/ocr_service.py:583-595 | a reply without `answer` yields `{"raw_response": ""}` |
| TesseractPost.KeptWords | src/services/ocr_service.py:460-465 | a word is kept iff it is in the input with positive confidence and non-blank text; no more words come out than go in |
| TesseractPost.KeptSingle | src/services/ocr_service.py:460-465 | a single word is kept iff it has positive confidence and non-blank text |
| TesseractPost.KeptConcat | src/services/ocr_service.py:460-465 | filtering a concatenation filters each part, so the kept words keep their order and repetitions |
| TesseractPost.Postprocess | src/services/ocr_service.py:456-477 | the text is the kept words joined by single spaces; the confidence is 0 without kept words and otherwise their mean as a fraction of 100; the metadata is `method: tesseract` with the number of kept words |
| TesseractPost.Mean | src/services/ocr_service.py:468 | the mean confidence times the number of words is their confidence sum |
| TesseractPost.PostprocessConfidence | src/services/ocr_service.py:467-473 | the confidence is 0 iff no word was kept, never negative, and at most 1 when Tesseract's confidences are percentages |
| TesseractPost.DroppedWordsIgnored | src/services/ocr_service.py:460-465 | inserting a word with no positive confidence, or with blank text, anywhere in the input changes nothing |
| OcrFormats.SupportedFormats | src/services/ocr_service.py:638-648 | each provider's list holds 8, 7 or 5 distinct lower-case extensions without dots, the form the extension test compares |
| OcrFormats.FormatsNested | src/services/ocr_service.py:638-648 | Tesseract's formats are Chandra's, Chandra's are DeepSeek's; only DeepSeek reads GIF and Tesseract reads no PDF |
| OcrFormats.PathName | src/services/ocr_service.py:652 | the file name is the last path component and contains no `/` |
| OcrFormats.PathNameIsLastComponent | src/services/ocr_service.py:652 | the name is the longest slash-free tail of the path once its trailing slashes are removed |
| OcrFormats.Suffix | src/services/ocr_service.py:652 | the suffix is empty, or a dot followed by at least one character and no other dot |
| OcrFormats.SuffixExactly | src/services/ocr_service.py:652 | a non-empty suffix is a tail of the name that leaves a non-empty stem; there is none iff the name is empty, ends with a dot, or has no dot after its first character |
| OcrFormats.Extension | src/services/ocr_service.py:652 | the extension is the suffix without its dot, lower-cased, and empty when there is no suffix |
| OcrFormats.IsSupportedFormat | src/services/ocr_service.py:650-653 | a file is supported iff the suffix of its last path component, without the dot and lower-cased, is in the provider's list; a file without a suffix never is |
| OcrFormats.ExtensionOfStemAndExt | src/services/ocr_service.py:652 | for `stem.ext`, the extension checked is `ext` in lower case |
| OcrFormats.SupportIgnoresCase | src/services/ocr_service.py:650-653 | `stem.ext` is supported iff the lower-cased `ext` is in the provider's list |
| OcrFormats.SupportInDirectory | src/services/ocr_service.py:650-653 | `dir/stem.ext` is supported iff the lower-cased `ext` is in the provider's list, whatever the directory |
| OcrFormats.AnyCasePdf | src/services/ocr_service.py:641-653 | any spelling of `pdf` is read by DeepSeek and not by Tesseract |
| OcrFormats.NoSuffixUnsupported | src/services/ocr_service.py:650-653 | a name without a suffix is never supported |
| OcrFormats.DotNameHasNoSuffix | src/services/ocr_service.py:652 | a name without `/` whose only dot is its first character, such as `.pdf` or `.bashrc`, has no suffix |
| OcrFormats.DotFileUnsupported | src/services/ocr_service.py:650-653 | `.pdf` on its own has no suffix and is not supported |
| OcrFormats.EstimatedPages | src/services/ocr_service.py:716 | one page below 512 000 bytes; from there on the number n of whole 512 000-byte blocks, n·512 000 ≤ size < (n+1)·512 000 |
| OcrFormats.EstimateSeconds | src/services/ocr_service.py:689-718 | the estimate is the truncation of per-page seconds times pages, and at least 1 |
| OcrFormats.EstimateMonotone | src/services/ocr_service.py:689-718 | a larger file never gets a smaller estimate |
| OcrFormats.TwoMillionBytesIsThreePages | src/services/ocr_service.py:716 | 2 000 000 bytes count as 3 pages |
| OcrBatch.Degraded | src/services/ocr_service.py:680-684 | a failed item becomes a result with empty text, confidence 0, type `other` and metadata `{error, file}` |
| OcrBatch.ItemResult | src/services/ocr_service.py:672-684 | a successful item is its own result; a failed one becomes an entry with empty text, confidence 0, no structured data and metadata `{error, file}` |
| OcrBatch.BatchProcess | src/services/ocr_service.py:655-687 | one result per path, in order: item i is `process_image` of path i when that succeeds, and a degraded entry naming its error and file otherwise |
| BslRegion.Classify | edt-plugin/src/com/1cai/edt/utils/BslSelectionHelper.java:207-221 | a trimmed line is skipped iff blank or an annotation; otherwise it is a header iff the header pattern matches, else a stop iff it stops the walk |
| BslRegion.ReachableUnique | edt-plugin/src/com/1cai/edt/utils/BslSelectionHelper.java:206-217 | the upward walk can arrive at no more than one header |
| BslRegion.ScanBack | edt-plugin/src/com/1cai/edt/utils/BslSelectionHelper.java:206-222 | the walk up returns the reachable header, and nothing iff no header is reachable |
| BslRegion.ScanForward | edt-plugin/src/com/1cai/edt/utils/BslSelectionHelper.java:240-247 | the walk down returns the first line an end pattern finds, and nothing iff no later line matches |
| BslRegion.EndLineOf | edt-plugin/src/com/1cai/edt/utils/BslSelectionHelper.java:240-247 | the end line is the first line after the header that an end pattern matches, with no match before it; when no later line matches, the region ends on the header line itself |
| BslRegion.LocateMethod | edt-plugin/src/com/1cai/edt/utils/BslSelectionHelper.java:196-247 | no method is located iff the offset is past the end or no header is reachable; otherwise the header is the reachable one and the end line is the first matching end after it, or the header line itself |
| BslRegion.FindMethodRegion | edt-plugin/src/com/1cai/edt/utils/BslSelectionHelper.java:249-252 | the region runs from the start of the header line to the end of the end line, delimiter included, and carries the method's name |
| BslRegion.ExtractBody | edt-plugin/src/com/1cai/edt/utils/BslSelectionHelper.java:326-334 | the body is the document's text in the region, or "" where the document refuses the range |
| BslRegion.RegionOfLines | edt-plugin/src/com/1cai/edt/utils/BslSelectionHelper.java:249-252 | a region over lines h..e is inside the document, and its body is exactly those lines, starting with line h |
| BslRegion.RegionBody | edt-plugin/src/com/1cai/edt/utils/BslSelectionHelper.java:249-252 | a region found is never refused, and its body is the lines from header to end, starting with the header line |
| BslRegion.HeaderAfterParts | edt-plugin/src/com/1cai/edt/utils/BslSelectionHelper.java:33-34 | a keyword spelled in any case the matcher folds, then whitespace, then a name, gives that keyword text and that name |
| BslRegion.HeaderOfParts | edt-plugin/src/com/1cai/edt/utils/BslSelectionHelper.java:33-34 | a whole header line, of any of the four keywords, is matched with groups (keyword, name) |
| BslRegionFindings.CapitalisedHeaderMissed | edt-plugin/src/com/1cai/edt/utils/BslSelectionHelper.java:33-34 | as written, no line starting with a Cyrillic capital (`Процедура`, `Функция`) matches the header pattern |
| BslRegionFindings.CapitalisedModuleHasNoRegion | edt-plugin/src/com/1cai/edt/utils/BslSelectionHelper.java:206-226 | as written, a module whose code lines all start with a Cyrillic capital never yields a method |
| BslRegionFindings.CapitalisedHeaderRead | edt-plugin/src/com/1cai/edt/utils/BslSelectionHelper.java:33-34 | corrected, `Процедура Имя…` and `Функция Имя…` are read with their names |
| BslRegionFindings.EndIfKinds | edt-plugin/src/com/1cai/edt/utils/BslSelectionHelper.java:218-221 | `КонецЕсли;` stops the walk as written and is an ordinary line once corrected |
| BslRegionFindings.EndIfHidesMethod | edt-plugin/src/com/1cai/edt/utils/BslSelectionHelper.java:206-226 | as written, a `КонецЕсли;` between the header and the cursor hides the method |
| BslRegionFindings.LocateFindsReachable | edt-plugin/src/com/1cai/edt/utils/BslSelectionHelper.java:206-226 | whenever a header is reachable from the cursor, that header is the one located |
| BslRegionFindings.EndIfPassedWhenCorrected | edt-plugin/src/com/1cai/edt/utils/BslSelectionHelper.java:206-226 | corrected, the walk passes a `КонецЕсли;` and finds the enclosing header |
| BslRegionFindings.EnglishEndIgnored | edt-plugin/src/com/1cai/edt/utils/BslSelectionHelper.java:36-38 | as written, an English header searches only for `конецпроцедуры`, which no line starting with `E` matches |
| BslRegionFindings.EnglishEndNotPaired | edt-plugin/src/com/1cai/edt/utils/BslSelectionHelper.java:233-247 | as written, no line starting with `E`/`e` is ever taken as the end of an English method |
| BslRegionFindings.EnglishEndRead | edt-plugin/src/com/1cai/edt/utils/BslSelectionHelper.java:36-38 | corrected, `EndProcedure` closes a `Procedure` and `EndFunction` a `Function` |
| BslRegionFindings.EnglishProcedureEnds | edt-plugin/src/com/1cai/edt/utils/BslSelectionHelper.java:233-247 | corrected, an English procedure ends no later than its first `EndProcedure` line |
| BslResolve.InferConfiguration | edt-plugin/src/com/1cai/edt/utils/BslSelectionHelper.java:273-282 | null or empty gives null; otherwise a non-empty prefix of the module name that is either the whole name or the dot-free part before the first dot |
| BslResolve.ModuleNameOfFile | edt-plugin/src/com/1cai/edt/utils/BslSelectionHelper.java:258-271 | a file `a/b/Name.ext` gets the module name `a.b.Name` |
| BslResolve.ConfigurationIsTopFolder | edt-plugin/src/com/1cai/edt/utils/BslSelectionHelper.java:258-282 | a file's configuration is its top folder |
| BslResolve.FirstKey | edt-plugin/src/com/1cai/edt/utils/BslSelectionHelper.java:284-316 | the value of the first listed method or feature that is present, after only absent ones; none iff none is present |
| BslResolve.ResolveModuleName | edt-plugin/src/com/1cai/edt/utils/BslSelectionHelper.java:122-150 | the owner's EMF name feature wins, then its `getName`/`getFullName`; otherwise, for an EObject, the innermost container with a name feature, and none iff no container has one; otherwise none |
| BslResolve.FromMethodObject | edt-plugin/src/com/1cai/edt/utils/BslSelectionHelper.java:103-120 | an element yields a function iff a name can be read; the name and the body each come from the first accessor that answers, else from the first EMF feature; the module is resolved, and the configuration inferred from it |
| BslResolve.FromStructured | edt-plugin/src/com/1cai/edt/utils/BslSelectionHelper.java:75-101 | an empty or non-structured selection gives nothing; the first element's own function wins; an element that names nothing is looked into only when it is itself a non-text selection |
| BslResolve.FromEditor | edt-plugin/src/com/1cai/edt/utils/BslSelectionHelper.java:152-178 | under either matcher, the editor gives a function iff it has a document with a method region at the offset; the name and body are the region's; there is a module iff the input is a file, and then it is the file's path without extension, dot-separated |
| BslResolve.Resolve | edt-plugin/src/com/1cai/edt/utils/BslSelectionHelper.java:41-60 | under either matcher, the structured selection wins; only a text selection consults the editor; a null selection gives nothing |
| BslResolve.EditorBodyIsMethodLines | edt-plugin/src/com/1cai/edt/utils/BslSelectionHelper.java:152-178 | a function found in the editor has as body exactly the lines from its header to its end |
| BslResolve.StructuredWins | edt-plugin/src/com/1cai/edt/utils/BslSelectionHelper.java:41-47 | once the structured selection names a function, neither the editor nor the matcher makes a difference |
| CallGraph.Run | edt-plugin/src/com/1cai/edt/actions/ShowCallGraphAction.java:31-52 | warns of no selection iff there is none; the graph is shown iff a function with a module is resolved, and for that module and function; with the as-written matcher this is the action as the code stands |
| CallGraph.ModuleNameDecides | edt-plugin/src/com/1cai/edt/actions/ShowCallGraphAction.java:41-51 | once a function is resolved, the module name alone decides between showing the graph and the second warning |
| CallGraph.EditorWithoutFileNotShown | edt-plugin/src/com/1cai/edt/actions/ShowCallGraphAction.java:41-49 | a function found in an editor whose input is not a file is never shown |
| CallGraph.CapitalisedModuleNotShown | edt-plugin/src/com/1cai/edt/actions/ShowCallGraphAction.java:41-49 | as the code stands, a text selection in a module whose code lines all start with a Cyrillic capital ends in the "no function" warning |
| CallGraph.Listed | edt-plugin/src/com/1cai/edt/actions/ShowCallGraphAction.java:130 | a section lists a prefix of the calls, all of them or exactly ten |
| CallGraph.FormatSection | edt-plugin/src/com/1cai/edt/actions/ShowCallGraphAction.java:126-158 | the loop writes the title with the count, an entry for each of the first ten calls, and a line with how many more there are |
| CallGraph.FormatCallGraph | edt-plugin/src/com/1cai/edt/actions/ShowCallGraphAction.java:118-165 | the builder's text is the header, the callers' section and a blank line, then the callees' section; without `result`, the notice and the JSON text |
| CallGraph.TailNotListed | edt-plugin/src/com/1cai/edt/actions/ShowCallGraphAction.java:130-139 | calls past the tenth show only in the count |
| CallGraph.JsonShownOnlyWithoutResult | edt-plugin/src/com/1cai/edt/actions/ShowCallGraphAction.java:122-162 | the backend's JSON text does not affect the message when a `result` is present |
| CallGraph.SectionLines | edt-plugin/src/com/1cai/edt/actions/ShowCallGraphAction.java:126-158 | with one-line names, a section has one line for its title, one per listed call (at most ten) and one more only when some calls are not listed |
| LlmEndpoints.ProviderOf | scripts/diagnostics/check_llm_endpoints.py:34-40 | a provider is enabled iff `enabled` is absent or truthy; `base_url` defaults to "" and `type` to "remote" |
| LlmEndpoints.EmptyEntryDefaults | scripts/diagnostics/check_llm_endpoints.py:34-40 | an entry without settings is an enabled remote provider with an empty URL |
| LlmEndpoints.ProviderEntries | scripts/diagnostics/check_llm_endpoints.py:30-34 | entries exist iff the document is a mapping whose `providers`, when present, is a mapping; they are that mapping, and none when the key is missing |
| LlmEndpoints.LoadProviders | scripts/diagnostics/check_llm_endpoints.py:30-41 | loading succeeds iff the document and every entry are mappings; there is one provider per entry, under its own name, read from that entry with the defaults |
| LlmEndpoints.CheckEndpoint | scripts/diagnostics/check_llm_endpoints.py:19-63 | skipped iff disabled, error iff enabled and the request failed; 200 is ok, 401/403 reachable, any other code a warning, each with its message |
| LlmEndpoints.DisabledNotProbed | scripts/diagnostics/check_llm_endpoints.py:45-46 | a disabled provider's check does not depend on the network |
| LlmEndpoints.StatusNamesDistinct | scripts/diagnostics/check_llm_endpoints.py:44-63 | the five statuses are reported under five distinct names |
| LlmEndpoints.Results | scripts/diagnostics/check_llm_endpoints.py:81-84 | there is one check per provider, the one its own probe gives |
| LlmEndpoints.ExitStatus | scripts/diagnostics/check_llm_endpoints.py:75-97 | status 1 iff the configuration is unusable or has no providers; 2 iff some enabled provider's request failed; otherwise 0 |
| LlmEndpoints.AnswersNeverFail | scripts/diagnostics/check_llm_endpoints.py:94-97 | when every provider answers with some status code, warnings and auth refusals included, the exit status is 0 |
| LlmEndpoints.NoProvidersKey | scripts/diagnostics/check_llm_endpoints.py:34 | a configuration without `providers` exits with status 1 |
| EvalModel.Valid | scripts/eval/eval_model.py:18-26 | no more samples than lines |
| EvalModel.ValidPrefix | scripts/eval/eval_model.py:18-28 | the samples of a prefix of the file start the samples of the whole file |
| EvalModel.LoadDataset | scripts/eval/eval_model.py:14-29 | the samples are a prefix of the decodable non-blank lines' values: all of them when limit ≤ 0, else min(limit, their number) |
| EvalModel.BlankLineSkipped | scripts/eval/eval_model.py:20-22 | a blank line adds no sample |
| EvalModel.DecodedLineKept | scripts/eval/eval_model.py:23-24 | a decodable line adds its value as the next sample |
| EvalModel.Missing | scripts/eval/eval_model.py:44-50 | a missing-field counter never exceeds the number of samples |
| EvalModel.NoneMissing | scripts/eval/eval_model.py:44-50 | a counter is 0 iff every sample has a truthy value for the field |
| EvalModel.AllMissing | scripts/eval/eval_model.py:44-50 | a counter equals the total iff no sample has a truthy value for the field |
| EvalModel.Objects | scripts/eval/eval_model.py:44-49 | the samples are read as objects iff all are objects; otherwise the first non-object is the one reported |
| EvalModel.Score | scripts/eval/eval_model.py:57-58 | the score exists iff the dataset is non-empty, and is the percentage of samples with an answer |
| EvalModel.ScoreBounds | scripts/eval/eval_model.py:57-61 | the score exists iff the dataset is non-empty; it is within 0..100, 100 iff no answer is missing, and 0 iff all are missing |
| EvalModel.Evaluate | scripts/eval/eval_model.py:32-61 | a missing model path is reported before any counting; then the total and both counters are those of the samples, and the score is computed from them |

## Left out

- Python `**kwargs` passed to `process_image` and `batch_process` are not modelled as values. They do matter. They are forwarded to a Chandra primary (`ocr_service.py:229`) and to each fallback call (`:361`). `_chandra_ocr` accepts only `max_tokens` and `include_images` (`:377-382`), and `_tesseract_ocr` accepts no keyword arguments (`:436`). So any keyword argument makes the Tesseract fallback raise `TypeError`, which counts as a failed fallback (`:371-373`), and Chandra fails the same way for any other key. The model expresses this through the backend outcomes, which are inputs: such a call is a `Failure` outcome.
- OcrService.ErrorLine: writes the provider's value (`deepseek: …`), as Python up to 3.10 does. From Python 3.11 on, `format()` of a `(str, Enum)` member follows `Enum.__str__`, so the line carries `OCRProvider.DEEPSEEK: …` instead.
- `OCRResult.to_dict`, the result timestamp, `process_from_bytes`, `get_ocr_service`, `quick_ocr` and `ocr_with_structure`: serialisation, clock, temporary files and module-level convenience wrappers.
- Backend internals: model loading, PIL, torch, transformers, Chandra's `process_document`, pytesseract. Each backend call is an input outcome, and the `_init_*` probes are inputs: the model load result for DeepSeek, a boolean for Tesseract, and for Chandra one of imported, not installed, or another import error.
- async/await and the executor that wraps the Chandra call: calls are sequential.
- Logging everywhere.
- Confidences, timing bases and `EvalModel.Score`: modelled as exact reals, not floating point. The score is a float division in the script (`eval_model.py:58`).
- The AI orchestrator: a function from the query (template, text, context) to its reply or the message of the exception it raised. The prompt's wording is reduced to the choice of template.
- `json.loads` and `yaml.safe_load`: parameters, not implemented. A JSON reply of a non-object type yields `{}`, since `.get` would raise.
- The regular-expression engine: the two patterns are written out as predicates.
- Letters for `\p{L}`: only ASCII and the Cyrillic block. Name digits: ASCII only.
- `\b`: the pre-JDK-19 definition (letter, digit or `_`).
- Case folding in the BSL matchers covers Cyrillic and ASCII only. `OcrFormats.Extension` folds ASCII only, while `str.lower()` (`ocr_service.py:652`) folds all of Unicode. The membership answer is the same, because every format list is ASCII.
- `adaptToSelection` and `extractTextEditor`: adaptation through `IAdaptable` is taken as already done. The model receives the selection, and the editor with its document and file path.
- File paths: Eclipse's segment handling is modelled for `/`-separated project paths. Device prefixes and `\` are not part of this model.
- `ShowCallGraphAction.showCallGraph`: the backend request, dialogs, the worker thread and opening the graph view. `formatCallGraph` is modelled on an already decoded response, and call entries missing `module` or `function` (which throw) are not modelled.
- The printed report of `check_llm_endpoints.py`, its argument parsing and its timeout: only the classification and the exit status are modelled. An exception other than `RequestException` during a probe is not modelled.
- The prints of `eval_model.py` and its argument parsing, and file reading: the lines are given.
- OcrStructure.ParseStructure: the prompt's literal text is not part of the contract; the query carries the template (`TemplateFor`), the recognised text and the context.
- PathName: pathlib's normalisation of `.` components is not modelled, so `Path("x.pdf/.").name` is `x.pdf` in Python but `.` here.
- LlmEndpoints.Results: the report's insertion order is not modelled; results are a map, and the exit status does not depend on order.
- BslRegion.Classify: letters outside ASCII and Cyrillic are not classified as name characters, a weaker reading of `\p{L}`.

## Findings

| source | as written | input that shows it | evidently intended | confidence | as-written member | corrected member |
|---|---|---|---|---|---|---|
| edt-plugin/src/com/1cai/edt/utils/BslSelectionHelper.java:33-37 | `(?i)` without `UNICODE_CASE` folds ASCII only, so the lower-case Cyrillic keywords never match capitalised code | the line `Процедура Тест()` | headers match in any case, as 1C code writes them | not executed | BslRegionFindings.CapitalisedHeaderMissed | BslRegionFindings.CapitalisedHeaderRead |
| edt-plugin/src/com/1cai/edt/utils/BslSelectionHelper.java:218-221 | the walk up stops at any line starting with `Конец`, including `КонецЕсли;` and `КонецЦикла;` inside the method | a cursor below `КонецЕсли;` in a procedure body | stop only at the end of another method | not executed | BslRegionFindings.EndIfHidesMethod | BslRegionFindings.EndIfPassedWhenCorrected |
| edt-plugin/src/com/1cai/edt/utils/BslSelectionHelper.java:36-38 | English headers are recognised, but only Russian end patterns exist, and `Function` selects the procedure end | `Procedure Test()` … `EndProcedure` | an English method ends at `EndProcedure` / `EndFunction` | not executed | BslRegionFindings.EnglishEndNotPaired | BslRegionFindings.EnglishProcedureEnds |

`BslResolve.FromEditor`, `BslResolve.Resolve` and `CallGraph.Run` take the matcher as a parameter. With `AsWritten` they are the code as it stands: `CallGraph.CapitalisedModuleNotShown` shows the action finding no function in ordinary 1C code. With `Corrected` they are the intended behaviour.
