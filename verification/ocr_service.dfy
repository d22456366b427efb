/** The recognition orchestrator of `OCRService`: construction with its
    availability flags, the primary attempt, the Chandra-then-Tesseract
    fallback chain, the aggregated failure, and the assembly of the final
    result with optional structured extraction.

    The backends are oracles. For one image, `Backends` holds the outcome
    each backend call would produce: the primary's, and those of the
    fallback Chandra and Tesseract attempts. Each is consulted only if the
    service actually makes that call. */
module OcrService {
  import opened Wrappers
  import opened Json
  import opened Text
  import opened OcrModel
  import OcrStructure

  datatype Device = Cuda | Cpu

  /** What `import chandra` does in `_init_chandra`: it succeeds, raises
      `ImportError` (caught there: the flag is set to false), or raises
      anything else, which `_init_chandra` lets through. */
  datatype ChandraImport = Imported | NotInstalled | Broken(error: string)

  /** The result of probing each optional backend when the service is built. */
  datatype Probes = Probes(
    deepseekModel: Result<Device, string>,   // the DeepSeek model loaded on a device, or the load error
    chandraImport: ChandraImport,
    tesseractInstalled: bool)

  predicate ChandraInstalled(probes: Probes) {
    probes.chandraImport.Imported?
  }

  /** `chandra_available`/`tesseract_available` as the code reads them:
      a flag that was never set counts as false (`hasattr(...) and ...`). */
  datatype Availability = Availability(chandra: bool, tesseract: bool)

  datatype Service = Service(
    provider: Provider,
    aiParsing: bool,
    fallback: bool,
    avail: Availability,
    deepseekDevice: Option<Device>)

  predicate IsChandra(p: Provider) {
    p == ChandraHf || p == ChandraVllm
  }

  /** `OCRService.__init__`: the primary's initialiser runs first, then,
      with fallback enabled, the Chandra and Tesseract probes. DeepSeek's
      initialiser re-raises every error, and Chandra's lets through any
      error but `ImportError`; Tesseract's catches everything, and so do the
      fallback probes. */
  function NewService(provider: Provider, aiParsing: bool, fallback: bool, probes: Probes): (r: Result<Service, string>)
    ensures r.Failure? <==>
      (provider == DeepSeek && probes.deepseekModel.Failure?) || (IsChandra(provider) && probes.chandraImport.Broken?)
    ensures r.Failure? ==>
      r.error == (if provider == DeepSeek then probes.deepseekModel.error else probes.chandraImport.error)
    ensures r.Success? ==> r.value.provider == provider && r.value.aiParsing == aiParsing && r.value.fallback == fallback
    // with fallback enabled, both fallback flags are exactly the probe results
    ensures r.Success? && fallback ==> r.value.avail == Availability(ChandraInstalled(probes), probes.tesseractInstalled)
    // without fallback only the primary's own backend is probed; the other flag is never set
    ensures r.Success? && !fallback ==>
      r.value.avail == Availability(IsChandra(provider) && ChandraInstalled(probes), provider == Tesseract && probes.tesseractInstalled)
    // a backend that is not installed is never marked available
    ensures r.Success? ==> (r.value.avail.chandra ==> ChandraInstalled(probes)) && (r.value.avail.tesseract ==> probes.tesseractInstalled)
    ensures r.Success? ==> (r.value.deepseekDevice.Some? <==> provider == DeepSeek)
    ensures r.Success? && provider == DeepSeek ==> r.value.deepseekDevice == Some(probes.deepseekModel.value)
  {
    if provider == DeepSeek && probes.deepseekModel.Failure? then
      Failure(probes.deepseekModel.error)
    else if IsChandra(provider) && probes.chandraImport.Broken? then
      Failure(probes.chandraImport.error)
    else
      var chandraProbed := IsChandra(provider) || fallback;
      var tesseractProbed := provider == Tesseract || fallback;
      Success(Service(
        provider, aiParsing, fallback,
        Availability(chandraProbed && ChandraInstalled(probes), tesseractProbed && probes.tesseractInstalled),
        if provider == DeepSeek then Some(probes.deepseekModel.value) else None))
  }

  /** Whether the probe of a provider's own backend found it installed
      (DeepSeek's model loaded and Chandra's import succeeded, or else
      construction failed). */
  predicate PrimaryInstalled(provider: Provider, probes: Probes) {
    match provider
    case DeepSeek => true
    case ChandraHf => ChandraInstalled(probes)
    case ChandraVllm => ChandraInstalled(probes)
    case Tesseract => probes.tesseractInstalled
  }

  /** What each backend call of one `process_image` run returns. */
  datatype Backends = Backends(
    primary: Result<Recognition, string>,
    chandra: Result<Recognition, string>,
    tesseract: Result<Recognition, string>)

  /** The primary attempt: each backend raises "... not available" when its
      flag is off, and otherwise returns what the backend returns. DeepSeek's
      flag is always on once the service exists. */
  function PrimaryAttempt(svc: Service, b: Backends): (r: Result<Recognition, string>)
    ensures svc.provider == DeepSeek ==> r == b.primary
    ensures IsChandra(svc.provider) ==> r == (if svc.avail.chandra then b.primary else Failure("Chandra not available"))
    ensures svc.provider == Tesseract ==> r == (if svc.avail.tesseract then b.primary else Failure("Tesseract not available"))
  {
    match svc.provider
    case DeepSeek => b.primary
    case ChandraHf => if svc.avail.chandra then b.primary else Failure("Chandra not available")
    case ChandraVllm => if svc.avail.chandra then b.primary else Failure("Chandra not available")
    case Tesseract => if svc.avail.tesseract then b.primary else Failure("Tesseract not available")
  }

  /** A service is built so that its primary is called exactly when that
      backend's probe found it installed, with or without fallback. */
  lemma PrimaryCalledIffInstalled(provider: Provider, aiParsing: bool, fallback: bool, probes: Probes, b: Backends)
    requires NewService(provider, aiParsing, fallback, probes).Success?
    ensures var svc := NewService(provider, aiParsing, fallback, probes).value;
      PrimaryAttempt(svc, b) == (if PrimaryInstalled(provider, probes) then b.primary
                                 else if provider == Tesseract then Failure("Tesseract not available")
                                 else Failure("Chandra not available"))
  {
  }

  /** Without fallback, a service built for Chandra never marks Tesseract
      available and vice versa, so a failed primary is final. */
  lemma NoFallbackNoOtherBackend(provider: Provider, aiParsing: bool, probes: Probes, b: Backends)
    requires NewService(provider, aiParsing, false, probes).Success?
    ensures var svc := NewService(provider, aiParsing, false, probes).value;
      Recognize(svc, b).Success? <==> PrimaryAttempt(svc, b).Success?
  {
  }

  // ---------------------------------------------------------------------
  // Fallback chain

  datatype Fallback = ChandraFallback | TesseractFallback

  /** The name the fallback list carries ('Chandra', 'Tesseract'). */
  function FallbackName(f: Fallback): string {
    match f
    case ChandraFallback => "Chandra"
    case TesseractFallback => "Tesseract"
  }

  /** `name.lower()`, the value stored as `used_provider`. */
  function UsedProviderValue(f: Fallback): (v: string)
    ensures f == ChandraFallback ==> v == "chandra"
    ensures f == TesseractFallback ==> v == "tesseract"
  {
    AsciiLower(FallbackName(f))
  }

  function FallbackOutcome(b: Backends, f: Fallback): Result<Recognition, string> {
    match f
    case ChandraFallback => b.chandra
    case TesseractFallback => b.tesseract
  }

  /** The fallback list: Chandra before Tesseract, each only when available. */
  function FallbackCandidates(avail: Availability): (c: seq<Fallback>)
    ensures ChandraFallback in c <==> avail.chandra
    ensures TesseractFallback in c <==> avail.tesseract
    ensures |c| <= 2 && forall i, j :: 0 <= i < j < |c| ==> c[i] == ChandraFallback && c[j] == TesseractFallback
  {
    (if avail.chandra then [ChandraFallback] else []) + (if avail.tesseract then [TesseractFallback] else [])
  }

  /** The successful fallback's metadata with the two provenance keys set. */
  function Annotate(meta: Metadata, from: Provider, f: Fallback): (m: Metadata)
    ensures m.Keys == meta.Keys + {"fallback_from", "used_provider"}
    ensures m["fallback_from"] == Str(ProviderValue(from)) && m["used_provider"] == Str(UsedProviderValue(f))
    ensures forall k :: k in meta && k !in {"fallback_from", "used_provider"} ==> m[k] == meta[k]
  {
    meta["fallback_from" := Str(ProviderValue(from))]["used_provider" := Str(UsedProviderValue(f))]
  }

  /** The fallback loop: the first candidate whose call succeeds, or none. */
  function FirstSuccess(cands: seq<Fallback>, b: Backends): (r: Option<(Fallback, Recognition)>)
    ensures r.Some? ==> exists i :: 0 <= i < |cands| && cands[i] == r.value.0
                           && FallbackOutcome(b, cands[i]) == Success(r.value.1)
                           && forall k :: 0 <= k < i ==> FallbackOutcome(b, cands[k]).Failure?
    ensures r.None? <==> forall k :: 0 <= k < |cands| ==> FallbackOutcome(b, cands[k]).Failure?
  {
    if |cands| == 0 then None
    else match FallbackOutcome(b, cands[0])
      case Success(rec) => Some((cands[0], rec))
      case Failure(_) =>
        var rest := FirstSuccess(cands[1..], b);
        if rest.Some? then
          var i :| 0 <= i < |cands[1..]| && cands[1..][i] == rest.value.0
                   && FallbackOutcome(b, cands[1..][i]) == Success(rest.value.1)
                   && forall k :: 0 <= k < i ==> FallbackOutcome(b, cands[1..][k]).Failure?;
          assert cands[i + 1] == rest.value.0;
          assert forall k :: 0 <= k < i + 1 ==> FallbackOutcome(b, cands[k]).Failure?;
          rest
        else
          rest
  }

  /** `_try_fallback_providers`: the recognition of the first fallback that
      succeeds, annotated with `fallback_from` and `used_provider`. */
  function TryFallback(svc: Service, b: Backends): (r: Option<(Fallback, Recognition)>)
    ensures r.Some? ==> "fallback_from" in r.value.1.metadata && r.value.1.metadata["fallback_from"] == Str(ProviderValue(svc.provider))
    ensures r.Some? ==> "used_provider" in r.value.1.metadata && r.value.1.metadata["used_provider"] == Str(UsedProviderValue(r.value.0))
    ensures r.Some? ==> r.value.0 in FallbackCandidates(svc.avail) && FallbackOutcome(b, r.value.0).Success?
    // the chosen backend's recognition, with the provenance keys added to its metadata
    ensures r.Some? ==> var rec := FallbackOutcome(b, r.value.0).value;
      r.value.1 == Recognition(rec.text, rec.confidence, Annotate(rec.metadata, svc.provider, r.value.0))
    // Tesseract is used only when Chandra was not an available success
    ensures r.Some? && r.value.0 == TesseractFallback ==> !(svc.avail.chandra && b.chandra.Success?)
    ensures r.None? <==> forall f :: f in FallbackCandidates(svc.avail) ==> FallbackOutcome(b, f).Failure?
  {
    match FirstSuccess(FallbackCandidates(svc.avail), b)
    case None => None
    case Some((f, rec)) => Some((f, Recognition(rec.text, rec.confidence, Annotate(rec.metadata, svc.provider, f))))
  }

  // ---------------------------------------------------------------------
  // The whole recognition call

  /** One entry of the aggregated failure: `f"{provider}: {error}"`. */
  function ErrorLine(p: Provider, error: string): (l: string)
    ensures |l| == |ProviderValue(p)| + 2 + |error|
    ensures l[..|ProviderValue(p)|] == ProviderValue(p) && l[|l| - |error|..] == error
  {
    ProviderValue(p) + ": " + error
  }

  const AllFailedHeader := "All OCR providers failed:\n"

  /** The aggregated failure: the header, then the error lines. */
  function AllFailedMessage(errors: seq<string>): (m: string)
    ensures |m| >= |AllFailedHeader| && m[..|AllFailedHeader|] == AllFailedHeader
    ensures |errors| == 0 ==> m == AllFailedHeader
    ensures |errors| == 1 ==> m == AllFailedHeader + errors[0]
  {
    AllFailedHeader + Join("\n", errors)
  }

  /** Primary, then (if enabled) the fallback chain; the raw recognition or
      the aggregated failure message. */
  function Recognize(svc: Service, b: Backends): (r: Result<Recognition, string>)
    ensures PrimaryAttempt(svc, b).Success? ==> r == PrimaryAttempt(svc, b)
    ensures r.Failure? <==> PrimaryAttempt(svc, b).Failure? && (!svc.fallback || TryFallback(svc, b).None?)
    // the message lists the primary's failure only
    ensures r.Failure? ==> r.error == AllFailedMessage([ErrorLine(svc.provider, PrimaryAttempt(svc, b).error)])
    // after a failed primary, a success can only be the fallback's
    ensures PrimaryAttempt(svc, b).Failure? && r.Success? ==> svc.fallback && r == Success(TryFallback(svc, b).value.1)
  {
    match PrimaryAttempt(svc, b)
    case Success(rec) => Success(rec)
    case Failure(e) =>
      var errors := [ErrorLine(svc.provider, e)];
      var fb := if svc.fallback then TryFallback(svc, b) else None;
      if fb.None? then Failure(AllFailedMessage(errors)) else Success(fb.value.1)
  }

  /** The metadata of the final result: provider and image path first, the
      backend's own keys overriding them (`{..., **raw["metadata"]}`). */
  function ResultMetadata(svc: Service, imagePath: string, raw: Metadata): (m: Metadata)
    ensures m.Keys == raw.Keys + {"provider", "image_path"}
    ensures forall k :: k in raw ==> m[k] == raw[k]
    ensures "provider" !in raw ==> m["provider"] == Str(ProviderValue(svc.provider))
    ensures "image_path" !in raw ==> m["image_path"] == Str(imagePath)
  {
    map["provider" := Str(ProviderValue(svc.provider)), "image_path" := Str(imagePath)] + raw
  }

  /** `process_image`: recognise, build the result, and run structured
      extraction when AI parsing is on and the text is non-empty. `ask` is
      the text-completion collaborator, `parse` the JSON parser. */
  function ProcessImage(
    svc: Service, imagePath: string, docType: DocumentType, b: Backends,
    ask: OcrStructure.Collaborator, parse: OcrStructure.JsonParser): (r: Result<OcrResult, string>)
    ensures r.Failure? <==> Recognize(svc, b).Failure?
    ensures r.Failure? ==> r.error == Recognize(svc, b).error
    ensures r.Success? ==> (
              && r.value.text == Recognize(svc, b).value.text
              && r.value.confidence == Recognize(svc, b).value.confidence
              && r.value.documentType == docType
              && r.value.metadata == ResultMetadata(svc, imagePath, Recognize(svc, b).value.metadata))
    ensures r.Success? ==> (r.value.structuredData ==
      if svc.aiParsing && r.value.text != "" then OcrStructure.ParseStructure(r.value.text, docType, ask, parse) else map[])
  {
    var raw :- Recognize(svc, b);
    var result := NewResult(raw.text, raw.confidence, docType, Some(ResultMetadata(svc, imagePath, raw.metadata)));
    if svc.aiParsing && result.text != "" then
      Success(result.(structuredData := OcrStructure.ParseStructure(result.text, docType, ask, parse)))
    else
      Success(result)
  }

  // ---------------------------------------------------------------------
  // Properties of the attempt policy

  /** A primary success is returned with `{provider, image_path}` merged with
      the backend's metadata, and `fallback_from` appears only if the backend
      itself reported it. */
  lemma PrimarySuccessMetadata(svc: Service, path: string, docType: DocumentType, b: Backends,
                               ask: OcrStructure.Collaborator, parse: OcrStructure.JsonParser)
    requires PrimaryAttempt(svc, b).Success?
    ensures var r := ProcessImage(svc, path, docType, b, ask, parse);
      && r.Success?
      && r.value.text == PrimaryAttempt(svc, b).value.text
      && r.value.metadata == map["provider" := Str(ProviderValue(svc.provider)), "image_path" := Str(path)] + PrimaryAttempt(svc, b).value.metadata
      && ("fallback_from" in r.value.metadata <==> "fallback_from" in PrimaryAttempt(svc, b).value.metadata)
  {
  }

  /** When the primary fails and fallback is on, the first available fallback
      (Chandra before Tesseract) that succeeds supplies the text, and the
      metadata names both the configured provider and the one used. */
  lemma FallbackSuccessMetadata(svc: Service, path: string, docType: DocumentType, b: Backends,
                                ask: OcrStructure.Collaborator, parse: OcrStructure.JsonParser, f: Fallback)
    requires PrimaryAttempt(svc, b).Failure? && svc.fallback
    requires f in FallbackCandidates(svc.avail) && FallbackOutcome(b, f).Success?
    requires forall g :: g in FallbackCandidates(svc.avail) && g != f ==> (f == ChandraFallback || FallbackOutcome(b, g).Failure?)
    ensures var r := ProcessImage(svc, path, docType, b, ask, parse);
      && r.Success?
      && r.value.text == FallbackOutcome(b, f).value.text
      && "fallback_from" in r.value.metadata && "used_provider" in r.value.metadata
      && r.value.metadata["fallback_from"] == Str(ProviderValue(svc.provider))
      && r.value.metadata["used_provider"] == Str(UsedProviderValue(f))
  {
    FallbackChosen(svc, b, f);
    var rec := TryFallback(svc, b).value.1;
    assert Recognize(svc, b) == Success(rec);
    var r := ProcessImage(svc, path, docType, b, ask, parse);
    assert r.value.metadata == ResultMetadata(svc, path, rec.metadata);
  }

  /** Under the same conditions, the fallback loop picks `f`. */
  lemma FallbackChosen(svc: Service, b: Backends, f: Fallback)
    requires f in FallbackCandidates(svc.avail) && FallbackOutcome(b, f).Success?
    requires forall g :: g in FallbackCandidates(svc.avail) && g != f ==> (f == ChandraFallback || FallbackOutcome(b, g).Failure?)
    ensures TryFallback(svc, b).Some? && TryFallback(svc, b).value.0 == f
    ensures TryFallback(svc, b).value.1.text == FallbackOutcome(b, f).value.text
  {
    var c := FallbackCandidates(svc.avail);
    var fs := FirstSuccess(c, b);
    assert fs.Some?;
    var i :| 0 <= i < |c| && c[i] == fs.value.0 && FallbackOutcome(b, c[i]) == Success(fs.value.1)
             && forall k :: 0 <= k < i ==> FallbackOutcome(b, c[k]).Failure?;
    assert c[i] == f;
  }

  /** Chandra, when available and successful, wins over Tesseract. */
  lemma ChandraBeforeTesseract(svc: Service, b: Backends)
    requires svc.avail.chandra && b.chandra.Success?
    ensures TryFallback(svc, b).Some? && TryFallback(svc, b).value.0 == ChandraFallback
  {
  }

  /** A backend that is not available is never called as a fallback: its
      outcome does not influence the result. */
  lemma UnavailableFallbackIgnored(svc: Service, b: Backends, other: Result<Recognition, string>)
    requires !svc.avail.tesseract
    ensures Recognize(svc, b) == Recognize(svc, b.(tesseract := other))
  {
  }

  /** With fallback disabled, a failing primary fails the call, reporting
      only the primary's error. */
  lemma NoFallbackPrimaryOnly(svc: Service, b: Backends)
    requires !svc.fallback && PrimaryAttempt(svc, b).Failure?
    ensures Recognize(svc, b) == Failure("All OCR providers failed:\n" + ProviderValue(svc.provider) + ": " + PrimaryAttempt(svc, b).error)
  {
    SingleErrorMessage(svc.provider, PrimaryAttempt(svc, b).error);
  }

  /** Even when fallbacks were tried and all failed, the message is the
      primary's alone: fallback errors are not appended. */
  lemma FallbackErrorsNotReported(svc: Service, b: Backends)
    requires svc.fallback && PrimaryAttempt(svc, b).Failure?
    requires b.chandra.Failure? && b.tesseract.Failure?
    ensures Recognize(svc, b) == Failure("All OCR providers failed:\n" + ProviderValue(svc.provider) + ": " + PrimaryAttempt(svc, b).error)
  {
    assert TryFallback(svc, b).None?;
    SingleErrorMessage(svc.provider, PrimaryAttempt(svc, b).error);
  }

  lemma SingleErrorMessage(p: Provider, e: string)
    ensures AllFailedMessage([ErrorLine(p, e)]) == "All OCR providers failed:\n" + ProviderValue(p) + ": " + e
  {
  }

  /** Structured extraction runs only with AI parsing enabled and non-empty
      text; otherwise `structured_data` stays empty. */
  lemma StructuredOnlyWhenEnabled(svc: Service, path: string, docType: DocumentType, b: Backends,
                                  ask: OcrStructure.Collaborator, parse: OcrStructure.JsonParser)
    requires ProcessImage(svc, path, docType, b, ask, parse).Success?
    requires !svc.aiParsing || ProcessImage(svc, path, docType, b, ask, parse).value.text == ""
    ensures ProcessImage(svc, path, docType, b, ask, parse).value.structuredData == map[]
  {
  }

  /** A Chandra primary that fails is retried once more as the Chandra
      fallback, because the fallback list does not exclude the primary. */
  lemma ChandraPrimaryRetried(svc: Service, b: Backends)
    requires IsChandra(svc.provider) && svc.fallback && svc.avail.chandra
    requires b.primary.Failure? && b.chandra.Success?
    ensures Recognize(svc, b).Success?
    ensures Recognize(svc, b).value.metadata["used_provider"] == Str("chandra")
  {
  }
}
