/** The vocabulary of the OCR service: the provider and document-type
    enumerations with their string values, the raw record a recognition
    backend returns, and the `OCRResult` record with its constructor defaults. */
module OcrModel {
  import opened Wrappers
  import opened Json

  /** `OCRProvider`: the recognition backends a service can be configured with. */
  datatype Provider = DeepSeek | ChandraHf | ChandraVllm | Tesseract

  const AllProviders: seq<Provider> := [DeepSeek, ChandraHf, ChandraVllm, Tesseract]

  /** The enum member's string value. */
  function ProviderValue(p: Provider): string {
    match p
    case DeepSeek => "deepseek"
    case ChandraHf => "chandra_hf"
    case ChandraVllm => "chandra_vllm"
    case Tesseract => "tesseract"
  }

  /** `OCRProvider(value)`: lookup by value; an unknown value raises. */
  function ProviderFromValue(s: string): (r: Option<Provider>)
    ensures r.Some? ==> ProviderValue(r.value) == s
    ensures r.None? ==> forall p :: ProviderValue(p) != s
  {
    if s == "deepseek" then Some(DeepSeek)
    else if s == "chandra_hf" then Some(ChandraHf)
    else if s == "chandra_vllm" then Some(ChandraVllm)
    else if s == "tesseract" then Some(Tesseract)
    else None
  }

  /** Every provider is found again from its value, so values are distinct. */
  lemma ProviderValueRoundTrip(p: Provider)
    ensures ProviderFromValue(ProviderValue(p)) == Some(p)
  {
  }

  /** `DocumentType`: the semantic tag steering structured extraction. */
  datatype DocumentType = Auto | Contract | Act | Invoice | Waybill | Form | Table | Other

  function DocumentTypeValue(d: DocumentType): string {
    match d
    case Auto => "auto"
    case Contract => "contract"
    case Act => "act"
    case Invoice => "invoice"
    case Waybill => "waybill"
    case Form => "form"
    case Table => "table"
    case Other => "other"
  }

  function DocumentTypeFromValue(s: string): (r: Option<DocumentType>)
    ensures r.Some? ==> DocumentTypeValue(r.value) == s
    ensures r.None? ==> forall d :: DocumentTypeValue(d) != s
  {
    if s == "auto" then Some(Auto)
    else if s == "contract" then Some(Contract)
    else if s == "act" then Some(Act)
    else if s == "invoice" then Some(Invoice)
    else if s == "waybill" then Some(Waybill)
    else if s == "form" then Some(Form)
    else if s == "table" then Some(Table)
    else if s == "other" then Some(Other)
    else None
  }

  lemma DocumentTypeValueRoundTrip(d: DocumentType)
    ensures DocumentTypeFromValue(DocumentTypeValue(d)) == Some(d)
  {
  }

  type Metadata = map<string, Value>

  /** What a backend returns on success: `{text, confidence, metadata}`. */
  datatype Recognition = Recognition(text: string, confidence: real, metadata: Metadata)

  /** `OCRResult` (its construction timestamp is not modelled). */
  datatype OcrResult = OcrResult(
    text: string,
    confidence: real,
    documentType: DocumentType,
    metadata: Metadata,
    structuredData: Metadata)

  /** `OCRResult(...)`: omitted arguments take their defaults, and a missing or
      empty `metadata`/`structured_data` becomes an empty map (`x or {}`). */
  function NewResult(
    text: string,
    confidence: real := 0.0,
    documentType: DocumentType := Other,
    metadata: Option<Metadata> := None,
    structuredData: Option<Metadata> := None): (r: OcrResult)
    ensures r.text == text && r.confidence == confidence && r.documentType == documentType
    ensures r.metadata == metadata.GetOr(map[])
    ensures r.structuredData == structuredData.GetOr(map[])
  {
    OcrResult(text, confidence, documentType, metadata.GetOr(map[]), structuredData.GetOr(map[]))
  }

  /** A result built with only its text has confidence 0, type `other` and
      empty maps. */
  lemma NewResultDefaults(text: string)
    ensures NewResult(text) == OcrResult(text, 0.0, Other, map[], map[])
  {
  }
}
