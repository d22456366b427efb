/** `batch_process`: every path is processed in turn; a failure becomes a
    degraded result at that position and the loop carries on. */
module OcrBatch {
  import opened Wrappers
  import opened Json
  import opened OcrModel
  import opened OcrService
  import OcrStructure

  /** What the outside world answers for one item: the backend calls and
      the collaborator for its structured extraction. */
  datatype ItemEnv = ItemEnv(backends: Backends, ask: OcrStructure.Collaborator)

  /** The result a failed item is replaced with: no text, confidence 0, the
      default document type, and the failure message and path as metadata. */
  function Degraded(path: string, error: string): (r: OcrResult)
    ensures r.text == "" && r.confidence == 0.0 && r.documentType == Other
    ensures r.metadata == map["error" := Str(error), "file" := Str(path)]
    ensures r.structuredData == map[]
  {
    NewResult("", 0.0, metadata := Some(map["error" := Str(error), "file" := Str(path)]))
  }

  /** The entry produced for one path: its result, or the degraded entry
      carrying the failure message and the path. */
  function ItemResult(svc: Service, path: string, docType: DocumentType, env: ItemEnv,
                      parse: OcrStructure.JsonParser): (r: OcrResult)
    ensures ProcessImage(svc, path, docType, env.backends, env.ask, parse).Success? ==>
      r == ProcessImage(svc, path, docType, env.backends, env.ask, parse).value
    ensures ProcessImage(svc, path, docType, env.backends, env.ask, parse).Failure? ==>
      r.text == "" && r.confidence == 0.0 && r.structuredData == map[]
      && r.metadata == map["error" := Str(ProcessImage(svc, path, docType, env.backends, env.ask, parse).error), "file" := Str(path)]
  {
    match ProcessImage(svc, path, docType, env.backends, env.ask, parse)
    case Success(r) => r
    case Failure(e) => Degraded(path, e)
  }

  /** One result per path, in input order; entry `i` depends only on path `i`
      and what the world answered for it; failures become degraded entries. */
  method BatchProcess(svc: Service, paths: seq<string>, docType: DocumentType, envs: seq<ItemEnv>,
                      parse: OcrStructure.JsonParser) returns (results: seq<OcrResult>)
    requires |envs| == |paths|
    ensures |results| == |paths|
    ensures forall i :: 0 <= i < |paths| ==>
      ProcessImage(svc, paths[i], docType, envs[i].backends, envs[i].ask, parse).Success? ==>
      results[i] == ProcessImage(svc, paths[i], docType, envs[i].backends, envs[i].ask, parse).value
    ensures forall i :: 0 <= i < |paths| ==>
      ProcessImage(svc, paths[i], docType, envs[i].backends, envs[i].ask, parse).Failure? ==>
      results[i] == Degraded(paths[i], ProcessImage(svc, paths[i], docType, envs[i].backends, envs[i].ask, parse).error)
  {
    results := [];
    var i := 0;
    while i < |paths|
      invariant 0 <= i <= |paths|
      invariant |results| == i
      invariant forall k :: 0 <= k < i ==> results[k] == ItemResult(svc, paths[k], docType, envs[k], parse)
    {
      results := results + [ItemResult(svc, paths[i], docType, envs[i], parse)];
      i := i + 1;
    }
  }
}
