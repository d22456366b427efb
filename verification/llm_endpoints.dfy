/** The LLM endpoint diagnostic: reading the provider list from its YAML
    configuration, classifying each provider's HTTP probe, and the exit
    status that tells CI whether some provider was unreachable. The file is
    given already parsed, and each probe's outcome is an input. */
module LlmEndpoints {
  import opened Wrappers
  import opened Text
  import opened Json

  /** A provider as `load_providers` builds it. `base_url` and `type` keep
      whatever value the configuration holds. */
  datatype Provider = Provider(name: string, baseUrl: Value, enabled: bool, providerType: Value)

  /** `Provider(...)` from one entry of `providers`: `base_url` defaults to
      "", `enabled` to true (any other value is read for its truth), `type`
      to "remote". */
  function ProviderOf(name: string, cfg: map<string, Value>): (p: Provider)
    ensures p.name == name
    ensures p.enabled <==> "enabled" !in cfg || Truthy(cfg["enabled"])
    ensures p.baseUrl == (if "base_url" in cfg then cfg["base_url"] else Str(""))
    ensures p.providerType == (if "type" in cfg then cfg["type"] else Str("remote"))
  {
    Provider(name, Get(cfg, "base_url", Str("")), Truthy(Get(cfg, "enabled", Bool(true))), Get(cfg, "type", Str("remote")))
  }

  /** An entry without settings is an enabled remote provider with an empty
      URL. */
  lemma EmptyEntryDefaults(name: string)
    ensures ProviderOf(name, map[]) == Provider(name, Str(""), true, Str("remote"))
  {
  }

  /** `data.get("providers", {})` when it is a mapping; `None` where Python
      raises (the document is not a mapping, or `providers` is not one). */
  function ProviderEntries(data: Value): (r: Option<map<string, Value>>)
    ensures r.None? <==> !data.Obj? || ("providers" in data.fields && !data.fields["providers"].Obj?)
    ensures data.Obj? && "providers" !in data.fields ==> r == Some(map[])
    ensures data.Obj? && "providers" in data.fields && data.fields["providers"].Obj? ==>
      r == Some(data.fields["providers"].fields)
  {
    match data
    case Obj(fields) =>
      (match Get(fields, "providers", Obj(map[]))
       case Obj(entries) => Some(entries)
       case _ => None)
    case _ => None
  }

  predicate AllMappings(entries: map<string, Value>) {
    forall name :: name in entries ==> entries[name].Obj?
  }

  /** `load_providers`: one provider per entry, keyed by its name; `None`
      where Python raises, which includes an entry that is not a mapping. */
  function LoadProviders(data: Value): (r: Option<map<string, Provider>>)
    ensures r.Some? <==> ProviderEntries(data).Some? && AllMappings(ProviderEntries(data).value)
    ensures r.Some? ==> r.value.Keys == ProviderEntries(data).value.Keys
    ensures r.Some? ==> forall name :: name in r.value ==> r.value[name].name == name
    // each provider is read from its own entry, with the defaults of `ProviderOf`
    ensures r.Some? ==> forall name :: name in r.value ==>
      r.value[name] == ProviderOf(name, ProviderEntries(data).value[name].fields)
  {
    match ProviderEntries(data)
    case None => None
    case Some(entries) =>
      if !AllMappings(entries) then None
      else Some(map name | name in entries :: ProviderOf(name, entries[name].fields))
  }

  // ---------------------------------------------------------------------
  // Probing one provider

  const AuthErrors: set<int> := {401, 403}

  /** What `requests.get(base_url)` gave: a response with its status code,
      or a `RequestException` with its text. */
  datatype Probe = Responded(code: int) | RequestFailed(reason: string)

  datatype Status = Skipped | Ok | Reachable | Warning | Error

  /** The `status` value written to the report. */
  function StatusName(s: Status): (n: string)
    ensures n in {"skipped", "ok", "reachable", "warning", "error"}
  {
    match s
    case Skipped => "skipped"
    case Ok => "ok"
    case Reachable => "reachable"
    case Warning => "warning"
    case Error => "error"
  }

  /** Each status is reported under its own name, so the report can be read
      back. */
  lemma StatusNamesDistinct(s: Status, t: Status)
    ensures StatusName(s) == StatusName(t) ==> s == t
  {
  }

  datatype Check = Check(status: Status, message: string)

  /** `check_endpoint`: a disabled provider is skipped without a request;
      200 is ok, an authentication refusal still shows the network is
      reachable, any other code is a warning, and only a failed request is
      an error. */
  function CheckEndpoint(p: Provider, probe: Probe): (r: Check)
    ensures r.status == Skipped <==> !p.enabled
    ensures r.status == Error <==> p.enabled && probe.RequestFailed?
    ensures p.enabled && probe.Responded? ==>
      && (r.status == Ok <==> probe.code == 200)
      && (r.status == Reachable <==> probe.code in AuthErrors)
      && (r.status == Warning <==> probe.code != 200 && probe.code !in AuthErrors)
    ensures r.status == Skipped ==> r.message == "disabled in config"
    ensures r.status == Ok ==> r.message == "HTTP 200"
    ensures r.status == Reachable ==> r.message == "auth error (" + IntToString(probe.code) + ") — сеть доступна"
    ensures r.status == Warning ==> r.message == "HTTP " + IntToString(probe.code)
    ensures r.status == Error ==> r.message == probe.reason
  {
    if !p.enabled then Check(Skipped, "disabled in config")
    else
      match probe
      case Responded(code) =>
        if code == 200 then Check(Ok, "HTTP 200")
        else if code in AuthErrors then Check(Reachable, "auth error (" + IntToString(code) + ") — сеть доступна")
        else Check(Warning, "HTTP " + IntToString(code))
      case RequestFailed(reason) => Check(Error, reason)
  }

  /** A disabled provider's check does not depend on the network. */
  lemma DisabledNotProbed(p: Provider, a: Probe, b: Probe)
    requires !p.enabled
    ensures CheckEndpoint(p, a) == CheckEndpoint(p, b)
  {
  }

  // ---------------------------------------------------------------------
  // The run as a whole

  /** The checks of every provider, by name; `probe(name)` is what the
      request for that provider gave. */
  function Results(providers: map<string, Provider>, probe: string -> Probe): (r: map<string, Check>)
    ensures r.Keys == providers.Keys
    ensures forall name :: name in r ==> r[name] == CheckEndpoint(providers[name], probe(name))
  {
    map name | name in providers :: CheckEndpoint(providers[name], probe(name))
  }

  /** The process exit status of `main`, given the parsed configuration
      (`None` when the file cannot be read or parsed). A configuration that
      makes `load_providers` raise ends the process with status 1, as an
      empty provider list does; status 2 means some request failed. */
  function ExitStatus(config: Option<Value>, probe: string -> Probe): (code: nat)
    ensures code <= 2
    ensures code == 1 <==> config.None? || LoadProviders(config.value).None? || |LoadProviders(config.value).value| == 0
    ensures code == 2 <==>
      && config.Some? && LoadProviders(config.value).Some?
      && exists name :: (name in LoadProviders(config.value).value
        && LoadProviders(config.value).value[name].enabled && probe(name).RequestFailed?)
  {
    match config
    case None => 1
    case Some(data) =>
      match LoadProviders(data)
      case None => 1
      case Some(providers) =>
        if |providers| == 0 then 1
        else
          var results := Results(providers, probe);
          if exists name :: name in results && results[name].status == Error then 2 else 0
  }

  /** Warnings and authentication refusals never fail the run: with at
      least one provider and every enabled provider answering with some
      status code, the exit status is 0. */
  lemma AnswersNeverFail(data: Value, probe: string -> Probe)
    requires LoadProviders(data).Some? && |LoadProviders(data).value| > 0
    requires forall name :: name in LoadProviders(data).value ==> probe(name).Responded?
    ensures ExitStatus(Some(data), probe) == 0
  {
  }

  /** A configuration without a `providers` key has nothing to check. */
  lemma NoProvidersKey(fields: map<string, Value>, probe: string -> Probe)
    requires "providers" !in fields
    ensures ExitStatus(Some(Obj(fields)), probe) == 1
  {
  }
}
