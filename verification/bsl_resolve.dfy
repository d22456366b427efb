/** `BslSelectionHelper.resolve`: the function under the user's selection,
    taken either from a structured selection (an element of the BSL model,
    inspected by reflection and EMF) or from the text editor's cursor. */
module BslResolve {
  import opened Wrappers
  import opened Text
  import opened BslDocument
  import opened BslRegion

  /** `BslFunctionInfo`; each field may be null. */
  datatype FunctionInfo = FunctionInfo(
    moduleName: Option<string>,
    functionName: Option<string>,
    body: Option<string>,
    configuration: Option<string>)

  // ---------------------------------------------------------------------
  // Configuration and module names

  /** `inferConfigurationFromModule`: the part before the first dot, or the
      whole name when it has no dot or starts with one. */
  function InferConfiguration(moduleName: Option<string>): (r: Option<string>)
    ensures r.None? <==> moduleName.None? || moduleName.value == ""
    ensures r.Some? ==> r.value != "" && StartsWith(moduleName.value, r.value)
    ensures r.Some? && r.value != moduleName.value ==>
      moduleName.value[|r.value|] == '.' && forall k :: 0 <= k < |r.value| ==> r.value[k] != '.'
    ensures r.Some? && moduleName.value[0] != '.' && Contains(moduleName.value, '.') ==> r.value != moduleName.value
  {
    match moduleName
    case None => None
    case Some(name) =>
      if name == "" then None
      else
        var idx := IndexOf(name, '.');
        if idx > 0 then Some(name[..idx]) else Some(name)
  }

  /** A project-relative path, as its segments. */
  type Segments = seq<string>

  /** The segments of a file path as Eclipse keeps them: non-empty, without
      separators. */
  predicate WellFormed(segments: Segments) {
    forall i :: 0 <= i < |segments| ==> segments[i] != "" && !Contains(segments[i], '/')
  }

  /** `IPath.removeFileExtension()`: drop what follows the last dot of the
      last segment, with the dot, unless that is empty or there is no dot.
      The stem goes back through `append`, for which "" and "." add nothing
      and ".." removes the parent. */
  function RemoveFileExtension(segments: Segments): Segments {
    if |segments| == 0 then segments
    else
      var last := segments[|segments| - 1];
      var dot := LastIndexOf(last, '.');
      if dot < 0 || dot == |last| - 1 then segments
      else
        var stem := last[..dot];
        var parent := segments[..|segments| - 1];
        if stem == "" || stem == "." then parent
        else if stem == ".." then (if |parent| == 0 then parent else parent[..|parent| - 1])
        else parent + [stem]
  }

  function ReplaceSlashes(s: string): (r: string)
    ensures |r| == |s|
    ensures forall i :: 0 <= i < |s| ==> r[i] == (if s[i] == '/' then '.' else s[i])
  {
    seq(|s|, i requires 0 <= i < |s| => if s[i] == '/' then '.' else s[i])
  }

  /** `resolveModuleNameFromEditor` once the file is known: the path without
      its extension, with `/` replaced by `.`. */
  function ModuleNameFromPath(segments: Segments): string {
    ReplaceSlashes(Join("/", RemoveFileExtension(segments)))
  }

  lemma ReplaceSlashesAppend(a: string, b: string)
    ensures ReplaceSlashes(a + b) == ReplaceSlashes(a) + ReplaceSlashes(b)
  {
  }

  /** Joining with `/` and replacing `/` by `.` is joining with `.`. */
  lemma {:induction false} JoinedWithDots(parts: seq<string>)
    requires forall i :: 0 <= i < |parts| ==> !Contains(parts[i], '/')
    ensures ReplaceSlashes(Join("/", parts)) == Join(".", parts)
    decreases |parts|
  {
    if |parts| == 1 {
      assert ReplaceSlashes(parts[0]) == parts[0];
    } else if |parts| > 1 {
      JoinedWithDots(parts[1..]);
      ReplaceSlashesAppend(parts[0] + "/", Join("/", parts[1..]));
      ReplaceSlashesAppend(parts[0], "/");
      assert ReplaceSlashes(parts[0]) == parts[0];
    }
  }

  /** For a file `a/b/Name.ext` (a non-empty extension without dots, a stem
      other than "", "." or "..") the module name is `a.b.Name`. */
  lemma ModuleNameOfFile(folders: Segments, stem: string, ext: string)
    requires WellFormed(folders)
    requires stem != "" && stem != "." && stem != ".." && !Contains(stem, '/')
    requires ext != "" && !Contains(ext, '.') && !Contains(ext, '/')
    ensures ModuleNameFromPath(folders + [stem + "." + ext]) == Join(".", folders + [stem])
  {
    var last := stem + "." + ext;
    var segments := folders + [last];
    assert last[|stem|] == '.';
    forall k | |stem| < k < |last|
      ensures last[k] != '.'
    {
      assert last[k] == ext[k - |stem| - 1];
    }
    assert LastIndexOf(last, '.') == |stem|;
    assert last[..|stem|] == stem;
    assert segments[..|segments| - 1] == folders;
    assert RemoveFileExtension(segments) == folders + [stem];
    JoinedWithDots(folders + [stem]);
  }

  /** A file stored under a top folder without dots belongs to the
      configuration named by that folder. */
  lemma ConfigurationIsTopFolder(folders: Segments, stem: string, ext: string)
    requires WellFormed(folders) && |folders| > 0 && !Contains(folders[0], '.')
    requires stem != "" && stem != "." && stem != ".." && !Contains(stem, '/')
    requires ext != "" && !Contains(ext, '.') && !Contains(ext, '/')
    ensures InferConfiguration(Some(ModuleNameFromPath(folders + [stem + "." + ext]))) == Some(folders[0])
  {
    ModuleNameOfFile(folders, stem, ext);
    var parts := folders + [stem];
    var name := Join(".", parts);
    assert name == parts[0] + "." + Join(".", parts[1..]);
    assert parts[0] == folders[0];
    var top := folders[0];
    assert name[|top|] == '.';
    forall k | 0 <= k < |top|
      ensures name[k] != '.'
    {
      assert name[k] == top[k];
    }
    assert IndexOf(name, '.') == |top|;
    assert name[..|top|] == top;
  }

  // ---------------------------------------------------------------------
  // Reflection and EMF

  /** The first of `names` that `values` has: `invokeString` over the
      no-argument methods an object answers with a non-null value, or
      `getFeatureString` over the features an `EObject` has set. */
  function FirstKey(values: map<string, string>, names: seq<string>): (r: Option<string>)
    ensures r.None? <==> forall i :: 0 <= i < |names| ==> names[i] !in values
    ensures r.Some? ==> exists i :: (0 <= i < |names| && names[i] in values && r.value == values[names[i]]
      && forall k :: 0 <= k < i ==> names[k] !in values)
  {
    if |names| == 0 then None
    else if names[0] in values then Some(values[names[0]])
    else
      var r := FirstKey(values, names[1..]);
      assert r.Some? ==> exists i :: (1 <= i < |names| && names[i] in values && r.value == values[names[i]]
        && forall k :: 0 <= k < i ==> names[k] !in values);
      r
  }

  /** What reflection and EMF see of an object: the string form of each
      method that exists, takes no argument and returns non-null without
      throwing, and, for an `EObject`, of each feature with a non-null
      value. */
  datatype Inspected = Inspected(methods: map<string, string>, features: Option<map<string, string>>)

  /** The selected element: what it shows by reflection, the object its
      first non-null owner accessor (`getModule`, `getOwner`, `getParent`,
      `getModuleOwner`) returns, and the features of its EMF containers from
      the innermost out. */
  datatype MethodObject = MethodObject(
    self: Inspected,
    owner: Option<Inspected>,
    containers: seq<map<string, string>>)

  const ModuleFeatures: seq<string> := ["name", "fullName", "moduleName"]

  /** The owner's module name read from its EMF features, when the owner is
      an `EObject`. */
  function OwnerFeatureName(obj: MethodObject): Option<string> {
    match obj.owner
    case Some(Inspected(_, Some(features))) => FirstKey(features, ModuleFeatures)
    case _ => None
  }

  /** The owner's module name read through `getName`, then `getFullName`. */
  function OwnerAccessorName(obj: MethodObject): Option<string> {
    match obj.owner
    case Some(owner) => FirstKey(owner.methods, ["getName", "getFullName"])
    case None => None
  }

  /** `resolveModuleName`: the owner's EMF name features, then its name
      accessors, then, for an `EObject`, the innermost EMF container that has
      a name feature. */
  function ResolveModuleName(obj: MethodObject): (r: Option<string>)
    ensures OwnerFeatureName(obj).Some? ==> r == OwnerFeatureName(obj)
    ensures OwnerFeatureName(obj).None? && OwnerAccessorName(obj).Some? ==> r == OwnerAccessorName(obj)
    ensures OwnerFeatureName(obj).None? && OwnerAccessorName(obj).None? && obj.self.features.None? ==> r.None?
    // otherwise the containers are walked from the innermost out
    ensures OwnerFeatureName(obj).None? && OwnerAccessorName(obj).None? && obj.self.features.Some? ==>
      && (r.None? <==> forall i :: 0 <= i < |obj.containers| ==> FirstKey(obj.containers[i], ModuleFeatures).None?)
      && (r.Some? ==> exists i :: (0 <= i < |obj.containers| && r == FirstKey(obj.containers[i], ModuleFeatures)
                                   && forall k :: 0 <= k < i ==> FirstKey(obj.containers[k], ModuleFeatures).None?))
  {
    var explicit := OwnerFeatureName(obj);
    var viaReflection := OwnerAccessorName(obj);
    if explicit.Some? then explicit
    else if viaReflection.Some? then viaReflection
    else if obj.self.features.Some? then
      var named := seq(|obj.containers|, i requires 0 <= i < |obj.containers| => FirstKey(obj.containers[i], ModuleFeatures));
      assert forall i :: 0 <= i < |obj.containers| ==> named[i] == FirstKey(obj.containers[i], ModuleFeatures);
      FirstSome(named)
    else None
  }

  /** `getFeatureString` when the object is an `EObject`, else null. */
  function FeatureString(obj: Inspected, names: seq<string>): Option<string> {
    match obj.features
    case Some(features) => FirstKey(features, names)
    case None => None
  }

  const NameAccessors: seq<string> := ["getName", "getMethodName", "getMethod"]
  const NameFeatures: seq<string> := ["name", "methodName"]
  const BodyAccessors: seq<string> := ["getSource", "getSourceCode", "getBody", "getText"]
  const BodyFeatures: seq<string> := ["source", "text", "body"]

  /** `resolveFromMethodObject`: null when no name can be read; otherwise the
      name, the body if one can be read, the module name and the
      configuration inferred from it. An accessor always wins over an EMF
      feature. */
  function FromMethodObject(obj: MethodObject): (r: Option<FunctionInfo>)
    ensures r.Some? <==>
      FirstKey(obj.self.methods, NameAccessors).Some? || FeatureString(obj.self, NameFeatures).Some?
    ensures r.Some? && FirstKey(obj.self.methods, NameAccessors).Some? ==>
      r.value.functionName == FirstKey(obj.self.methods, NameAccessors)
    ensures r.Some? && FirstKey(obj.self.methods, NameAccessors).None? ==>
      r.value.functionName == FeatureString(obj.self, NameFeatures)
    ensures r.Some? && FirstKey(obj.self.methods, BodyAccessors).Some? ==>
      r.value.body == FirstKey(obj.self.methods, BodyAccessors)
    ensures r.Some? && FirstKey(obj.self.methods, BodyAccessors).None? ==>
      r.value.body == FeatureString(obj.self, BodyFeatures)
    ensures r.Some? ==> r.value.functionName.Some?
    ensures r.Some? ==> r.value.moduleName == ResolveModuleName(obj)
    ensures r.Some? ==> r.value.configuration == InferConfiguration(r.value.moduleName)
  {
    var name := FirstKey(obj.self.methods, NameAccessors);
    var name := if name.Some? then name else FeatureString(obj.self, NameFeatures);
    if name.None? then None
    else
      var body := FirstKey(obj.self.methods, BodyAccessors);
      var body := if body.Some? then body else FeatureString(obj.self, BodyFeatures);
      var moduleName := ResolveModuleName(obj);
      Some(FunctionInfo(moduleName, name, body, InferConfiguration(moduleName)))
  }

  // ---------------------------------------------------------------------
  // Selections

  /** A selection: the first element when it is a structured selection
      (`Some(None)` for an empty one), and the offset when it is a text
      selection. */
  datatype Selection = Selection(structured: Option<Option<Element>>, textOffset: Option<int>)

  /** A structured selection's first element, and whether it is itself a
      selection. */
  datatype Element = Element(target: MethodObject, asSelection: ElementSelection)

  datatype ElementSelection = NotSelection | TextSelection | OtherSelection(inner: Selection)

  /** `resolveFromStructuredSelection`. */
  function FromStructured(sel: Selection): (r: Option<FunctionInfo>)
    ensures r.Some? ==> r.value.functionName.Some?
    ensures r.Some? ==> r.value.configuration == InferConfiguration(r.value.moduleName)
    ensures sel.structured.None? || sel.structured.value.None? ==> r.None?
    // the first element's own function wins
    ensures sel.structured.Some? && sel.structured.value.Some? && FromMethodObject(sel.structured.value.value.target).Some? ==>
      r == FromMethodObject(sel.structured.value.value.target)
    // an element that names nothing is looked into only when it is itself a non-text selection
    ensures sel.structured.Some? && sel.structured.value.Some? && FromMethodObject(sel.structured.value.value.target).None? ==>
      r == (match sel.structured.value.value.asSelection
            case OtherSelection(inner) => FromStructured(inner)
            case _ => None)
  {
    match sel.structured
    case None => None
    case Some(None) => None
    case Some(Some(first)) =>
      match FromMethodObject(first.target)
      case Some(info) => Some(info)
      case None =>
        match first.asSelection
        case OtherSelection(inner) => FromStructured(inner)
        case _ => None
  }

  /** The text editor of the active part, when there is one: its document,
      if the provider has one, and its file as a project-relative path, if
      the editor input adapts to a file. */
  datatype Editor = Editor(document: Option<Document>, file: Option<Segments>)

  /** `resolveFromEditor`, with the header and end-line matcher `m`
      (`AsWritten` is the code as it stands). */
  function FromEditor(offset: int, editor: Option<Editor>, m: Matcher): (r: Option<FunctionInfo>)
    ensures r.Some? <==> (editor.Some? && editor.value.document.Some?
      && FindMethodRegion(editor.value.document.value, offset, m).Some?)
    ensures r.Some? ==>
      var doc := editor.value.document.value;
      var region := FindMethodRegion(doc, offset, m).value;
      && r.value.functionName == Some(region.name)
      && r.value.body == Some(ExtractBody(doc, region))
    ensures r.Some? ==> (r.value.moduleName.Some? <==> editor.value.file.Some?)
    ensures r.Some? && editor.value.file.Some? ==> r.value.moduleName == Some(ModuleNameFromPath(editor.value.file.value))
    ensures r.Some? ==> r.value.configuration == InferConfiguration(r.value.moduleName)
  {
    match editor
    case None => None
    case Some(Editor(None, _)) => None
    case Some(Editor(Some(doc), file)) =>
      match FindMethodRegion(doc, offset, m)
      case None => None
      case Some(region) =>
        var moduleName := match file
          case Some(segments) => Some(ModuleNameFromPath(segments))
          case None => None;
        Some(FunctionInfo(moduleName, Some(region.name), Some(ExtractBody(doc, region)), InferConfiguration(moduleName)))
  }

  /** `resolve`: a structured selection wins; the editor is consulted only
      for a text selection; a null selection resolves to nothing. Every
      function found has a name and the configuration of its module. */
  function Resolve(sel: Option<Selection>, editor: Option<Editor>, m: Matcher): (r: Option<FunctionInfo>)
    ensures sel.None? ==> r.None?
    ensures sel.Some? && FromStructured(sel.value).Some? ==> r == FromStructured(sel.value)
    ensures sel.Some? && FromStructured(sel.value).None? ==>
      r == (if sel.value.textOffset.Some? then FromEditor(sel.value.textOffset.value, editor, m) else None)
    ensures r.Some? ==> r.value.functionName.Some?
    ensures r.Some? ==> r.value.configuration == InferConfiguration(r.value.moduleName)
  {
    match sel
    case None => None
    case Some(s) =>
      match FromStructured(s)
      case Some(info) => Some(info)
      case None =>
        match s.textOffset
        case Some(offset) => FromEditor(offset, editor, m)
        case None => None
  }

  /** A function found in the editor has, as body, exactly the lines from
      its header to its end line. */
  lemma EditorBodyIsMethodLines(offset: int, doc: Document, file: Option<Segments>, loc: Located, m: Matcher)
    requires LocateMethod(doc, offset, m) == Some(loc)
    ensures FromEditor(offset, Some(Editor(Some(doc), file)), m).Some?
    ensures FromEditor(offset, Some(Editor(Some(doc), file)), m).value.body
      == Some(Concat(doc[loc.headerLine..loc.endLine + 1]))
  {
    var region := FindMethodRegion(doc, offset, m).value;
    assert ExtractBody(doc, region) == Concat(doc[loc.headerLine..loc.endLine + 1]) by {
      RegionBody(doc, offset, m, loc);
    }
    var r := FromEditor(offset, Some(Editor(Some(doc), file)), m);
    assert r.value.body == Some(ExtractBody(doc, region));
  }

  /** Whatever the editor shows, it does not matter once the structured
      selection names a function. */
  lemma StructuredWins(sel: Selection, e1: Option<Editor>, e2: Option<Editor>, m1: Matcher, m2: Matcher)
    requires FromStructured(sel).Some?
    ensures Resolve(Some(sel), e1, m1) == Resolve(Some(sel), e2, m2) == FromStructured(sel)
  {
  }
}
