/** The "Show Call Graph" context action: its guard on the selection, and
    the message it builds from the backend's dependency analysis. The
    backend call, the dialogs and the thread are left to the caller. */
module CallGraph {
  import opened Wrappers
  import opened Text
  import opened BslResolve
  import BslDocument
  import BslRegion
  import BslRegionFindings

  // ---------------------------------------------------------------------
  // The action's guard

  /** What `run` does: warn that nothing is selected, warn that no function
      could be determined, or build the graph of one function. */
  datatype Outcome = NoSelection | NoFunctionInfo | ShowGraph(moduleName: string, functionName: string)

  /** `run`, given the current selection and the active editor; `m` is the
      matcher the editor path uses, and `Run(current, editor, AsWritten)` is
      the action as the code stands. */
  function Run(current: Option<Selection>, editor: Option<Editor>, m: BslRegion.Matcher): (r: Outcome)
    ensures r == NoSelection <==> current.None?
    ensures r.ShowGraph? <==> Resolve(current, editor, m).Some? && Resolve(current, editor, m).value.moduleName.Some?
    ensures r.ShowGraph? ==>
      && Resolve(current, editor, m).value.moduleName == Some(r.moduleName)
      && Resolve(current, editor, m).value.functionName == Some(r.functionName)
  {
    if current.None? then NoSelection
    else
      match Resolve(current, editor, m)
      case None => NoFunctionInfo
      case Some(info) =>
        if info.functionName.None? || info.moduleName.None? then NoFunctionInfo
        else ShowGraph(info.moduleName.value, info.functionName.value)
  }

  /** Only the module name can be missing: every resolved function has a
      name, so the graph is shown exactly when the module is known. */
  lemma ModuleNameDecides(current: Option<Selection>, editor: Option<Editor>, m: BslRegion.Matcher)
    requires Resolve(current, editor, m).Some?
    ensures Run(current, editor, m).ShowGraph? <==> Resolve(current, editor, m).value.moduleName.Some?
    ensures !Run(current, editor, m).ShowGraph? ==> Run(current, editor, m) == NoFunctionInfo
  {
  }

  /** A function found in an editor whose input is not a file is never
      shown: its module is unknown. */
  lemma EditorWithoutFileNotShown(offset: int, doc: BslDocument.Document, m: BslRegion.Matcher)
    requires BslRegion.FindMethodRegion(doc, offset, m).Some?
    ensures Run(Some(Selection(None, Some(offset))), Some(Editor(Some(doc), None)), m) == NoFunctionInfo
  {
  }

  /** As the code stands, a text selection in a module whose code lines all
      start with a Cyrillic capital (`Процедура Тест()`, `Возврат;`,
      `КонецПроцедуры`) never reaches the backend: no function is found. */
  lemma CapitalisedModuleNotShown(offset: int, doc: BslDocument.Document, file: Option<Segments>)
    requires forall k :: 0 <= k < |doc| ==>
      BslRegion.Skipped(BslRegion.LineText(doc, k)) || 'А' <= BslRegion.LineText(doc, k)[0] <= 'Я'
    ensures Run(Some(Selection(None, Some(offset))), Some(Editor(Some(doc), file)), BslRegion.AsWritten) == NoFunctionInfo
  {
    BslRegionFindings.CapitalisedModuleHasNoRegion(doc, offset);
  }

  // ---------------------------------------------------------------------
  // The message

  /** One caller or callee, as the backend lists it. */
  datatype Call = Call(moduleName: string, functionName: string)

  /** The `result` object: each list present only when the backend sent it. */
  datatype GraphData = GraphData(calledBy: Option<seq<Call>>, callsTo: Option<seq<Call>>)

  /** The backend's response: its `result` member, if any, and its JSON text. */
  datatype Response = Response(result: Option<GraphData>, json: string)

  /** No section lists more than ten calls. */
  const MaxListed: nat := 10

  function Header(functionName: string): string {
    "Граф вызовов для функции: " + functionName + "\n\n"
  }

  const CalledByTitle: string := "▲ Вызывается из"
  const CallsToTitle: string := "▼ Вызывает"
  const Pending: string := "Результаты будут доступны после полной интеграции\n"

  function Entry(c: Call): string {
    "  • " + c.moduleName + "." + c.functionName + "\n"
  }

  /** The entry lines of `calls`, in order. */
  function Entries(calls: seq<Call>): string {
    if |calls| == 0 then "" else Entries(calls[..|calls| - 1]) + Entry(calls[|calls| - 1])
  }

  /** The calls a section lists: the first ten. */
  function Listed(calls: seq<Call>): (r: seq<Call>)
    ensures |r| <= MaxListed && |r| <= |calls|
    ensures |r| == |calls| || |r| == MaxListed
    ensures r == calls[..|r|]
  {
    if |calls| <= MaxListed then calls else calls[..MaxListed]
  }

  /** The line counting the calls that are not listed. */
  function Overflow(n: nat): string {
    if n > MaxListed then "  ... и еще " + NatToString(n - MaxListed) + "\n" else ""
  }

  /** A section as it should read: its title with the number of calls, the
      first ten of them, and how many more there are. */
  function Section(title: string, calls: seq<Call>): string {
    title + " (" + NatToString(|calls|) + "):\n" + Entries(Listed(calls)) + Overflow(|calls|)
  }

  /** The body of `formatCallGraph`'s loop over one list. */
  method FormatSection(title: string, calls: seq<Call>) returns (text: string)
    ensures text == Section(title, calls)
  {
    text := title + " (" + NatToString(|calls|) + "):\n";
    var i := 0;
    while i < |calls| && i < MaxListed
      invariant 0 <= i <= |calls| && i <= MaxListed
      invariant text == title + " (" + NatToString(|calls|) + "):\n" + Entries(calls[..i])
    {
      assert calls[..i + 1][..i] == calls[..i];
      text := text + Entry(calls[i]);
      i := i + 1;
    }
    assert calls[..i] == Listed(calls);
    if |calls| > MaxListed {
      text := text + "  ... и еще " + NatToString(|calls| - MaxListed) + "\n";
    }
  }

  /** `formatCallGraph`: the header, then the callers' section followed by a
      blank line, then the callees' section; without a `result`, a notice and
      the backend's JSON text. */
  method FormatCallGraph(functionName: string, response: Response) returns (text: string)
    ensures text == Message(functionName, response)
  {
    var rest: string;
    match response.result {
      case Some(data) =>
        var callers := "";
        if data.calledBy.Some? {
          var section := FormatSection(CalledByTitle, data.calledBy.value);
          callers := section + "\n";
        }
        var callees := "";
        if data.callsTo.Some? {
          callees := FormatSection(CallsToTitle, data.callsTo.value);
        }
        rest := callers + callees;
      case None =>
        rest := Pending + "Backend response: " + response.json;
    }
    text := Header(functionName) + rest;
  }

  /** The message as it should read. */
  function Message(functionName: string, response: Response): string {
    Header(functionName) +
    match response.result
    case Some(data) =>
      (if data.calledBy.Some? then Section(CalledByTitle, data.calledBy.value) + "\n" else "")
      + (if data.callsTo.Some? then Section(CallsToTitle, data.callsTo.value) else "")
    case None => Pending + "Backend response: " + response.json
  }

  // ---------------------------------------------------------------------
  // Properties of the message

  /** Calls beyond the tenth show only in the count: two lists of the same
      length that agree on their first ten calls give the same section. */
  lemma TailNotListed(title: string, a: seq<Call>, b: seq<Call>)
    requires |a| == |b|
    requires forall i :: 0 <= i < |a| && i < MaxListed ==> a[i] == b[i]
    ensures Section(title, a) == Section(title, b)
  {
    assert Listed(a) == Listed(b);
  }

  /** The backend's JSON text shows only when the response has no `result`. */
  lemma JsonShownOnlyWithoutResult(functionName: string, data: GraphData, json1: string, json2: string)
    ensures Message(functionName, Response(Some(data), json1)) == Message(functionName, Response(Some(data), json2))
  {
  }

  /** The number of occurrences of `c` in `s`. */
  function Count(s: string, c: char): nat {
    if |s| == 0 then 0 else Count(s[..|s| - 1], c) + (if s[|s| - 1] == c then 1 else 0)
  }

  lemma {:induction false} CountAppend(a: string, b: string, c: char)
    ensures Count(a + b, c) == Count(a, c) + Count(b, c)
    decreases |b|
  {
    if |b| == 0 {
      assert a + b == a;
    } else {
      var n := |b| - 1;
      assert (a + b)[..|a + b| - 1] == a + b[..n];
      CountAppend(a, b[..n], c);
    }
  }

  lemma {:induction false} CountAbsent(s: string, c: char)
    requires forall k :: 0 <= k < |s| ==> s[k] != c
    ensures Count(s, c) == 0
    decreases |s|
  {
    if |s| > 0 {
      CountAbsent(s[..|s| - 1], c);
    }
  }

  lemma DigitsHaveNoNewline(n: nat)
    ensures Count(NatToString(n), '\n') == 0
  {
    var s := NatToString(n);
    forall k | 0 <= k < |s|
      ensures s[k] != '\n'
    {
      assert IsDigit(s[k]);
    }
    CountAbsent(s, '\n');
  }

  predicate OneLine(s: string) {
    forall k :: 0 <= k < |s| ==> s[k] != '\n'
  }

  predicate Printable(c: Call) {
    OneLine(c.moduleName) && OneLine(c.functionName)
  }

  lemma EntryIsOneLine(c: Call)
    requires Printable(c)
    ensures Count(Entry(c), '\n') == 1
  {
    CountAbsent(c.moduleName, '\n');
    CountAbsent(c.functionName, '\n');
    CountAbsent("  • ", '\n');
    CountAbsent(".", '\n');
    CountAppend("  • ", c.moduleName, '\n');
    CountAppend("  • " + c.moduleName, ".", '\n');
    CountAppend("  • " + c.moduleName + ".", c.functionName, '\n');
    CountAppend("  • " + c.moduleName + "." + c.functionName, "\n", '\n');
  }

  lemma {:induction false} EntriesLines(calls: seq<Call>)
    requires forall i :: 0 <= i < |calls| ==> Printable(calls[i])
    ensures Count(Entries(calls), '\n') == |calls|
    decreases |calls|
  {
    if |calls| > 0 {
      var n := |calls| - 1;
      EntriesLines(calls[..n]);
      EntryIsOneLine(calls[n]);
      CountAppend(Entries(calls[..n]), Entry(calls[n]), '\n');
    }
  }

  lemma OverflowLines(n: nat)
    ensures Count(Overflow(n), '\n') == (if n > MaxListed then 1 else 0)
  {
    if n > MaxListed {
      DigitsHaveNoNewline(n - MaxListed);
      CountAbsent("  ... и еще ", '\n');
      CountAppend("  ... и еще ", NatToString(n - MaxListed), '\n');
      CountAppend("  ... и еще " + NatToString(n - MaxListed), "\n", '\n');
    } else {
      CountAbsent("", '\n');
    }
  }

  /** A section's title line holds exactly one line break, at its end. */
  lemma TitleLine(title: string, n: nat)
    requires OneLine(title)
    ensures Count(title + " (" + NatToString(n) + "):\n", '\n') == 1
  {
    DigitsHaveNoNewline(n);
    CountAbsent(title, '\n');
    CountAbsent(" (", '\n');
    CountAppend(title, " (", '\n');
    CountAppend(title + " (", NatToString(n), '\n');
    CountAppend(title + " (" + NatToString(n), "):\n", '\n');
    assert Count("):\n", '\n') == 1 by {
      CountAbsent("):", '\n');
      CountAppend("):", "\n", '\n');
      assert "):" + "\n" == "):\n";
    }
  }

  /** With one-line names, a section has one line for its title, one per
      listed call (at most ten) and one more only when calls were left out. */
  lemma SectionLines(title: string, calls: seq<Call>)
    requires OneLine(title)
    requires forall i :: 0 <= i < |calls| ==> Printable(calls[i])
    ensures Count(Section(title, calls), '\n')
      == 1 + (if |calls| <= MaxListed then |calls| else MaxListed + 1)
  {
    var listed := Listed(calls);
    forall i | 0 <= i < |listed|
      ensures Printable(listed[i])
    {
      assert listed[i] == calls[i];
    }
    EntriesLines(listed);
    OverflowLines(|calls|);
    var head := title + " (" + NatToString(|calls|) + "):\n";
    TitleLine(title, |calls|);
    CountAppend(head, Entries(listed), '\n');
    CountAppend(head + Entries(listed), Overflow(|calls|), '\n');
  }
}
