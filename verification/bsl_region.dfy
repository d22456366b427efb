/** `findMethodRegion`: from the line under the cursor, walk up to the method
    header, then down to the matching end line, and return the text between.

    The header and end recognisers are the two regular expressions of the
    helper, written out for the texts they are applied to: trimmed lines that
    do not start with `&`. `Matcher` selects how they compare letters and which
    lines end a method. `AsWritten` is the code as it stands. `Corrected` is
    what the code evidently means. The editor path of the selection helper
    and the call-graph action take the matcher as a parameter, so each is
    stated for both (see README, "Findings"). */
module BslRegion {
  import opened Wrappers
  import opened Text
  import opened BslDocument

  datatype Matcher = AsWritten | Corrected

  /** How an input character is compared with a lower-case pattern character
      under `(?i)`. Without `UNICODE_CASE` only A..Z are folded. */
  function Fold(m: Matcher, c: char): char {
    match m
    case AsWritten => AsciiLowerChar(c)
    case Corrected => LowerChar(c)
  }

  /** `u` starts with the lower-case keyword `kw`, up to case. */
  predicate KeywordAt(u: string, kw: string, m: Matcher) {
    |kw| <= |u| && forall k :: 0 <= k < |kw| ==> Fold(m, u[k]) == kw[k]
  }

  /** The alternatives of the header pattern, in order. */
  const HeaderKeywords: seq<string> := ["процедура", "функция", "procedure", "function"]

  /** `[\p{L}\p{N}_\.]`: a character of a method name. */
  predicate IsNameChar(c: char) {
    IsLetter(c) || IsDigit(c) || c == '_' || c == '.'
  }

  /** A word character for `\b`. */
  predicate IsWordChar(c: char) {
    IsLetter(c) || IsDigit(c) || c == '_'
  }

  /** Groups 1 and 2 of a header match: the keyword as written and the name. */
  datatype Header = Header(keyword: string, name: string)

  /** The header pattern with its keyword alternative fixed to `kw`, at the
      start of `u`: the keyword, at least one `\s`, then the longest run of
      name characters. */
  function HeaderAfter(u: string, kw: string, m: Matcher): Option<Header> {
    if !KeywordAt(u, kw, m) then None
    else
      var rest := u[|kw|..];
      var sp := Lead(rest, IsRegexSpace);
      var len := Lead(rest[sp..], IsNameChar);
      if sp == 0 || len == 0 then None
      else Some(Header(u[..|kw|], rest[sp..sp + len]))
  }

  /** The header pattern tried with each keyword alternative in turn. */
  function HeaderCandidates(u: string, m: Matcher): (r: seq<Option<Header>>)
    ensures |r| == |HeaderKeywords|
  {
    seq(|HeaderKeywords|, i requires 0 <= i < |HeaderKeywords| => HeaderAfter(u, HeaderKeywords[i], m))
  }

  /** `METHOD_HEADER_PATTERN.matcher(t).find()` and its groups, for a text
      that does not start with `&` (the only texts it is applied to, so the
      pattern's optional annotation prefix never takes part). */
  function MatchHeader(t: string, m: Matcher): Option<Header>
    requires t == "" || t[0] != '&'
  {
    FirstSome(HeaderCandidates(t[Lead(t, IsRegexSpace)..], m))
  }

  /** `(?i)^\s*kw\b` on a trimmed line. */
  predicate EndWord(t: string, kw: string, m: Matcher) {
    var u := t[Lead(t, IsRegexSpace)..];
    KeywordAt(u, kw, m) && (|u| == |kw| || !IsWordChar(u[|kw|]))
  }

  /** Some end pattern of `kws` finds a match in `t`. */
  predicate EndLine(t: string, kws: seq<string>, m: Matcher) {
    exists k :: 0 <= k < |kws| && EndWord(t, kws[k], m)
  }

  /** Every way a method can end in 1C:Enterprise code. */
  const MethodEnds: seq<string> := ["конецпроцедуры", "конецфункции", "endprocedure", "endfunction"]

  /** The end patterns searched for after a header with this keyword: the
      function end when the keyword starts with `ф`, the procedure end
      otherwise. The corrected matcher also knows the English spellings. */
  function EndKeywords(keyword: string, m: Matcher): seq<string> {
    var first := if keyword == "" then ' ' else LowerChar(keyword[0]);
    match m
    case AsWritten => if first == 'ф' then ["конецфункции"] else ["конецпроцедуры"]
    case Corrected =>
      if first == 'ф' || first == 'f' then ["конецфункции", "endfunction"]
      else ["конецпроцедуры", "endprocedure"]
  }

  /** Lines that stop the upward walk: as written, every line starting with
      `Конец` (which includes `КонецЕсли`, `КонецЦикла`, ...); corrected,
      only the end of a method. */
  predicate StopsScan(t: string, m: Matcher) {
    match m
    case AsWritten => StartsWith(t, "Конец")
    case Corrected => EndLine(t, MethodEnds, m)
  }

  // ---------------------------------------------------------------------
  // The two walks

  function LineText(d: Document, k: nat): string
    requires k < |d|
  {
    JavaTrim(d[k])
  }

  /** Blank lines and annotation lines (`&НаСервере`) are stepped over. */
  predicate Skipped(t: string) {
    t == "" || t[0] == '&'
  }

  /** What the upward walk makes of one trimmed line. */
  datatype LineKind = Blank | HeaderLine(header: Header) | Stop | Plain

  function Classify(t: string, m: Matcher): (r: LineKind)
    ensures r == Blank <==> Skipped(t)
    ensures r.HeaderLine? <==> !Skipped(t) && MatchHeader(t, m).Some?
    ensures r.HeaderLine? ==> MatchHeader(t, m) == Some(r.header)
    ensures r == Stop <==> !Skipped(t) && MatchHeader(t, m).None? && StopsScan(t, m)
  {
    if Skipped(t) then Blank
    else match MatchHeader(t, m)
      case Some(h) => HeaderLine(h)
      case None => if StopsScan(t, m) then Stop else Plain
  }

  function Kinds(d: Document, m: Matcher): (r: seq<LineKind>)
    ensures |r| == |d|
  {
    seq(|d|, k requires 0 <= k < |d| => Classify(LineText(d, k), m))
  }

  /** A line the upward walk goes past. */
  predicate Passable(kind: LineKind) {
    kind == Blank || kind == Plain
  }

  /** Line `h` is a header the upward walk from line `from` arrives at. */
  predicate Reachable(kinds: seq<LineKind>, h: int, from: int) {
    && 0 <= h <= from < |kinds|
    && kinds[h].HeaderLine?
    && forall k :: h < k <= from ==> Passable(kinds[k])
  }

  /** At most one header is reachable: a header line is not passable. */
  lemma ReachableUnique(kinds: seq<LineKind>, h1: int, h2: int, from: int)
    requires Reachable(kinds, h1, from) && Reachable(kinds, h2, from)
    ensures h1 == h2
  {
  }

  /** The first loop of `findMethodRegion`, from line `line` upward. */
  function ScanBack(kinds: seq<LineKind>, line: int): (r: Option<nat>)
    requires -1 <= line < |kinds|
    ensures r.Some? ==> Reachable(kinds, r.value, line)
    ensures r.None? ==> forall h :: !Reachable(kinds, h, line)
    decreases line + 1
  {
    if line < 0 then None
    else match kinds[line]
      case HeaderLine(_) => Some(line)
      case Stop => None
      case _ =>
        assert forall h :: Reachable(kinds, h, line) ==> Reachable(kinds, h, line - 1);
        ScanBack(kinds, line - 1)
  }

  /** The trimmed text of every line. */
  function TrimmedLines(d: Document): (r: seq<string>)
    ensures |r| == |d| && forall k :: 0 <= k < |d| ==> r[k] == LineText(d, k)
  {
    seq(|d|, k requires 0 <= k < |d| => LineText(d, k))
  }

  /** The second loop: the first of the trimmed `lines` from `from` on that an
      end pattern of `kws` matches. */
  function ScanForward(lines: seq<string>, from: nat, kws: seq<string>, m: Matcher): (r: Option<nat>)
    requires from <= |lines|
    ensures r.Some? ==> from <= r.value < |lines| && EndLine(lines[r.value], kws, m)
    ensures r.Some? ==> forall k :: from <= k < r.value ==> !EndLine(lines[k], kws, m)
    ensures r.None? ==> forall k :: from <= k < |lines| ==> !EndLine(lines[k], kws, m)
    decreases |lines| - from
  {
    if from == |lines| then None
    else if EndLine(lines[from], kws, m) then Some(from)
    else ScanForward(lines, from + 1, kws, m)
  }

  // ---------------------------------------------------------------------
  // The region

  /** A negative selection offset counts as 0. */
  function Clamp(offset: int): nat {
    if offset < 0 then 0 else offset
  }

  datatype Located = Located(header: Header, headerLine: nat, endLine: nat)

  /** The header and end lines of the method around `offset`; `None` where
      the source returns `null` (also for an offset past the end, where
      `getLineOfOffset` throws). With no end line the region is the header
      line alone. */
  function LocateMethod(d: Document, offset: int, m: Matcher): (r: Option<Located>)
    ensures r.None? <==>
      Clamp(offset) > |Content(d)| || forall h :: !Reachable(Kinds(d, m), h, LineOfOffset(d, Clamp(offset)))
    ensures r.Some? ==>
      && Reachable(Kinds(d, m), r.value.headerLine, LineOfOffset(d, Clamp(offset)))
      && Kinds(d, m)[r.value.headerLine] == HeaderLine(r.value.header)
      && r.value.headerLine <= r.value.endLine < |d|
    ensures r.Some? ==>
      var kws := EndKeywords(r.value.header.keyword, m);
      && (forall k :: r.value.headerLine < k < r.value.endLine ==> !EndLine(LineText(d, k), kws, m))
      && (r.value.endLine > r.value.headerLine ==> EndLine(LineText(d, r.value.endLine), kws, m))
      && (r.value.endLine == r.value.headerLine ==>
            forall k :: r.value.headerLine < k < |d| ==> !EndLine(LineText(d, k), kws, m))
  {
    var off := Clamp(offset);
    if off > |Content(d)| then None
    else
      var kinds := Kinds(d, m);
      match ScanBack(kinds, LineOfOffset(d, off))
      case None => None
      case Some(h) =>
        var header := kinds[h].header;
        Some(Located(header, h, EndLineOf(d, h, EndKeywords(header.keyword, m), m)))
  }

  /** The end line of the method whose header is line `h`: the first later
      line an end pattern of `kws` matches, or `h` itself when none does. */
  function EndLineOf(d: Document, h: nat, kws: seq<string>, m: Matcher): (e: nat)
    requires h < |d|
    ensures h <= e < |d|
    ensures forall k :: h < k < e ==> !EndLine(LineText(d, k), kws, m)
    ensures e > h ==> EndLine(LineText(d, e), kws, m)
    ensures e == h ==> forall k :: h < k < |d| ==> !EndLine(LineText(d, k), kws, m)
  {
    match ScanForward(TrimmedLines(d), h + 1, kws, m)
    case Some(e) => e
    case None => h
  }

  /** `MethodRegion`: the method name and the offsets from the start of the
      header line to the end of the end line. */
  datatype Region = Region(name: string, start: nat, end: nat)

  function FindMethodRegion(d: Document, offset: int, m: Matcher): (r: Option<Region>)
    ensures r.Some? <==> LocateMethod(d, offset, m).Some?
    ensures r.Some? ==>
      var loc := LocateMethod(d, offset, m).value;
      r.value == Region(loc.header.name, LineOffset(d, loc.headerLine), LineEnd(d, loc.endLine))
  {
    match LocateMethod(d, offset, m)
    case None => None
    case Some(loc) => Some(Region(loc.header.name, LineOffset(d, loc.headerLine), LineEnd(d, loc.endLine)))
  }

  /** `MethodRegion.extractBody`: the region's text, or "" where the document
      refuses the range. */
  function ExtractBody(d: Document, region: Region): (body: string)
    ensures Get(d, region.start, region.end - region.start).Some? ==>
      body == Get(d, region.start, region.end - region.start).value
    ensures Get(d, region.start, region.end - region.start).None? ==> body == ""
  {
    match Get(d, region.start, region.end - region.start)
    case Some(s) => s
    case None => ""
  }

  /** The region spanning lines `h..e` lies inside the document, and its
      body is exactly those lines, starting with line `h`. */
  lemma RegionOfLines(d: Document, name: string, h: nat, e: nat)
    requires h <= e < |d|
    ensures
      var region := Region(name, LineOffset(d, h), LineEnd(d, e));
      && Get(d, region.start, region.end - region.start).Some?
      && ExtractBody(d, region) == Concat(d[h..e + 1])
      && StartsWith(ExtractBody(d, region), d[h])
  {
    var start, end := LineOffset(d, h), LineEnd(d, e);
    var lines := d[h..e + 1];
    assert start <= end <= |Content(d)| && Content(d)[start..end] == Concat(lines) by {
      LinesText(d, h, e);
    }
    assert ExtractBody(d, Region(name, start, end)) == Concat(lines) by {
      BodyOfRange(d, name, start, end);
    }
    assert StartsWith(Concat(lines), d[h]) by {
      assert lines[0] == d[h];
      ConcatStartsWithFirst(lines);
    }
  }

  /** A range inside the document is its body. */
  lemma BodyOfRange(d: Document, name: string, start: nat, end: nat)
    requires start <= end <= |Content(d)|
    ensures Get(d, start, end - start).Some?
    ensures ExtractBody(d, Region(name, start, end)) == Content(d)[start..end]
  {
    GetRange(d, start, end);
  }

  lemma ConcatStartsWithFirst(lines: seq<string>)
    requires |lines| > 0
    ensures StartsWith(Concat(lines), lines[0])
  {
    ConcatSplit(lines, 1);
    assert lines[..1] == [lines[0]];
    assert Concat([lines[0]]) == Concat([]) + lines[0];
  }

  /** A region found in a document is always inside it, and its body is
      exactly the lines from the header to the end line, starting with the
      header line. */
  lemma RegionBody(d: Document, offset: int, m: Matcher, loc: Located)
    requires LocateMethod(d, offset, m) == Some(loc)
    ensures FindMethodRegion(d, offset, m).Some?
    ensures Get(d, FindMethodRegion(d, offset, m).value.start,
                FindMethodRegion(d, offset, m).value.end - FindMethodRegion(d, offset, m).value.start).Some?
    ensures ExtractBody(d, FindMethodRegion(d, offset, m).value) == Concat(d[loc.headerLine..loc.endLine + 1])
    ensures StartsWith(ExtractBody(d, FindMethodRegion(d, offset, m).value), d[loc.headerLine])
  {
    RegionOfLines(d, loc.header.name, loc.headerLine, loc.endLine);
    assert FindMethodRegion(d, offset, m).value
      == Region(loc.header.name, LineOffset(d, loc.headerLine), LineEnd(d, loc.endLine));
  }

  // ---------------------------------------------------------------------
  // Properties of the corrected matcher

  lemma {:induction false} LeadOfParts(a: string, b: string, ws: char -> bool)
    requires forall k :: 0 <= k < |a| ==> ws(a[k])
    requires b == "" || !ws(b[0])
    ensures Lead(a + b, ws) == |a|
  {
    if |a| == 0 {
      assert a + b == b;
    } else {
      assert (a + b)[0] == a[0];
      assert (a + b)[1..] == a[1..] + b;
      LeadOfParts(a[1..], b, ws);
    }
  }

  /** The header pattern, with its keyword alternative `kw` fixed, on a line
      made of a spelling of `kw`, some `\s` and a name, yields that spelling
      and that name. */
  lemma HeaderAfterParts(kw: string, kwText: string, spaces: string, name: string, rest: string, m: Matcher)
    requires |kwText| == |kw|
    requires forall k :: 0 <= k < |kw| ==> Fold(m, kwText[k]) == kw[k]
    requires |spaces| > 0 && forall k :: 0 <= k < |spaces| ==> IsRegexSpace(spaces[k])
    requires |name| > 0 && forall k :: 0 <= k < |name| ==> IsNameChar(name[k])
    requires rest == "" || !IsNameChar(rest[0])
    ensures HeaderAfter(kwText + spaces + name + rest, kw, m) == Some(Header(kwText, name))
  {
    var after := spaces + (name + rest);
    KeywordPrefix(kw, kwText, after, m);
    SpacesThenName(spaces, name, rest);
    HeaderAfterShape(kwText + after, kw, m, |spaces|, |name|);
    Assoc(kwText, spaces, name, rest);
  }

  /** Regrouping a four-part concatenation. */
  lemma Assoc(a: string, b: string, c: string, e: string)
    ensures a + b + c + e == a + (b + (c + e))
  {
  }

  /** After a run of `\s`, the name is the longest run of name characters. */
  lemma SpacesThenName(spaces: string, name: string, rest: string)
    requires forall k :: 0 <= k < |spaces| ==> IsRegexSpace(spaces[k])
    requires |name| > 0 && forall k :: 0 <= k < |name| ==> IsNameChar(name[k])
    requires rest == "" || !IsNameChar(rest[0])
    ensures Lead(spaces + (name + rest), IsRegexSpace) == |spaces|
    ensures Lead((spaces + (name + rest))[|spaces|..], IsNameChar) == |name|
    ensures (spaces + (name + rest))[|spaces|..][..|name|] == name
  {
    assert !IsRegexSpace((name + rest)[0]);
    LeadOfParts(spaces, name + rest, IsRegexSpace);
    NameAfterSpaces(spaces, name, rest);
    LeadOfParts(name, rest, IsNameChar);
  }

  /** `HeaderAfter` once the keyword, the spaces and the name are measured. */
  lemma HeaderAfterShape(u: string, kw: string, m: Matcher, sp: nat, len: nat)
    requires KeywordAt(u, kw, m)
    requires Lead(u[|kw|..], IsRegexSpace) == sp > 0
    requires Lead(u[|kw|..][sp..], IsNameChar) == len > 0
    ensures HeaderAfter(u, kw, m) == Some(Header(u[..|kw|], u[|kw|..][sp..][..len]))
  {
    assert u[|kw|..][sp..sp + len] == u[|kw|..][sp..][..len];
  }

  lemma NameAfterSpaces(spaces: string, name: string, rest: string)
    ensures (spaces + (name + rest))[|spaces|..] == name + rest
    ensures (spaces + (name + rest))[|spaces|..][..|name|] == name
  {
  }

  lemma KeywordPrefix(kw: string, kwText: string, tail: string, m: Matcher)
    requires |kwText| == |kw|
    requires forall k :: 0 <= k < |kw| ==> Fold(m, kwText[k]) == kw[k]
    ensures KeywordAt(kwText + tail, kw, m)
    ensures (kwText + tail)[..|kw|] == kwText && (kwText + tail)[|kw|..] == tail
  {
    var t := kwText + tail;
    forall k | 0 <= k < |kw|
      ensures Fold(m, t[k]) == kw[k]
    {
      assert t[k] == kwText[k];
    }
  }

  /** The keywords start with different letters, none of them `\s` or `&`,
      so a line whose first letter folds to one keyword's misses the others. */
  lemma FirstLetters(t: string, j: nat, m: Matcher)
    requires j < |HeaderKeywords| && |t| > 0
    requires Fold(m, t[0]) == HeaderKeywords[j][0]
    ensures !IsRegexSpace(t[0]) && t[0] != '&'
    ensures forall i :: 0 <= i < |HeaderKeywords| && i != j ==> HeaderAfter(t, HeaderKeywords[i], m).None?
  {
    assert HeaderKeywords[0][0] == 'п' && HeaderKeywords[1][0] == 'ф';
    assert HeaderKeywords[2][0] == 'p' && HeaderKeywords[3][0] == 'f';
    forall i | 0 <= i < |HeaderKeywords| && i != j
      ensures HeaderAfter(t, HeaderKeywords[i], m).None?
    {
      assert Fold(m, t[0]) != HeaderKeywords[i][0];
      assert !KeywordAt(t, HeaderKeywords[i], m);
    }
  }

  /** A header line made of a keyword in any case the matcher folds, some
      `\s`, and a name yields exactly that keyword and name. */
  lemma HeaderOfParts(j: nat, kwText: string, spaces: string, name: string, rest: string, m: Matcher)
    requires j < |HeaderKeywords|
    requires |kwText| == |HeaderKeywords[j]|
    requires forall k :: 0 <= k < |kwText| ==> Fold(m, kwText[k]) == HeaderKeywords[j][k]
    requires |spaces| > 0 && forall k :: 0 <= k < |spaces| ==> IsRegexSpace(spaces[k])
    requires |name| > 0 && forall k :: 0 <= k < |name| ==> IsNameChar(name[k])
    requires rest == "" || !IsNameChar(rest[0])
    ensures
      var t := kwText + spaces + name + rest;
      t[0] != '&' && MatchHeader(t, m) == Some(Header(kwText, name))
  {
    var t := kwText + spaces + name + rest;
    assert t[0] == kwText[0];
    FirstLetters(t, j, m);
    assert Lead(t, IsRegexSpace) == 0;
    assert t[Lead(t, IsRegexSpace)..] == t;
    HeaderAfterParts(HeaderKeywords[j], kwText, spaces, name, rest, m);
    FirstSomeAt(HeaderCandidates(t, m), j);
  }
}

// Findings: the three places where the code as written and the evidently
// intended behaviour part, each shown on the as-written matcher and proved
// for the corrected one.
module BslRegionFindings {
  import opened Wrappers
  import opened Text
  import opened BslDocument
  import opened BslRegion

  /** The line of the document a selection offset falls on. */
  function CursorLine(d: Document, offset: int): nat {
    LineOfOffset(d, Clamp(offset))
  }

  lemma KindAt(d: Document, m: Matcher, k: nat)
    requires k < |d|
    ensures Kinds(d, m)[k] == Classify(LineText(d, k), m)
  {
  }

  /** A line whose first character folds to no keyword's initial is no
      header. */
  lemma NoKeywordInitial(t: string, m: Matcher)
    requires t != "" && !IsRegexSpace(t[0])
    requires Fold(m, t[0]) != 'п' && Fold(m, t[0]) != 'ф' && Fold(m, t[0]) != 'p' && Fold(m, t[0]) != 'f'
    ensures t[0] != '&' ==> MatchHeader(t, m).None?
  {
    assert Lead(t, IsRegexSpace) == 0;
    assert t[Lead(t, IsRegexSpace)..] == t;
    var cs := HeaderCandidates(t, m);
    forall i | 0 <= i < |HeaderKeywords|
      ensures cs[i].None?
    {
      assert HeaderKeywords[i][0] in "пфpf";
      assert !KeywordAt(t, HeaderKeywords[i], m);
    }
  }

  /** As written, a header whose first letter is a Cyrillic capital (the way
      1C code is written: `Процедура`, `Функция`) is never recognised:
      without `UNICODE_CASE`, `(?i)` folds only A..Z. */
  lemma CapitalisedHeaderMissed(t: string)
    requires t != "" && 'А' <= t[0] <= 'Я'
    ensures MatchHeader(t, AsWritten).None?
  {
    NoKeywordInitial(t, AsWritten);
  }

  /** Hence, as written, no region is ever found in a module whose code lines
      all start with a Cyrillic capital. */
  lemma CapitalisedModuleHasNoRegion(d: Document, offset: int)
    requires forall k :: 0 <= k < |d| ==> Skipped(LineText(d, k)) || 'А' <= LineText(d, k)[0] <= 'Я'
    ensures LocateMethod(d, offset, AsWritten).None?
  {
    forall h | 0 <= h < |d|
      ensures !Kinds(d, AsWritten)[h].HeaderLine?
    {
      KindAt(d, AsWritten, h);
      if !Skipped(LineText(d, h)) {
        CapitalisedHeaderMissed(LineText(d, h));
      }
    }
  }

  lemma ProcedureFolds()
    ensures |"Процедура"| == |HeaderKeywords[0]|
    ensures forall k :: 0 <= k < |"Процедура"| ==> Fold(Corrected, "Процедура"[k]) == HeaderKeywords[0][k]
  {
  }

  lemma FunctionFolds()
    ensures |"Функция"| == |HeaderKeywords[1]|
    ensures forall k :: 0 <= k < |"Функция"| ==> Fold(Corrected, "Функция"[k]) == HeaderKeywords[1][k]
  {
  }

  /** The corrected matcher reads `Процедура Имя` and `Функция Имя` (any
      name, then anything that is not part of the name). */
  lemma CapitalisedHeaderRead(name: string, rest: string)
    requires |name| > 0 && forall k :: 0 <= k < |name| ==> IsNameChar(name[k])
    requires rest == "" || !IsNameChar(rest[0])
    ensures MatchHeader("Процедура" + " " + name + rest, Corrected) == Some(Header("Процедура", name))
    ensures MatchHeader("Функция" + " " + name + rest, Corrected) == Some(Header("Функция", name))
  {
    ProcedureFolds();
    HeaderOfParts(0, "Процедура", " ", name, rest, Corrected);
    FunctionFolds();
    HeaderOfParts(1, "Функция", " ", name, rest, Corrected);
  }

  // -------------------------------------------------------------------
  // Any line starting with `Конец` stops the upward walk

  /** The first letter decides that `КонецЕсли;` is no header; as written it
      stops the walk, corrected it is an ordinary line. */
  lemma EndIfKinds()
    ensures Classify("КонецЕсли;", AsWritten) == Stop
    ensures Classify("КонецЕсли;", Corrected) == Plain
  {
    var t := "КонецЕсли;";
    NoKeywordInitial(t, AsWritten);
    NoKeywordInitial(t, Corrected);
    assert t[..5] == "Конец";
    assert Lead(t, IsRegexSpace) == 0;
    assert t[Lead(t, IsRegexSpace)..] == t;
    forall k | 0 <= k < |MethodEnds|
      ensures !EndWord(t, MethodEnds[k], Corrected)
    {
      assert Fold(Corrected, t[0]) == 'к';
      assert !KeywordAt(t, MethodEnds[k], Corrected);
    }
  }

  /** As written, a `КонецЕсли;` between the cursor and the header of the
      method it is in hides that header: the method found, if any, starts
      below it. */
  lemma EndIfHidesMethod(d: Document, offset: int, j: nat)
    requires j <= CursorLine(d, offset) && LineText(d, j) == "КонецЕсли;"
    ensures LocateMethod(d, offset, AsWritten).None? || LocateMethod(d, offset, AsWritten).value.headerLine > j
  {
    var kinds := Kinds(d, AsWritten);
    KindAt(d, AsWritten, j);
    EndIfKinds();
    assert kinds[j] == Stop;
    forall h | 0 <= h <= j
      ensures !Reachable(kinds, h, CursorLine(d, offset))
    {
      assert !Passable(kinds[j]);
    }
  }

  /** The upward walk arrives at the only reachable header. */
  lemma LocateFindsReachable(d: Document, offset: int, m: Matcher, h: nat)
    requires Clamp(offset) <= |Content(d)|
    requires Reachable(Kinds(d, m), h, CursorLine(d, offset))
    ensures LocateMethod(d, offset, m).Some? && LocateMethod(d, offset, m).value.headerLine == h
  {
    ReachableUnique(Kinds(d, m), h, LocateMethod(d, offset, m).value.headerLine, CursorLine(d, offset));
  }

  /** Corrected, the same `КонецЕсли;` is walked past: with the cursor below
      it and nothing else between the header and the cursor but ordinary
      lines, the enclosing method is found. */
  lemma EndIfPassedWhenCorrected(d: Document, offset: int, h: nat, j: nat)
    requires Clamp(offset) <= |Content(d)|
    requires h < j <= CursorLine(d, offset) && LineText(d, j) == "КонецЕсли;"
    requires Kinds(d, Corrected)[h].HeaderLine?
    requires forall k :: h < k <= CursorLine(d, offset) && k != j ==> Passable(Kinds(d, Corrected)[k])
    ensures LocateMethod(d, offset, Corrected).Some? && LocateMethod(d, offset, Corrected).value.headerLine == h
  {
    KindAt(d, Corrected, j);
    EndIfKinds();
    LocateFindsReachable(d, offset, Corrected, h);
  }

  // -------------------------------------------------------------------
  // English method ends

  /** `(?i)^\s*kw\b` matches a spelling of `kw` followed by a non-word
      character or nothing. */
  lemma EndWordOf(text: string, kw: string, rest: string, m: Matcher)
    requires |text| == |kw| && text != "" && !IsRegexSpace(text[0])
    requires forall k :: 0 <= k < |kw| ==> Fold(m, text[k]) == kw[k]
    requires rest == "" || !IsWordChar(rest[0])
    ensures EndWord(text + rest, kw, m)
  {
    var t := text + rest;
    assert t[0] == text[0];
    assert Lead(t, IsRegexSpace) == 0;
    assert t[Lead(t, IsRegexSpace)..] == t;
    KeywordPrefix(kw, text, rest, m);
    if rest != "" {
      assert t[|kw|] == rest[0];
    }
  }

  /** As written, an English header searches for the Russian procedure end
      alone, so a line starting with `E` (`EndProcedure`, `EndFunction`) is
      never its end. */
  lemma EnglishEndIgnored(keyword: string, t: string)
    requires keyword != "" && (keyword[0] == 'P' || keyword[0] == 'p' || keyword[0] == 'F' || keyword[0] == 'f')
    requires t != "" && (t[0] == 'E' || t[0] == 'e')
    ensures EndKeywords(keyword, AsWritten) == ["конецпроцедуры"]
    ensures !EndLine(t, EndKeywords(keyword, AsWritten), AsWritten)
  {
    assert Lead(t, IsRegexSpace) == 0;
    assert t[Lead(t, IsRegexSpace)..] == t;
    assert Fold(AsWritten, t[0]) == 'e';
    assert !KeywordAt(t, "конецпроцедуры", AsWritten);
  }

  /** So, as written, an English method's end line is never the one
      holding its `EndProcedure` or `EndFunction`. */
  lemma EnglishEndNotPaired(d: Document, offset: int, loc: Located, k: nat)
    requires LocateMethod(d, offset, AsWritten) == Some(loc)
    requires loc.header.keyword != ""
    requires var c := loc.header.keyword[0]; c == 'P' || c == 'p' || c == 'F' || c == 'f'
    requires loc.headerLine < k < |d|
    requires LineText(d, k) != "" && (LineText(d, k)[0] == 'E' || LineText(d, k)[0] == 'e')
    ensures loc.endLine != k
  {
    var kws := EndKeywords(loc.header.keyword, AsWritten);
    assert loc.endLine > loc.headerLine ==> EndLine(LineText(d, loc.endLine), kws, AsWritten);
    EnglishEndIgnored(loc.header.keyword, LineText(d, k));
  }

  lemma EnglishEndsFold()
    ensures |"EndProcedure"| == |"endprocedure"| && |"EndFunction"| == |"endfunction"|
    ensures forall k :: 0 <= k < |"EndProcedure"| ==> Fold(Corrected, "EndProcedure"[k]) == "endprocedure"[k]
    ensures forall k :: 0 <= k < |"EndFunction"| ==> Fold(Corrected, "EndFunction"[k]) == "endfunction"[k]
  {
  }

  /** Corrected, `EndProcedure` closes a `Procedure` and `EndFunction` a
      `Function`, whatever follows that is not part of a word. */
  lemma EnglishEndRead(rest: string)
    requires rest == "" || !IsWordChar(rest[0])
    ensures EndLine("EndProcedure" + rest, EndKeywords("Procedure", Corrected), Corrected)
    ensures EndLine("EndFunction" + rest, EndKeywords("Function", Corrected), Corrected)
  {
    EnglishEndsFold();
    assert EndKeywords("Procedure", Corrected) == ["конецпроцедуры", "endprocedure"];
    assert EndKeywords("Function", Corrected) == ["конецфункции", "endfunction"];
    EndWordOf("EndProcedure", "endprocedure", rest, Corrected);
    assert EndKeywords("Procedure", Corrected)[1] == "endprocedure";
    EndWordOf("EndFunction", "endfunction", rest, Corrected);
    assert EndKeywords("Function", Corrected)[1] == "endfunction";
  }

  /** So, corrected, an English procedure ends at its first `EndProcedure`
      line at the latest. */
  lemma EnglishProcedureEnds(d: Document, offset: int, loc: Located, k: nat)
    requires LocateMethod(d, offset, Corrected) == Some(loc) && loc.header.keyword == "Procedure"
    requires loc.headerLine < k < |d| && LineText(d, k) == "EndProcedure"
    ensures loc.headerLine < loc.endLine <= k
  {
    EnglishEndRead("");
    assert "EndProcedure" + "" == "EndProcedure";
  }
}
