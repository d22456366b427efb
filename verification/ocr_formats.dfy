/** The capability queries of `OCRService`: the per-provider format lists,
    the file-extension test, and the processing-time estimate. The file size
    is an input (the service reads it from the file system). */
module OcrFormats {
  import opened Wrappers
  import opened Text
  import opened OcrModel
  import opened OcrService

  /** `get_supported_formats`: a fixed list per configured provider. Its
      entries are distinct, lower-case, dot-free extensions, the form that
      `Extension` produces, so the membership test is meaningful. */
  function SupportedFormats(p: Provider): (r: seq<string>)
    ensures |r| == (if p == DeepSeek then 8 else if p == Tesseract then 5 else 7)
    ensures forall i :: 0 <= i < |r| ==> |r[i]| >= 3 && forall k :: 0 <= k < |r[i]| ==> 'a' <= r[i][k] <= 'z'
    ensures forall i, j :: 0 <= i < j < |r| ==> r[i] != r[j]
  {
    match p
    case DeepSeek => ["pdf", "png", "jpg", "jpeg", "tiff", "bmp", "webp", "gif"]
    case ChandraHf => ["pdf", "png", "jpg", "jpeg", "tiff", "bmp", "webp"]
    case ChandraVllm => ["pdf", "png", "jpg", "jpeg", "tiff", "bmp", "webp"]
    case Tesseract => ["png", "jpg", "jpeg", "tiff", "bmp"]
  }

  /** Every Tesseract format is a Chandra format, every Chandra format a
      DeepSeek format; only DeepSeek reads GIF and Tesseract reads no PDF. */
  lemma FormatsNested(f: string)
    ensures f in SupportedFormats(Tesseract) ==> f in SupportedFormats(ChandraHf)
    ensures f in SupportedFormats(ChandraHf) <==> f in SupportedFormats(ChandraVllm)
    ensures f in SupportedFormats(ChandraHf) ==> f in SupportedFormats(DeepSeek)
    ensures "gif" in SupportedFormats(DeepSeek) && "gif" !in SupportedFormats(ChandraHf)
    ensures "pdf" !in SupportedFormats(Tesseract)
  {
  }

  predicate IsSlash(c: char) {
    c == '/'
  }

  predicate IsDot(c: char) {
    c == '.'
  }

  /** `Path(path).name`: the last component, trailing slashes ignored. */
  function PathName(path: string): (name: string)
    ensures forall k :: 0 <= k < |name| ==> name[k] != '/'
  {
    var p := path[..|path| - Trail(path, IsSlash)];
    p[LastIndexOf(p, '/') + 1..]
  }

  /** The name is the longest slash-free tail of the path once its trailing
      slashes are cut. */
  lemma PathNameIsLastComponent(path: string)
    ensures var p, name := path[..|path| - Trail(path, IsSlash)], PathName(path);
      && |name| <= |p| && name == p[|p| - |name|..]
      && (|name| < |p| ==> p[|p| - |name| - 1] == '/')
  {
  }

  /** `Path(...).suffix` of a name: from its last dot on, provided that dot
      is neither the first nor the last character; otherwise empty. */
  function Suffix(name: string): (s: string)
    ensures s == "" || (|s| >= 2 && s[0] == '.' && forall k :: 1 <= k < |s| ==> s[k] != '.')
  {
    var i := LastIndexOf(name, '.');
    if 0 < i < |name| - 1 then name[i..] else ""
  }

  /** A non-empty suffix is a tail of the name that leaves a non-empty stem;
      there is none exactly when the name is empty, ends with a dot, or has
      no dot after its first character. */
  lemma SuffixExactly(name: string)
    ensures var s := Suffix(name);
      && (s != "" ==> |s| < |name| && s == name[|name| - |s|..])
      && (s == "" <==> (|name| == 0 || name[|name| - 1] == '.' || forall k :: 0 < k < |name| ==> name[k] != '.'))
  {
  }

  /** `Path(filename).suffix.lower().lstrip('.')`: the suffix without its
      dot, in lower case. */
  function Extension(filename: string): (r: string)
    ensures Suffix(PathName(filename)) == "" ==> r == ""
    ensures var sfx := Suffix(PathName(filename));
      sfx != "" ==> |r| == |sfx| - 1 && forall k :: 0 <= k < |r| ==> r[k] == AsciiLowerChar(sfx[k + 1])
  {
    LowerWithoutDot(Suffix(PathName(filename)))
  }

  /** `.lower().lstrip('.')` of a suffix. */
  function LowerWithoutDot(sfx: string): (r: string)
    requires sfx == "" || (|sfx| >= 2 && sfx[0] == '.' && forall k :: 1 <= k < |sfx| ==> sfx[k] != '.')
    ensures sfx == "" ==> r == ""
    ensures sfx != "" ==> |r| == |sfx| - 1 && forall k :: 0 <= k < |r| ==> r[k] == AsciiLowerChar(sfx[k + 1])
  {
    var lowered := AsciiLower(sfx);
    SuffixHasOneDot(sfx);
    lowered[Lead(lowered, IsDot)..]
  }

  /** A suffix, lower-cased, starts with exactly one dot. */
  lemma SuffixHasOneDot(sfx: string)
    requires sfx == "" || (|sfx| >= 2 && sfx[0] == '.' && forall k :: 1 <= k < |sfx| ==> sfx[k] != '.')
    ensures Lead(AsciiLower(sfx), IsDot) == (if sfx == "" then 0 else 1)
  {
    var lowered := AsciiLower(sfx);
    if sfx != "" {
      assert lowered[0] == '.';
      assert lowered[1] == AsciiLowerChar(sfx[1]) && lowered[1] != '.';
      assert Lead(lowered[1..], IsDot) == 0;
    }
  }

  /** `is_supported_format`: a file is supported exactly when the suffix of
      its last path component, without the dot and in lower case, is one of
      the provider's formats; a file without a suffix never is. */
  function IsSupportedFormat(p: Provider, filename: string): (r: bool)
    ensures var sfx := Suffix(PathName(filename));
      r <==> sfx != "" && AsciiLower(sfx[1..]) in SupportedFormats(p)
    ensures r ==> |Extension(filename)| >= 3
  {
    var sfx := Suffix(PathName(filename));
    assert sfx != "" ==> Extension(filename) == AsciiLower(sfx[1..]);
    Extension(filename) in SupportedFormats(p)
  }

  /** For a name `stem.ext` the extension checked is `ext` in lower case. */
  lemma {:induction false} ExtensionOfStemAndExt(stem: string, ext: string)
    requires |stem| > 0 && |ext| > 0
    requires forall k :: 0 <= k < |stem| ==> stem[k] != '/'
    requires forall k :: 0 <= k < |ext| ==> ext[k] != '/' && ext[k] != '.'
    ensures Extension(stem + "." + ext) == AsciiLower(ext)
  {
    Regroup(stem, ".", ext);
    SuffixOfStemAndDotted(stem, "." + ext);
    ExtensionOfSuffix(stem + "." + ext, ext);
  }

  lemma Regroup(a: string, b: string, c: string)
    ensures a + b + c == a + (b + c)
  {
  }

  lemma ExtensionOfSuffix(f: string, ext: string)
    requires Suffix(PathName(f)) == "." + ext
    ensures Extension(f) == AsciiLower(ext)
  {
    assert forall k :: 0 <= k < |ext| ==> Extension(f)[k] == AsciiLower(ext)[k];
  }

  lemma {:induction false} SuffixOfStemAndDotted(stem: string, dext: string)
    requires |stem| > 0 && |dext| > 1 && dext[0] == '.'
    requires forall k :: 0 <= k < |stem| ==> stem[k] != '/'
    requires forall k :: 0 <= k < |dext| ==> dext[k] != '/'
    requires forall k :: 1 <= k < |dext| ==> dext[k] != '.'
    ensures Suffix(PathName(stem + dext)) == dext
  {
    var f := stem + dext;
    PlainName(f);
    assert f[|stem|] == '.';
    assert LastIndexOf(f, '.') == |stem|;
    assert f[|stem|..] == dext;
  }

  /** The test ignores the case of the extension (`scan.PDF` is a PDF). */
  lemma SupportIgnoresCase(p: Provider, stem: string, ext: string)
    requires |stem| > 0 && |ext| > 0
    requires forall k :: 0 <= k < |stem| ==> stem[k] != '/'
    requires forall k :: 0 <= k < |ext| ==> ext[k] != '/' && ext[k] != '.'
    ensures IsSupportedFormat(p, stem + "." + ext) <==> AsciiLower(ext) in SupportedFormats(p)
  {
    ExtensionOfStemAndExt(stem, ext);
  }

  /** The test looks only at the last component: `scans/2024/a.PDF` is
      decided by its `PDF`, whatever the directories are called. */
  lemma SupportInDirectory(p: Provider, dir: string, stem: string, ext: string)
    requires |stem| > 0 && |ext| > 0
    requires forall k :: 0 <= k < |stem| ==> stem[k] != '/'
    requires forall k :: 0 <= k < |ext| ==> ext[k] != '/' && ext[k] != '.'
    ensures IsSupportedFormat(p, dir + "/" + stem + "." + ext) <==> AsciiLower(ext) in SupportedFormats(p)
  {
    SuffixUnderDirectory(dir, stem, ext);
    assert ("." + ext)[1..] == ext;
  }

  lemma {:induction false} SuffixUnderDirectory(dir: string, stem: string, ext: string)
    requires |stem| > 0 && |ext| > 0
    requires forall k :: 0 <= k < |stem| ==> stem[k] != '/'
    requires forall k :: 0 <= k < |ext| ==> ext[k] != '/' && ext[k] != '.'
    ensures Suffix(PathName(dir + "/" + stem + "." + ext)) == "." + ext
  {
    var name := stem + "." + ext;
    assert dir + "/" + stem + "." + ext == dir + "/" + name;
    assert forall k :: 0 <= k < |name| ==> name[k] != '/' by {
      forall k | 0 <= k < |name|
        ensures name[k] != '/'
      {
        if k < |stem| {
          assert name[k] == stem[k];
        } else if k > |stem| {
          assert name[k] == ext[k - |stem| - 1];
        }
      }
    }
    Regroup(stem, ".", ext);
    SuffixOfStemAndDotted(stem, "." + ext);
    NameUnderDirectory(dir, name);
  }

  /** Under a directory, a name is still the path's last component. */
  lemma NameUnderDirectory(dir: string, name: string)
    requires |name| > 0 && forall k :: 0 <= k < |name| ==> name[k] != '/'
    ensures PathName(dir + "/" + name) == name
  {
    var f := dir + "/" + name;
    assert !IsSlash(f[|f| - 1]);
    assert Trail(f, IsSlash) == 0;
    assert f[..|f|] == f;
    assert f[|dir|] == '/';
    assert forall k :: |dir| < k < |f| ==> f[k] == name[k - |dir| - 1];
    assert LastIndexOf(f, '/') == |dir|;
    assert f[|dir| + 1..] == name;
  }

  /** Any spelling of `pdf` (`scan.PDF`, `a.Pdf`, ...) is read by DeepSeek and
      not by Tesseract. */
  lemma AnyCasePdf(stem: string, ext: string)
    requires |stem| > 0 && forall k :: 0 <= k < |stem| ==> stem[k] != '/'
    requires AsciiLower(ext) == "pdf"
    ensures IsSupportedFormat(DeepSeek, stem + "." + ext)
    ensures !IsSupportedFormat(Tesseract, stem + "." + ext)
  {
    var l := AsciiLower(ext);
    assert |ext| == 3;
    forall k | 0 <= k < |ext|
      ensures ext[k] != '/' && ext[k] != '.'
    {
      assert l[k] == AsciiLowerChar(ext[k]);
      assert l[k] == 'p' || l[k] == 'd' || l[k] == 'f';
    }
    assert l in SupportedFormats(DeepSeek);
    assert l !in SupportedFormats(Tesseract);
    SupportIgnoresCase(DeepSeek, stem, ext);
    SupportIgnoresCase(Tesseract, stem, ext);
  }

  lemma UpperPdfLowers()
    ensures AsciiLower("PDF") == "pdf"
  {
    var l := AsciiLower("PDF");
    assert |l| == 3 && l[0] == 'p' && l[1] == 'd' && l[2] == 'f';
  }

  /** A name without a dot, or a dot-file such as `.pdf`, has no suffix and
      is never supported. */
  lemma NoSuffixUnsupported(p: Provider, filename: string)
    requires Suffix(PathName(filename)) == ""
    ensures !IsSupportedFormat(p, filename)
  {
    assert Extension(filename) == "";
  }

  lemma DotFileUnsupported(p: Provider)
    ensures !IsSupportedFormat(p, ".pdf")
  {
    var f := ".pdf";
    assert f[0] == '.' && f[1] == 'p' && f[2] == 'd' && f[3] == 'f';
    DotNameHasNoSuffix(f);
    NoSuffixUnsupported(p, f);
  }

  /** A name whose only dot is its first character has no suffix. */
  lemma DotNameHasNoSuffix(name: string)
    requires |name| > 0 && name[0] == '.'
    requires forall k :: 0 <= k < |name| ==> name[k] != '/'
    requires forall k :: 0 < k < |name| ==> name[k] != '.'
    ensures Suffix(PathName(name)) == ""
  {
    PlainName(name);
    assert LastIndexOf(name, '.') == 0;
  }

  /** A name without `/` is its own last component. */
  lemma PlainName(name: string)
    requires forall k :: 0 <= k < |name| ==> name[k] != '/'
    ensures PathName(name) == name
  {
    if |name| > 0 {
      assert !IsSlash(name[|name| - 1]);
    }
    assert Trail(name, IsSlash) == 0;
    assert name[..|name|] == name;
    assert LastIndexOf(name, '/') == -1;
  }

  // ---------------------------------------------------------------------
  // Processing-time estimate

  /** About 500 KiB per page. */
  const PageBytes: nat := 1024 * 500

  /** `max(1, file_size // (1024 * 500))`. */
  function EstimatedPages(size: nat): (n: nat)
    ensures n >= 1
    ensures size < PageBytes ==> n == 1
    ensures size >= PageBytes ==> n * PageBytes <= size < (n + 1) * PageBytes
  {
    if size / PageBytes > 1 then size / PageBytes else 1
  }

  /** Seconds per page: DeepSeek 2 on CUDA and 6 otherwise, Chandra with
      HuggingFace 3, Chandra with vLLM 1.5, Tesseract 1. */
  function BaseSeconds(svc: Service): real {
    match svc.provider
    case DeepSeek => if svc.deepseekDevice == Some(Cuda) then 2.0 else 6.0
    case ChandraHf => 3.0
    case ChandraVllm => 1.5
    case Tesseract => 1.0
  }

  /** `estimate_processing_time`, computed in integers: the truncation of
      base seconds times pages. */
  function EstimateSeconds(svc: Service, size: nat): (r: nat)
    ensures r == (BaseSeconds(svc) * EstimatedPages(size) as real).Floor
    ensures r >= 1
  {
    var pages := EstimatedPages(size);
    match svc.provider
    case DeepSeek => (if svc.deepseekDevice == Some(Cuda) then 2 else 6) * pages
    case ChandraHf => 3 * pages
    case ChandraVllm => (3 * pages) / 2
    case Tesseract => pages
  }

  /** A larger file never gets a smaller estimate. */
  lemma EstimateMonotone(svc: Service, small: nat, large: nat)
    requires small <= large
    ensures EstimateSeconds(svc, small) <= EstimateSeconds(svc, large)
  {
    assert EstimatedPages(small) <= EstimatedPages(large) by {
      assert small / 512000 <= large / 512000;
    }
  }

  /** 2 000 000 bytes count as 3 pages of 512 000 bytes. */
  lemma TwoMillionBytesIsThreePages()
    ensures EstimatedPages(2000000) == 3
  {
  }
}
