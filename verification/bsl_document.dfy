/** The part of an Eclipse text document the method-region finder relies on:
    a document is its sequence of lines, each line carrying its own line
    delimiter (an empty document still has one, empty, line); offsets count
    characters from the start of the document. */
module BslDocument {
  import opened Wrappers

  type Document = lines: seq<string> | |lines| > 0 witness [""]

  /** The concatenation of `ls`. */
  function Concat(ls: seq<string>): string {
    if |ls| == 0 then "" else Concat(ls[..|ls| - 1]) + ls[|ls| - 1]
  }

  /** `getLineOffset(k)`: where line `k` starts. */
  function LineOffset(d: Document, k: nat): nat
    requires k <= |d|
  {
    if k == 0 then 0 else LineOffset(d, k - 1) + |d[k - 1]|
  }

  /** `getLineOffset(k) + getLineLength(k)`: where line `k` ends, delimiter included. */
  function LineEnd(d: Document, k: nat): nat
    requires k < |d|
  {
    LineOffset(d, k + 1)
  }

  /** The document's text. */
  function Content(d: Document): string {
    Concat(d)
  }

  lemma {:induction false} ConcatLength(ls: seq<string>, d: Document)
    requires |ls| <= |d| && ls == d[..|ls|]
    ensures |Concat(ls)| == LineOffset(d, |ls|)
    decreases |ls|
  {
    if |ls| > 0 {
      var k := |ls| - 1;
      assert ls[..k] == d[..k];
      assert ls[k] == d[k];
      ConcatLength(ls[..k], d);
    }
  }

  lemma ContentLength(d: Document)
    ensures |Content(d)| == LineOffset(d, |d|)
  {
    assert d == d[..|d|];
    ConcatLength(d, d);
  }

  /** Concatenation distributes over splitting the sequence of lines. */
  lemma {:induction false} ConcatSplit(ls: seq<string>, k: nat)
    requires k <= |ls|
    ensures Concat(ls) == Concat(ls[..k]) + Concat(ls[k..])
    decreases |ls|
  {
    if k < |ls| {
      var n := |ls| - 1;
      ConcatSplit(ls[..n], k);
      assert ls[..n][..k] == ls[..k];
      assert ls[k..][..|ls[k..]| - 1] == ls[..n][k..];
    } else {
      assert ls[k..] == [];
      assert ls[..k] == ls;
    }
  }

  /** `getLineOfOffset(offset)` for `0 <= offset <= length`, searching from line `k`. */
  function LineOfOffsetFrom(d: Document, offset: nat, k: nat): (r: nat)
    requires k < |d| && LineOffset(d, k) <= offset
    ensures k <= r < |d|
    ensures LineOffset(d, r) <= offset
    ensures offset < LineEnd(d, r) || r == |d| - 1
    decreases |d| - k
  {
    if k == |d| - 1 || offset < LineEnd(d, k) then k else LineOfOffsetFrom(d, offset, k + 1)
  }

  /** The line holding `offset`; the end of the document belongs to the last line. */
  function LineOfOffset(d: Document, offset: nat): (r: nat)
    ensures r < |d| && LineOffset(d, r) <= offset
    ensures offset < LineEnd(d, r) || r == |d| - 1
  {
    LineOfOffsetFrom(d, offset, 0)
  }

  /** `get(offset, length)`: the text in that range, or `None` where the
      document throws `BadLocationException`. */
  function Get(d: Document, offset: int, length: int): (r: Option<string>)
    ensures r.Some? <==> 0 <= offset && 0 <= length && offset + length <= |Content(d)|
    ensures r.Some? ==> |r.value| == length
  {
    var text := Content(d);
    if offset < 0 || length < 0 || offset + length > |text| then None
    else Some(text[offset..offset + length])
  }

  /** A range inside the document is never refused. */
  lemma GetRange(d: Document, start: nat, end: nat)
    requires start <= end <= |Content(d)|
    ensures Get(d, start, end - start) == Some(Content(d)[start..end])
  {
  }

  /** The text from the start of line `h` to the end of line `e` is exactly
      lines `h..e`. */
  lemma LinesText(d: Document, h: nat, e: nat)
    requires h <= e < |d|
    ensures LineOffset(d, h) <= LineEnd(d, e) <= |Content(d)|
    ensures Content(d)[LineOffset(d, h)..LineEnd(d, e)] == Concat(d[h..e + 1])
  {
    var upto := d[..e + 1];
    ConcatSplit(d, e + 1);
    ConcatSplit(upto, h);
    assert upto[..h] == d[..h];
    assert upto[h..] == d[h..e + 1];
    PrefixLength(d, h);
    PrefixLength(d, e + 1);
    SliceMiddle(Concat(d[..h]), Concat(d[h..e + 1]), Concat(d[e + 1..]));
  }

  /** The lines before line `k` are `LineOffset(d, k)` characters long. */
  lemma PrefixLength(d: Document, k: nat)
    requires k <= |d|
    ensures |Concat(d[..k])| == LineOffset(d, k)
  {
    assert d[..k] == d[..|d[..k]|];
    ConcatLength(d[..k], d);
  }

  lemma SliceMiddle(a: string, b: string, c: string)
    ensures |a| <= |a| + |b| <= |a + b + c|
    ensures (a + b + c)[|a|..|a| + |b|] == b
  {
  }

  lemma {:induction false} LineOffsetMonotone(d: Document, i: nat, j: nat)
    requires i <= j <= |d|
    ensures LineOffset(d, i) <= LineOffset(d, j)
    decreases j - i
  {
    if i < j {
      LineOffsetMonotone(d, i, j - 1);
    }
  }
}
