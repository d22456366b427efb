/** The post-processing `_tesseract_ocr` applies to Tesseract's per-word
    output: keep the words with positive confidence and non-blank text, join
    them with spaces, and average their confidences. */
module TesseractPost {
  import opened Json
  import opened Text
  import opened OcrModel

  /** One entry of `image_to_data`: its confidence (as `int(conf)` reads it)
      and its text. */
  datatype WordBox = WordBox(conf: int, text: string)

  predicate Kept(w: WordBox) {
    w.conf > 0 && PyStrip(w.text) != ""
  }

  /** The kept words, in their original order. */
  function KeptWords(data: seq<WordBox>): (r: seq<WordBox>)
    ensures |r| <= |data|
    ensures forall w :: w in r <==> w in data && Kept(w)
  {
    if |data| == 0 then []
    else if Kept(data[0]) then [data[0]] + KeptWords(data[1..])
    else KeptWords(data[1..])
  }

  /** A single word is kept, or dropped, on its own. */
  lemma KeptSingle(w: WordBox)
    ensures KeptWords([w]) == if Kept(w) then [w] else []
  {
    assert [w][1..] == [];
  }

  /** Filtering commutes with concatenation; together with `KeptSingle` this
      pins the kept words down exactly, order and repetitions included. */
  lemma {:induction false} KeptConcat(a: seq<WordBox>, b: seq<WordBox>)
    ensures KeptWords(a + b) == KeptWords(a) + KeptWords(b)
  {
    if |a| == 0 {
      assert a + b == b;
    } else {
      assert (a + b)[1..] == a[1..] + b;
      KeptConcat(a[1..], b);
    }
  }

  function Texts(ws: seq<WordBox>): (r: seq<string>)
    ensures |r| == |ws|
    ensures forall i :: 0 <= i < |ws| ==> r[i] == ws[i].text
  {
    if |ws| == 0 then [] else [ws[0].text] + Texts(ws[1..])
  }

  function SumConf(ws: seq<WordBox>): int {
    if |ws| == 0 then 0 else ws[0].conf + SumConf(ws[1..])
  }

  /** Each kept word has confidence at least 1, so the sum is at least the
      count; with confidences at most 100 it is at most 100 per word. */
  lemma {:induction false} SumConfBounds(ws: seq<WordBox>)
    requires forall w :: w in ws ==> w.conf > 0
    ensures |ws| <= SumConf(ws)
    ensures (forall w :: w in ws ==> w.conf <= 100) ==> SumConf(ws) <= 100 * |ws|
  {
    if |ws| > 0 {
      assert forall w :: w in ws[1..] ==> w in ws;
      SumConfBounds(ws[1..]);
    }
  }

  /** The recognition built from Tesseract's word boxes: the kept words
      joined by single spaces, their mean confidence as a fraction of 100,
      and the word count. */
  function Postprocess(data: seq<WordBox>): (r: Recognition)
    ensures r.text == Join(" ", Texts(KeptWords(data)))
    ensures |KeptWords(data)| == 0 ==> r.confidence == 0.0
    ensures |KeptWords(data)| > 0 ==> r.confidence * 100.0 == Mean(KeptWords(data))
    ensures r.metadata == map["method" := Str("tesseract"), "words_count" := Int(|KeptWords(data)|)]
  {
    var kept := KeptWords(data);
    var meta := map["method" := Str("tesseract"), "words_count" := Int(|kept|)];
    if |kept| == 0 then Recognition(Join(" ", Texts(kept)), 0.0, meta)
    else
      Recognition(Join(" ", Texts(kept)), Mean(kept) / 100.0, meta)
  }

  /** The mean confidence of some words: times their count, it is the sum. */
  function Mean(ws: seq<WordBox>): (m: real)
    requires |ws| > 0
    ensures m * (|ws| as real) == SumConf(ws) as real
  {
    (SumConf(ws) as real) / (|ws| as real)
  }

  /** The confidence is positive exactly when some word was kept, and it is
      within [0, 1] when Tesseract's confidences are percentages. */
  lemma {:induction false} PostprocessConfidence(data: seq<WordBox>)
    ensures Postprocess(data).confidence == 0.0 <==> |KeptWords(data)| == 0
    ensures Postprocess(data).confidence >= 0.0
    ensures (forall w :: w in data ==> w.conf <= 100) ==> Postprocess(data).confidence <= 1.0
  {
    var kept := KeptWords(data);
    if |kept| > 0 {
      SumConfBounds(kept);
      var n := |kept| as real;
      var sum := SumConf(kept) as real;
      AverageBounds(sum, n);
      if forall w :: w in data ==> w.conf <= 100 {
        assert forall w :: w in kept ==> w.conf <= 100;
      }
    }
  }

  lemma AverageBounds(sum: real, n: real)
    requires 0.0 < n <= sum
    ensures (sum / n) / 100.0 > 0.0
    ensures sum <= 100.0 * n ==> (sum / n) / 100.0 <= 1.0
  {
    var q := sum / n;
    assert q * n == sum;
    assert q > 0.0;
    if sum <= 100.0 * n {
      assert q <= 100.0;
    }
  }

  /** A word with no positive confidence, or with blank text, leaves no
      trace wherever it appears. */
  lemma DroppedWordsIgnored(data: seq<WordBox>, i: nat, w: WordBox)
    requires i <= |data| && !Kept(w)
    ensures Postprocess(data[..i] + [w] + data[i..]) == Postprocess(data)
  {
    KeptInsertDropped(data, i, w);
  }

  lemma KeptInsertDropped(data: seq<WordBox>, i: nat, w: WordBox)
    requires i <= |data| && !Kept(w)
    ensures KeptWords(data[..i] + [w] + data[i..]) == KeptWords(data)
  {
    var a, b := data[..i], data[i..];
    KeptSingle(w);
    KeptConcat(a, [w]);
    assert KeptWords(a + [w]) == KeptWords(a) + [];
    assert KeptWords(a) + [] == KeptWords(a);
    KeptConcat(a + [w], b);
    KeptConcat(a, b);
    assert a + b == data;
  }
}
