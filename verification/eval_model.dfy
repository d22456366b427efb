/** The demo evaluator: loading a JSONL question set with an optional limit,
    and counting the samples that lack an answer or metadata. Reading the
    file is left to the caller, and `json.loads` is a parameter (`None` for
    a line it rejects). */
module EvalModel {
  import opened Wrappers
  import opened Text
  import opened Json

  // ---------------------------------------------------------------------
  // Loading

  /** What one line of the file contributes: nothing when it is blank after
      stripping or does not decode, else its decoded value. */
  function Decoded(line: string, parse: string -> Option<Value>): Option<Value> {
    var stripped := PyStrip(line);
    if stripped == "" then None else parse(stripped)
  }

  /** The values of every line that contributes, in file order. */
  function Valid(lines: seq<string>, parse: string -> Option<Value>): (r: seq<Value>)
    ensures |r| <= |lines|
  {
    if |lines| == 0 then []
    else
      var init := Valid(lines[..|lines| - 1], parse);
      match Decoded(lines[|lines| - 1], parse)
      case Some(v) => init + [v]
      case None => init
  }

  /** The values of a prefix of the file start the values of the file. */
  lemma {:induction false} ValidPrefix(lines: seq<string>, i: nat, parse: string -> Option<Value>)
    requires i <= |lines|
    ensures Valid(lines[..i], parse) <= Valid(lines, parse)
    decreases |lines|
  {
    if i < |lines| {
      var init := lines[..|lines| - 1];
      assert Valid(lines[..i], parse) <= Valid(init, parse) by {
        assert init[..i] == lines[..i];
        ValidPrefix(init, i, parse);
      }
      assert Valid(init, parse) <= Valid(lines, parse);
      PrefixTransitive(Valid(lines[..i], parse), Valid(init, parse), Valid(lines, parse));
    } else {
      assert lines[..i] == lines;
    }
  }

  lemma PrefixTransitive<T>(a: seq<T>, b: seq<T>, c: seq<T>)
    requires a <= b && b <= c
    ensures a <= c
  {
    assert a == c[..|a|] by {
      assert a == b[..|a|] && b == c[..|b|];
      assert b[..|a|] == c[..|a|];
    }
  }

  function Min(a: int, b: int): int {
    if a <= b then a else b
  }

  /** `load_dataset`: the decoded lines, stopping as soon as `limit` samples
      are held when `limit` is positive; blank and undecodable lines are
      skipped and do not count. */
  method LoadDataset(lines: seq<string>, limit: int, parse: string -> Option<Value>) returns (samples: seq<Value>)
    ensures limit <= 0 ==> samples == Valid(lines, parse)
    ensures limit > 0 ==> |samples| == Min(limit, |Valid(lines, parse)|)
    ensures samples <= Valid(lines, parse)
  {
    samples := [];
    var i := 0;
    var full := false;
    while i < |lines| && !full
      invariant 0 <= i <= |lines|
      invariant samples == Valid(lines[..i], parse)
      invariant full ==> 0 < limit == |samples|
      invariant !full && limit > 0 ==> |samples| < limit
    {
      assert lines[..i + 1][..i] == lines[..i];
      var line := PyStrip(lines[i]);
      if line != "" {
        match parse(line) {
          case Some(v) =>
            samples := samples + [v];
            if 0 < limit <= |samples| {
              full := true;
            }
          case None =>
        }
      }
      i := i + 1;
    }
    ValidPrefix(lines, i, parse);
    if !full {
      assert lines[..i] == lines;
    }
  }

  /** A blank line changes nothing. */
  lemma BlankLineSkipped(lines: seq<string>, blank: string, parse: string -> Option<Value>)
    requires PyStrip(blank) == ""
    ensures Valid(lines + [blank], parse) == Valid(lines, parse)
  {
    assert (lines + [blank])[..|lines|] == lines;
  }

  /** A line that decodes adds its value; it counts toward the limit. */
  lemma DecodedLineKept(lines: seq<string>, line: string, parse: string -> Option<Value>)
    requires PyStrip(line) != "" && parse(PyStrip(line)).Some?
    ensures Valid(lines + [line], parse) == Valid(lines, parse) + [parse(PyStrip(line)).value]
  {
    assert (lines + [line])[..|lines|] == lines;
  }

  // ---------------------------------------------------------------------
  // Evaluating

  /** `not sample.get(key)`. */
  predicate Lacks(sample: map<string, Value>, key: string) {
    !Truthy(GetOrNull(sample, key))
  }

  /** How many of `samples` lack `key`. */
  function Missing(samples: seq<map<string, Value>>, key: string): (n: nat)
    ensures n <= |samples|
  {
    if |samples| == 0 then 0
    else Missing(samples[..|samples| - 1], key) + (if Lacks(samples[|samples| - 1], key) then 1 else 0)
  }

  /** None is missing exactly when every sample has a value for `key`. */
  lemma {:induction false} NoneMissing(samples: seq<map<string, Value>>, key: string)
    ensures Missing(samples, key) == 0 <==> forall i :: 0 <= i < |samples| ==> !Lacks(samples[i], key)
    decreases |samples|
  {
    if |samples| > 0 {
      var n := |samples| - 1;
      NoneMissing(samples[..n], key);
      if Missing(samples, key) == 0 {
        forall i | 0 <= i < |samples|
          ensures !Lacks(samples[i], key)
        {
          if i < n {
            assert samples[..n][i] == samples[i];
          }
        }
      } else if Missing(samples[..n], key) > 0 {
        var i :| 0 <= i < n && Lacks(samples[..n][i], key);
        assert samples[i] == samples[..n][i];
      }
    }
  }

  /** All are missing exactly when no sample has a value for `key`. */
  lemma {:induction false} AllMissing(samples: seq<map<string, Value>>, key: string)
    ensures Missing(samples, key) == |samples| <==> forall i :: 0 <= i < |samples| ==> Lacks(samples[i], key)
    decreases |samples|
  {
    if |samples| > 0 {
      var n := |samples| - 1;
      AllMissing(samples[..n], key);
      if Missing(samples, key) == |samples| {
        forall i | 0 <= i < |samples|
          ensures Lacks(samples[i], key)
        {
          if i < n {
            assert samples[..n][i] == samples[i];
          }
        }
      } else if Missing(samples[..n], key) < n {
        var i :| 0 <= i < n && !Lacks(samples[..n][i], key);
        assert samples[i] == samples[..n][i];
      }
    }
  }

  datatype Report = Report(total: nat, missingAnswer: nat, missingMetadata: nat, score: Option<real>)

  /** Why `evaluate` stops: the model path does not exist, or a sample is
      not a JSON object (its `.get` raises). */
  datatype EvalError = ModelNotFound(path: string) | NotAnObject(index: nat)

  /** The samples as objects, up to the first that is not one. */
  function Objects(dataset: seq<Value>): (r: Result<seq<map<string, Value>>, EvalError>)
    ensures r.Success? <==> forall i :: 0 <= i < |dataset| ==> dataset[i].Obj?
    ensures r.Success? ==> (|r.value| == |dataset|
      && forall i :: 0 <= i < |dataset| ==> r.value[i] == dataset[i].fields)
    ensures r.Failure? ==> (r.error.NotAnObject? && r.error.index < |dataset|
      && !dataset[r.error.index].Obj? && forall i :: 0 <= i < r.error.index ==> dataset[i].Obj?)
  {
    if |dataset| == 0 then Success([])
    else
      var init := Objects(dataset[..|dataset| - 1]);
      if init.Failure? then init
      else if !dataset[|dataset| - 1].Obj? then Failure(NotAnObject(|dataset| - 1))
      else Success(init.value + [dataset[|dataset| - 1].fields])
  }

  /** The conditional score: the percentage of samples with an answer. */
  function Score(total: nat, missing: nat): (r: Option<real>)
    requires missing <= total
    ensures r.Some? <==> total > 0
    // the answered samples are r percent of the total
    ensures r.Some? ==> r.value * (total as real) == ((total - missing) as real) * 100.0
  {
    if total > 0 then Some(((total - missing) as real / total as real) * 100.0) else None
  }

  /** The score exists only for a non-empty dataset, lies between 0 and 100,
      is 100 exactly when no answer is missing and 0 exactly when all are. */
  lemma ScoreBounds(total: nat, missing: nat)
    requires missing <= total
    ensures Score(total, missing).Some? <==> total > 0
    ensures total > 0 ==> 0.0 <= Score(total, missing).value <= 100.0
    ensures total > 0 ==> (Score(total, missing).value == 100.0 <==> missing == 0)
    ensures total > 0 ==> (Score(total, missing).value == 0.0 <==> missing == total)
  {
    if total > 0 {
      var t := total as real;
      var a := (total - missing) as real;
      var q := a / t;
      assert q * t == a;
      assert 0.0 <= q <= 1.0;
      assert q == 1.0 <==> a == t;
    }
  }

  /** `evaluate`: a missing model path is reported before anything is
      counted; then every sample is checked for `answer` and `metadata`. */
  method Evaluate(modelPath: string, modelExists: bool, dataset: seq<Value>) returns (r: Result<Report, EvalError>)
    ensures !modelExists ==> r == Failure(ModelNotFound(modelPath))
    ensures modelExists ==> (r.Success? <==> Objects(dataset).Success?)
    ensures modelExists && Objects(dataset).Failure? ==> r == Failure(Objects(dataset).error)
    ensures r.Success? ==>
      && r.value.total == |dataset|
      && r.value.missingAnswer == Missing(Objects(dataset).value, "answer")
      && r.value.missingMetadata == Missing(Objects(dataset).value, "metadata")
      && r.value.missingAnswer <= r.value.total && r.value.missingMetadata <= r.value.total
      && r.value.score == Score(r.value.total, r.value.missingAnswer)
  {
    if !modelExists {
      return Failure(ModelNotFound(modelPath));
    }
    var missingAnswer := 0;
    var missingMetadata := 0;
    var seen: seq<map<string, Value>> := [];
    var i := 0;
    while i < |dataset|
      invariant 0 <= i <= |dataset|
      invariant Objects(dataset[..i]).Success? && Objects(dataset[..i]).value == seen
      invariant missingAnswer == Missing(seen, "answer")
      invariant missingMetadata == Missing(seen, "metadata")
    {
      ObjectsStep(dataset, i);
      if !dataset[i].Obj? {
        ObjectsPrefix(dataset, i + 1);
        return Failure(NotAnObject(i));
      }
      var sample := dataset[i].fields;
      MissingSnoc(seen, sample, "answer");
      MissingSnoc(seen, sample, "metadata");
      if Lacks(sample, "answer") {
        missingAnswer := missingAnswer + 1;
      }
      if Lacks(sample, "metadata") {
        missingMetadata := missingMetadata + 1;
      }
      seen := seen + [sample];
      i := i + 1;
    }
    assert dataset[..i] == dataset;
    r := Success(Report(|dataset|, missingAnswer, missingMetadata, Score(|dataset|, missingAnswer)));
  }

  lemma MissingSnoc(seen: seq<map<string, Value>>, sample: map<string, Value>, key: string)
    ensures Missing(seen + [sample], key) == Missing(seen, key) + (if Lacks(sample, key) then 1 else 0)
  {
    assert (seen + [sample])[..|seen|] == seen;
  }

  lemma ObjectsStep(dataset: seq<Value>, i: nat)
    requires i < |dataset| && Objects(dataset[..i]).Success?
    ensures Objects(dataset[..i + 1]) ==
      if dataset[i].Obj? then Success(Objects(dataset[..i]).value + [dataset[i].fields]) else Failure(NotAnObject(i))
  {
    assert dataset[..i + 1][..i] == dataset[..i];
  }

  /** A failure in a prefix is the failure of the whole dataset. */
  lemma {:induction false} ObjectsPrefix(dataset: seq<Value>, i: nat)
    requires i <= |dataset| && Objects(dataset[..i]).Failure?
    ensures Objects(dataset) == Objects(dataset[..i])
    decreases |dataset| - i
  {
    if i < |dataset| {
      assert dataset[..i + 1][..i] == dataset[..i];
      ObjectsPrefix(dataset, i + 1);
    } else {
      assert dataset[..i] == dataset;
    }
  }
}
