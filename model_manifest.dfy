/**
 * The batch driver of the HTML stage (03_html_output/batch_generate.py):
 * for every configured model it derives a short, file-system-safe name,
 * runs the similarity stage to produce `similar_results_<safe>.json`, and
 * records `{id, name}` in the manifest `models.json` for each model whose
 * run succeeded. The run itself is an oracle: one outcome per model.
 */
module ModelManifest {
  import Text

  /** `s.split('/')[-1]`: the part after the last '/', or all of `s`. */
  function LastSegment(s: string): (r: string)
    ensures |r| <= |s| && r == s[|s| - |r|..]
    ensures forall i :: 0 <= i < |r| ==> r[i] != '/'
    ensures |r| < |s| ==> s[|s| - |r| - 1] == '/'
  {
    s[Text.RFind(s, '/') + 1..]
  }

  /** The default safe name: last segment, '-' and '.' to '_', lower-cased. */
  function DefaultSafeName(modelName: string): (r: string)
    ensures |r| == |LastSegment(modelName)|
    ensures forall i :: 0 <= i < |r| ==> IsSafeChar(r[i])
  {
    var seg := LastSegment(modelName);
    var dashes := Text.ReplaceChar(seg, '-', '_');
    var dots := Text.ReplaceChar(dashes, '.', '_');
    var r := Text.LowerAll(dots);
    assert forall i :: 0 <= i < |r| ==> IsSafeChar(r[i]) by {
      forall i | 0 <= i < |r|
        ensures IsSafeChar(r[i])
      {
        assert seg[i] != '/';
        assert dots[i] != '/' && dots[i] != '-' && dots[i] != '.';
      }
    }
    r
  }

  /** A character that may appear in a derived safe name. */
  predicate IsSafeChar(c: char) {
    c != '/' && c != '-' && c != '.' && !('A' <= c <= 'Z')
  }

  /**
   * `safe_name`: 'gemini' for names containing 'gemini' or
   * 'text-embedding', else 'e5' for names containing 'e5', else 'ruri' for
   * names containing 'ruri', checked in that order; otherwise the default
   * derivation.
   */
  function SafeName(modelName: string): (r: string)
    ensures Text.Contains(modelName, "gemini") || Text.Contains(modelName, "text-embedding") ==> r == "gemini"
    ensures !Text.Contains(modelName, "gemini") && !Text.Contains(modelName, "text-embedding") && Text.Contains(modelName, "e5") ==> r == "e5"
    ensures !Text.Contains(modelName, "gemini") && !Text.Contains(modelName, "text-embedding") && !Text.Contains(modelName, "e5") && Text.Contains(modelName, "ruri") ==> r == "ruri"
    ensures !Text.Contains(modelName, "gemini") && !Text.Contains(modelName, "text-embedding") && !Text.Contains(modelName, "e5") && !Text.Contains(modelName, "ruri") ==> r == DefaultSafeName(modelName)
    ensures forall i :: 0 <= i < |r| ==> IsSafeChar(r[i])
  {
    if Text.Contains(modelName, "gemini") || Text.Contains(modelName, "text-embedding") then "gemini"
    else if Text.Contains(modelName, "e5") then "e5"
    else if Text.Contains(modelName, "ruri") then "ruri"
    else DefaultSafeName(modelName)
  }

  const FilePrefix: string := "similar_results_"
  const FileSuffix: string := ".json"

  /** `f"similar_results_{safe_name}.json"`. */
  function OutputFilename(safeName: string): (r: string)
    ensures |r| == |FilePrefix| + |safeName| + |FileSuffix|
    ensures r[..|FilePrefix|] == FilePrefix && r[|r| - |FileSuffix|..] == FileSuffix
    ensures SafeNameOf(r) == safeName
  {
    FilePrefix + safeName + FileSuffix
  }

  /** The safe name inside an output file name (its middle part). */
  function SafeNameOf(filename: string): string {
    if |filename| < |FilePrefix| + |FileSuffix| then filename
    else filename[|FilePrefix|..|filename| - |FileSuffix|]
  }

  /** Two models share an output file exactly when their safe names agree. */
  lemma OutputFilenameInjective(a: string, b: string)
    ensures OutputFilename(a) == OutputFilename(b) <==> a == b
  {
    if OutputFilename(a) == OutputFilename(b) {
      assert SafeNameOf(OutputFilename(a)) == SafeNameOf(OutputFilename(b));
    }
  }

  /** An output file name never contains a path separator. */
  lemma OutputFilenameIsFlat(modelName: string)
    ensures '/' !in OutputFilename(SafeName(modelName))
  {
    var safe := SafeName(modelName);
    assert '/' !in safe by {
      forall i | 0 <= i < |safe|
        ensures safe[i] != '/'
      {
        assert IsSafeChar(safe[i]);
      }
    }
    assert '/' !in FilePrefix && '/' !in FileSuffix;
  }

  /** One manifest record: the JSON file produced and the model's name. */
  datatype ManifestEntry = ManifestEntry(id: string, name: string)

  function EntryFor(modelName: string): ManifestEntry {
    ManifestEntry(OutputFilename(SafeName(modelName)), modelName)
  }

  /** The manifest after the first |models| runs: one entry per success. */
  function Manifest(models: seq<string>, succeeded: seq<bool>): (r: seq<ManifestEntry>)
    requires |succeeded| == |models|
  {
    if |models| == 0 then []
    else
      var n := |models| - 1;
      Manifest(models[..n], succeeded[..n]) + (if succeeded[n] then [EntryFor(models[n])] else [])
  }

  /**
   * The loop of `main`: runs each model in config order and appends its
   * record when the run succeeded; a failed run is reported and skipped.
   * `succeeded[i]` is the outcome of the subprocess for `models[i]`.
   */
  method BuildManifest(models: seq<string>, succeeded: seq<bool>) returns (manifest: seq<ManifestEntry>)
    requires |succeeded| == |models|
    ensures manifest == Manifest(models, succeeded)
  {
    manifest := [];
    var i := 0;
    while i < |models|
      invariant i <= |models|
      invariant manifest == Manifest(models[..i], succeeded[..i])
    {
      assert models[..i + 1][..i] == models[..i];
      assert succeeded[..i + 1][..i] == succeeded[..i];
      if succeeded[i] {
        manifest := manifest + [EntryFor(models[i])];
      }
      i := i + 1;
    }
    assert models[..i] == models;
    assert succeeded[..i] == succeeded;
  }

  /** Indices of the successful runs, in increasing order. */
  function Successes(succeeded: seq<bool>): (r: seq<nat>)
  {
    if |succeeded| == 0 then []
    else
      var n := |succeeded| - 1;
      Successes(succeeded[..n]) + (if succeeded[n] then [n] else [])
  }

  /** The successful runs are exactly the indices whose outcome is true, in increasing order. */
  lemma {:induction false} SuccessesSpec(succeeded: seq<bool>)
    ensures forall k :: 0 <= k < |Successes(succeeded)| ==> Successes(succeeded)[k] < |succeeded|
    ensures forall i :: 0 <= i < |succeeded| ==> (succeeded[i] <==> i in Successes(succeeded))
    ensures forall k, l :: 0 <= k < l < |Successes(succeeded)| ==> Successes(succeeded)[k] < Successes(succeeded)[l]
  {
    if |succeeded| > 0 {
      var n := |succeeded| - 1;
      SuccessesSpec(succeeded[..n]);
    }
  }

  /**
   * The manifest lists exactly the successful models, in config order:
   * its k-th entry is the record of the k-th successful run.
   */
  lemma {:induction false} ManifestSpec(models: seq<string>, succeeded: seq<bool>)
    requires |succeeded| == |models|
    ensures |Manifest(models, succeeded)| == |Successes(succeeded)|
    ensures forall k :: 0 <= k < |Successes(succeeded)| ==>
              Successes(succeeded)[k] < |models| && Manifest(models, succeeded)[k] == EntryFor(models[Successes(succeeded)[k]])
  {
    SuccessesSpec(succeeded);
    if |models| > 0 {
      var n := |models| - 1;
      ManifestSpec(models[..n], succeeded[..n]);
      assert forall k :: 0 <= k < |Successes(succeeded[..n])| ==> Successes(succeeded)[k] == Successes(succeeded[..n])[k];
    }
  }

  /** When every run succeeds the manifest records every model, in order. */
  lemma AllSucceeded(models: seq<string>, succeeded: seq<bool>)
    requires |succeeded| == |models|
    requires forall i :: 0 <= i < |succeeded| ==> succeeded[i]
    ensures |Manifest(models, succeeded)| == |models|
    ensures forall i :: 0 <= i < |models| ==> Manifest(models, succeeded)[i] == EntryFor(models[i])
  {
    ManifestSpec(models, succeeded);
    var ix := Successes(succeeded);
    SuccessesAll(succeeded);
  }

  /** When every run fails the manifest is empty. */
  lemma {:induction false} NoneSucceeded(models: seq<string>, succeeded: seq<bool>)
    requires |succeeded| == |models|
    requires forall i :: 0 <= i < |succeeded| ==> !succeeded[i]
    ensures Manifest(models, succeeded) == []
  {
    if |models| > 0 {
      var n := |models| - 1;
      NoneSucceeded(models[..n], succeeded[..n]);
    }
  }

  /** The options the similarity stage's command line defines. */
  const StageOptions: seq<string> := ["--input_json", "--output_dir", "--output_filename"]

  /** The options the driver evidently expects it to define: the same and `--model`. */
  const IntendedStageOptions: seq<string> := StageOptions + ["--model"]

  /** The arguments the driver passes to the similarity stage for one model. */
  function StageArgs(modelName: string): seq<string> {
    ["--model", modelName, "--output_filename", OutputFilename(SafeName(modelName))]
  }

  /** argparse accepts an option word that is a defined option or an abbreviation of one. */
  predicate Recognised(word: string, options: seq<string>) {
    exists k :: 0 <= k < |options| && word <= options[k]
  }

  /**
   * Whether a list of option-value pairs parses: every option word is
   * recognised. An unrecognised one makes `parse_args` exit with status 2.
   */
  predicate ArgsParse(args: seq<string>, options: seq<string>) {
    if |args| < 2 then args == []
    else Recognised(args[0], options) && ArgsParse(args[2..], options)
  }

  /**
   * The outcome of each subprocess run: it succeeds when its arguments
   * parse and the stage itself then succeeds (`ran[i]`). `check=True`
   * turns a non-zero exit status into the error the loop catches.
   */
  function Outcomes(models: seq<string>, options: seq<string>, ran: seq<bool>): (r: seq<bool>)
    requires |ran| == |models|
    ensures |r| == |models|
  {
    seq(|models|, i requires 0 <= i < |models| => ArgsParse(StageArgs(models[i]), options) && ran[i])
  }

  /** As written, `--model` is not an option of the similarity stage, so no run parses its arguments. */
  lemma ModelOptionRejected(modelName: string)
    ensures !ArgsParse(StageArgs(modelName), StageOptions)
  {
    var word := "--model";
    assert StageArgs(modelName)[0] == word;
    forall k | 0 <= k < |StageOptions|
      ensures !(word <= StageOptions[k])
    {
      assert word[2] == 'm' && StageOptions[k][2] != 'm';
    }
  }

  /** As written, every run fails and the manifest is always empty. */
  lemma ManifestAsWritten(models: seq<string>, ran: seq<bool>)
    requires |ran| == |models|
    ensures Manifest(models, Outcomes(models, StageOptions, ran)) == []
  {
    var outcomes := Outcomes(models, StageOptions, ran);
    forall i | 0 <= i < |models|
      ensures !outcomes[i]
    {
      ModelOptionRejected(models[i]);
    }
    NoneSucceeded(models, outcomes);
  }

  /**
   * With `--model` defined the arguments always parse, so the outcomes are
   * those of the stage runs and `ManifestSpec` and `AllSucceeded` describe
   * the manifest.
   */
  lemma ManifestIntended(models: seq<string>, ran: seq<bool>)
    requires |ran| == |models|
    ensures Outcomes(models, IntendedStageOptions, ran) == ran
  {
    forall i | 0 <= i < |models|
      ensures ArgsParse(StageArgs(models[i]), IntendedStageOptions)
    {
      var args := StageArgs(models[i]);
      assert args[0] <= IntendedStageOptions[3];
      assert args[2..][0] <= IntendedStageOptions[2];
      assert args[2..][2..] == [];
    }
  }

  lemma {:induction false} SuccessesAll(succeeded: seq<bool>)
    requires forall i :: 0 <= i < |succeeded| ==> succeeded[i]
    ensures |Successes(succeeded)| == |succeeded|
    ensures forall k :: 0 <= k < |succeeded| ==> Successes(succeeded)[k] == k
  {
    if |succeeded| > 0 {
      SuccessesAll(succeeded[..|succeeded| - 1]);
    }
  }
}
