/**
 * The page generator (03_html_output/generate_html.py): the data script
 * `problem_data.js` holds `window.PROBLEM_DATA = {...};`; the generator
 * cuts out the JSON object, checks that it parses, fills in a missing
 * model name, and writes the page template with its placeholder replaced
 * by an inline script carrying the JSON text.
 *
 * File reads are inputs (None for a missing file) and the JSON parser is
 * an oracle that either fails or yields the document's `model` field.
 */
module HtmlEmbed {
  import opened Wrappers
  import Text

  /**
   * Python's `s[start:end]` for integer bounds: negative bounds count from
   * the end, bounds are clamped to the string, and an empty range gives ''.
   */
  function PySlice(s: string, start: int, end: int): (r: string)
    ensures |r| <= |s|
    ensures 0 <= start < end <= |s| ==> r == s[start..end]
    ensures 0 <= end <= start ==> r == []
  {
    var a := Clamp(start, |s|);
    var b := Clamp(end, |s|);
    if a < b then s[a..b] else []
  }

  /** Normalisation of one slice bound against a length `n`. */
  function Clamp(i: int, n: nat): (r: nat)
    ensures r <= n
    ensures 0 <= i <= n ==> r == i
    ensures i < 0 && i + n >= 0 ==> r == i + n
  {
    if i < 0 then (if i + n < 0 then 0 else i + n)
    else if i > n then n
    else i
  }

  /** `find('{')` on a one-character pattern is the first index holding it. */
  lemma FindChar(s: string, c: char, i: nat)
    requires i < |s| && s[i] == c && c !in s[..i]
    ensures Text.Find(s, [c]) == i
  {
    assert Text.OccursAt(s, [c], i);
  }

  lemma FindCharAbsent(s: string, c: char)
    requires c !in s
    ensures Text.Find(s, [c]) == -1
  {
    forall i: nat | i <= |s|
      ensures !Text.OccursAt(s, [c], i)
    {
      if i < |s| {
        assert s[i..i + 1][0] == s[i] != c;
      }
    }
  }

  /**
   * `json_str = js_content[js_content.find('{'):js_content.rfind('}') + 1]`.
   */
  function ExtractJson(js: string): (r: string)
    ensures |r| <= |js|
  {
    PySlice(js, Text.Find(js, "{"), Text.RFind(js, '}') + 1)
  }

  /**
   * With a '{' before the last '}', the extracted text runs from the first
   * '{' through the last '}' inclusive.
   */
  lemma ExtractJsonSpan(js: string, i: nat, j: nat)
    requires i < j <= |js|
    requires js[i] == '{' && '{' !in js[..i]
    requires js[j - 1] == '}' && '}' !in js[j..]
    ensures ExtractJson(js) == js[i..j]
    ensures ExtractJson(js)[0] == '{' && ExtractJson(js)[j - i - 1] == '}'
  {
    FindChar(js, '{', i);
  }

  /** A text without '}' extracts to the empty string. */
  lemma ExtractJsonNoClose(js: string)
    requires '}' !in js
    ensures ExtractJson(js) == []
  {
  }

  /**
   * A text without '{' has `find` give -1, so the slice starts at the last
   * character: the result is "}" when the text ends in '}', and '' otherwise.
   */
  lemma ExtractJsonNoOpen(js: string)
    requires '{' !in js
    ensures |js| > 0 && js[|js| - 1] == '}' ==> ExtractJson(js) == "}"
    ensures !(|js| > 0 && js[|js| - 1] == '}') ==> ExtractJson(js) == []
  {
    FindCharAbsent(js, '{');
    var k := Text.RFind(js, '}');
    if |js| > 0 && js[|js| - 1] == '}' {
      assert k == |js| - 1;
    }
  }

  const Placeholder: string := "<!-- DATA_PLACEHOLDER -->"
  const ScriptOpen: string := "<script>window.PROBLEM_DATA = "
  const ScriptClose: string := ";</script>"
  const UnknownModel: string := "Unknown Model"
  const DataPrefix: string := "problem_data_"
  const DataSuffix: string := ".js"

  /** The inline script carrying the JSON text verbatim. */
  function EmbeddingScript(jsonText: string): (r: string)
    ensures |r| == |ScriptOpen| + |jsonText| + |ScriptClose|
    ensures r[|ScriptOpen|..|ScriptOpen| + |jsonText|] == jsonText
  {
    ScriptOpen + jsonText + ScriptClose
  }

  /** The model name guessed from the data file's base name. */
  function FilenameModel(basename: string): string {
    Text.ReplaceAll(Text.ReplaceAll(basename, DataPrefix, ""), DataSuffix, "")
  }

  /**
   * The model name after the fallback: a present, non-empty `model` is
   * kept; otherwise the base-name guess, or 'Unknown Model' when that is
   * empty. The result is never empty.
   */
  function ModelName(model: Option<string>, basename: string): (r: string)
    ensures r != []
    ensures model.Some? && model.value != [] ==> r == model.value
    ensures (model.None? || model.value == []) && FilenameModel(basename) != [] ==> r == FilenameModel(basename)
    ensures (model.None? || model.value == []) && FilenameModel(basename) == [] ==> r == UnknownModel
  {
    if model.None? || model.value == [] then
      var guess := FilenameModel(basename);
      if guess != [] then guess else UnknownModel
    else model.value
  }

  /** The parsed document, as far as the generator looks at it. */
  datatype Document = Document(model: Option<string>)

  /** The page written and the model name the data carries after the fallback. */
  datatype Page = Page(html: string, model: string)

  /**
   * `main`: a missing data file, JSON that does not parse, or a missing
   * template each stop the run with nothing written; otherwise the page is
   * the template with every placeholder replaced by the embedding script.
   */
  function Generate(dataFile: Option<string>, basename: string, template: Option<string>, parse: string -> Option<Document>): (r: Result<Page>)
    ensures dataFile.None? ==> r.Err?
    ensures dataFile.Some? && parse(ExtractJson(dataFile.value)).None? ==> r.Err?
    ensures template.None? ==> r.Err?
    ensures r.Ok? ==> r.value.model != []
  {
    if dataFile.None? then Err("JSON file not found")
    else
      var jsonText := ExtractJson(dataFile.value);
      var doc := parse(jsonText);
      if doc.None? then Err("Error reading JSON")
      else if template.None? then Err("Template file not found")
      else
        Ok(Page(Text.ReplaceAll(template.value, Placeholder, EmbeddingScript(jsonText)), ModelName(doc.value.model, basename)))
  }

  /**
   * The page is the template with its first placeholder replaced by the
   * embedding script of the extracted JSON (and later ones likewise).
   */
  lemma GenerateFirstPlaceholder(dataFile: string, basename: string, template: string, parse: string -> Option<Document>, k: nat)
    requires parse(ExtractJson(dataFile)).Some?
    requires k + |Placeholder| <= |template| && Text.OccursAt(template, Placeholder, k)
    requires forall i: nat :: i < k ==> !Text.OccursAt(template, Placeholder, i)
    ensures Generate(Some(dataFile), basename, Some(template), parse).Ok?
    ensures Generate(Some(dataFile), basename, Some(template), parse).value.html
      == template[..k] + EmbeddingScript(ExtractJson(dataFile)) + Text.ReplaceFrom(template, Placeholder, EmbeddingScript(ExtractJson(dataFile)), k + |Placeholder|)
  {
    Text.ReplaceAllFirst(template, Placeholder, EmbeddingScript(ExtractJson(dataFile)), k);
  }

  /** A template without the placeholder is written out unchanged. */
  lemma GenerateNoPlaceholder(dataFile: string, basename: string, template: string, parse: string -> Option<Document>)
    requires parse(ExtractJson(dataFile)).Some?
    requires !Text.Contains(template, Placeholder)
    ensures Generate(Some(dataFile), basename, Some(template), parse) == Ok(Page(template, ModelName(parse(ExtractJson(dataFile)).value.model, basename)))
  {
    Text.ReplaceAllAbsent(template, Placeholder, EmbeddingScript(ExtractJson(dataFile)));
  }

  /**
   * The model fallback never reaches the page: whatever the parsed
   * document says about the model, the HTML written is the same.
   */
  lemma FallbackDoesNotChangePage(dataFile: string, basename: string, template: string, parse1: string -> Option<Document>, parse2: string -> Option<Document>)
    requires parse1(ExtractJson(dataFile)).Some? && parse2(ExtractJson(dataFile)).Some?
    ensures Generate(Some(dataFile), basename, Some(template), parse1).Ok?
    ensures Generate(Some(dataFile), basename, Some(template), parse2).Ok?
    ensures Generate(Some(dataFile), basename, Some(template), parse1).value.html
      == Generate(Some(dataFile), basename, Some(template), parse2).value.html
  {
  }

  /** JSON that does not parse stops the run whatever the template is. */
  lemma UnparsedStopsRun(dataFile: string, basename: string, template: Option<string>, parse: string -> Option<Document>)
    requires parse(ExtractJson(dataFile)).None?
    ensures Generate(Some(dataFile), basename, template, parse).Err?
  {
  }

  /**
   * With the data file the script actually reads, `problem_data.js`, the
   * base-name guess is 'problem_data' ('problem_data_' does not occur and
   * '.js' is removed), so 'Unknown Model' is never chosen.
   */
  lemma ShippedFallback()
    ensures FilenameModel("problem_data.js") == "problem_data"
    ensures ModelName(None, "problem_data.js") == "problem_data"
  {
    ShippedNameHasNoPrefix();
    ShippedNameSuffix();
  }

  lemma ShippedNameHasNoPrefix()
    ensures Text.ReplaceAll("problem_data.js", DataPrefix, "") == "problem_data.js"
  {
    var s := "problem_data.js";
    forall i: nat | i <= |s|
      ensures !Text.OccursAt(s, DataPrefix, i)
    {
      if i + |DataPrefix| <= |s| {
        assert s[i..i + |DataPrefix|][12] == s[i + 12] != DataPrefix[12];
      }
    }
    Text.ReplaceAllAbsent(s, DataPrefix, "");
  }

  lemma ShippedNameSuffix()
    ensures Text.ReplaceAll("problem_data.js", DataSuffix, "") == "problem_data"
  {
    var s := "problem_data.js";
    assert Text.OccursAt(s, DataSuffix, 12) by {
      assert s[12..15] == ".js";
    }
    forall i: nat | i < 12
      ensures !Text.OccursAt(s, DataSuffix, i)
    {
      assert s[i..i + 3][0] == s[i] != DataSuffix[0];
    }
    Text.ReplaceAllFirst(s, DataSuffix, "", 12);
    assert s[..12] == "problem_data";
  }

}
