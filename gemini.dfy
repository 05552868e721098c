/**
 * The Gemini client's pre- and post-processing: the image MIME type, the
 * stripping of Markdown code fences around the JSON reply, the defaults and
 * the AI marker of an extracted recipe, and the description prompt. The HTTP
 * exchange is a parameter (`GeminiReply`) and `JSON.parse` is a function
 * parameter (`parse`).
 */
module Gemini {
  import opened Wrappers
  import opened Text
  import Lists

  const KeyMissingError: string := "Gemini API key is not configured"
  const NoResponseError: string := "No response from Gemini API"
  const ParseFailedError: string := "Failed to parse recipe data from image"
  const UntitledRecipe: string := "Untitled Recipe"
  /** Appended to the instructions of a recipe inferred from a photo of a dish. */
  const AiMarker: string := "\n\n<!--AI-->"
  /** The description prompt lists at most this many ingredients. */
  const PromptIngredientCap: nat := 10

  // ---------------------------------------------------------------------------
  // MIME type of the uploaded image
  // ---------------------------------------------------------------------------

  /** `imageUri.split('.').pop()?.toLowerCase() || 'jpeg'`. */
  function ImageExtension(uri: string): (ext: string)
    ensures ext != ""
    ensures forall i :: 0 <= i < |ext| ==> !('A' <= ext[i] <= 'Z')
  {
    var ext := ToLower(LastSegment(uri, '.'));
    if ext == "" then "jpeg" else ext
  }

  /** The `mime_type` sent with the image: PNG exactly when the extension is `png` in any case. */
  function MimeTypeFor(uri: string): (mime: string)
    ensures mime == "image/png" || mime == "image/jpeg"
    ensures mime == "image/png" <==> ToLower(LastSegment(uri, '.')) == "png"
  {
    if ImageExtension(uri) == "png" then "image/png" else "image/jpeg"
  }

  /** A file name ending in `.png`, `.PNG`, `.Png`, … is sent as PNG. */
  lemma PngFileIsPng(stem: string, ext: string)
    requires '.' !in ext && ToLower(ext) == "png"
    ensures MimeTypeFor(stem + "." + ext) == "image/png"
  {
    LastSegmentAfterSeparator(stem, '.', ext);
    assert stem + "." + ext == stem + ['.'] + ext;
  }

  // ---------------------------------------------------------------------------
  // Code-fence stripping
  // ---------------------------------------------------------------------------

  /** `s.startsWith(fence) ? s.slice(|fence|) : s`. */
  function DropLeading(s: string, fence: string): string {
    if StartsWith(s, fence) then s[|fence|..] else s
  }

  /** `s.endsWith(fence) ? s.slice(0, -|fence|) : s`. */
  function DropTrailing(s: string, fence: string): string {
    if EndsWith(s, fence) then s[..|s| - |fence|] else s
  }

  /**
   * What the reassignments of `jsonString` leave: trim; drop a leading
   * "```json"; then drop a leading "```"; then drop a trailing "```"; trim again.
   */
  function FenceStripped(responseText: string): string
  {
    Trim(DropTrailing(DropLeading(DropLeading(Trim(responseText), "```json"), "```"), "```"))
  }

  /** The reassignments of `jsonString`, one statement per step of the source. */
  method StripFences(responseText: string) returns (jsonString: string)
    ensures jsonString == FenceStripped(responseText)
    ensures Trim(jsonString) == jsonString
  {
    jsonString := Trim(responseText);
    ghost var trimmed := jsonString;
    if StartsWith(jsonString, "```json") {
      jsonString := jsonString[7..];
    }
    assert jsonString == DropLeading(trimmed, "```json");
    ghost var noJsonFence := jsonString;
    if StartsWith(jsonString, "```") {
      jsonString := jsonString[3..];
    }
    assert jsonString == DropLeading(noJsonFence, "```");
    ghost var noOpenFence := jsonString;
    if EndsWith(jsonString, "```") {
      jsonString := jsonString[..|jsonString| - 3];
    }
    assert jsonString == DropTrailing(noOpenFence, "```");
    jsonString := Trim(jsonString);
    FenceStrippedIsTrimmed(responseText);
  }

  /** What reaches `JSON.parse` is always trimmed. */
  lemma FenceStrippedIsTrimmed(responseText: string)
    ensures Trim(FenceStripped(responseText)) == FenceStripped(responseText)
  {
    TrimIdempotent(DropTrailing(DropLeading(DropLeading(Trim(responseText), "```json"), "```"), "```"));
  }

  /** Text that does not start with "```" does not start with "```json" either. */
  lemma NoFenceNoJsonFence(s: string)
    requires !StartsWith(s, "```")
    ensures !StartsWith(s, "```json")
  {
  }

  /** A reply without a leading or trailing fence is only trimmed. */
  lemma UnfencedReplyOnlyTrimmed(responseText: string)
    requires !StartsWith(Trim(responseText), "```") && !EndsWith(Trim(responseText), "```")
    ensures FenceStripped(responseText) == Trim(responseText)
  {
    var trimmed := Trim(responseText);
    NoFenceNoJsonFence(trimmed);
    assert DropLeading(trimmed, "```json") == trimmed;
    assert DropLeading(trimmed, "```") == trimmed;
    assert DropTrailing(trimmed, "```") == trimmed;
    TrimIdempotent(responseText);
  }

  /** A fence placed in front is the fence dropped. */
  lemma DropLeadingOf(fence: string, rest: string)
    ensures DropLeading(fence + rest, fence) == rest
  {
    assert (fence + rest)[..|fence|] == fence;
    assert (fence + rest)[|fence|..] == rest;
  }

  /** A fence placed at the end is the fence dropped. */
  lemma DropTrailingOf(rest: string, fence: string)
    ensures DropTrailing(rest + fence, fence) == rest
  {
    assert (rest + fence)[|rest|..] == fence;
    assert (rest + fence)[..|rest|] == rest;
  }

  /** A body without whitespace at its ends survives being wrapped in a "```json" fence. */
  lemma JsonFenceRoundTrip(body: string)
    requires body == [] || (!IsWhitespace(body[0]) && !IsWhitespace(body[|body| - 1]))
    ensures FenceStripped("```json\n" + body + "\n```") == body
  {
    var inner := "\n" + body + "\n";
    var afterOpen := inner + "```";
    var fenced := "```json" + afterOpen;
    assert "```json\n" + body + "\n```" == fenced;
    TrimOfTrimmed(fenced);
    DropLeadingOf("```json", afterOpen);
    assert !StartsWith(afterOpen, "```") by {
      assert afterOpen[0] == '\n';
    }
    assert DropLeading(afterOpen, "```") == afterOpen;
    DropTrailingOf(inner, "```");
    TrimNewlines(body);
  }

  /** A body without whitespace at its ends survives a bare "```" fence as well. */
  lemma BareFenceRoundTrip(body: string)
    requires body == [] || (!IsWhitespace(body[0]) && !IsWhitespace(body[|body| - 1]))
    ensures FenceStripped("```\n" + body + "\n```") == body
  {
    var inner := "\n" + body + "\n";
    var afterOpen := inner + "```";
    var fenced := "```" + afterOpen;
    assert "```\n" + body + "\n```" == fenced;
    TrimOfTrimmed(fenced);
    assert !StartsWith(fenced, "```json") by {
      assert fenced[3] == '\n';
    }
    assert DropLeading(fenced, "```json") == fenced;
    DropLeadingOf("```", afterOpen);
    DropTrailingOf(inner, "```");
    TrimNewlines(body);
  }

  /** Trimming removes the line breaks around a body that has no whitespace at its ends. */
  lemma TrimNewlines(body: string)
    requires body == [] || (!IsWhitespace(body[0]) && !IsWhitespace(body[|body| - 1]))
    ensures Trim("\n" + body + "\n") == body
  {
    var t := body + "\n";
    assert "\n" + body + "\n" == ['\n'] + t;
    TrimStartSkipsWhitespace('\n', t);
    if body == [] {
      assert t == ['\n'] + [];
      TrimStartSkipsWhitespace('\n', []);
    } else {
      assert t[0] == body[0];
      assert TrimStart(t) == t;
      TrimEndSkipsWhitespace(body, '\n');
      assert TrimEnd(body) == body;
    }
  }

  // ---------------------------------------------------------------------------
  // analyzeRecipeImage
  // ---------------------------------------------------------------------------

  /** What the HTTP exchange produced. */
  datatype GeminiReply =
    | Rejected(message: string)             // reading the image or fetch threw
    | NotOk(status: nat)                    // `!response.ok`
    | Answered(text: Option<string>)        // `data.candidates?.[0]?.content?.parts?.[0]?.text`

  datatype RecipeIngredient = RecipeIngredient(name: string, amount: string)

  /**
   * The value `JSON.parse` returned, seen through the fields the code reads.
   * A parsed value that is not an object has none of the fields (`Fields`
   * with every field absent); only `null` makes the field access throw.
   */
  datatype ParsedJson =
    | SyntaxError
    | JsonNull
    | Fields(title: Option<string>, ingredients: Option<seq<RecipeIngredient>>,
             instructions: Option<string>, isInferred: bool)

  datatype ExtractedRecipe = ExtractedRecipe(title: string, ingredients: seq<RecipeIngredient>, instructions: string)

  /** The normalisation of a parsed reply: defaults for missing fields, the AI marker for inferred recipes. */
  function Normalize(parsed: ParsedJson): (r: Result<ExtractedRecipe, string>)
    ensures parsed.SyntaxError? || parsed.JsonNull? <==> r == Err(ParseFailedError)
    ensures r.Ok? ==> r.value.title != ""
  {
    match parsed
    case SyntaxError => Err(ParseFailedError)
    case JsonNull => Err(ParseFailedError)
    case Fields(title, ingredients, instructions, isInferred) =>
      var base := if Truthy(instructions) then instructions.value else "";
      Ok(ExtractedRecipe(
        if Truthy(title) then title.value else UntitledRecipe,
        match ingredients case Some(list) => list case None => [],
        if isInferred then base + AiMarker else base))
  }

  /** `analyzeRecipeImage(imageUri)`, after the request: the error it throws or the recipe it returns. */
  function AnalyzeRecipeImage(keyConfigured: bool, reply: GeminiReply, parse: string -> ParsedJson)
    : (r: Result<ExtractedRecipe, string>)
    ensures !keyConfigured ==> r == Err(KeyMissingError)
    ensures keyConfigured && reply.Answered? && !Truthy(reply.text) ==> r == Err(NoResponseError)
    ensures keyConfigured && reply.NotOk? ==> r == Err("Gemini API error: " + NatToString(reply.status))
    ensures keyConfigured && reply.Answered? && Truthy(reply.text)
            ==> r == Normalize(parse(FenceStripped(reply.text.value)))
  {
    if !keyConfigured then Err(KeyMissingError)
    else match reply
      case Rejected(message) => Err(message)
      case NotOk(status) => Err("Gemini API error: " + NatToString(status))
      case Answered(text) =>
        if !Truthy(text) then Err(NoResponseError)
        else Normalize(parse(FenceStripped(text.value)))
  }

  /** Defaults: a missing or empty title, ingredient list or instruction text takes its default. */
  lemma NormalizeDefaults(title: Option<string>, ingredients: Option<seq<RecipeIngredient>>,
                          instructions: Option<string>, isInferred: bool)
    ensures var r := Normalize(Fields(title, ingredients, instructions, isInferred)).value;
      && (Truthy(title) ==> r.title == title.value)
      && (!Truthy(title) ==> r.title == UntitledRecipe)
      && (ingredients.None? ==> r.ingredients == [])
      && (ingredients.Some? ==> r.ingredients == ingredients.value)
      && (Truthy(instructions) && !isInferred ==> r.instructions == instructions.value)
      && (!Truthy(instructions) && !isInferred ==> r.instructions == "")
      && (!Truthy(instructions) && isInferred ==> r.instructions == AiMarker)
  {
  }

  /** The instructions end with the AI marker exactly when the reply says the recipe was inferred. */
  lemma AiMarkerIffInferred(title: Option<string>, ingredients: Option<seq<RecipeIngredient>>,
                            instructions: Option<string>, isInferred: bool)
    requires !(Truthy(instructions) && EndsWith(instructions.value, AiMarker))
    ensures var r := Normalize(Fields(title, ingredients, instructions, isInferred)).value;
      EndsWith(r.instructions, AiMarker) <==> isInferred
    ensures var r := Normalize(Fields(title, ingredients, instructions, isInferred)).value;
      isInferred ==> r.instructions[..|r.instructions| - |AiMarker|] == (if Truthy(instructions) then instructions.value else "")
  {
    var base := if Truthy(instructions) then instructions.value else "";
    var r := Normalize(Fields(title, ingredients, instructions, isInferred)).value;
    if isInferred {
      assert r.instructions == base + AiMarker;
      assert r.instructions[|r.instructions| - |AiMarker|..] == AiMarker;
    } else {
      assert r.instructions == base;
      if base == "" {
        assert !EndsWith(r.instructions, AiMarker);
      }
    }
  }

  // ---------------------------------------------------------------------------
  // generateRecipeDescription
  // ---------------------------------------------------------------------------

  datatype RecipeInfo = RecipeInfo(
    title: string,
    category: Option<string>,
    area: Option<string>,
    ingredients: seq<string>,
    imageUrl: Option<string>)

  const DescriptionPromptHead: string :=
    "Generate an engaging and appetizing description for this recipe in French:\n\nRecipe: "
  const DescriptionPromptTail: string :=
    "\n\nWrite a 2-3 sentence description that:\n- Describes the dish's flavors and textures\n"
    + "- Mentions the cuisine origin if available\n- Makes the reader want to try it\n"
    + "- Is written in a warm, inviting tone\n\nRespond with ONLY the description text, no quotes or formatting."

  /** `${field ? `Label: ${field}` : ''}`. */
  function OptionalLine(heading: string, field: Option<string>): string {
    if Truthy(field) then heading + field.value else ""
  }

  /** The ingredient list of the prompt: the first ten, joined by `, `. */
  function PromptIngredients(ingredients: seq<string>): string {
    Join(Lists.Take(ingredients, PromptIngredientCap), ", ")
  }

  /** The prompt of `generateRecipeDescription`. */
  function DescriptionPrompt(info: RecipeInfo): string {
    DescriptionPromptHead + info.title + "\n"
    + OptionalLine("Category: ", info.category) + "\n"
    + OptionalLine("Cuisine: ", info.area) + "\n"
    + "Ingredients: " + PromptIngredients(info.ingredients)
    + DescriptionPromptTail
  }

  /** Ingredients past the tenth never reach the prompt. */
  lemma PromptIgnoresLaterIngredients(info: RecipeInfo, more: seq<string>)
    requires |info.ingredients| >= PromptIngredientCap
    ensures DescriptionPrompt(info.(ingredients := info.ingredients + more)) == DescriptionPrompt(info)
  {
    var longer := info.ingredients + more;
    assert Lists.Take(longer, PromptIngredientCap) == Lists.Take(info.ingredients, PromptIngredientCap);
  }

  /** The listed ingredients are a prefix of the full list joined by `, `, at most ten of them. */
  lemma PromptIngredientsArePrefix(ingredients: seq<string>)
    ensures StartsWith(Join(ingredients, ", "), PromptIngredients(ingredients))
    ensures |ingredients| <= PromptIngredientCap ==> PromptIngredients(ingredients) == Join(ingredients, ", ")
  {
    var taken := Lists.Take(ingredients, PromptIngredientCap);
    JoinPrefix(ingredients, |taken|, ", ");
    assert ingredients[..|taken|] == taken;
  }

  /** An absent or empty category or cuisine leaves its line of the prompt empty. */
  lemma AbsentFieldsGiveEmptyLines(info: RecipeInfo)
    requires !Truthy(info.category) && !Truthy(info.area)
    ensures DescriptionPrompt(info)
            == DescriptionPromptHead + info.title + "\n\n\nIngredients: "
               + PromptIngredients(info.ingredients) + DescriptionPromptTail
  {
  }

  /** One part of a request's `contents[0].parts`. */
  datatype Part = TextPart(text: string) | InlineData(mimeType: string, data: string)

  /**
   * The parts of the description request: the prompt, followed by the image as
   * JPEG when an image URL is given and downloading it succeeded (`imageData`
   * is the base64 text, absent when the download threw).
   */
  function DescriptionRequestParts(info: RecipeInfo, imageData: Option<string>): (parts: seq<Part>)
    ensures 1 <= |parts| <= 2 && parts[0] == TextPart(DescriptionPrompt(info))
    ensures |parts| == 2 <==> Truthy(info.imageUrl) && imageData.Some?
    ensures |parts| == 2 ==> parts[1] == InlineData("image/jpeg", imageData.value)
  {
    [TextPart(DescriptionPrompt(info))]
    + (if Truthy(info.imageUrl) && imageData.Some? then [InlineData("image/jpeg", imageData.value)] else [])
  }

  /** `generateRecipeDescription`, after the request: the trimmed reply or the error it throws. */
  function GenerateRecipeDescription(keyConfigured: bool, reply: GeminiReply): (r: Result<string, string>)
    ensures !keyConfigured ==> r == Err(KeyMissingError)
    ensures keyConfigured && reply.Answered? && !Truthy(reply.text) ==> r == Err(NoResponseError)
    ensures keyConfigured && reply.Answered? && Truthy(reply.text) ==> r == Ok(Trim(reply.text.value))
    ensures r.Ok? ==> Trim(r.value) == r.value
  {
    if !keyConfigured then Err(KeyMissingError)
    else match reply
      case Rejected(message) => Err(message)
      case NotOk(status) => Err("Gemini API error: " + NatToString(status))
      case Answered(text) =>
        if !Truthy(text) then Err(NoResponseError)
        else
          TrimIdempotent(text.value);
          Ok(Trim(text.value))
  }
}
