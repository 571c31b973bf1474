/** The service's constant tables (resolution profiles, task prompts, upload
    extensions), the default prompt and the settings read from the
    environment. An environment variable is passed in as an `Option<string>`:
    `None` when it is unset. */
module Config {
  import opened Results
  import opened Strings

  /** One entry of the resolution table. */
  datatype Profile = Profile(baseSize: nat, imageSize: nat, cropMode: bool)

  const ResolutionConfigs: map<string, Profile> := map[
    "tiny" := Profile(512, 512, false),
    "small" := Profile(640, 640, false),
    "base" := Profile(1024, 1024, false),
    "large" := Profile(1280, 1280, false),
    "gundam" := Profile(1024, 640, true)
  ]

  /** The profile used when a resolution name is unknown. */
  const FallbackResolution := "gundam"

  /** The `locate_object` template with `reference` where its
      `{reference_text}` placeholder is. */
  function LocatePrompt(reference: string): string {
    ImageLine + (LocateLead + (reference + LocateSuffix))
  }

  const LocateLead := "Locate <|ref|>"
  const LocateSuffix := "<|/ref|> in the image."
  const ReferencePlaceholder := "{reference_text}"

  /** The tag that marks a prompt as one that goes with an image, and the
      line every built-in prompt starts with. */
  const ImageTag := "<image>"
  const ImageLine := "<image>\n"

  const FreeOcrBody := "Free OCR."
  const MarkdownBody := "<|grounding|>" + "Convert the document to markdown."
  const ParseChartBody := "Parse the figure."

  const TaskPrompts: map<string, string> := map[
    "free_ocr" := ImageLine + FreeOcrBody,
    "markdown" := ImageLine + MarkdownBody,
    "parse_chart" := ImageLine + ParseChartBody,
    "locate_object" := LocatePrompt(ReferencePlaceholder)
  ]

  const AllowedExtensions: set<string> := {".jpg", ".jpeg", ".png", ".bmp", ".tiff", ".webp"}

  /** `os.getenv(name, default)`. */
  function GetEnv(value: Option<string>, default: string): string {
    if value.Some? then value.value else default
  }

  /** `os.getenv(name, default).lower() == "true"`. */
  predicate EnvFlag(value: Option<string>, default: string) {
    Lower(GetEnv(value, default)) == "true"
  }

  predicate CropMode(env: Option<string>) { EnvFlag(env, "true") }
  predicate PrintNumVisTokens(env: Option<string>) { EnvFlag(env, "false") }
  predicate SkipRepeat(env: Option<string>) { EnvFlag(env, "true") }
  predicate Reload(env: Option<string>) { EnvFlag(env, "false") }
  predicate WarmupEnabled(env: Option<string>) { EnvFlag(env, "false") }

  /** `PROMPT`: the environment's value, or the text
      `<image>\n<|grounding|>Convert the document to markdown.`. */
  function DefaultPrompt(env: Option<string>): string {
    GetEnv(env, ImageLine + MarkdownBody)
  }

  /** `MAX_CONCURRENCY = int(os.getenv("MAX_CONCURRENCY", "10"))`; `None` is
      the `ValueError` raised at import time. */
  function MaxConcurrency(env: Option<string>): Option<int> {
    ParseInt(GetEnv(env, "10"))
  }

  // ---------------------------------------------------------------------------
  // Properties of the tables
  // ---------------------------------------------------------------------------

  /** Exactly five profiles, with their literal sizes; only `gundam` crops. */
  lemma {:induction false} ResolutionTable()
    ensures ResolutionConfigs.Keys == {"tiny", "small", "base", "large", "gundam"}
    ensures ResolutionConfigs["tiny"] == Profile(512, 512, false)
    ensures ResolutionConfigs["small"] == Profile(640, 640, false)
    ensures ResolutionConfigs["base"] == Profile(1024, 1024, false)
    ensures ResolutionConfigs["large"] == Profile(1280, 1280, false)
    ensures ResolutionConfigs["gundam"] == Profile(1024, 640, true)
    ensures forall name :: name in ResolutionConfigs ==>
      (ResolutionConfigs[name].cropMode <==> name == FallbackResolution)
    ensures FallbackResolution in ResolutionConfigs
  {
  }

  /** Exactly four task prompts, each beginning with the image tag and a
      newline. */
  lemma {:induction false} PromptTable()
    ensures TaskPrompts.Keys == {"free_ocr", "markdown", "parse_chart", "locate_object"}
    ensures forall name :: name in TaskPrompts ==> StartsWith(TaskPrompts[name], ImageLine)
  {
    PrefixStartsWith(ImageLine, FreeOcrBody);
    PrefixStartsWith(ImageLine, MarkdownBody);
    PrefixStartsWith(ImageLine, ParseChartBody);
    PrefixStartsWith(ImageLine, LocateLead + (ReferencePlaceholder + LocateSuffix));
  }

  /** Only `locate_object` has the `{reference_text}` placeholder, and it has
      it between the prefix and suffix the service substitutes around. */
  lemma {:induction false} PlaceholderOnlyInLocate()
    ensures forall name :: name in TaskPrompts ==>
      (Contains(TaskPrompts[name], ReferencePlaceholder) <==> name == "locate_object")
  {
    var locate := TaskPrompts["locate_object"];
    var at := |ImageLine| + |LocateLead|;
    assert locate[at..at + |ReferencePlaceholder|] == ReferencePlaceholder;
    assert StartsAt(locate, at, ReferencePlaceholder);
    NoBrace(ImageLine, FreeOcrBody);
    NoBrace(ImageLine, "<|grounding|>");
    NoBrace(ImageLine + "<|grounding|>", "Convert the document to markdown.");
    assert ImageLine + MarkdownBody == ImageLine + "<|grounding|>" + "Convert the document to markdown.";
    NoBrace(ImageLine, ParseChartBody);
  }

  lemma {:induction false} NoBrace(a: string, b: string)
    requires forall k :: 0 <= k < |a| ==> a[k] != '{'
    requires forall k :: 0 <= k < |b| ==> b[k] != '{'
    ensures forall k :: 0 <= k < |a + b| ==> (a + b)[k] != '{'
    ensures !Contains(a + b, ReferencePlaceholder)
  {
    FirstCharAbsent(a + b, ReferencePlaceholder);
  }

  /** The built-in `PROMPT` is the markdown task's template. */
  lemma {:induction false} DefaultPromptIsMarkdown()
    ensures DefaultPrompt(None) == TaskPrompts["markdown"]
  {
  }

  /** Six extensions, each a dot followed by lower-case letters. */
  lemma {:induction false} ExtensionTable()
    ensures |AllowedExtensions| == 6
    ensures forall e :: e in AllowedExtensions ==>
      |e| >= 2 && e[0] == '.' && Lower(e) == e
  {
    assert |{".jpg", ".jpeg", ".png", ".bmp", ".tiff", ".webp"}| == 6;
  }

  // ---------------------------------------------------------------------------
  // Properties of the flags
  // ---------------------------------------------------------------------------

  /** A flag is set exactly when its text is `true` in any mix of cases:
      four characters, each lower-casing to the letter of `true` at its
      place. Surrounding blanks are not stripped. */
  lemma {:induction false} EnvFlagSpelling(v: string, default: string)
    ensures EnvFlag(Some(v), default) <==>
      |v| == 4 && forall k :: 0 <= k < 4 ==> LowerChar(v[k]) == "true"[k]
  {
    var l := Lower(v);
    if |v| == 4 && forall k :: 0 <= k < 4 ==> LowerChar(v[k]) == "true"[k] {
      forall k | 0 <= k < 4 ensures l[k] == "true"[k] {}
    }
  }

  /** Changing the case of the setting does not change the flag. */
  lemma {:induction false} EnvFlagIgnoresCase(v: string, default: string)
    ensures EnvFlag(Some(v), default) <==> EnvFlag(Some(Lower(v)), default)
  {
    LowerIdempotent(v);
  }

  /** Unset flags take their defaults: crop mode and repeat skipping on, the
      others off. */
  lemma {:induction false} FlagDefaults()
    ensures CropMode(None) && SkipRepeat(None)
    ensures !PrintNumVisTokens(None) && !Reload(None) && !WarmupEnabled(None)
  {
    assert Lower("true") == "true";
    assert Lower("false")[0] == 'f';
  }

  /** Some spellings: `True` and `TRUE` set a flag; `1`, `yes` and ` true`
      do not. */
  lemma {:induction false} FlagSpellings(default: string)
    ensures EnvFlag(Some("True"), default) && EnvFlag(Some("TRUE"), default)
    ensures !EnvFlag(Some("1"), default) && !EnvFlag(Some("yes"), default)
    ensures !EnvFlag(Some(" true"), default)
  {
    EnvFlagSpelling("True", default);
    EnvFlagSpelling("TRUE", default);
    EnvFlagSpelling("1", default);
    EnvFlagSpelling("yes", default);
    EnvFlagSpelling(" true", default);
  }

  /** Unset, `MAX_CONCURRENCY` is 10; set to a decimal numeral, it is that
      number, unless the numeral has more than 4300 digits and `int()`
      raises. */
  lemma {:induction false} MaxConcurrencyValue(d: string)
    requires |d| > 0 && AllDigits(d)
    ensures MaxConcurrency(None) == Some(10)
    ensures MaxConcurrency(Some(d)) == if |d| <= IntMaxStrDigits then Some(DigitsValue(d)) else None
  {
    ParseIntOfDigits("10");
    ParseIntOfDigits(d);
    assert "10"[..1] == "1";
  }
}
