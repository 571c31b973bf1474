/** The inference service: choosing the prompt and the resolution profile,
    shaping the engine request, collecting the engine's stream, setting the
    processor's sizes for one call and putting them back, and turning the
    tagged output into markdown.

    The engine, the image tokenizer and the image loader are foreign code.
    They come in as values: an `Engine` maps a request to the snapshots it
    streams (and possibly an exception raised after them), a `Tokenizer`
    maps the processor settings and an image to features or an exception
    message, and the loaded image is an `Option<Image>`. */
module OcrService {
  import opened Results
  import opened Strings
  import opened Config
  import opened Schemas
  import opened ImageUtils

  // ---------------------------------------------------------------------------
  // Foreign collaborators
  // ---------------------------------------------------------------------------

  /** A decoded picture: its size and, standing for its pixels, an opaque
      identity. */
  datatype Image = Image(width: nat, height: nat, pixels: nat)

  /** What the processor's tokenizer makes of an image; opaque here. */
  datatype ImageFeatures = ImageFeatures(id: nat)

  /** The settings the tokenizer reads: the processor's two sizes and the
      profile's crop flag. */
  datatype TokenizeConfig = TokenizeConfig(imageSize: nat, baseSize: nat, cropping: bool)

  datatype Tokenizer = Tokenizer(tokenize: (TokenizeConfig, Image) -> Result<ImageFeatures, string>)

  /** The two request shapes `stream_generate` sends. */
  datatype Request = Multimodal(prompt: string, image: ImageFeatures) | TextOnly(prompt: string)

  /** One streamed `request_output`: the texts of its `outputs`. */
  datatype Snapshot = Snapshot(outputs: seq<string>)

  /** Everything the engine streams for one request, and the message of the
      exception it raises after the last snapshot, if it raises. */
  datatype EngineRun = EngineRun(snapshots: seq<Snapshot>, failure: Option<string>)

  datatype Engine = Engine(generate: Request -> EngineRun)

  /** The exceptions of the service. */
  datatype Error =
    | EngineNotInitialized
    | EmptyPrompt
    | NoOutput
    | ImageLoadFailed
    | ProcessorNotInitialized
    | Raised(message: string)

  /** `str(e)` of each exception. */
  function ErrorMessage(e: Error): string {
    match e
    case EngineNotInitialized => "Engine not initialized. Please restart the service."
    case EmptyPrompt => "prompt is none!!!"
    case NoOutput => "cannot access local variable 'final_output' where it is not associated with a value"
    case ImageLoadFailed => "Failed to load image"
    case ProcessorNotInitialized => "Processor not initialized"
    case Raised(message) => message
  }

  // ---------------------------------------------------------------------------
  // Prompt and profile
  // ---------------------------------------------------------------------------

  /** Python truthiness of an optional string. */
  predicate Truthy(s: Option<string>) {
    s.Some? && s.value != ""
  }

  /** The prompt of `process_ocr_task`. */
  function SelectPrompt(taskType: string, referenceText: Option<string>): string {
    if taskType == "locate_object" && Truthy(referenceText) then LocatePrompt(referenceText.value)
    else if taskType in TaskPrompts then TaskPrompts[taskType]
    else taskType
  }

  /** The prompt of `run_deepseek_on_pil`, which has no reference text. */
  function PilPrompt(taskType: string): string {
    if taskType in TaskPrompts then TaskPrompts[taskType] else taskType
  }

  /** The three ways of choosing a prompt: a located reference substituted
      into its template, a known template as is, anything else verbatim. */
  lemma {:induction false} SelectPromptCases(taskType: string, referenceText: Option<string>)
    ensures taskType == "locate_object" && Truthy(referenceText) ==>
      SelectPrompt(taskType, referenceText) == LocatePrompt(referenceText.value)
    ensures taskType in TaskPrompts && !(taskType == "locate_object" && Truthy(referenceText)) ==>
      SelectPrompt(taskType, referenceText) == TaskPrompts[taskType]
    ensures taskType !in TaskPrompts ==> SelectPrompt(taskType, referenceText) == taskType
    ensures taskType in TaskPrompts ==> StartsWith(SelectPrompt(taskType, referenceText), ImageLine)
  {
    PromptTable();
    if taskType == "locate_object" && Truthy(referenceText) {
      PrefixStartsWith(ImageLine, LocateLead + (referenceText.value + LocateSuffix));
    }
  }

  /** The reference text can be read back out of the prompt it was
      substituted into, so different references give different prompts. */
  lemma {:induction false} LocatePromptReference(a: string, b: string)
    ensures var p := LocatePrompt(a); var lead := |ImageLine| + |LocateLead|;
      lead + |LocateSuffix| <= |p| && p[lead..|p| - |LocateSuffix|] == a
    ensures LocatePrompt(a) == LocatePrompt(b) ==> a == b
  {
    var p, q := LocatePrompt(a), LocatePrompt(b);
    var lead := |ImageLine| + |LocateLead|;
    assert p[lead..|p| - |LocateSuffix|] == a;
    assert q[lead..|q| - |LocateSuffix|] == b;
  }

  /** Without a reference, both services choose the same prompt; the
      picture service leaves the placeholder of `locate_object` in place. */
  lemma {:induction false} PilPromptNeverSubstitutes(taskType: string)
    ensures PilPrompt(taskType) == SelectPrompt(taskType, None)
    ensures Contains(PilPrompt("locate_object"), ReferencePlaceholder)
  {
    PlaceholderOnlyInLocate();
  }

  /** `RESOLUTION_CONFIGS.get(resolution, RESOLUTION_CONFIGS["gundam"])`. */
  function ResolveProfile(resolution: string): Profile {
    if resolution in ResolutionConfigs then ResolutionConfigs[resolution]
    else ResolutionConfigs[FallbackResolution]
  }

  /** `resolution if resolution in RESOLUTION_CONFIGS else "gundam"`. */
  function ResolveName(resolution: string): string {
    if resolution in ResolutionConfigs then resolution else FallbackResolution
  }

  /** A known name gives its own profile and an unknown one the `gundam`
      profile, and both services agree. */
  lemma {:induction false} ResolutionFallback(resolution: string)
    ensures ResolveName(resolution) in ResolutionConfigs
    ensures ResolveProfile(resolution) == ResolutionConfigs[ResolveName(resolution)]
    ensures resolution in ResolutionConfigs ==> ResolveProfile(resolution) == ResolutionConfigs[resolution]
    ensures resolution !in ResolutionConfigs ==> ResolveProfile(resolution) == Profile(1024, 640, true)
  {
    ResolutionTable();
  }

  // ---------------------------------------------------------------------------
  // `stream_generate`
  // ---------------------------------------------------------------------------

  /** The request for `image` and `prompt`, or the `ValueError` for an empty
      prompt. */
  function BuildRequest(image: Option<ImageFeatures>, prompt: string): Result<Request, Error> {
    if image.Some? && Contains(prompt, ImageTag) then Success(Multimodal(prompt, image.value))
    else if prompt != "" then Success(TextOnly(prompt))
    else Failure(EmptyPrompt)
  }

  /** A multimodal request exactly when there are features and the prompt
      has the image tag; a text request for any other non-empty prompt; an
      error for the empty prompt. The prompt is sent unchanged. */
  lemma {:induction false} BuildRequestCases(image: Option<ImageFeatures>, prompt: string)
    ensures BuildRequest(image, prompt).Success? <==> prompt != ""
    ensures BuildRequest(image, prompt).Success? ==> BuildRequest(image, prompt).value.prompt == prompt
    ensures BuildRequest(image, prompt).Success? ==>
      (BuildRequest(image, prompt).value.Multimodal? <==> image.Some? && Contains(prompt, ImageTag))
    ensures BuildRequest(image, prompt).Success? && BuildRequest(image, prompt).value.Multimodal? ==>
      BuildRequest(image, prompt).value.image == image.value
    ensures prompt == "" ==> BuildRequest(image, prompt) == Failure(EmptyPrompt)
  {
    if prompt == "" {
      assert !StartsAt(prompt, 0, ImageTag);
    }
  }

  predicate HasOutput(s: Snapshot) {
    |s.outputs| > 0
  }

  /** The first output text of the last snapshot that has outputs. */
  function LastOutput(snaps: seq<Snapshot>): Option<string> {
    if snaps == [] then None
    else
      var last := snaps[|snaps| - 1];
      if HasOutput(last) then Some(last.outputs[0]) else LastOutput(snaps[..|snaps| - 1])
  }

  /** `len` of the text held so far, 0 before any. */
  function OutputLength(o: Option<string>): nat {
    if o.Some? then |o.value| else 0
  }

  /** `full[n:]`. */
  function Drop(full: string, n: nat): string {
    if n <= |full| then full[n..] else ""
  }

  /** What the loop prints: for each snapshot with outputs, the part of its
      text beyond the length of the previous one. */
  function Echo(snaps: seq<Snapshot>): string {
    if snaps == [] then ""
    else
      var init := snaps[..|snaps| - 1];
      var last := snaps[|snaps| - 1];
      Echo(init) + (if HasOutput(last) then Drop(last.outputs[0], OutputLength(LastOutput(init))) else "")
  }

  /** The text `stream_generate` returns, or its exception. */
  function StreamResult(engine: Option<Engine>, image: Option<ImageFeatures>, prompt: string): Result<string, Error> {
    if engine.None? then Failure(EngineNotInitialized)
    else
      var request :- BuildRequest(image, prompt);
      var run := engine.value.generate(request);
      if run.failure.Some? then Failure(Raised(run.failure.value))
      else if LastOutput(run.snapshots).None? then Failure(NoOutput)
      else Success(LastOutput(run.snapshots).value)
  }

  /** What `stream_generate` prints: the increments, then the closing blank
      line when the stream ends normally. */
  function StreamConsole(engine: Option<Engine>, image: Option<ImageFeatures>, prompt: string): string {
    if engine.None? || BuildRequest(image, prompt).Failure? then ""
    else
      var run := engine.value.generate(BuildRequest(image, prompt).value);
      Echo(run.snapshots) + (if run.failure.Some? then "" else "\n\n")
  }

  /** `stream_generate(image, prompt)` against an engine oracle; `console`
      is what it prints. */
  method StreamGenerate(engine: Option<Engine>, image: Option<ImageFeatures>, prompt: string)
    returns (r: Result<string, Error>, console: string)
    ensures r == StreamResult(engine, image, prompt)
    ensures console == StreamConsole(engine, image, prompt)
  {
    console := "";
    if engine.None? {
      return Failure(EngineNotInitialized), console;
    }
    var request := BuildRequest(image, prompt);
    if request.Failure? {
      return Failure(request.error), console;
    }
    var run := engine.value.generate(request.value);
    var snaps := run.snapshots;
    var printedLength := 0;
    var finalOutput: Option<string> := None;
    for k := 0 to |snaps|
      invariant finalOutput == LastOutput(snaps[..k])
      invariant printedLength == OutputLength(finalOutput)
      invariant console == Echo(snaps[..k])
    {
      assert snaps[..k + 1][..k] == snaps[..k];
      if |snaps[k].outputs| > 0 {
        var fullText := snaps[k].outputs[0];
        var newText := if printedLength <= |fullText| then fullText[printedLength..] else "";
        console := console + newText;
        printedLength := |fullText|;
        finalOutput := Some(fullText);
      }
    }
    assert snaps[..|snaps|] == snaps;
    if run.failure.Some? {
      return Failure(Raised(run.failure.value)), console;
    }
    console := console + "\n\n";
    if finalOutput.None? {
      return Failure(NoOutput), console;
    }
    r := Success(finalOutput.value);
  }

  /** The returned text is the first output of a snapshot that has outputs,
      and no later snapshot has any. */
  lemma {:induction false} LastOutputIsLast(snaps: seq<Snapshot>)
    ensures LastOutput(snaps).Some? <==> exists i :: 0 <= i < |snaps| && HasOutput(snaps[i])
    ensures LastOutput(snaps).Some? ==>
      (exists i :: 0 <= i < |snaps| && HasOutput(snaps[i])
        && LastOutput(snaps).value == snaps[i].outputs[0]
        && forall j :: i < j < |snaps| ==> !HasOutput(snaps[j]))
  {
    if snaps != [] {
      var init := snaps[..|snaps| - 1];
      LastOutputIsLast(init);
      assert forall i :: 0 <= i < |init| ==> init[i] == snaps[i];
    }
  }

  /** A stream whose every text extends the previous one. */
  predicate Growing(snaps: seq<Snapshot>) {
    snaps == [] ||
    (var init := snaps[..|snaps| - 1];
     var last := snaps[|snaps| - 1];
     Growing(init) &&
     (HasOutput(last) && LastOutput(init).Some? ==> LastOutput(init).value <= last.outputs[0]))
  }

  /** When each text extends the previous one, the printed increments add up
      to the returned text. */
  lemma {:induction false} EchoOfGrowingStream(snaps: seq<Snapshot>)
    requires Growing(snaps)
    ensures Echo(snaps) == if LastOutput(snaps).Some? then LastOutput(snaps).value else ""
  {
    if snaps != [] {
      var init := snaps[..|snaps| - 1];
      var last := snaps[|snaps| - 1];
      EchoOfGrowingStream(init);
      if HasOutput(last) {
        var t := if LastOutput(init).Some? then LastOutput(init).value else "";
        var f := last.outputs[0];
        assert t <= f;
        assert t + f[|t|..] == f;
      }
    }
  }

  /** A stream that rewrites its text prints only what runs past the
      previous length: `abc` then `xy` prints `abc` and returns `xy`. */
  lemma {:induction false} EchoOfRewrittenStream()
    ensures var snaps := [Snapshot(["abc"]), Snapshot(["xy"])];
      Echo(snaps) == "abc" && LastOutput(snaps) == Some("xy")
  {
    var snaps := [Snapshot(["abc"]), Snapshot(["xy"])];
    assert snaps[..1] == [Snapshot(["abc"])];
    assert snaps[..1][..0] == [];
  }

  // ---------------------------------------------------------------------------
  // The processor, set for one call and restored
  // ---------------------------------------------------------------------------

  /** The two processor fields the service changes. */
  class Processor {
    var imageSize: nat
    var baseSize: nat

    constructor (imageSize: nat, baseSize: nat)
      ensures this.imageSize == imageSize && this.baseSize == baseSize
    {
      this.imageSize := imageSize;
      this.baseSize := baseSize;
    }
  }

  /** The text the engine produces for `prompt` and `image` under `profile`:
      a prompt with the image tag is tokenized with the profile's sizes and
      crop flag first. `hasProcessor` is false when no processor is loaded. */
  function InferResult(hasProcessor: bool, profile: Profile, prompt: string, image: Image,
                       tokenizer: Tokenizer, engine: Option<Engine>): Result<string, Error>
  {
    if !hasProcessor then Failure(ProcessorNotInitialized)
    else if Contains(prompt, ImageTag) then
      var t := tokenizer.tokenize(TokenizeConfig(profile.imageSize, profile.baseSize, profile.cropMode), image);
      if t.Failure? then Failure(Raised(t.error)) else StreamResult(engine, Some(t.value), prompt)
    else StreamResult(engine, None, prompt)
  }

  /** The processor section shared by both services: set the sizes from
      the profile, tokenize if the prompt asks for the image, run the
      engine, and put the previous sizes back whatever happened. */
  method Infer(processor: Processor?, profile: Profile, prompt: string, image: Image,
               tokenizer: Tokenizer, engine: Option<Engine>)
    returns (r: Result<string, Error>)
    modifies processor
    ensures processor != null ==>
      processor.imageSize == old(processor.imageSize) && processor.baseSize == old(processor.baseSize)
    ensures r == InferResult(processor != null, profile, prompt, image, tokenizer, engine)
  {
    if processor == null {
      return Failure(ProcessorNotInitialized);
    }
    var originalImageSize := processor.imageSize;
    var originalBaseSize := processor.baseSize;
    processor.imageSize := profile.imageSize;
    processor.baseSize := profile.baseSize;
    var cropMode := profile.cropMode;
    // try
    var features: Option<ImageFeatures> := None;
    var raised: Option<string> := None;
    if Contains(prompt, ImageTag) {
      var t := tokenizer.tokenize(TokenizeConfig(processor.imageSize, processor.baseSize, cropMode), image);
      if t.Failure? {
        raised := Some(t.error);
      } else {
        features := Some(t.value);
      }
    }
    if raised.Some? {
      r := Failure(Raised(raised.value));
    } else {
      var console;
      r, console := StreamGenerate(engine, features, prompt);
    }
    // finally
    processor.imageSize := originalImageSize;
    processor.baseSize := originalBaseSize;
  }

  // ---------------------------------------------------------------------------
  // Markdown reconstruction
  // ---------------------------------------------------------------------------

  /** The link that replaces the `idx`-th picture span. */
  function ImageLink(idx: nat): string {
    "![](images/" + NatToString(idx) + ".jpg)\n"
  }

  const Coloneqq := "\\coloneqq"
  const Eqqcolon := "\\eqqcolon"

  /** `.replace('\\coloneqq', ':=').replace('\\eqqcolon', '=:')`. */
  function CleanMath(s: string): string {
    Replace(Replace(s, Coloneqq, ":="), Eqqcolon, "=:")
  }

  /** The text after the first `n` picture spans are replaced by their
      links, in order. */
  function ReplaceImages(text: string, images: seq<string>, n: nat): string
    requires n <= |images|
  {
    if n == 0 then text else Replace(ReplaceImages(text, images, n - 1), images[n - 1], ImageLink(n - 1))
  }

  /** The text after the first `n` other spans are deleted, each deletion
      followed by the two math rewrites. */
  function DropOthers(text: string, others: seq<string>, n: nat): string
    requires n <= |others|
  {
    if n == 0 then text else CleanMath(Replace(DropOthers(text, others, n - 1), others[n - 1], ""))
  }

  function Reconstruct(text: string, images: seq<string>, others: seq<string>): string {
    DropOthers(ReplaceImages(text, images, |images|), others, |others|)
  }

  /** The two loops that rebuild the markdown from the raw text. */
  method ReconstructMarkdown(text: string, images: seq<string>, others: seq<string>)
    returns (processed: string)
    ensures processed == Reconstruct(text, images, others)
  {
    processed := text;
    for idx := 0 to |images|
      invariant processed == ReplaceImages(text, images, idx)
    {
      processed := Replace(processed, images[idx], ImageLink(idx));
    }
    var afterImages := processed;
    for k := 0 to |others|
      invariant processed == DropOthers(afterImages, others, k)
    {
      processed := Replace(Replace(Replace(processed, others[k], ""), Coloneqq, ":="), Eqqcolon, "=:");
    }
  }

  /** After the two math rewrites neither macro is left. */
  lemma {:induction false} CleanMathRemovesMacros(s: string)
    ensures !Contains(CleanMath(s), Coloneqq) && !Contains(CleanMath(s), Eqqcolon)
  {
    var a := ReplaceAll(s, Coloneqq, ":=");
    assert Coloneqq[0] !in ":=" && ':' !in Coloneqq;
    ReplaceKeepsOut(s, Coloneqq, ":=", Coloneqq);
    assert Eqqcolon[0] !in "=:" && '=' !in Eqqcolon && '=' !in Coloneqq;
    ReplaceKeepsOut(a, Eqqcolon, "=:", Coloneqq);
    ReplaceKeepsOut(a, Eqqcolon, "=:", Eqqcolon);
  }

  /** The math rewrites run only inside the loop over the other spans: with
      at least one other span neither macro survives; with none the text is
      just the picture replacement, macros and all. */
  lemma {:induction false} MathRewritesNeedOtherSpans(text: string, images: seq<string>, others: seq<string>)
    ensures |others| > 0 ==>
      !Contains(Reconstruct(text, images, others), Coloneqq)
      && !Contains(Reconstruct(text, images, others), Eqqcolon)
    ensures |others| == 0 ==> Reconstruct(text, images, others) == ReplaceImages(text, images, |images|)
  {
    if |others| > 0 {
      CleanMathRemovesMacros(Replace(DropOthers(ReplaceImages(text, images, |images|), others, |others| - 1),
                                     others[|others| - 1], ""));
    }
  }

  /** A link starts with `!` and holds no `<`. */
  lemma {:induction false} ImageLinkShape(idx: nat)
    ensures |ImageLink(idx)| > 0 && ImageLink(idx)[0] == '!' && '<' !in ImageLink(idx)
  {
    var d := NatToString(idx);
    var link := ImageLink(idx);
    assert link == "![](images/" + d + ".jpg)\n";
    forall k | 0 <= k < |link| ensures link[k] != '<' {
      if 11 <= k < 11 + |d| {
        assert link[k] == d[k - 11];
        assert IsDigit(d[k - 11]);
      }
    }
  }

  /** Every picture span is gone once the links are in: a link cannot bring
      a span back, because spans begin with `<` and links hold none, and a
      later replacement cannot join text into an earlier span, because
      links begin with `!` and spans hold none. */
  lemma {:induction false} ImagesAllReplaced(text: string, images: seq<string>, n: nat)
    requires n <= |images|
    requires forall k :: 0 <= k < |images| ==> |images[k]| > 0 && images[k][0] == '<' && '!' !in images[k]
    ensures forall k :: 0 <= k < n ==> !Contains(ReplaceImages(text, images, n), images[k])
  {
    if n > 0 {
      ImagesAllReplaced(text, images, n - 1);
      var prev := ReplaceImages(text, images, n - 1);
      ImageLinkShape(n - 1);
      forall k | 0 <= k < n ensures !Contains(ReplaceImages(text, images, n), images[k]) {
        ReplaceKeepsOut(prev, images[n - 1], ImageLink(n - 1), images[k]);
      }
    }
  }

  /** A picture span listed twice is consumed by its first index: the
      second replacement finds nothing, so link 1 never appears in its
      place. */
  lemma {:induction false} RepeatedImageSpan(text: string, span: string)
    requires |span| > 0 && span[0] == '<' && '!' !in span
    ensures ReplaceImages(text, [span, span], 2) == Replace(text, span, ImageLink(0))
  {
    var images := [span, span];
    var link := ImageLink(0);
    assert link == "![](images/0.jpg)\n";
    assert link[0] == '!' && '<' !in link;
    var once := ReplaceAll(text, span, link);
    assert ReplaceImages(text, images, 1) == Replace(ReplaceImages(text, images, 0), span, link);
    assert ReplaceImages(text, images, 1) == once;
    ReplaceKeepsOut(text, span, link, span);
    ReplaceAllAbsent(once, span, ImageLink(1));
    assert ReplaceImages(text, images, 2) == Replace(once, span, ImageLink(1));
  }

  // ---------------------------------------------------------------------------
  // Deleting the other spans
  // ---------------------------------------------------------------------------

  /** A span as the model writes it: a label, then a box list. */
  function SpanOf(tag: string, det: string): string {
    RefOpen + tag + RefCloseDetOpen + det + DetClose
  }

  /** A tagged text cut into plain runs and spans. */
  datatype Piece = Plain(text: string) | Tagged(tag: string, det: string)

  function PieceText(x: Piece): string {
    match x
    case Plain(t) => t
    case Tagged(l, d) => SpanOf(l, d)
  }

  function Render(ps: seq<Piece>): string
    decreases |ps|
  {
    if ps == [] then "" else PieceText(ps[0]) + Render(ps[1..])
  }

  /** The spans of the text, in order: what the regex search lists. */
  function SpanTexts(ps: seq<Piece>): seq<string>
    decreases |ps|
  {
    if ps == [] then []
    else if ps[0].Tagged? then [PieceText(ps[0])] + SpanTexts(ps[1..])
    else SpanTexts(ps[1..])
  }

  /** The text with every span cut out. */
  function PlainText(ps: seq<Piece>): string
    decreases |ps|
  {
    if ps == [] then ""
    else if ps[0].Plain? then ps[0].text + PlainText(ps[1..])
    else PlainText(ps[1..])
  }

  /** The pieces left once every span written as one of `ts` is deleted. */
  function WithoutSpans(ps: seq<Piece>, ts: seq<string>): seq<Piece>
    decreases |ps|
  {
    if ps == [] then []
    else if ps[0].Plain? || PieceText(ps[0]) !in ts then [ps[0]] + WithoutSpans(ps[1..], ts)
    else WithoutSpans(ps[1..], ts)
  }

  lemma {:induction false} RenderCons(x: Piece, rest: seq<Piece>)
    ensures Render([x] + rest) == PieceText(x) + Render(rest)
  {
    assert ([x] + rest)[1..] == rest;
  }

  lemma {:induction false} WithoutCons(x: Piece, rest: seq<Piece>, ts: seq<string>)
    ensures WithoutSpans([x] + rest, ts)
      == if x.Plain? || PieceText(x) !in ts then [x] + WithoutSpans(rest, ts) else WithoutSpans(rest, ts)
  {
    assert ([x] + rest)[1..] == rest;
  }

  predicate PieceAvoids(x: Piece, c: char) {
    match x
    case Plain(t) => c !in t
    case Tagged(l, d) => c !in l && c !in d
  }

  /** No plain run, label or box list holds `c`. */
  predicate Avoids(ps: seq<Piece>, c: char) {
    forall k :: 0 <= k < |ps| ==> PieceAvoids(ps[k], c)
  }

  /** A span whose label and box list hold no `<`. */
  ghost predicate IsSpanText(s: string) {
    exists l, d :: '<' !in l && '<' !in d && s == SpanOf(l, d)
  }

  /** Where a span's own characters are: its `<` sit only at the four marker
      starts, and two places after each the markers differ (`r`, `/`, `d`,
      `/`). */
  lemma {:induction false} SpanChars(l: string, d: string)
    ensures var t := SpanOf(l, d);
      && |t| == 30 + |l| + |d|
      && t[0] == '<' && t[2] == 'r'
      && (forall x :: 0 <= x < |l| ==> t[7 + x] == l[x])
      && t[7 + |l|] == '<' && t[9 + |l|] == '/'
      && t[15 + |l|] == '<' && t[17 + |l|] == 'd'
      && (forall x :: 0 <= x < |d| ==> t[22 + |l| + x] == d[x])
      && t[22 + |l| + |d|] == '<' && t[24 + |l| + |d|] == '/'
  {
    var t := SpanOf(l, d);
    assert t == RefOpen + l + RefCloseDetOpen + d + DetClose;
  }

  lemma {:induction false} SpanLtPositions(l: string, d: string, x: nat)
    requires '<' !in l && '<' !in d
    requires 0 < x < |SpanOf(l, d)| && SpanOf(l, d)[x] == '<'
    ensures x == 7 + |l| || x == 15 + |l| || x == 22 + |l| + |d|
  {
    var t := SpanOf(l, d);
    var a := RefOpen + l;
    var b := a + RefCloseDetOpen;
    var c := b + d;
    assert t == c + DetClose;
  }

  lemma {:induction false} StartsAtChar(s: string, i: nat, p: string, j: nat)
    requires StartsAt(s, i, p) && j < |p|
    ensures s[i + j] == p[j]
  {
    assert s[i..i + |p|][j] == s[i + j];
  }

  /** A span can only meet another span's text at its own first character,
      and then the two are the same span: the `<` of the markers fix where
      the label and the box list end. */
  lemma {:induction false} SpanAligned(l: string, d: string, l': string, d': string, u: string, i: nat)
    requires '<' !in l && '<' !in d && '<' !in l' && '<' !in d'
    requires i < |SpanOf(l, d)| && StartsAt(SpanOf(l, d) + u, i, SpanOf(l', d'))
    ensures i == 0 && l == l' && d == d'
  {
    var t, q := SpanOf(l, d), SpanOf(l', d');
    var w := t + u;
    SpanChars(l, d);
    SpanChars(l', d');
    assert forall x :: 0 <= x < |t| ==> w[x] == t[x];
    if i > 0 {
      StartsAtChar(w, i, q, 0);
      SpanLtPositions(l, d, i);
      assert false;
    }
    if |l| < |l'| {
      StartsAtChar(w, 0, q, 7 + |l|);
      assert false;
    }
    if |l'| < |l| {
      assert false;
    }
    forall x | 0 <= x < |l| ensures l[x] == l'[x] {
      StartsAtChar(w, 0, q, 7 + x);
    }
    if |d| < |d'| {
      StartsAtChar(w, 0, q, 22 + |l| + |d|);
      assert false;
    }
    if |d'| < |d| {
      assert false;
    }
    assert l == l';
    forall x | 0 <= x < |d| ensures d[x] == d'[x] {
      StartsAtChar(w, 0, q, 22 + |l| + x);
      assert t[22 + |l| + x] == d[x];
      assert q[22 + |l'| + x] == d'[x];
    }
  }

  /** Deleting one span's text removes exactly the pieces that are that
      span. */
  lemma {:induction false} DeleteSpan(ps: seq<Piece>, l': string, d': string)
    requires Avoids(ps, '<') && '<' !in l' && '<' !in d'
    ensures ReplaceAll(Render(ps), SpanOf(l', d'), "") == Render(WithoutSpans(ps, [SpanOf(l', d')]))
    decreases |ps|
  {
    if ps == [] {
      SpanChars(l', d');
      assert FindFrom("", SpanOf(l', d'), 0).None?;
    } else {
      assert forall k :: 0 <= k < |ps[1..]| ==> ps[1..][k] == ps[k + 1];
      DeleteSpan(ps[1..], l', d');
      assert PieceAvoids(ps[0], '<');
      DeleteAtHead(ps, l', d');
    }
  }

  lemma {:induction false} DeleteAtHead(ps: seq<Piece>, l': string, d': string)
    requires ps != [] && PieceAvoids(ps[0], '<') && '<' !in l' && '<' !in d'
    requires ReplaceAll(Render(ps[1..]), SpanOf(l', d'), "") == Render(WithoutSpans(ps[1..], [SpanOf(l', d')]))
    ensures ReplaceAll(Render(ps), SpanOf(l', d'), "") == Render(WithoutSpans(ps, [SpanOf(l', d')]))
  {
    var q := SpanOf(l', d');
    var rest := Render(ps[1..]);
    SpanChars(l', d');
    match ps[0]
    case Plain(g) =>
      NoStartIn(g, rest, q);
      ReplaceAllSkip(g, rest, q, "");
      RenderCons(ps[0], WithoutSpans(ps[1..], [q]));
    case Tagged(l, d) =>
      var t := SpanOf(l, d);
      if t == q {
        ReplaceAllFront(q, rest, "");
      } else {
        NoStartInOtherSpan(l, d, l', d', rest);
        ReplaceAllSkip(t, rest, q, "");
        RenderCons(ps[0], WithoutSpans(ps[1..], [q]));
      }
  }

  lemma {:induction false} NoStartInOtherSpan(l: string, d: string, l': string, d': string, u: string)
    requires '<' !in l && '<' !in d && '<' !in l' && '<' !in d'
    requires SpanOf(l, d) != SpanOf(l', d')
    ensures forall i: nat :: i < |SpanOf(l, d)| ==> !StartsAt(SpanOf(l, d) + u, i, SpanOf(l', d'))
  {
    forall i: nat | i < |SpanOf(l, d)| && StartsAt(SpanOf(l, d) + u, i, SpanOf(l', d')) ensures false {
      SpanAligned(l, d, l', d', u, i);
    }
  }

  lemma {:induction false} WithoutMore(ps: seq<Piece>, ts: seq<string>, t: string)
    ensures WithoutSpans(WithoutSpans(ps, ts), [t]) == WithoutSpans(ps, ts + [t])
    decreases |ps|
  {
    if ps != [] {
      var x := ps[0];
      WithoutMore(ps[1..], ts, t);
      if x.Plain? || PieceText(x) !in ts {
        WithoutCons(x, WithoutSpans(ps[1..], ts), [t]);
      }
      assert PieceText(x) in ts + [t] <==> PieceText(x) in ts || PieceText(x) == t;
    }
  }

  lemma {:induction false} WithoutAvoids(ps: seq<Piece>, ts: seq<string>, c: char)
    requires Avoids(ps, c)
    ensures Avoids(WithoutSpans(ps, ts), c)
    decreases |ps|
  {
    if ps != [] {
      assert forall k :: 0 <= k < |ps[1..]| ==> ps[1..][k] == ps[k + 1];
      WithoutAvoids(ps[1..], ts, c);
      assert PieceAvoids(ps[0], c);
    }
  }

  /** The markers hold no backslash, so a text whose pieces hold none holds
      none either. */
  lemma {:induction false} RenderNoBackslash(ps: seq<Piece>)
    requires Avoids(ps, '\\')
    ensures '\\' !in Render(ps)
    decreases |ps|
  {
    if ps != [] {
      assert forall k :: 0 <= k < |ps[1..]| ==> ps[1..][k] == ps[k + 1];
      RenderNoBackslash(ps[1..]);
      assert PieceAvoids(ps[0], '\\');
      if ps[0].Tagged? {
        var l, d := ps[0].tag, ps[0].det;
        assert SpanOf(l, d) == RefOpen + l + RefCloseDetOpen + d + DetClose;
      }
    }
  }

  /** Both macros start with a backslash: without one the rewrites do
      nothing. */
  lemma {:induction false} CleanMathIdle(s: string)
    requires '\\' !in s
    ensures CleanMath(s) == s
  {
    assert Coloneqq[0] == '\\' && Eqqcolon[0] == '\\';
    FirstCharAbsent(s, Coloneqq);
    ReplaceAllAbsent(s, Coloneqq, ":=");
    FirstCharAbsent(s, Eqqcolon);
    ReplaceAllAbsent(s, Eqqcolon, "=:");
  }

  /** The deletion loop after its first `n` turns: the spans listed so far
      are gone and nothing else is touched. */
  lemma {:induction false} DropSpans(ps: seq<Piece>, others: seq<string>, n: nat)
    requires Avoids(ps, '<') && Avoids(ps, '\\')
    requires n <= |others|
    requires forall k :: 0 <= k < |others| ==> IsSpanText(others[k])
    ensures DropOthers(Render(ps), others, n) == Render(WithoutSpans(ps, others[..n]))
  {
    if n == 0 {
      WithoutNothing(ps);
    } else {
      DropSpans(ps, others, n - 1);
      DropSpansTurn(ps, others, n);
    }
  }

  /** Turn `n` of the deletion loop, given what the first `n - 1` left. */
  lemma {:induction false} DropSpansTurn(ps: seq<Piece>, others: seq<string>, n: nat)
    requires Avoids(ps, '<') && Avoids(ps, '\\')
    requires 0 < n <= |others| && IsSpanText(others[n - 1])
    requires DropOthers(Render(ps), others, n - 1) == Render(WithoutSpans(ps, others[..n - 1]))
    ensures DropOthers(Render(ps), others, n) == Render(WithoutSpans(ps, others[..n]))
  {
    PrefixSnoc(others, n - 1);
    DropSpansStep(ps, others[..n - 1], others[n - 1]);
    DropOthersStep(Render(ps), others, n, Render(WithoutSpans(ps, others[..n - 1])),
                   Render(WithoutSpans(ps, others[..n])));
  }

  /** One turn of `DropSpans`: deleting one more span from what the earlier
      turns left. */
  lemma {:induction false} DropSpansStep(ps: seq<Piece>, pre: seq<string>, o: string)
    requires Avoids(ps, '<') && Avoids(ps, '\\') && IsSpanText(o)
    ensures CleanMath(Replace(Render(WithoutSpans(ps, pre)), o, "")) == Render(WithoutSpans(ps, pre + [o]))
  {
    var before := WithoutSpans(ps, pre);
    WithoutAvoids(ps, pre, '<');
    WithoutAvoids(ps, pre, '\\');
    TurnOnPieces(before, o);
    WithoutMore(ps, pre, o);
  }

  lemma {:induction false} TurnOnPieces(ps: seq<Piece>, o: string)
    requires Avoids(ps, '<') && Avoids(ps, '\\') && IsSpanText(o)
    ensures CleanMath(Replace(Render(ps), o, "")) == Render(WithoutSpans(ps, [o]))
  {
    var l', d' :| '<' !in l' && '<' !in d' && o == SpanOf(l', d');
    DeleteTurn(ps, l', d');
  }

  lemma {:induction false} DropOthersStep(text: string, others: seq<string>, n: nat, cur: string, next: string)
    requires 0 < n <= |others|
    requires DropOthers(text, others, n - 1) == cur
    requires CleanMath(Replace(cur, others[n - 1], "")) == next
    ensures DropOthers(text, others, n) == next
  {
  }

  /** One turn of the deletion loop on a text whose pieces hold no `<` and
      no backslash: the span goes and the rewrites find nothing. */
  lemma {:induction false} DeleteTurn(ps: seq<Piece>, l': string, d': string)
    requires Avoids(ps, '<') && Avoids(ps, '\\') && '<' !in l' && '<' !in d'
    ensures CleanMath(Replace(Render(ps), SpanOf(l', d'), "")) == Render(WithoutSpans(ps, [SpanOf(l', d')]))
  {
    SpanChars(l', d');
    DeleteSpan(ps, l', d');
    var after := WithoutSpans(ps, [SpanOf(l', d')]);
    WithoutAvoids(ps, [SpanOf(l', d')], '\\');
    RenderNoBackslash(after);
    CleanMathIdle(Render(after));
  }

  lemma {:induction false} WithoutNothing(ps: seq<Piece>)
    ensures WithoutSpans(ps, []) == ps
    decreases |ps|
  {
    if ps != [] {
      WithoutNothing(ps[1..]);
    }
  }

  lemma {:induction false} SpanTextsAreSpans(ps: seq<Piece>)
    requires Avoids(ps, '<')
    ensures forall k :: 0 <= k < |SpanTexts(ps)| ==> IsSpanText(SpanTexts(ps)[k])
    decreases |ps|
  {
    if ps != [] {
      assert forall k :: 0 <= k < |ps[1..]| ==> ps[1..][k] == ps[k + 1];
      SpanTextsAreSpans(ps[1..]);
      assert PieceAvoids(ps[0], '<');
      if ps[0].Tagged? {
        assert IsSpanText(SpanOf(ps[0].tag, ps[0].det));
      }
    }
  }

  /** With every span of the text listed, deleting them leaves the plain
      runs. */
  lemma {:induction false} AllSpansListed(ps: seq<Piece>, ts: seq<string>)
    requires forall k :: 0 <= k < |ps| && ps[k].Tagged? ==> PieceText(ps[k]) in ts
    ensures Render(WithoutSpans(ps, ts)) == PlainText(ps)
    decreases |ps|
  {
    if ps != [] {
      assert forall k :: 0 <= k < |ps[1..]| ==> ps[1..][k] == ps[k + 1];
      AllSpansListed(ps[1..], ts);
      assert ps[0].Tagged? ==> PieceText(ps[0]) in ts;
      if ps[0].Plain? {
        RenderCons(ps[0], WithoutSpans(ps[1..], ts));
      }
    }
  }

  lemma {:induction false} SpanTextsCover(ps: seq<Piece>)
    ensures forall k :: 0 <= k < |ps| && ps[k].Tagged? ==> PieceText(ps[k]) in SpanTexts(ps)
    decreases |ps|
  {
    if ps != [] {
      SpanTextsCover(ps[1..]);
      forall k | 0 <= k < |ps| && ps[k].Tagged? ensures PieceText(ps[k]) in SpanTexts(ps) {
        if k > 0 {
          assert ps[k] == ps[1..][k - 1];
        }
      }
    }
  }

  /** Every other span is deleted: when the text left after the picture
      links is plain runs between spans, none of which holds `<` or a
      backslash, and the other spans are its spans in order, the markdown
      is exactly the plain runs, with no tag left. */
  lemma {:induction false} OtherSpansDeleted(text: string, images: seq<string>, ps: seq<Piece>)
    requires ReplaceImages(text, images, |images|) == Render(ps)
    requires Avoids(ps, '<') && Avoids(ps, '\\')
    ensures Reconstruct(text, images, SpanTexts(ps)) == PlainText(ps)
    ensures !Contains(Reconstruct(text, images, SpanTexts(ps)), RefOpen)
  {
    var others := SpanTexts(ps);
    SpanTextsAreSpans(ps);
    DropSpans(ps, others, |others|);
    assert others[..|others|] == others;
    SpanTextsCover(ps);
    AllSpansListed(ps, others);
    PlainTextAvoids(ps);
    FirstCharAbsent(PlainText(ps), RefOpen);
  }

  lemma {:induction false} PlainTextAvoids(ps: seq<Piece>)
    requires Avoids(ps, '<')
    ensures '<' !in PlainText(ps)
    decreases |ps|
  {
    if ps != [] {
      assert forall k :: 0 <= k < |ps[1..]| ==> ps[1..][k] == ps[k + 1];
      PlainTextAvoids(ps[1..]);
      assert PieceAvoids(ps[0], '<');
    }
  }

  // ---------------------------------------------------------------------------
  // What the regex search finds in a text made of pieces
  // ---------------------------------------------------------------------------

  /** A span written at `i` is the pattern's match at `i`: its label and box
      list hold no `<`, so the first closing markers are its own. */
  lemma {:induction false} MatchAtSpan(text: string, i: nat, l: string, d: string)
    requires '<' !in l && '<' !in d
    requires StartsAt(text, i, SpanOf(l, d))
    ensures MatchAt(text, i) == Some(Span(i, i + 7 + |l|, i + 22 + |l| + |d|))
  {
    MarkersOfSpan(text, i, l, d);
    FirstLabelEnd(text, i, l, d);
    FirstDetEnd(text, i, l, d);
    MatchAtOf(text, i, i + 7 + |l|, i + 22 + |l| + |d|);
  }

  /** The label of a span ends at the span's own `<|/ref|><|det|>`. */
  lemma {:induction false} FirstLabelEnd(text: string, i: nat, l: string, d: string)
    requires '<' !in l && StartsAt(text, i, SpanOf(l, d))
    ensures FindFrom(text, RefCloseDetOpen, i + 7) == Some(i + 7 + |l|)
  {
    MarkersOfSpan(text, i, l, d);
    WindowsWithoutLt(l, d);
    NoMarkerIn(text, i, SpanOf(l, d), 7, |l|, RefCloseDetOpen);
    FindFromAt(text, RefCloseDetOpen, i + 7, i + 7 + |l|);
  }

  /** The box list of a span ends at the span's own `<|/det|>`. */
  lemma {:induction false} FirstDetEnd(text: string, i: nat, l: string, d: string)
    requires '<' !in d && StartsAt(text, i, SpanOf(l, d))
    ensures FindFrom(text, DetClose, i + 22 + |l|) == Some(i + 22 + |l| + |d|)
  {
    MarkersOfSpan(text, i, l, d);
    WindowsWithoutLt(l, d);
    NoMarkerIn(text, i, SpanOf(l, d), 22 + |l|, |d|, DetClose);
    FindFromAt(text, DetClose, i + 22 + |l|, i + 22 + |l| + |d|);
  }

  /** The windows of a span that hold its label and its box list have no
      `<` when those parts have none. */
  lemma {:induction false} WindowsWithoutLt(l: string, d: string)
    ensures |SpanOf(l, d)| == 30 + |l| + |d|
    ensures '<' !in l ==> forall x :: 7 <= x < 7 + |l| ==> SpanOf(l, d)[x] != '<'
    ensures '<' !in d ==> forall x :: 22 + |l| <= x < 22 + |l| + |d| ==> SpanOf(l, d)[x] != '<'
  {
    SpanParts(l, d);
    var w := SpanOf(l, d);
    forall x | 7 <= x < 7 + |l| ensures w[x] == l[x - 7] {
      assert w[7 + (x - 7)] == l[x - 7];
    }
    forall x | 22 + |l| <= x < 22 + |l| + |d| ensures w[x] == d[x - 22 - |l|] {
      assert w[22 + |l| + (x - 22 - |l|)] == d[x - 22 - |l|];
    }
  }

  /** The three markers of a span written at `i`. */
  lemma {:induction false} MarkersOfSpan(text: string, i: nat, l: string, d: string)
    requires StartsAt(text, i, SpanOf(l, d))
    ensures StartsAt(text, i, RefOpen)
    ensures StartsAt(text, i + 7 + |l|, RefCloseDetOpen)
    ensures StartsAt(text, i + 22 + |l| + |d|, DetClose)
  {
    var w := SpanOf(l, d);
    SpanParts(l, d);
    SliceInside(text, i, w, 0, 7);
    SliceInside(text, i, w, 7 + |l|, 22 + |l|);
    SliceInside(text, i, w, 22 + |l| + |d|, |w|);
  }

  /** `MatchAt` is the pattern's three finds. */
  lemma {:induction false} MatchAtOf(text: string, i: nat, le: nat, de: nat)
    requires StartsAt(text, i, RefOpen)
    requires FindFrom(text, RefCloseDetOpen, i + |RefOpen|) == Some(le)
    requires FindFrom(text, DetClose, le + |RefCloseDetOpen|) == Some(de)
    ensures MatchAt(text, i) == Some(Span(i, le, de))
  {
  }

  /** The markers of a span, where they sit, and the characters of its
      label and box list. */
  lemma {:induction false} SpanParts(l: string, d: string)
    ensures var w := SpanOf(l, d);
      && |w| == 30 + |l| + |d|
      && w[..7] == RefOpen && w[7 + |l|..22 + |l|] == RefCloseDetOpen && w[22 + |l| + |d|..] == DetClose
      && (forall x :: 0 <= x < |l| ==> w[7 + x] == l[x])
      && (forall x :: 0 <= x < |d| ==> w[22 + |l| + x] == d[x])
  {
    var w := SpanOf(l, d);
    assert w == RefOpen + l + RefCloseDetOpen + d + DetClose;
  }

  lemma {:induction false} SliceInside(text: string, i: nat, u: string, a: nat, b: nat)
    requires StartsAt(text, i, u) && a <= b <= |u|
    ensures text[i + a..i + b] == u[a..b]
  {
    var v, y := text[i + a..i + b], u[a..b];
    forall x | 0 <= x < |v| ensures v[x] == y[x] {
      StartsAtChar(text, i, u, a + x);
    }
  }

  /** A marker starting with `<` starts nowhere in a window of `n`
      characters at offset `a` of `u` that holds no `<`. */
  lemma {:induction false} NoMarkerIn(text: string, i: nat, u: string, a: nat, n: nat, m: string)
    requires StartsAt(text, i, u) && a + n <= |u| && |m| > 0 && m[0] == '<'
    requires forall x :: a <= x < a + n ==> u[x] != '<'
    ensures forall x: nat :: i + a <= x < i + a + n ==> !StartsAt(text, x, m)
  {
    forall x: nat | i + a <= x < i + a + n ensures !StartsAt(text, x, m) {
      StartsAtChar(text, i, u, x - i);
      if StartsAt(text, x, m) {
        StartsAtChar(text, x, m, 0);
      }
    }
  }

  /** A match covers the text `s`. */
  predicate CoversText(text: string, sp: Span, s: string) {
    sp.start <= sp.End() <= |text| && text[sp.start..sp.End()] == s
  }

  /** The scan from `i` reports one match per text of `ts`, in order, each
      covering that text. */
  predicate ScanListsSpans(text: string, i: nat, ts: seq<string>)
    requires i <= |text|
  {
    |Scan(text, i)| == |ts| && forall k :: 0 <= k < |ts| ==> CoversText(text, Scan(text, i)[k], ts[k])
  }

  /** The scanner over the rest `text[i..]` of a text made of pieces reports
      one match per span piece, in order, each covering exactly that span. */
  lemma {:induction false} ScanPieces(text: string, i: nat, ps: seq<Piece>)
    requires i <= |text| && text[i..] == Render(ps) && Avoids(ps, '<')
    ensures ScanListsSpans(text, i, SpanTexts(ps))
    decreases |ps|
  {
    if ps == [] {
      assert |text[i..]| == 0;
    } else {
      PiecesTail(ps, '<');
      SplitRest(text, i, PieceText(ps[0]), Render(ps[1..]));
      ScanPieces(text, i + |PieceText(ps[0])|, ps[1..]);
      ScanPieceStep(text, i, ps);
    }
  }

  /** One step of `ScanPieces`: the first piece at `i`, then the rest. */
  lemma {:induction false} ScanPieceStep(text: string, i: nat, ps: seq<Piece>)
    requires ps != [] && PieceAvoids(ps[0], '<') && StartsAt(text, i, PieceText(ps[0]))
    requires ScanListsSpans(text, i + |PieceText(ps[0])|, SpanTexts(ps[1..]))
    ensures ScanListsSpans(text, i, SpanTexts(ps))
  {
    assert ps == [ps[0]] + ps[1..];
    match ps[0]
    case Plain(t) => ScanAtPlain(text, i, t, ps[1..]);
    case Tagged(l, d) => ScanAtSpan(text, i, l, d, ps[1..]);
  }

  /** One step of `ScanPieces` at a plain run. */
  lemma {:induction false} ScanAtPlain(text: string, i: nat, t: string, rest: seq<Piece>)
    requires '<' !in t && StartsAt(text, i, t)
    requires ScanListsSpans(text, i + |t|, SpanTexts(rest))
    ensures ScanListsSpans(text, i, SpanTexts([Plain(t)] + rest))
  {
    assert ([Plain(t)] + rest)[1..] == rest;
    PlainSkip(text, i, t);
  }

  /** The pieces after the first avoid `c` too, and so does the first. */
  lemma {:induction false} PiecesTail(ps: seq<Piece>, c: char)
    requires ps != [] && Avoids(ps, c)
    ensures Avoids(ps[1..], c) && PieceAvoids(ps[0], c)
  {
    assert forall k :: 0 <= k < |ps[1..]| ==> ps[1..][k] == ps[k + 1];
  }

  lemma {:induction false} SplitRest(text: string, i: nat, w: string, r: string)
    requires i <= |text| && text[i..] == w + r
    ensures StartsAt(text, i, w) && text[i + |w|..] == r
  {
    assert text[i..i + |w|] == text[i..][..|w|];
    assert text[i + |w|..] == text[i..][|w|..];
  }

  /** Over a plain run, which holds no `<`, the pattern cannot start, so
      the scanner moves past it. */
  lemma {:induction false} PlainSkip(text: string, i: nat, w: string)
    requires StartsAt(text, i, w) && '<' !in w
    ensures Scan(text, i) == Scan(text, i + |w|)
    decreases |w|
  {
    if w != [] {
      StartsAtChar(text, i, w, 0);
      if StartsAt(text, i, RefOpen) {
        StartsAtChar(text, i, RefOpen, 0);
        assert false;
      }
      assert MatchAt(text, i).None?;
      RunTail(text, i, w);
      PlainSkip(text, i + 1, w[1..]);
    }
  }

  lemma {:induction false} RunTail(text: string, i: nat, w: string)
    requires StartsAt(text, i, w) && w != []
    ensures StartsAt(text, i + 1, w[1..])
  {
    assert text[i + 1..i + |w|] == text[i..i + |w|][1..];
  }

  /** One step of `ScanPieces` at a span piece. */
  lemma {:induction false} ScanAtSpan(text: string, i: nat, l: string, d: string, rest: seq<Piece>)
    requires '<' !in l && '<' !in d
    requires StartsAt(text, i, SpanOf(l, d))
    requires ScanListsSpans(text, i + |SpanOf(l, d)|, SpanTexts(rest))
    ensures ScanListsSpans(text, i, SpanTexts([Tagged(l, d)] + rest))
  {
    var w := SpanOf(l, d);
    var ps := [Tagged(l, d)] + rest;
    assert ps[1..] == rest;
    assert SpanTexts(ps) == [w] + SpanTexts(rest);
    SpanParts(l, d);
    MatchAtSpan(text, i, l, d);
    var sp := Span(i, i + 7 + |l|, i + 22 + |l| + |d|);
    assert sp.End() == i + |w|;
    ScanCons(text, i, sp);
    assert text[i..i + |w|] == w;
    ConsCovers(text, sp, w, Scan(text, i + |w|), SpanTexts(rest));
  }

  /** A match at `i` is reported first, and the scan goes on at its end. */
  lemma {:induction false} ScanCons(text: string, i: nat, sp: Span)
    requires i <= |text| && MatchAt(text, i) == Some(sp)
    ensures sp.End() <= |text| && Scan(text, i) == [sp] + Scan(text, sp.End())
  {
  }

  lemma {:induction false} ConsCovers(text: string, sp: Span, w: string, tail: seq<Span>, ts: seq<string>)
    requires CoversText(text, sp, w) && |tail| == |ts|
    requires forall k :: 0 <= k < |tail| ==> CoversText(text, tail[k], ts[k])
    ensures forall k :: 0 <= k < |tail| + 1 ==> CoversText(text, ([sp] + tail)[k], ([w] + ts)[k])
  {
    forall k | 0 < k < |tail| + 1 ensures CoversText(text, ([sp] + tail)[k], ([w] + ts)[k]) {
      assert ([sp] + tail)[k] == tail[k - 1] && ([w] + ts)[k] == ts[k - 1];
    }
  }

  /** The regex search over a text made of pieces finds exactly its spans,
      in order. */
  lemma {:induction false} SearchFindsSpans(ps: seq<Piece>)
    requires Avoids(ps, '<')
    ensures Fulls(FindAll(Render(ps))) == SpanTexts(ps)
  {
    var text := Render(ps);
    assert text[0..] == text;
    ScanPieces(text, 0, ps);
    ScanSound(text, 0);
    var fs, ts := Fulls(FindAll(text)), SpanTexts(ps);
    forall k | 0 <= k < |fs| ensures fs[k] == ts[k] {
      var sp := Scan(text, 0)[k];
      assert CoversText(text, sp, ts[k]);
      assert FindAll(text)[k] == MatchOf(text, sp);
    }
  }

  /** Without `<` in its parts, a span is a picture span exactly when its
      label is `image`. */
  lemma {:induction false} SpanIsPicture(l: string, d: string)
    requires '<' !in l && '<' !in d
    ensures IsImageSpan(SpanOf(l, d)) <==> l == "image"
  {
    var w := SpanOf(l, d);
    if l == "image" {
      ImageLabelText(d);
    } else if IsImageSpan(w) {
      var x: nat :| x <= |w| && StartsAt(w, x, ImageRef);
      PictureMarkerAt(l, d, x);
      assert false;
    }
  }

  /** Where `<|ref|>image<|/ref|>` occurs in such a span: only at its start,
      and then the label is `image`. */
  lemma {:induction false} PictureMarkerAt(l: string, d: string, x: nat)
    requires '<' !in l && '<' !in d
    requires StartsAt(SpanOf(l, d), x, ImageRef)
    ensures x == 0 && l == "image"
  {
    PictureMarkerAtStart(l, d, x);
    PictureMarkerLabel(l, d);
  }

  /** The `<` of the marker must be one of the span's, and only the first is
      followed by `|r`. */
  lemma {:induction false} PictureMarkerAtStart(l: string, d: string, x: nat)
    requires '<' !in l && '<' !in d
    requires StartsAt(SpanOf(l, d), x, ImageRef)
    ensures x == 0
  {
    var w := SpanOf(l, d);
    SpanChars(l, d);
    StartsAtChar(w, x, ImageRef, 0);
    StartsAtChar(w, x, ImageRef, 2);
    if x > 0 {
      SpanLtPositions(l, d, x);
      assert false;
    }
  }

  /** At the start, the marker's second `<` must be the end of the label. */
  lemma {:induction false} PictureMarkerLabel(l: string, d: string)
    requires '<' !in l && '<' !in d
    requires StartsAt(SpanOf(l, d), 0, ImageRef)
    ensures l == "image"
  {
    var w := SpanOf(l, d);
    StartsAtChar(w, 0, ImageRef, 12);
    SpanLtPositions(l, d, 12);
    LabelChars(l, d);
    forall y | 0 <= y < 5 ensures l[y] == "image"[y] {
      StartsAtChar(w, 0, ImageRef, 7 + y);
    }
  }

  /** The label of a span sits right after `<|ref|>`. */
  lemma {:induction false} LabelChars(l: string, d: string)
    ensures |SpanOf(l, d)| == 30 + |l| + |d|
    ensures forall x :: 0 <= x < |l| ==> SpanOf(l, d)[7 + x] == l[x]
  {
    var w := SpanOf(l, d);
    assert w == RefOpen + l + RefCloseDetOpen + d + DetClose;
  }

  /** With no label `image`, no span of the pieces is a picture span. */
  lemma {:induction false} SpanTextsNotPictures(ps: seq<Piece>)
    requires Avoids(ps, '<')
    requires forall k :: 0 <= k < |ps| && ps[k].Tagged? ==> ps[k].tag != "image"
    ensures forall k :: 0 <= k < |SpanTexts(ps)| ==> !IsImageSpan(SpanTexts(ps)[k])
    decreases |ps|
  {
    if ps != [] {
      assert forall k :: 0 <= k < |ps[1..]| ==> ps[1..][k] == ps[k + 1];
      SpanTextsNotPictures(ps[1..]);
      assert PieceAvoids(ps[0], '<');
      if ps[0].Tagged? {
        SpanIsPicture(ps[0].tag, ps[0].det);
      }
    }
  }

  /** Matches none of which is a picture span all go to the other list. */
  lemma {:induction false} NoPictureSpans(ms: seq<Match>)
    requires forall k :: 0 <= k < |ms| ==> !IsImageSpan(ms[k].full)
    ensures ImageSpans(ms) == [] && OtherSpans(ms) == Fulls(ms)
    decreases |ms|
  {
    if ms != [] {
      var init := ms[..|ms| - 1];
      assert forall k :: 0 <= k < |init| ==> init[k] == ms[k];
      NoPictureSpans(init);
      FullsSnoc(ms);
    }
  }

  /** What `process_ocr_task` computes for a tagged text without picture
      spans: the regex search lists its spans as the other spans, and
      deleting them leaves exactly the plain runs, with no tag left. */
  lemma {:induction false} MarkdownOfTaggedText(ps: seq<Piece>)
    requires Avoids(ps, '<') && Avoids(ps, '\\')
    requires forall k :: 0 <= k < |ps| && ps[k].Tagged? ==> ps[k].tag != "image"
    ensures var text := Render(ps); var ms := FindAll(text);
      && ImageSpans(ms) == [] && OtherSpans(ms) == SpanTexts(ps)
      && Reconstruct(text, ImageSpans(ms), OtherSpans(ms)) == PlainText(ps)
      && !Contains(Reconstruct(text, ImageSpans(ms), OtherSpans(ms)), RefOpen)
  {
    var text := Render(ps);
    var ms := FindAll(text);
    SearchFindsSpans(ps);
    SpanTextsNotPictures(ps);
    forall k | 0 <= k < |ms| ensures !IsImageSpan(ms[k].full) {
      assert ms[k].full == Fulls(ms)[k] == SpanTexts(ps)[k];
    }
    NoPictureSpans(ms);
    OtherSpansDeleted(text, [], ps);
  }

  /** The same for the result dictionary: when the markdown is rebuilt, for
      an engine text that is a tagged text without picture spans, the
      processed text is its plain runs. */
  lemma {:induction false} ProcessedTextOfTaggedText(taskId: string, imagePath: string, resolution: string,
                                                     taskType: string, prompt: string, ps: seq<Piece>)
    requires Contains(prompt, ImageTag)
    requires Avoids(ps, '<') && Avoids(ps, '\\')
    requires forall k :: 0 <= k < |ps| && ps[k].Tagged? ==> ps[k].tag != "image"
    ensures TaskResultOf(taskId, imagePath, resolution, taskType, prompt, true, Render(ps)).processedText
      == Some(PlainText(ps))
  {
    MarkdownOfTaggedText(ps);
  }

  /** The math rewrites run on the whole text after each deletion, so a
      later span whose label is a macro is rewritten before its own turn and
      no longer matches: it stays in the markdown, with `:=` for its label.
      (For instance `l == "a"`, `d == e == "d"`.) */
  lemma {:induction false} MacroInLaterSpanSurvives(l: string, d: string, e: string)
    requires '<' !in l && '<' !in d && '<' !in e
    requires '\\' !in l && '\\' !in d && '\\' !in e
    ensures var a, b := SpanOf(l, d), SpanOf(Coloneqq, e);
      && Reconstruct(a + b, [], [a, b]) == SpanOf(":=", e)
      && Contains(Reconstruct(a + b, [], [a, b]), RefOpen)
  {
    var a, b, c := SpanOf(l, d), SpanOf(Coloneqq, e), SpanOf(":=", e);
    FirstTurnRewritesLaterSpan(l, d, e);
    SecondTurnFindsNothing(e);
    assert DropOthers(a + b, [a, b], 1) == c;
    assert DropOthers(a + b, [a, b], 2) == c;
    assert StartsAt(c, 0, RefOpen);
  }

  /** Turn one deletes the first span, then rewrites the macro in the
      second. */
  lemma {:induction false} FirstTurnRewritesLaterSpan(l: string, d: string, e: string)
    requires '<' !in l && '<' !in d && '<' !in e
    requires '\\' !in l && '\\' !in e
    ensures CleanMath(Replace(SpanOf(l, d) + SpanOf(Coloneqq, e), SpanOf(l, d), ""))
      == SpanOf(":=", e)
  {
    FirstSpanDeleted(l, d, e);
    MacroRewrite(e);
  }

  lemma {:induction false} FirstSpanDeleted(l: string, d: string, e: string)
    requires '<' !in l && '<' !in d && '<' !in e && '\\' !in l
    ensures |SpanOf(l, d)| > 0
    ensures ReplaceAll(SpanOf(l, d) + SpanOf(Coloneqq, e), SpanOf(l, d), "") == SpanOf(Coloneqq, e)
  {
    var a, b := SpanOf(l, d), SpanOf(Coloneqq, e);
    MacroSpanDiffers(l, d, e);
    ReplaceAllFront(a, b, "");
    NotInOtherSpan(Coloneqq, e, l, d);
    ReplaceAllAbsent(b, a, "");
    assert "" + b == b;
  }

  /** A label without `<` or a backslash is never the macro's span. */
  lemma {:induction false} MacroSpanDiffers(l: string, d: string, e: string)
    requires '<' !in l && '\\' !in l
    ensures |SpanOf(l, d)| > 0 && SpanOf(l, d) != SpanOf(Coloneqq, e)
  {
    var a, b := SpanOf(l, d), SpanOf(Coloneqq, e);
    SpanChars(l, d);
    SpanChars(Coloneqq, e);
    if |l| < |Coloneqq| {
      assert a[7 + |l|] == '<' && b[7 + |l|] == Coloneqq[|l|];
    } else if |l| > |Coloneqq| {
      assert a[7 + |Coloneqq|] == l[|Coloneqq|] && b[7 + |Coloneqq|] == '<';
    } else {
      assert a[7] == l[0] && b[7] == Coloneqq[0];
    }
  }

  /** A span does not hold a different span. */
  lemma {:induction false} NotInOtherSpan(l: string, d: string, l': string, d': string)
    requires '<' !in l && '<' !in d && '<' !in l' && '<' !in d'
    requires SpanOf(l, d) != SpanOf(l', d')
    ensures !Contains(SpanOf(l, d), SpanOf(l', d'))
  {
    var t := SpanOf(l, d);
    NoStartInOtherSpan(l, d, l', d', "");
    assert t + "" == t;
    SpanChars(l', d');
  }

  lemma {:induction false} MacroRewrite(e: string)
    requires '\\' !in e
    ensures CleanMath(SpanOf(Coloneqq, e)) == SpanOf(":=", e)
  {
    var c := SpanOf(":=", e);
    var tail := RefCloseDetOpen + e + DetClose;
    SpanTextSplit(Coloneqq, e);
    SpanTextSplit(":=", e);
    assert Coloneqq[0] == '\\' && '\\' !in RefOpen && '\\' !in tail;
    ReplaceSoleOccurrence(RefOpen, Coloneqq, tail, ":=");
    SpanNoBackslash(":=", e);
    SecondRewriteIdle(c);
  }

  lemma {:induction false} SecondRewriteIdle(c: string)
    requires '\\' !in c
    ensures ReplaceAll(c, Eqqcolon, "=:") == c
  {
    assert Eqqcolon[0] == '\\';
    FirstCharAbsent(c, Eqqcolon);
    ReplaceAllAbsent(c, Eqqcolon, "=:");
  }

  lemma {:induction false} SpanTextSplit(t: string, e: string)
    ensures SpanOf(t, e) == RefOpen + (t + (RefCloseDetOpen + e + DetClose))
  {
    Regroup(RefOpen, t, RefCloseDetOpen, e, DetClose);
  }

  lemma {:induction false} SpanNoBackslash(t: string, e: string)
    requires '\\' !in t && '\\' !in e
    ensures '\\' !in SpanOf(t, e)
  {
    var x := Piece.Tagged(t, e);
    assert Avoids([x], '\\') by {
      assert PieceAvoids(x, '\\');
    }
    RenderCons(x, []);
    RenderNoBackslash([x]);
  }

  /** Turn two looks for the second span as it was listed, and the text no
      longer holds it. */
  lemma {:induction false} SecondTurnFindsNothing(e: string)
    requires '<' !in e && '\\' !in e
    ensures CleanMath(Replace(SpanOf(":=", e), SpanOf(Coloneqq, e), "")) == SpanOf(":=", e)
  {
    var b, c := SpanOf(Coloneqq, e), SpanOf(":=", e);
    SpanChars(":=", e);
    SpanChars(Coloneqq, e);
    assert |b| != |c|;
    NotInOtherSpan(":=", e, Coloneqq, e);
    ReplaceAllAbsent(c, b, "");
    SpanNoBackslash(":=", e);
    CleanMathIdle(c);
  }

  // ---------------------------------------------------------------------------
  // `process_ocr_task`
  // ---------------------------------------------------------------------------

  function VisualizationPath(taskId: string): string {
    "/deepseek-ocr/outputs/" + taskId + "/result_with_boxes.jpg"
  }

  function MarkdownPath(taskId: string): string {
    "/deepseek-ocr/outputs/" + taskId + "/result.mmd"
  }

  /** The result dictionary for the engine's text `out`. */
  function TaskResultOf(taskId: string, imagePath: string, resolution: string, taskType: string,
                        prompt: string, includeVisualization: bool, out: string): TaskResult
  {
    var base := TaskResult(out, imagePath, prompt, resolution, taskType, None, None, None);
    if includeVisualization && Contains(prompt, ImageTag) then
      var ms := FindAll(out);
      base.(visualizationPath := if |ms| > 0 then Some(VisualizationPath(taskId)) else None,
            processedText := Some(Reconstruct(out, ImageSpans(ms), OtherSpans(ms))),
            markdownPath := Some(MarkdownPath(taskId)))
    else base
  }

  /** What `process_ocr_task` returns or raises. */
  function ProcessOcrResult(taskId: string, imagePath: string, resolution: string, taskType: string,
                            referenceText: Option<string>, includeVisualization: bool,
                            loaded: Option<Image>, hasProcessor: bool,
                            tokenizer: Tokenizer, engine: Option<Engine>): Result<TaskResult, Error>
  {
    if loaded.None? then Failure(ImageLoadFailed)
    else
      var prompt := SelectPrompt(taskType, referenceText);
      var out :- InferResult(hasProcessor, ResolveProfile(resolution), prompt, loaded.value, tokenizer, engine);
      Success(TaskResultOf(taskId, imagePath, resolution, taskType, prompt, includeVisualization, out))
  }

  /** `process_ocr_task`: the image as loaded (`None` when loading failed),
      the processor (`null` when none is loaded) and the two oracles. */
  method ProcessOcrTask(taskId: string, imagePath: string, resolution: string, taskType: string,
                        referenceText: Option<string>, includeVisualization: bool,
                        loaded: Option<Image>, processor: Processor?,
                        tokenizer: Tokenizer, engine: Option<Engine>)
    returns (r: Result<TaskResult, Error>)
    modifies processor
    ensures processor != null ==>
      processor.imageSize == old(processor.imageSize) && processor.baseSize == old(processor.baseSize)
    ensures r == ProcessOcrResult(taskId, imagePath, resolution, taskType, referenceText,
                                  includeVisualization, loaded, processor != null, tokenizer, engine)
  {
    if loaded.None? {
      return Failure(ImageLoadFailed);
    }
    var prompt := SelectPrompt(taskType, referenceText);
    var profile := ResolveProfile(resolution);
    var out := Infer(processor, profile, prompt, loaded.value, tokenizer, engine);
    if out.Failure? {
      return Failure(out.error);
    }
    var resultOut := out.value;
    var result := TaskResult(resultOut, imagePath, prompt, resolution, taskType, None, None, None);
    if includeVisualization && Contains(prompt, ImageTag) {
      var matchesRef, matchesImages, matchesOther := ReMatch(resultOut);
      if |matchesRef| > 0 {
        result := result.(visualizationPath := Some(VisualizationPath(taskId)));
      }
      var processedText := ReconstructMarkdown(resultOut, matchesImages, matchesOther);
      result := result.(processedText := Some(processedText));
      result := result.(markdownPath := Some(MarkdownPath(taskId)));
    }
    r := Success(result);
  }

  /** The result keeps the engine's text and the request; the processed
      text and markdown path exist exactly when visualization was asked for
      and the prompt has the image tag, and the visualization path exactly
      when, in addition, the text has a tagged span. */
  lemma {:induction false} TaskResultFields(taskId: string, imagePath: string, resolution: string,
                                            taskType: string, prompt: string, includeVisualization: bool,
                                            out: string)
    ensures var r := TaskResultOf(taskId, imagePath, resolution, taskType, prompt, includeVisualization, out);
      r.text == out && r.imagePath == imagePath && r.prompt == prompt
      && r.resolution == resolution && r.taskType == taskType
      && (r.processedText.Some? <==> includeVisualization && Contains(prompt, ImageTag))
      && (r.markdownPath.Some? <==> r.processedText.Some?)
      && (r.visualizationPath.Some? <==> r.processedText.Some? && |FindAll(out)| > 0)
  {
  }

  /** A failure anywhere before the result is built is the result: an
      image that did not load, a missing processor, or an engine error. */
  lemma {:induction false} ProcessOcrErrors(taskId: string, imagePath: string, resolution: string, taskType: string,
                                            referenceText: Option<string>, includeVisualization: bool,
                                            loaded: Option<Image>, tokenizer: Tokenizer, engine: Option<Engine>)
    ensures loaded.None? ==>
      ProcessOcrResult(taskId, imagePath, resolution, taskType, referenceText, includeVisualization,
                       loaded, true, tokenizer, engine) == Failure(ImageLoadFailed)
    ensures loaded.Some? ==>
      ProcessOcrResult(taskId, imagePath, resolution, taskType, referenceText, includeVisualization,
                       loaded, false, tokenizer, engine) == Failure(ProcessorNotInitialized)
    ensures loaded.Some? && engine.None? ==>
      ProcessOcrResult(taskId, imagePath, resolution, taskType, referenceText, includeVisualization,
                       loaded, true, tokenizer, engine).Failure?
    ensures loaded.Some? && engine.None? && !Contains(SelectPrompt(taskType, referenceText), ImageTag) ==>
      ProcessOcrResult(taskId, imagePath, resolution, taskType, referenceText, includeVisualization,
                       loaded, true, tokenizer, engine) == Failure(EngineNotInitialized)
    ensures loaded.Some? && engine.None? ==>
      var r := ProcessOcrResult(taskId, imagePath, resolution, taskType, referenceText, includeVisualization,
                                loaded, true, tokenizer, engine);
      r == Failure(EngineNotInitialized) || (r.Failure? && r.error.Raised?)
  {
  }

  // ---------------------------------------------------------------------------
  // `run_deepseek_on_pil`
  // ---------------------------------------------------------------------------

  /** The raw text, the markdown and the rectangles. */
  datatype PilOutput = PilOutput(text: string, processedText: string, results: seq<OcrResult>)

  /** The first line after each match, as `parse_blocks_with_text` finds it. */
  function Contents(text: string): (cs: seq<string>)
    ensures |cs| == |FindAll(text)|
  {
    seq(|FindAll(text)|, j requires 0 <= j < |FindAll(text)| => BlockAt(text, j).content)
  }

  /** What `run_deepseek_on_pil` returns or raises. */
  function PilResult(image: Image, taskType: string, resolution: string, hasProcessor: bool,
                     tokenizer: Tokenizer, engine: Option<Engine>): Result<PilOutput, Error>
  {
    var out :- InferResult(hasProcessor, ResolutionConfigs[ResolveName(resolution)], PilPrompt(taskType),
                           image, tokenizer, engine);
    var ms := FindAll(out);
    Success(PilOutput(out, Reconstruct(out, ImageSpans(ms), OtherSpans(ms)),
                      ResultsUpTo(ms, |ms|, Contents(out), image.width, image.height)))
  }

  /** `run_deepseek_on_pil(image, task_type, resolution)`. */
  method RunDeepseekOnPil(image: Image, taskType: string, resolution: string, processor: Processor?,
                          tokenizer: Tokenizer, engine: Option<Engine>)
    returns (r: Result<PilOutput, Error>)
    modifies processor
    ensures processor != null ==>
      processor.imageSize == old(processor.imageSize) && processor.baseSize == old(processor.baseSize)
    ensures r == PilResult(image, taskType, resolution, processor != null, tokenizer, engine)
  {
    var prompt := PilPrompt(taskType);
    ResolutionFallback(resolution);
    var profile := ResolutionConfigs[ResolveName(resolution)];
    var out := Infer(processor, profile, prompt, image, tokenizer, engine);
    if out.Failure? {
      return Failure(out.error);
    }
    var resultOut := out.value;
    var matchesRef, matchesImages, matchesOther := ReMatch(resultOut);
    var blocks := ParseBlocksWithText(resultOut);
    var contents := seq(|blocks|, i requires 0 <= i < |blocks| => blocks[i].content);
    assert contents == Contents(resultOut);
    var results := ConvertMatchesToResults(matchesRef, image.width, image.height, contents);
    var processedText := ReconstructMarkdown(resultOut, matchesImages, matchesOther);
    r := Success(PilOutput(resultOut, processedText, results));
  }

  /** The text of each rectangle is looked up among the blocks of the same
      text, so region `j`'s box text is always the first line after match
      `j`. */
  lemma {:induction false} PilContentsAligned(text: string, j: nat)
    requires j < |FindAll(text)|
    ensures BoxText(Contents(text), j) == Some(BlockAt(text, j).content)
  {
  }
}
