/** The generation pipeline of services/geminiService.ts: room analysis, the
    bounded image-generation retry loop, validation of the style-details JSON,
    one full style variation, the ordered batch of five styles, and refinement.

    The AI service is a `Script`: the reply the n-th request receives, in the
    order requests are made. Prompts, model names and request contents are not
    modelled, so a reply does not depend on the request that receives it. */
module GeminiService {
  import opened Wrappers
  import opened Strings
  import opened Seqs
  import opened Types
  import opened Json
  import opened DataUrl

  /** `MAX_IMAGE_GENERATION_RETRIES` (geminiService.ts:8). */
  const MaxImageGenerationRetries := 3

  /** The five styles of the initial batch, in order (geminiService.ts:185). */
  const Styles := ["Moderno", "Nórdico", "Clásico", "Bohemio", "Industrial"]

  /** The finish reason of a candidate that produced no image (geminiService.ts:135). */
  const NoImageReason := "NO_IMAGE"

  /** A content part of a candidate: text, or inline image data. */
  datatype Part = TextPart(text: string) | InlineDataPart(inlineData: ImageBase64)

  /** A candidate; a candidate without `content` has no parts. */
  datatype Candidate = Candidate(finishReason: string, parts: seq<Part>)

  /** A model response. `blockReason` is "" when the prompt was not blocked;
      `json` is what `JSON.parse` makes of the trimmed `text`, None when it throws. */
  datatype Response = Response(
    blockReason: string,
    candidates: seq<Candidate>,
    text: string,
    json: Option<Json>)

  /** What one `generateContent` call yields: it throws, resolves to nothing, or answers. */
  datatype Reply = TransportError | NoResponse | Answered(response: Response)

  /** The reply received by each request, numbered from 0. */
  type Script = nat -> Reply

  /** The error tags of the thrown errors. `Crashed` is the TypeError raised
      when a property of an absent response is read or an absent callback is
      called. */
  datatype GenError =
    | Transport
    | EmptyResponse
    | Crashed
    | Blocked(reason: string)
    | NoCandidate
    | NoImage
    | NoImageData
    | EmptyText
    | UnparseableJson
    | MissingFields

  // ---- analyzeImage ----

  /** `analyzeImage` (geminiService.ts:25-35): one call, no retry; a block
      reason is an error, otherwise the response text, untrimmed. */
  function AnalyzeImage(reply: Reply): (r: Result<string, GenError>)
    ensures r.Success? <==> reply.Answered? && reply.response.blockReason == ""
    ensures r.Success? ==> r.value == reply.response.text
    ensures reply.Answered? && reply.response.blockReason != "" ==> r == Failure(Blocked(reply.response.blockReason))
  {
    match reply
    case TransportError => Failure(Transport)
    case NoResponse => Failure(Crashed)
    case Answered(response) =>
      if response.blockReason != "" then Failure(Blocked(response.blockReason))
      else Success(response.text)
  }

  // ---- generateStyleDetails ----

  /** The fields `generateStyleDetails` returns: the requested style name and the
      parsed values as they are, with no check of their element types or counts. */
  datatype Details = Details(
    styleName: string,
    description: Json,
    colorPalette: seq<Json>,
    furnitureRecommendations: seq<Json>)

  /** The structural check of geminiService.ts:93. */
  predicate DetailsShape(parsed: Json) {
    && Truthy(parsed)
    && TruthyMember(parsed, "description")
    && ArrayMember(parsed, "color_palette")
    && ArrayMember(parsed, "furniture_recommendations")
  }

  /** A response the details step accepts. */
  predicate DetailsAccepted(response: Response) {
    && response.blockReason == ""
    && Trim(response.text) != ""
    && response.json.Some?
    && DetailsShape(response.json.value)
  }

  /** `generateStyleDetails` (geminiService.ts:37-104), from the reply to its one call. */
  function StyleDetails(reply: Reply, styleName: string): (r: Result<Details, GenError>)
    ensures r.Success? <==> reply.Answered? && DetailsAccepted(reply.response)
    ensures r.Success? ==>
      && r.value.styleName == styleName
      && Member(reply.response.json.value, "description") == Some(r.value.description)
      && Truthy(r.value.description)
      && Member(reply.response.json.value, "color_palette") == Some(JArray(r.value.colorPalette))
      && Member(reply.response.json.value, "furniture_recommendations") == Some(JArray(r.value.furnitureRecommendations))
  {
    match reply
    case TransportError => Failure(Transport)
    case NoResponse => Failure(Crashed)
    case Answered(response) =>
      if response.blockReason != "" then Failure(Blocked(response.blockReason))
      else if Trim(response.text) == "" then Failure(EmptyText)
      else if response.json.None? then Failure(UnparseableJson)
      else
        var parsed := response.json.value;
        if !DetailsShape(parsed) then Failure(MissingFields)
        else
          Success(Details(
            styleName,
            Member(parsed, "description").value,
            Member(parsed, "color_palette").value.items,
            Member(parsed, "furniture_recommendations").value.items))
  }

  /** The checks run in order: a block reason wins over an empty text, an empty
      text over unparseable JSON, and unparseable JSON over a bad shape. */
  lemma DetailsErrorOrder(response: Response, styleName: string)
    ensures response.blockReason != "" ==>
      StyleDetails(Answered(response), styleName) == Failure(Blocked(response.blockReason))
    ensures response.blockReason == "" && IsBlank(response.text) ==>
      StyleDetails(Answered(response), styleName) == Failure(EmptyText)
    ensures response.blockReason == "" && !IsBlank(response.text) && response.json.None? ==>
      StyleDetails(Answered(response), styleName) == Failure(UnparseableJson)
    ensures response.blockReason == "" && !IsBlank(response.text) && response.json.Some?
            && !DetailsShape(response.json.value) ==>
      StyleDetails(Answered(response), styleName) == Failure(MissingFields)
  {
    TrimEmpty(response.text);
  }

  /** The details step does not enforce five colours or three furniture items:
      a reply with one colour and no furniture is accepted as it is. */
  lemma DetailsAcceptAnyCounts(styleName: string)
    ensures var parsed := JObject(map[
              "description" := JString("Luminoso"),
              "color_palette" := JArray([JString("#FFFFFF")]),
              "furniture_recommendations" := JArray([])]);
            StyleDetails(Answered(Response("", [], "{...}", Some(parsed))), styleName)
              == Success(Details(styleName, JString("Luminoso"), [JString("#FFFFFF")], []))
  {
    var parsed := JObject(map[
      "description" := JString("Luminoso"),
      "color_palette" := JArray([JString("#FFFFFF")]),
      "furniture_recommendations" := JArray([])]);
    assert "{...}"[0] == '{';
    assert !IsBlank("{...}");
    TrimEmpty("{...}");
    assert DetailsShape(parsed);
  }

  // ---- One image attempt and the retry loop ----

  /** The first inline-data part, as the `for ... of` loop at geminiService.ts:145-152 finds it. */
  function FirstInline(parts: seq<Part>): (r: Option<ImageBase64>)
    ensures r.Some? <==> exists k :: 0 <= k < |parts| && parts[k].InlineDataPart?
    ensures r.Some? ==> exists k :: 0 <= k < |parts| && parts[k] == InlineDataPart(r.value)
                          && forall j :: 0 <= j < k ==> !parts[j].InlineDataPart?
  {
    match FirstIndex(parts, (p: Part) => p.InlineDataPart?)
    case None => None
    case Some(k) => Some(parts[k].inlineData)
  }

  /** Scans the parts of a candidate for inline image data (geminiService.ts:145-152). */
  method FindInlineData(parts: seq<Part>) returns (found: Option<ImageBase64>)
    ensures found == FirstInline(parts)
  {
    for k := 0 to |parts|
      invariant forall j :: 0 <= j < k ==> !parts[j].InlineDataPart?
    {
      if parts[k].InlineDataPart? {
        return Some(parts[k].inlineData);
      }
    }
    return None;
  }

  /** The outcome of the body of one attempt (geminiService.ts:113-153). */
  function ImageAttempt(reply: Reply): Result<ImageBase64, GenError>
  {
    match reply
    case TransportError => Failure(Transport)
    case NoResponse => Failure(EmptyResponse)
    case Answered(response) =>
      if response.blockReason != "" then Failure(Blocked(response.blockReason))
      else if response.candidates == [] then Failure(NoCandidate)
      else if response.candidates[0].finishReason == NoImageReason then Failure(NoImage)
      else match FirstInline(response.candidates[0].parts)
        case None => Failure(NoImageData)
        case Some(image) => Success(image)
  }

  /** An attempt yields an image exactly when the prompt is not blocked, there
      is a first candidate that did not finish with NO_IMAGE, and that candidate
      carries inline data; the image is its first inline part. */
  lemma AttemptSucceedsIff(reply: Reply)
    ensures ImageAttempt(reply).Success? <==>
      && reply.Answered?
      && reply.response.blockReason == ""
      && reply.response.candidates != []
      && reply.response.candidates[0].finishReason != NoImageReason
      && exists k :: 0 <= k < |reply.response.candidates[0].parts|
                     && reply.response.candidates[0].parts[k].InlineDataPart?
    ensures ImageAttempt(reply).Success? ==>
      exists k :: 0 <= k < |reply.response.candidates[0].parts|
        && reply.response.candidates[0].parts[k] == InlineDataPart(ImageAttempt(reply).value)
        && forall j :: 0 <= j < k ==> !reply.response.candidates[0].parts[j].InlineDataPart?
  {
    if reply.Answered? && reply.response.candidates != [] {
      var parts := reply.response.candidates[0].parts;
      var _ := FirstInline(parts);
    }
  }

  /** Attempt `j` of a retry loop whose first request is number `start`. */
  function Attempt(script: Script, start: nat, j: nat): Result<ImageBase64, GenError> {
    ImageAttempt(script(start + j))
  }

  /** The body of the `try` block of one attempt (geminiService.ts:113-153,
      210-254): each failed check is an error thrown to the `catch` block. */
  method RunAttempt(reply: Reply) returns (outcome: Result<ImageBase64, GenError>)
    ensures outcome == ImageAttempt(reply)
  {
    match reply
    case TransportError =>
      return Failure(Transport);
    case NoResponse =>
      return Failure(EmptyResponse);
    case Answered(response) =>
      if response.blockReason != "" {
        return Failure(Blocked(response.blockReason));
      }
      if response.candidates == [] {
        return Failure(NoCandidate);
      }
      var candidate := response.candidates[0];
      if candidate.finishReason == NoImageReason {
        return Failure(NoImage);
      }
      var found := FindInlineData(candidate.parts);
      if found.Some? {
        return Success(found.value);
      }
      return Failure(NoImageData);
  }

  /** The result of a retry loop and the number of requests it made. */
  datatype ImageRun = ImageRun(outcome: Result<ImageBase64, GenError>, calls: nat)

  /** The retry loop from attempt `i` on: it stops at the first attempt that
      yields an image, and otherwise after the last allowed attempt, whose error
      it propagates. */
  function RetryFrom(script: Script, start: nat, i: nat): (run: ImageRun)
    requires i < MaxImageGenerationRetries
    decreases MaxImageGenerationRetries - i
    ensures i < run.calls <= MaxImageGenerationRetries
    ensures run.outcome == Attempt(script, start, run.calls - 1)
    ensures forall j :: i <= j < run.calls - 1 ==> Attempt(script, start, j).Failure?
    ensures run.outcome.Failure? ==> run.calls == MaxImageGenerationRetries
  {
    var outcome := Attempt(script, start, i);
    if outcome.Success? || i == MaxImageGenerationRetries - 1 then ImageRun(outcome, i + 1)
    else RetryFrom(script, start, i + 1)
  }

  /** The whole retry loop of `generateStyledImage` and `refineDesign`. */
  function Retry(script: Script, start: nat): (run: ImageRun)
    ensures 1 <= run.calls <= MaxImageGenerationRetries
  {
    RetryFrom(script, start, 0)
  }

  /** The loop yields an image iff one of its three attempts does. */
  lemma RetrySucceedsIff(script: Script, start: nat)
    ensures Retry(script, start).outcome.Success?
        <==> exists j :: 0 <= j < MaxImageGenerationRetries && Attempt(script, start, j).Success?
  {
    var run := Retry(script, start);
    if run.outcome.Failure? {
      forall j | 0 <= j < MaxImageGenerationRetries
        ensures Attempt(script, start, j).Failure?
      {
        if j == run.calls - 1 {
          assert Attempt(script, start, j) == run.outcome;
        }
      }
    }
  }

  /** An image on the first attempt ends the loop after exactly one request. */
  lemma FirstAttemptImage(script: Script, start: nat)
    requires Attempt(script, start, 0).Success?
    ensures Retry(script, start) == ImageRun(Attempt(script, start, 0), 1)
  {
  }

  /** A blocked prompt is thrown inside the `try` and so is retried like any
      other failure: blocked, then an image, makes two requests. */
  lemma BlockedIsRetried(script: Script, start: nat, reason: string)
    requires Attempt(script, start, 0) == Failure(Blocked(reason))
    requires Attempt(script, start, 1).Success?
    ensures Retry(script, start) == ImageRun(Attempt(script, start, 1), 2)
  {
    assert RetryFrom(script, start, 0) == RetryFrom(script, start, 1);
  }

  /** Three NO_IMAGE candidates in a row: three requests, then the NO_IMAGE error. */
  lemma NoImageThreeTimes(script: Script, start: nat)
    requires forall j :: 0 <= j < MaxImageGenerationRetries ==> Attempt(script, start, j) == Failure(NoImage)
    ensures Retry(script, start) == ImageRun(Failure(NoImage), MaxImageGenerationRetries)
  {
    RetrySucceedsIff(script, start);
  }

  /** `generateStyledImage` (geminiService.ts:106-165): at most three requests,
      with one wait after each failed attempt but the last. */
  method GenerateStyledImage(script: Script, start: nat)
    returns (image: Result<ImageBase64, GenError>, calls: nat, waits: nat)
    ensures ImageRun(image, calls) == Retry(script, start)
    ensures calls == waits + 1
  {
    calls, waits := 0, 0;
    var i := 0;
    while i < MaxImageGenerationRetries
      invariant 0 <= i < MaxImageGenerationRetries
      invariant calls == i && waits == i
      invariant RetryFrom(script, start, i) == Retry(script, start)
      decreases MaxImageGenerationRetries - i
    {
      var outcome := RunAttempt(script(start + i));
      calls := calls + 1;
      if outcome.Success? {
        return outcome, calls, waits;
      }
      // the catch block: wait and retry, or rethrow on the last attempt
      if i < MaxImageGenerationRetries - 1 {
        waits := waits + 1;
        i := i + 1;
      } else {
        return outcome, calls, waits;
      }
    }
    // the throw after the loop (geminiService.ts:164) cannot be reached
    assert false;
  }

  // ---- generateFullVariation ----

  /** A style variation as the service builds it; description, palette and
      furniture are the parsed JSON values as they are. */
  datatype GeneratedVariation = GeneratedVariation(
    styleName: string,
    description: Json,
    colorPalette: seq<Json>,
    furnitureRecommendations: seq<Json>,
    imageUrl: string,
    imageBase64: ImageBase64,
    iterations: seq<Iteration>)

  /** A freshly generated variation of style `name`: no iterations, and its URL
      is the data URL of its image (geminiService.ts:171-176). */
  predicate WellGenerated(v: GeneratedVariation, name: string) {
    v.styleName == name && v.iterations == [] && v.imageUrl == Format(v.imageBase64)
  }

  /** A result and the number of the next request to be made. */
  datatype VariationRun = VariationRun(outcome: Result<GeneratedVariation, GenError>, next: nat)

  /** The end of `generateFullVariation` once the image exists (geminiService.ts:169-176). */
  function Assemble(styleName: string, image: ImageBase64, details: Result<Details, GenError>, next: nat): (run: VariationRun)
    ensures run.next == next
  {
    match details
    case Failure(e) => VariationRun(Failure(e), next)
    case Success(d) =>
      VariationRun(
        Success(GeneratedVariation(
          styleName, d.description, d.colorPalette, d.furnitureRecommendations, Format(image), image, [])),
        next)
  }

  /** `generateFullVariation` (geminiService.ts:167-177) as a function of the replies. */
  function FullVariation(script: Script, pos: nat, styleName: string): (run: VariationRun)
    ensures run.outcome.Success? ==> WellGenerated(run.outcome.value, styleName)
  {
    var image := Retry(script, pos);
    var detailsAt := pos + image.calls;
    match image.outcome
    case Failure(e) => VariationRun(Failure(e), detailsAt)
    case Success(img) => Assemble(styleName, img, StyleDetails(script(detailsAt), styleName), detailsAt + 1)
  }

  /** A full variation needs an image from one of the three attempts and then
      an accepted details reply; its image is that of the first successful
      attempt and its description, palette and furniture are the details'. */
  lemma FullVariationSteps(script: Script, pos: nat, styleName: string)
    ensures var calls := Retry(script, pos).calls;
      var run := FullVariation(script, pos, styleName);
      var details := StyleDetails(script(pos + calls), styleName);
      && (run.outcome.Success? <==>
            (exists j :: 0 <= j < MaxImageGenerationRetries && Attempt(script, pos, j).Success?)
            && details.Success?)
      && (run.outcome.Success? ==>
            && details.Success?
            && run.next == pos + calls + 1
            && Attempt(script, pos, calls - 1) == Success(run.outcome.value.imageBase64)
            && run.outcome.value.description == details.value.description
            && run.outcome.value.colorPalette == details.value.colorPalette
            && run.outcome.value.furnitureRecommendations == details.value.furnitureRecommendations)
  {
    RetrySucceedsIff(script, pos);
  }

  method GenerateFullVariation(script: Script, pos: nat, styleName: string)
    returns (variation: Result<GeneratedVariation, GenError>, next: nat)
    ensures VariationRun(variation, next) == FullVariation(script, pos, styleName)
  {
    var image, calls, _ := GenerateStyledImage(script, pos);
    ghost var run := Retry(script, pos);
    assert run == ImageRun(image, calls);
    next := pos + calls;
    match image
    case Failure(e) =>
      return Failure(e), next;
    case Success(newImageData) =>
      var details := StyleDetails(script(next), styleName);
      next := next + 1;
      assert FullVariation(script, pos, styleName) == Assemble(styleName, newImageData, details, next);
      variation := Assemble(styleName, newImageData, details, next).outcome;
  }

  /** The URL of a generated variation decodes back to its image whenever the
      image's media type and data hold no comma and the media type no `;base64`. */
  lemma GeneratedUrlDecodes(v: GeneratedVariation, name: string)
    requires WellGenerated(v, name)
    requires ',' !in v.imageBase64.mimeType && ',' !in v.imageBase64.data
    requires !Contains(v.imageBase64.mimeType, Base64Marker)
    ensures IsValid(v.imageUrl)
    ensures Parse(v.imageUrl) == Some(v.imageBase64)
  {
    FormatIsValid(v.imageBase64);
    RoundTrip(v.imageBase64);
  }

  // ---- generateInitialDesigns ----

  /** One `onProgress(style, current, total)` call. */
  datatype Progress = Progress(style: string, current: nat, total: nat)

  /** The report made before generating style number `k` (geminiService.ts:189). */
  function Report(k: nat): Progress
    requires k < |Styles|
  {
    Progress(Styles[k], k + 1, |Styles|)
  }

  /** `progress` is the run of reports starting with style number `i`. */
  predicate ReportsFrom(progress: seq<Progress>, i: nat) {
    i + |progress| <= |Styles| && forall k :: 0 <= k < |progress| ==> progress[k] == Report(i + k)
  }

  /** The variations, the progress reports and the next request number. */
  datatype DesignRun = DesignRun(
    outcome: Result<seq<GeneratedVariation>, GenError>,
    progress: seq<Progress>,
    next: nat)

  /** The step the batch repeats: one style's variation from a request number. */
  type Generator = (nat, string) -> VariationRun

  /** `generateFullVariation` with the replies fixed. */
  function Generate(script: Script): Generator {
    (pos: nat, styleName: string) => FullVariation(script, pos, styleName)
  }

  lemma GenerateIs(script: Script)
    ensures forall pos: nat, name :: Generate(script)(pos, name) == FullVariation(script, pos, name)
  {
  }

  /** A generator whose variations always carry the style asked for, as
      `generateFullVariation` does. */
  ghost predicate KeepsStyle(gen: Generator) {
    forall pos, name :: gen(pos, name).outcome.Success? ==> WellGenerated(gen(pos, name).outcome.value, name)
  }

  lemma GenerateKeepsStyle(script: Script)
    ensures KeepsStyle(Generate(script))
  {
    forall pos, name
      ensures Generate(script)(pos, name).outcome.Success? ==> WellGenerated(Generate(script)(pos, name).outcome.value, name)
    {
      assert Generate(script)(pos, name) == FullVariation(script, pos, name);
    }
  }

  /** The batch from style number `i` on, with `results` already generated:
      report the style, generate it, and stop at the first failure. */
  function DesignsFrom(gen: Generator, pos: nat, i: nat, results: seq<GeneratedVariation>): DesignRun
    requires i <= |Styles|
    decreases |Styles| - i
  {
    if i == |Styles| then DesignRun(Success(results), [], pos)
    else
      var v := gen(pos, Styles[i]);
      match v.outcome
      case Failure(e) => DesignRun(Failure(e), [Report(i)], v.next)
      case Success(variation) =>
        var rest := DesignsFrom(gen, v.next, i + 1, results + [variation]);
        DesignRun(rest.outcome, [Report(i)] + rest.progress, rest.next)
  }

  /** A style that succeeds is reported first and appended before the rest of the batch. */
  lemma DesignsFromNext(gen: Generator, pos: nat, i: nat, results: seq<GeneratedVariation>,
                        variation: GeneratedVariation, after: nat)
    requires i < |Styles| && gen(pos, Styles[i]) == VariationRun(Success(variation), after)
    ensures var rest := DesignsFrom(gen, after, i + 1, results + [variation]);
      DesignsFrom(gen, pos, i, results) == DesignRun(rest.outcome, [Report(i)] + rest.progress, rest.next)
  {
  }

  /** One successful turn of the batch loop keeps the loop's account of the
      whole batch: the reports so far, then the rest of the batch. */
  lemma BatchStep(gen: Generator, pos: nat, i: nat, results: seq<GeneratedVariation>, reported: seq<Progress>,
                  variation: GeneratedVariation, after: nat)
    requires i < |Styles| && gen(pos, Styles[i]) == VariationRun(Success(variation), after)
    ensures var rest := DesignsFrom(gen, pos, i, results);
      var later := DesignsFrom(gen, after, i + 1, results + [variation]);
      DesignRun(rest.outcome, reported + rest.progress, rest.next)
        == DesignRun(later.outcome, (reported + [Report(i)]) + later.progress, later.next)
  {
    DesignsFromNext(gen, pos, i, results, variation, after);
    var later := DesignsFrom(gen, after, i + 1, results + [variation]);
    assert reported + ([Report(i)] + later.progress) == (reported + [Report(i)]) + later.progress;
  }

  /** A style that fails is reported and ends the batch with its error. */
  lemma DesignsFromStop(gen: Generator, pos: nat, i: nat, results: seq<GeneratedVariation>, e: GenError, after: nat)
    requires i < |Styles| && gen(pos, Styles[i]) == VariationRun(Failure(e), after)
    ensures DesignsFrom(gen, pos, i, results) == DesignRun(Failure(e), [Report(i)], after)
  {
  }

  lemma ReportsPrepend(i: nat, rest: seq<Progress>)
    requires i < |Styles| && ReportsFrom(rest, i + 1)
    ensures ReportsFrom([Report(i)] + rest, i)
  {
    var progress := [Report(i)] + rest;
    forall k | 0 <= k < |progress|
      ensures progress[k] == Report(i + k)
    {
      if k > 0 {
        assert progress[k] == rest[k - 1];
      }
    }
  }

  /** `vs` are the first `|vs|` styles, each well generated, in style order. */
  predicate InStyleOrder(vs: seq<GeneratedVariation>) {
    |vs| <= |Styles| && forall k :: 0 <= k < |vs| ==> WellGenerated(vs[k], Styles[k])
  }

  lemma InStyleOrderExtend(results: seq<GeneratedVariation>, variation: GeneratedVariation)
    requires InStyleOrder(results) && |results| < |Styles|
    requires WellGenerated(variation, Styles[|results|])
    ensures InStyleOrder(results + [variation])
  {
    var more := results + [variation];
    forall k | 0 <= k < |more|
      ensures WellGenerated(more[k], Styles[k])
    {
      if k < |results| {
        assert more[k] == results[k];
      }
    }
  }

  /** What the batch from style number `i` on reports and returns, given the
      `i` variations generated before it. */
  lemma {:induction false} DesignsFromSpec(gen: Generator, pos: nat, i: nat, results: seq<GeneratedVariation>)
    requires KeepsStyle(gen)
    requires i <= |Styles| && |results| == i && InStyleOrder(results)
    decreases |Styles| - i
    ensures var run := DesignsFrom(gen, pos, i, results);
      && ReportsFrom(run.progress, i)
      && (run.outcome.Success? ==>
            && |run.progress| == |Styles| - i
            && |run.outcome.value| == |Styles|
            && InStyleOrder(run.outcome.value))
      && (run.outcome.Failure? ==> |run.progress| >= 1)
  {
    if i < |Styles| {
      var v := gen(pos, Styles[i]);
      if v.outcome.Success? {
        var more := results + [v.outcome.value];
        InStyleOrderExtend(results, v.outcome.value);
        DesignsFromSpec(gen, v.next, i + 1, more);
        ReportsPrepend(i, DesignsFrom(gen, v.next, i + 1, more).progress);
      }
    }
  }

  /** The request number reached after generating the `k` styles from number
      `i` on, each starting where the previous one stopped. */
  function PosAfter(gen: Generator, pos: nat, i: nat, k: nat): nat
    requires i + k <= |Styles|
    decreases k
  {
    if k == 0 then pos else PosAfter(gen, gen(pos, Styles[i]).next, i + 1, k - 1)
  }

  /** `run`, a batch from style number `i` and request number `pos`, failed at
      the style of its last report: that style's generation failed with the
      batch's error and ended at the batch's next request number. */
  ghost predicate FailsAtLastReport(gen: Generator, pos: nat, i: nat, run: DesignRun) {
    run.outcome.Failure? ==>
      && 1 <= |run.progress| && i + |run.progress| <= |Styles|
      && var last := gen(PosAfter(gen, pos, i, |run.progress| - 1), Styles[i + |run.progress| - 1]);
         last.outcome == Failure(run.outcome.error) && run.next == last.next
  }

  /** Every style of `run` reported before its last one was generated
      successfully. */
  ghost predicate EarlierReportsSucceeded(gen: Generator, pos: nat, i: nat, run: DesignRun) {
    && i + |run.progress| <= |Styles|
    && forall k :: 0 <= k < |run.progress| - 1 ==> gen(PosAfter(gen, pos, i, k), Styles[i + k]).outcome.Success?
  }

  /** A batch that fails stops at the style whose generation fails: the last
      report is that style's, and the batch ends with its error and its next
      request number. */
  lemma {:induction false} DesignsFromFailure(gen: Generator, pos: nat, i: nat, results: seq<GeneratedVariation>)
    requires i <= |Styles|
    decreases |Styles| - i
    ensures FailsAtLastReport(gen, pos, i, DesignsFrom(gen, pos, i, results))
  {
    if i < |Styles| {
      var v := gen(pos, Styles[i]);
      if v.outcome.Success? {
        var more := results + [v.outcome.value];
        var rest := DesignsFrom(gen, v.next, i + 1, more);
        DesignsFromFailure(gen, v.next, i + 1, more);
        if rest.outcome.Failure? {
          var n := |rest.progress|;
          assert DesignsFrom(gen, pos, i, results) == DesignRun(rest.outcome, [Report(i)] + rest.progress, rest.next);
          assert PosAfter(gen, pos, i, n) == PosAfter(gen, v.next, i + 1, n - 1);
        }
      }
    }
  }

  /** Every style reported before the last one of a batch was generated
      successfully, so a failure is the first failure in style order. */
  lemma {:induction false} DesignsFromReported(gen: Generator, pos: nat, i: nat, results: seq<GeneratedVariation>)
    requires i <= |Styles|
    decreases |Styles| - i
    ensures EarlierReportsSucceeded(gen, pos, i, DesignsFrom(gen, pos, i, results))
  {
    if i < |Styles| {
      var v := gen(pos, Styles[i]);
      if v.outcome.Success? {
        var more := results + [v.outcome.value];
        var rest := DesignsFrom(gen, v.next, i + 1, more);
        DesignsFromReported(gen, v.next, i + 1, more);
        var run := DesignsFrom(gen, pos, i, results);
        assert run == DesignRun(rest.outcome, [Report(i)] + rest.progress, rest.next);
        forall k | 0 <= k < |run.progress| - 1
          ensures gen(PosAfter(gen, pos, i, k), Styles[i + k]).outcome.Success?
        {
          if k > 0 {
            assert PosAfter(gen, pos, i, k) == PosAfter(gen, v.next, i + 1, k - 1);
            assert Styles[i + k] == Styles[i + 1 + (k - 1)];
          }
        }
      }
    }
  }

  /** `generateInitialDesigns` (geminiService.ts:179-195) as a function of the replies. */
  function InitialDesigns(script: Script, start: nat): DesignRun {
    DesignsFrom(Generate(script), start, 0, [])
  }

  /** The batch returns five variations named Moderno, Nórdico, Clásico,
      Bohemio and Industrial in that order, each with no iterations and with
      the data URL of its image; each style is announced by a progress report
      `(style, i + 1, 5)` before it is generated, and a failure aborts the batch
      right after the report of the failing style (geminiService.ts:185-194). */
  lemma InitialDesignsSpec(script: Script, start: nat)
    ensures var run := InitialDesigns(script, start);
      && ReportsFrom(run.progress, 0)
      && (run.outcome.Success? ==>
            && |run.progress| == |Styles|
            && |run.outcome.value| == |Styles|
            && forall k :: 0 <= k < |Styles| ==> WellGenerated(run.outcome.value[k], Styles[k]))
      && (run.outcome.Failure? ==> 1 <= |run.progress| <= |Styles|)
  {
    GenerateKeepsStyle(script);
    DesignsFromSpec(Generate(script), start, 0, []);
  }

  /** A failed batch stops at the first style whose `generateFullVariation`
      fails: every style announced before it was generated, and the batch
      rethrows that style's error (geminiService.ts:185-194). The generator is
      `Generate(script)`, which `GenerateIs` equates with `FullVariation`. */
  lemma InitialDesignsFailure(script: Script, start: nat)
    ensures FailsAtLastReport(Generate(script), start, 0, InitialDesigns(script, start))
    ensures EarlierReportsSucceeded(Generate(script), start, 0, InitialDesigns(script, start))
  {
    DesignsFromFailure(Generate(script), start, 0, []);
    DesignsFromReported(Generate(script), start, 0, []);
  }

  /** `generateInitialDesigns` called as App.tsx:171 calls it, with no
      `onProgress`: the first turn calls the absent callback
      (geminiService.ts:189), which throws a TypeError before any request. */
  function InitialDesignsWithoutCallback(script: Script, start: nat): DesignRun {
    DesignRun(Failure(Crashed), [], start)
  }

  /** Called without a callback, the batch fails on every reply script and
      makes no request and no report, whereas the batch with a callback
      reports the first style before generating it. */
  lemma CallWithoutCallbackFails(script: Script, start: nat)
    ensures var written := InitialDesignsWithoutCallback(script, start);
      && written.outcome == Failure(Crashed) && written.progress == [] && written.next == start
    ensures var intended := InitialDesigns(script, start);
      1 <= |intended.progress| && intended.progress[0] == Progress("Moderno", 1, 5)
  {
    InitialDesignsSpec(script, start);
  }

  /** One turn of the batch loop (geminiService.ts:190): the variation of style
      number `i`, as the generator `gen` describes it. */
  method GenerateStyle(script: Script, ghost gen: Generator, pos: nat, i: nat)
    returns (variation: Result<GeneratedVariation, GenError>, after: nat)
    requires forall p: nat, name {:trigger FullVariation(script, p, name)} :: gen(p, name) == FullVariation(script, p, name)
    requires i < |Styles|
    ensures VariationRun(variation, after) == gen(pos, Styles[i])
  {
    variation, after := GenerateFullVariation(script, pos, Styles[i]);
  }

  /** The loop of `generateInitialDesigns` (geminiService.ts:185-193), for a
      generator `gen` that stands for `generateFullVariation` on these replies. */
  method GenerateBatch(script: Script, ghost gen: Generator, start: nat)
    returns (designs: Result<seq<GeneratedVariation>, GenError>, progress: seq<Progress>, next: nat)
    requires forall p: nat, name {:trigger FullVariation(script, p, name)} :: gen(p, name) == FullVariation(script, p, name)
    ensures DesignRun(designs, progress, next) == DesignsFrom(gen, start, 0, [])
  {
    ghost var total := DesignsFrom(gen, start, 0, []);
    var results: seq<GeneratedVariation> := [];
    progress := [];
    var pos := start;
    var i := 0;
    while i < |Styles|
      invariant 0 <= i <= |Styles| && |results| == i
      invariant var rest := DesignsFrom(gen, pos, i, results);
        total == DesignRun(rest.outcome, progress + rest.progress, rest.next)
    {
      ghost var rest := DesignsFrom(gen, pos, i, results);
      ghost var reported := progress;
      progress := progress + [Report(i)];
      var variation, after := GenerateStyle(script, gen, pos, i);
      match variation
      case Failure(e) =>
        DesignsFromStop(gen, pos, i, results, e, after);
        assert reported + rest.progress == progress;
        return Failure(e), progress, after;
      case Success(v) =>
        BatchStep(gen, pos, i, results, reported, v, after);
        results := results + [v];
        pos := after;
        i := i + 1;
    }
    assert DesignsFrom(gen, pos, i, results) == DesignRun(Success(results), [], pos);
    assert progress + [] == progress;
    designs, next := Success(results), pos;
  }

  method GenerateInitialDesigns(script: Script, start: nat)
    returns (designs: Result<seq<GeneratedVariation>, GenError>, progress: seq<Progress>, next: nat)
    ensures DesignRun(designs, progress, next) == InitialDesigns(script, start)
  {
    GenerateIs(script);
    designs, progress, next := GenerateBatch(script, Generate(script), start);
  }

  // ---- refineDesign ----

  /** The detail fields a refinement returns (geminiService.ts:203). */
  datatype NewDetails = NewDetails(description: Json, colorPalette: seq<Json>, furnitureRecommendations: seq<Json>)

  datatype Refinement = Refinement(newImage: ImageBase64, newDetails: NewDetails)

  datatype RefineRun = RefineRun(outcome: Result<Refinement, GenError>, next: nat)

  /** The end of `refineDesign` once the loop has an image (geminiService.ts:269-278). */
  function WithDetails(image: ImageBase64, details: Result<Details, GenError>, next: nat): RefineRun {
    match details
    case Failure(e) => RefineRun(Failure(e), next)
    case Success(d) =>
      RefineRun(Success(Refinement(image, NewDetails(d.description, d.colorPalette, d.furnitureRecommendations))), next)
  }

  /** `refineDesign` (geminiService.ts:198-279) as a function of the replies. */
  function Refine(script: Script, start: nat, styleName: string): RefineRun {
    var image := Retry(script, start);
    var detailsAt := start + image.calls;
    match image.outcome
    case Failure(e) => RefineRun(Failure(e), detailsAt)
    case Success(img) => WithDetails(img, StyleDetails(script(detailsAt), styleName), detailsAt + 1)
  }

  /** `refineDesign` runs the same retry loop as `generateStyledImage` and,
      once it has an image, makes exactly one details call with no retry: it
      succeeds iff one of the three attempts yields an image and the details
      reply after it is accepted, and returns the image of the first successful
      attempt with the details' description, palette and furniture unchanged
      (geminiService.ts:209-277). */
  lemma RefineSteps(script: Script, start: nat, styleName: string)
    ensures var calls := Retry(script, start).calls;
      var refined := Refine(script, start, styleName);
      var details := StyleDetails(script(start + calls), styleName);
      && (refined.outcome.Success? <==>
            (exists j :: 0 <= j < MaxImageGenerationRetries && Attempt(script, start, j).Success?)
            && details.Success?)
      && (refined.outcome.Success? ==>
            && details.Success?
            && refined.next == start + calls + 1
            && Attempt(script, start, calls - 1) == Success(refined.outcome.value.newImage)
            && (forall j :: 0 <= j < calls - 1 ==> Attempt(script, start, j).Failure?)
            && refined.outcome.value.newDetails
                 == NewDetails(details.value.description, details.value.colorPalette,
                               details.value.furnitureRecommendations))
  {
    RetrySucceedsIff(script, start);
  }

  /** When every image attempt fails, `refineDesign` rethrows the last error. */
  lemma RefineAfterFailure(script: Script, start: nat, styleName: string, e: GenError, calls: nat)
    requires Retry(script, start) == ImageRun(Failure(e), calls)
    ensures Refine(script, start, styleName) == RefineRun(Failure(e), start + calls)
  {
  }

  /** Once an attempt yields an image, `refineDesign` ends with the details step. */
  lemma RefineAfterImage(script: Script, start: nat, styleName: string, image: ImageBase64, calls: nat)
    requires Retry(script, start) == ImageRun(Success(image), calls)
    ensures Refine(script, start, styleName)
      == WithDetails(image, StyleDetails(script(start + calls), styleName), start + calls + 1)
  {
  }

  /** The details step of `refineDesign` (geminiService.ts:269-278): one call,
      no retry, and only description, palette and furniture are kept. */
  method FetchNewDetails(script: Script, at: nat, styleName: string, newImage: ImageBase64)
    returns (refinement: Result<Refinement, GenError>, next: nat)
    ensures RefineRun(refinement, next) == WithDetails(newImage, StyleDetails(script(at), styleName), at + 1)
  {
    var details := StyleDetails(script(at), styleName);
    next := at + 1;
    match details
    case Failure(e) =>
      refinement := Failure(e);
    case Success(d) =>
      refinement := Success(Refinement(
        newImage, NewDetails(d.description, d.colorPalette, d.furnitureRecommendations)));
  }

  /** The retry loop of `refineDesign` (geminiService.ts:207-267): like the loop
      of `generateStyledImage`, but a found image is kept in `refinedImage` and
      the loop is left with `break`. */
  method RefineImage(script: Script, start: nat)
    returns (image: Result<ImageBase64, GenError>, calls: nat, waits: nat)
    ensures ImageRun(image, calls) == Retry(script, start)
    ensures calls == waits + 1
  {
    var refinedImage: Option<ImageBase64> := None;
    calls, waits := 0, 0;
    var i := 0;
    while i < MaxImageGenerationRetries
      invariant 0 <= i < MaxImageGenerationRetries
      invariant calls == i && waits == i && refinedImage.None?
      invariant RetryFrom(script, start, i) == Retry(script, start)
      decreases MaxImageGenerationRetries - i
    {
      var outcome := RunAttempt(script(start + i));
      calls := calls + 1;
      if outcome.Success? {
        refinedImage := Some(outcome.value);
        break;
      }
      // wait and retry (geminiService.ts:235, 258), or rethrow on the last attempt
      if i < MaxImageGenerationRetries - 1 {
        waits := waits + 1;
        i := i + 1;
      } else {
        return outcome, calls, waits;
      }
    }
    match refinedImage
    case None =>
      // the throw at geminiService.ts:265-267 cannot be reached
      assert false;
    case Some(newImage) =>
      image := Success(newImage);
  }

  method RefineDesign(script: Script, start: nat, styleName: string)
    returns (refinement: Result<Refinement, GenError>, next: nat)
    ensures RefineRun(refinement, next) == Refine(script, start, styleName)
  {
    var image, calls, _ := RefineImage(script, start);
    match image
    case Failure(e) =>
      RefineAfterFailure(script, start, styleName, e, calls);
      return Failure(e), start + calls;
    case Success(newImage) =>
      refinement, next := FetchNewDetails(script, start + calls, styleName, newImage);
      RefineAfterImage(script, start, styleName, newImage, calls);
  }
}
