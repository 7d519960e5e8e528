# Rosi-Decora in Dafny

Rosi-Decora is a single-page interior-design assistant. The user uploads a
photo of a room. The application asks an AI image service for an analysis
and for five styled redesigns (Moderno, Nórdico, Clásico, Bohemio,
Industrial). Each redesign can then be refined with free-text prompts. The
projects are kept in the browser's local storage, with the heavy base64
image caches stripped before saving and rebuilt from the data URLs on load.

This project models the core of that application and proves properties of
the model. It covers:

- the data URL codec of `App.tsx` (`dataUrlToImageBase64`, `isValidDataUrl`)
  and the URL template the rest of the program prints;
- persistence: the stripped copy that is saved and the hydration done on
  load, with save-then-load proved to give back the saved projects;
- the generation pipeline of `services/geminiService.ts`: the three-attempt
  image retry loop, the validation of the style-details JSON, one full
  variation, the ordered batch of five styles with its progress reports,
  and refinement;
- the handlers of `App.tsx` as a class `App.AppController` whose fields are
  the React state;
- the components' logic: the upload form's checks, the tutorial stepper,
  the refinement panel, the furniture list and the image with a fallback.

The AI service is a `Script`, the reply received by the n-th request. Every
pipeline step is a function of the script and of the number of the first
request it makes, and returns the number of the next request. Each loop of
the source is a method proved equal to that function. Storage is a value
(`Persistence.Stored`). The outcome of a storage write, a file read and a
service call made by a handler is a parameter of that handler.

Modules, in dependency order: `Wrappers`, `Seqs`, `Strings`, `Types`,
`DataUrl`, `Json`, `Persistence`, `GeminiService`, `App`, `ImageUpload`,
`Tutorial`, `RefinementPanel`, `FurnitureList`, `ImageWithFallback`.

Where the prose description of the system and the code differ, the model
follows the code:

- The details step does not check that the palette has five colours or
  that there are three furniture items (`GeminiService.DetailsAcceptAnyCounts`).
- A blocked image prompt is thrown inside the `try` and so is retried like
  any other failure (`GeminiService.BlockedIsRetried`).
- A project reloaded from storage has no usable base image for refinement,
  because its stored URLs are placeholders (`App.ReloadedHasNoBaseImage`).

## Model

| member | source | states |
|---|---|---|
| DataUrl.Format | App.tsx:239 | the printed URL starts with `data:` |
| DataUrl.Parse | App.tsx:14-43 | no result without the `data:` prefix or without exactly one comma |
| DataUrl.ParseDefined | App.tsx:15-23 | decoding succeeds iff the URL starts with `data:` and has exactly one comma; the later `null` returns cannot happen |
| DataUrl.ParseData | App.tsx:19-35 | the decoded data is the text after the URL's comma |
| DataUrl.MimeOfHead | App.tsx:36-41 | the media type is the text between `data:` and the first `;base64` after it |
| DataUrl.ParseMarkedHead | App.tsx:24-42 | with `;base64` in the header, the result is the lazily matched media type and the data after the comma |
| DataUrl.ParseUnmarkedHead | App.tsx:24-30 | without `;base64` in the header, the media type is the whole header after `data:` and the data is the text after the comma |
| DataUrl.ValidHead | App.tsx:46-48 | a valid URL with one comma splits into a header holding `data:` and `;base64`, and the data |
| DataUrl.ValidHeadHasMarker | App.tsx:46-48 | when `;base64,` occurs and the comma is the only one, the header ends with `;base64` |
| DataUrl.ValidParses | App.tsx:14-48 | every valid URL with one comma decodes, to the media type before the first `;base64` and the data after the comma |
| DataUrl.FormatIsValid | App.tsx:46-48 | every printed URL passes `isValidDataUrl` |
| DataUrl.FormatSplits | App.tsx:19 | a printed URL splits on its comma into the header and the data |
| DataUrl.RoundTrip | App.tsx:35-42 | decoding a printed URL gives back its image when media type and data hold no comma and the media type no `;base64` |
| Persistence.StripAll | App.tsx:111-137 | the saved copy has every cache cleared and every URL replaced by the placeholder, and keeps every text field and every list length |
| Persistence.BareUnique | App.tsx:111-137 | two stripped lists with the same texts are equal |
| Persistence.StripIdempotent | App.tsx:111-137 | stripping twice is stripping once |
| Persistence.HydrateAll | App.tsx:67-99 | each cache is kept if present, otherwise rebuilt by decoding its URL when the URL is valid, otherwise absent; URLs and texts are unchanged |
| Persistence.Load | App.tsx:60-106 | a saved list is hydrated; absent or unreadable storage gives the empty list |
| Persistence.HydrateIdempotent | App.tsx:67-99 | hydrating twice is hydrating once |
| Persistence.StripAfterHydrate | App.tsx:67-137 | hydration leaves the saved copy unchanged |
| Persistence.HydrateBare | App.tsx:67-99 | hydration changes nothing in a stripped list |
| Persistence.LoadAfterSave | App.tsx:139 | loading what was saved gives the stripped list back, with the original texts |
| Seqs.Filter | App.tsx:269 | the kept elements pass the test, and each one that passes keeps its multiplicity |
| Seqs.FilterAppend | components/FurnitureList.tsx:14-15 | filtering a concatenation concatenates the filtered halves |
| Seqs.Find | App.tsx:203 | a result exists iff some element passes, and it is the first element that passes |
| Strings.Split | App.tsx:19 | `split` gives one more part than there are separators, none holding the separator, and joining the parts with the separator gives back the text |
| Strings.SplitOnce | App.tsx:19-20 | with exactly one separator, the parts are the text before and after it |
| Strings.TrimEmpty | services/geminiService.ts:79-83 | the trimmed text is empty iff the text is all white space |
| Strings.IndexOf | App.tsx:36 | the first occurrence at or after a position, and none before it |
| Strings.NatToString | App.tsx:162 | decimal digits whose value is the number, with no leading zero, one digit exactly below ten |
| GeminiService.AnalyzeImage | services/geminiService.ts:25-35 | the response text iff there is no block reason; a block reason is the error |
| GeminiService.StyleDetails | services/geminiService.ts:37-104 | success iff not blocked, non-blank text, parseable JSON with a truthy description and array palette and furniture; the result carries those members and the requested style name |
| GeminiService.DetailsErrorOrder | services/geminiService.ts:74-96 | the block check wins over the blank check, which wins over the parse check, which wins over the shape check |
| GeminiService.DetailsAcceptAnyCounts | services/geminiService.ts:93-103 | a reply with one colour and no furniture is accepted unchanged |
| GeminiService.FirstInline | services/geminiService.ts:145-152 | an image exists iff some part has inline data, and it is such a part's |
| GeminiService.FindInlineData | services/geminiService.ts:145-152 | the loop returns the first inline-data part |
| GeminiService.AttemptSucceedsIff | services/geminiService.ts:113-153 | an attempt yields an image iff the reply is unblocked with a first candidate that is not NO_IMAGE and has inline data |
| GeminiService.RunAttempt | services/geminiService.ts:113-153 | the body of one attempt computes the attempt's outcome |
| GeminiService.RetryFrom | services/geminiService.ts:112-163 | at most three requests; the outcome is that of the last one made, every earlier one failed, and a failure means all three were made |
| GeminiService.Retry | services/geminiService.ts:112-163 | between one and three requests |
| GeminiService.RetrySucceedsIff | services/geminiService.ts:112-163 | the loop yields an image iff one of its three attempts does |
| GeminiService.FirstAttemptImage | services/geminiService.ts:145-149 | an image on the first attempt ends the loop after one request |
| GeminiService.BlockedIsRetried | services/geminiService.ts:126-128 | a blocked first attempt is followed by a second |
| GeminiService.NoImageThreeTimes | services/geminiService.ts:135-143 | three NO_IMAGE replies give three requests and the NO_IMAGE error |
| GeminiService.GenerateStyledImage | services/geminiService.ts:106-165 | the loop computes the retry run and waits once between consecutive attempts |
| GeminiService.FullVariation | services/geminiService.ts:167-177 | a generated variation carries the requested style name, no iterations and the data URL of its image |
| GeminiService.FullVariationSteps | services/geminiService.ts:167-177 | success iff some attempt yields an image and the details reply after it is accepted; the image is the first successful attempt's and the texts are the details' |
| GeminiService.GenerateFullVariation | services/geminiService.ts:167-177 | the method computes the full variation |
| GeminiService.GeneratedUrlDecodes | services/geminiService.ts:171-176 | a generated variation's URL is valid and decodes to its image |
| GeminiService.DesignsFromSpec | services/geminiService.ts:185-193 | from style `i` on, progress reports are numbered in order; success gives all five styles in order, failure stops after the failing style's report |
| GeminiService.DesignsFromFailure | services/geminiService.ts:188-192 | a failed batch ends at the style of its last report: that style's generation, from the request number the earlier styles reached, fails with the batch's error and ends at the batch's next request number |
| GeminiService.DesignsFromReported | services/geminiService.ts:188-192 | every style reported before the last one was generated successfully, so the batch stops at the first failing style |
| GeminiService.InitialDesignsSpec | services/geminiService.ts:179-195 | five variations in style order, each preceded by the report `(style, i + 1, 5)`; a failure aborts after at least one report |
| GeminiService.InitialDesignsFailure | services/geminiService.ts:185-194 | a failed batch rethrows the error of the first style whose `generateFullVariation` fails, after every earlier style succeeded |
| GeminiService.CallWithoutCallbackFails | App.tsx:171 | called without `onProgress`, the batch throws before any request or report, whereas with a callback it reports `(Moderno, 1, 5)` first |
| GeminiService.GenerateStyle | services/geminiService.ts:190 | one turn of the batch loop yields the variation the generator describes for style number `i` |
| GeminiService.GenerateBatch | services/geminiService.ts:185-193 | the loop computes the batch |
| GeminiService.GenerateInitialDesigns | services/geminiService.ts:179-195 | the method computes `generateInitialDesigns` on these replies |
| GeminiService.RefineSteps | services/geminiService.ts:209-278 | success iff some attempt yields an image and the one details reply after it is accepted; the new image is the first successful attempt's and the new details are the reply's texts |
| GeminiService.FetchNewDetails | services/geminiService.ts:269-278 | one details call, no retry |
| GeminiService.RefineImage | services/geminiService.ts:207-267 | the loop of `refineDesign` computes the same retry run and waits once between consecutive attempts |
| GeminiService.RefineDesign | services/geminiService.ts:198-279 | the method computes `refineDesign` on these replies |
| App.FileData | App.tsx:153 | the uploaded data holds no comma |
| App.FileDataAfterComma | App.tsx:153 | with one comma, the uploaded data is the text after it |
| App.NewProject | App.tsx:160-178 | the new project is named `Proyecto n+1`, caches the uploaded image and has the generated variations with no iterations |
| App.NewProjectCacheMatchesUrl | App.tsx:160-168 | the cache of a new project is what its URL decodes to |
| App.LatestUrl | App.tsx:216-219 | the last iteration's URL, else the variation's |
| App.BaseImageSource | App.tsx:209-225 | the base image is the last iteration's cache, else the variation's, else the decoded latest URL |
| App.HydratedHasBaseImage | App.tsx:67-99 | after hydration a variation whose latest URL decodes has a base image |
| App.StrippedHasNoBaseImage | App.tsx:111-137 | a stripped variation has no base image |
| App.ReloadedHasNoBaseImage | App.tsx:139 | no variation of a saved-and-reloaded list has a base image |
| App.NewIteration | App.tsx:237-241 | the iteration carries the prompt, the image and a `data:` URL |
| App.NewIterationDecodes | App.tsx:237-241 | the new iteration's URL decodes to its image |
| App.WithIteration | App.tsx:243-254 | the number of variations is unchanged |
| App.WithIterationAppendsOne | App.tsx:243-254 | the named variations get the iteration appended, the others are unchanged, and so are the project's own fields |
| App.ReplaceById | App.tsx:257 | the list length is unchanged |
| App.ReplaceByIdPositions | App.tsx:257 | each project with the id becomes the update, the others are unchanged |
| App.FindStyle | App.tsx:203-207 | a variation is found iff one has the style name, and it is the first with that name |
| App.DecideRefine | App.tsx:203-258 | unknown style, no usable base image, service failure or refined, each iff its condition |
| App.RefinedCarriesPrompt | App.tsx:237-254 | a refined project has the prompt and the new image appended to the named style |
| App.WithoutId | App.tsx:269 | no remaining project has the id, and every other project keeps its multiplicity |
| App.WithoutIdAppend | App.tsx:269 | deleting from a concatenation deletes from both halves |
| App.WithoutAbsentId | App.tsx:269 | deleting an absent id changes nothing |
| App.ViewAfterDelete | App.tsx:271-277 | the view falls back to upload when the shown project is deleted or the archive is emptied, and is kept otherwise |
| App.AppController.constructor | App.tsx:52-106 | the state starts empty on the upload view with the loaded projects |
| App.AppController.SaveProjects | App.tsx:108-144 | the list goes to state; a successful write stores the stripped copy, whose reload is that copy, and a failed write raises the storage alert |
| App.AppController.HandleImageUpload | App.tsx:146-197 | a read failure or a generation failure raises its alert and keeps the projects; otherwise the new project is saved, shown and opened; loading ends |
| App.AppController.HandleRefineRequest | App.tsx:199-266 | each refine decision gives its alert or the replaced and saved project; the view is kept and loading ends |
| App.AppController.DeleteProject | App.tsx:268-278 | every project with the id is removed and saved; the current project and the view fall back as the source says |
| App.AppController.ViewProject | App.tsx:280-286 | the first project with the id is opened on the project view; nothing happens for an unknown id |
| App.AppController.HandleViewChange | App.tsx:288-293 | the view changes, and going to upload closes the current project |
| ImageUpload.Check | components/ImageUpload.tsx:49-57 | accepted iff an `image/` type of at most 10 MiB; the type is checked first |
| ImageUpload.SizeLimitInclusive | components/ImageUpload.tsx:10-11 | the limit is 10,485,760 bytes, inclusive |
| ImageUpload.TypeCheckedFirst | components/ImageUpload.tsx:49-52 | a non-image is rejected as such whatever its size |
| ImageUpload.UploadForm.constructor | components/ImageUpload.tsx:15-16 | no file, no preview |
| ImageUpload.UploadForm.HandleFile | components/ImageUpload.tsx:46-61 | a rejected file keeps the selection and raises its alert; an accepted file is selected with its preview |
| ImageUpload.UploadForm.RemovePreview | components/ImageUpload.tsx:67-70 | the selection and the preview are cleared |
| ImageUpload.UploadForm.HandleSubmit | components/ImageUpload.tsx:72-76 | the selected file, which passed the checks, is submitted |
| Tutorial.Next | components/Tutorial.tsx:34 | one step forward, clamped at the last step |
| Tutorial.Prev | components/Tutorial.tsx:35 | one step back, clamped at the first |
| Tutorial.NextPrevInverse | components/Tutorial.tsx:34-35 | back undoes forward and forward undoes back away from the ends |
| Tutorial.RunInRange | components/Tutorial.tsx:32-35 | any sequence of clicks keeps the step among the four |
| Tutorial.ForwardClicks | components/Tutorial.tsx:34 | k forward clicks reach `min(step + k, 3)` |
| Tutorial.Stepper.constructor | components/Tutorial.tsx:32 | the tutorial opens on the first step |
| Tutorial.Stepper.IsLastStep | components/Tutorial.tsx:37 | true iff on step 3 |
| Tutorial.Stepper.MainButton | components/Tutorial.tsx:83 | the main button closes iff on the last step |
| Tutorial.Stepper.ShowsBack | components/Tutorial.tsx:92-96 | the back arrow shows iff past the first step |
| Tutorial.Stepper.ShowsForward | components/Tutorial.tsx:97-101 | the forward arrow shows iff before the last step |
| Tutorial.Stepper.HandleNext | components/Tutorial.tsx:34 | the step moves forward, staying in range |
| Tutorial.Stepper.HandlePrev | components/Tutorial.tsx:35 | the step moves back, staying in range |
| RefinementPanel.AllImages | components/RefinementPanel.tsx:20-23 | the baseline entry, then one entry per iteration in order |
| RefinementPanel.MainImageIsLatest | components/RefinementPanel.tsx:36-37 | the large image is the latest one, the URL a refinement decodes |
| RefinementPanel.HistoryAndMain | components/RefinementPanel.tsx:43-51 | history plus the main entry are all the images, and the history is as long as the counter |
| RefinementPanel.SubmitDisabledIff | components/RefinementPanel.tsx:77 | the button is disabled iff the prompt is all white space |
| RefinementPanel.PromptForm.constructor | components/RefinementPanel.tsx:10 | the prompt starts empty |
| RefinementPanel.PromptForm.SetPrompt | components/RefinementPanel.tsx:69 | the prompt is the typed text |
| RefinementPanel.PromptForm.HandleSubmit | components/RefinementPanel.tsx:12-18 | a non-blank prompt is sent untrimmed and cleared; a blank one sends nothing |
| FurnitureList.Shown | components/FurnitureList.tsx:14-15 | only linked items are shown |
| FurnitureList.ShownExactly | components/FurnitureList.tsx:14-15 | every linked item is shown and only the input's items are |
| FurnitureList.ShownKeepsOrder | components/FurnitureList.tsx:14-16 | the shown items keep the input's order |
| FurnitureList.Render | components/FurnitureList.tsx:16-36 | one card per shown item |
| FurnitureList.EveryCardLinks | components/FurnitureList.tsx:27-36 | every card has an anchor to its item's non-empty link |
| ImageWithFallback.FallbackImage.constructor | components/ImageWithFallback.tsx:12-13 | the image starts from the given source with no error |
| ImageWithFallback.FallbackImage.Rerender | components/ImageWithFallback.tsx:15-18 | a new source resets the image and the error; the same source keeps both |
| ImageWithFallback.FallbackImage.HandleError | components/ImageWithFallback.tsx:20-23 | after a load error the placeholder is rendered |
| ImageWithFallback.FallbackImage.Render | components/ImageWithFallback.tsx:25-39 | the placeholder iff an error or a missing source, otherwise the image with its source |

## Left out

- `FavoriteDesign` (types.ts:40-46) is declared but used by no core code, so it is not modelled.
- Prompts, model names, the API key and the request contents (`fileToGenerativePart`) are left out. A reply therefore does not depend on the request that receives it.
- The `setTimeout` back-off between image attempts is counted as a number of waits; no time is modelled.
- `FileReader`, `localStorage`, `JSON.stringify`, `Date.now` and `URL.createObjectURL` are left out: their outcomes are parameters or values.
- Alerts are recorded as tags; the Spanish messages and the console logging are left out.
- `loadingMessage`, `showRosiMessage` and the decorative UI are left out. So are the drag-and-drop handlers and the purely presentational components (`Header`, `ArchiveView`, `FavoritesView`, `ProjectView`).
- DataUrl.Parse: the regexes' `.` does not match a line break. The model treats every character alike, so a media type containing a newline is not modelled.
- A response whose `text` is undefined is modelled as the empty text.
- JSON numbers are not interpreted. The details keep the parsed description, palette and furniture values as raw JSON, as the source returns them without element checks.
- App.AppController.HandleImageUpload: the analysis and the generated variations are parameters. As written, App.tsx:171 calls `generateInitialDesigns` without `onProgress`, so the call at geminiService.ts:189 throws a TypeError before the first style (`GeminiService.CallWithoutCallbackFails`). App.tsx:184-186 catches it, so every upload whose analysis succeeds ends with the generation alert and no new project. The handler's success branch (variations given) models what App evidently expects; see "## Findings".
- App.AppController.HandleRefineRequest: the refined image is a parameter. The source calls `refineDesign` with three arguments and uses its result as an image, which does not match the service's signature; the handler is modelled on the image it expects.
- React's asynchronous state updates, stale closures over `projects` and interleaved handlers are left out. Each handler runs atomically, and `isLoading` is false when it returns.
- App.FileData: a missing second part of `split(',')` is modelled as the empty text.
- GeminiService.FullVariation: the returned variation is a separate type that also carries the decoded image (`GeneratedVariation`); the source returns a plain object with the same fields.

## Findings

| source | as written | input that shows it | evidently intended | confidence | as-written member | corrected member |
|---|---|---|---|---|---|---|
| App.tsx:171 | `generateInitialDesigns(base64Data, mimeType, analysis)` passes no `onProgress`; geminiService.ts:189 calls it, which throws a TypeError before the first request | any upload whose file is read and whose analysis succeeds: the batch fails with no report, and App.tsx:184-186 shows the generation alert | pass a progress callback, so that the batch reports each style and generates the five variations | not executed | GeminiService.CallWithoutCallbackFails | GeminiService.InitialDesignsSpec |
