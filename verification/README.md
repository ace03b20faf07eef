# N95-FitGuard session and analysis model

This Dafny project models the core of N95-FitGuard. In that React app a user captures or uploads a face photo, sends it to the Gemini vision service and gets a respirator fit report. The model covers these parts:

- **Session controller (`App.tsx`).** The five state cells (`appState`, `analysisResult`, `errorMsg`, `language`, `currentImage`) become the fields of the class `App.App`. There is one method per event. Each asynchronous handler is split into the step that runs when the event fires and the step that runs when the awaited analysis settles. Composite methods run both steps around the service call.
- **Analysis client (`services/geminiService.ts`).** This part is modelled as pure functions:
  - the credential check;
  - the `^data:image\/\w+;base64,` prefix strip, which removes the header of a data URL as defined in section 2 of RFC 2397;
  - the prompt chosen by locale;
  - the declared response schema, with a JSON model and a conformance predicate;
  - the try/catch funnel that turns every failure into one message.

  The network call is a function parameter. It maps the client and the request to an abstract reply: call failed, no text, unparseable text, or a parsed value. In the model the parsed value is an object shaped like `AnalysisResult`, or `None` for a falsy JSON value such as `null`, and it is returned as it is.
- **Enumerations and tables (`types.ts`, `constants.ts`).** These are datatypes and constant maps. Lemmas state the totality and ordering properties of `ENUM_MAPPING`, `MOCK_MASKS` and `TRANSLATIONS`.
- **Results screen (`components/ResultsDashboard.tsx`).** It is a value computed from the result and the locale. This covers `tr`, the icon switch, the radar data, the biometric rows, the recommendation cards and the leak section.
- **Loading screen (`components/Loader.tsx`).** The class `Loader.StageCounter` holds the stage counter and its clamped interval tick. Pure predicates give each row's completed, active or pending status.
- **Camera (`components/CameraView.tsx`).** The class `CameraView.Camera` holds the stream lifecycle and the readiness gate on the shutter. An acquired stream is an array of track-liveness flags. The capture mirror is a pure column reversal, with the canvas transform spelled out.

`AnalysisResult` keeps its enum-typed fields as strings, because nothing checks the object the service sent against its declaration. A reply that parses to `null` (or another falsy value) is `None`, and it is stored as the result as well. The predicate `Types.WellTyped` states what the TypeScript declaration promises. `GeminiService.ReplyConformsIffWellTyped` proves that the declared schema accepts exactly the well-typed replies.

Where the intended behaviour and the code disagree, the model follows the code:

- The code does not validate the reply. There is no range check and no enum check, and an out-of-range score or an unknown face shape reaches the results view.
- There is no typed error taxonomy. A missing credential surfaces with its own message; every other failure surfaces as one generic message.
- The prefix strip is not idempotent.
- Starting a new analysis does not clear the previous result. Only retry clears it.
- A reply of `null` puts the app in the results state with nothing on screen. The intended behaviour is the results view or an error.
- The intended analysed frame is in the camera's own orientation. The code draws the video flipped so that the capture matches the mirrored preview, and `CameraView.Mirror` follows the code.
- Choosing "upload" from the error screen does not clear the error message.

## Model

| member | source | states |
|---|---|---|
| `Types.Language.Toggled` | App.tsx:42-44 | the toggled language always differs from the current one |
| `Types.ToggledTwice` | App.tsx:42-44 | toggling twice gives back the original language |
| `Types.FaceShapeValues` | services/geminiService.ts:38 | `Object.values(FaceShape)` lists the enum's literals in declaration order |
| `Types.MaskTypeValues` | services/geminiService.ts:76 | `Object.values(MaskType)` lists the enum's literals in declaration order |
| `Types.ParseFaceShape` | types.ts:5-12 | yields a face shape exactly when the string is one of its literals, and then the shape with that literal |
| `Types.ParseMaskType` | types.ts:15-20 | yields a mask type exactly when the string is one of its literals, and then the type with that literal |
| `Types.FaceShapeEnumerated` | types.ts:5-12 | every face shape is listed; there are six, with pairwise distinct literals |
| `Types.MaskTypeEnumerated` | types.ts:15-20 | every mask type is listed; there are four, with pairwise distinct literals |
| `Types.AppStateAndLanguageEnumerated` | types.ts:2-55 | AppState has exactly five distinct values and Language exactly two |
| `Types.LevelSetsShareMedium` | types.ts:23-28 | each level set has three literals, and the two sets share exactly 'Medium' |
| `Types.ParseLiteralRoundTrip` | types.ts:5-20 | parsing an enum value's literal gives back that value |
| `Constants.ZhLabelsCoverFaceShapes` | constants.ts:132-137 | the zh table has an entry for every FaceShape literal |
| `Constants.ZhLabelsCoverLevels` | constants.ts:138-142 | the zh table has an entry for every literal of both level sets |
| `Constants.ZhLabelsCoverMaskTypes` | constants.ts:143-146 | the zh table has an entry for every MaskType literal |
| `Constants.ZhLabelsKeysAreLiterals` | constants.ts:131-146 | the zh table's keys are exactly the enum and level literals, so the shared 'Medium' has one entry |
| `Constants.EnglishHasNoTable` | constants.ts:130-148 | only zh has a mapping table; en lookups find nothing |
| `Constants.ZhLabelsInjective` | constants.ts:131-146 | distinct literals get distinct, non-empty zh labels |
| `Constants.MockMasksFollowDeclarationOrder` | constants.ts:7-12 | MOCK_MASKS lists each MaskType exactly once, in declaration order |
| `Constants.TranslationShapes` | constants.ts:69-125 | both locales have exactly four loading stages |
| `GeminiService.GetAiClient` | services/geminiService.ts:6-12 | a client exactly when the key is defined and non-empty, built with that key; otherwise the missing-key message |
| `GeminiService.WordRun` | services/geminiService.ts:19 | the greedy `\w+` run: all word characters, ended by the end of the input or a non-word character |
| `GeminiService.PrefixMatchUnique` | services/geminiService.ts:19 | the anchored pattern matches at most one prefix of any input |
| `GeminiService.MatchedPrefixLength` | services/geminiService.ts:19 | zero exactly when the pattern does not match at position 0, otherwise the length of a match |
| `GeminiService.StripDataUrlPrefix` | services/geminiService.ts:19 | the output is a suffix of the input; with a match it is the input minus the matched prefix; without one it is the input unchanged |
| `GeminiService.StripIdempotentIff` | services/geminiService.ts:19 | stripping twice equals stripping once exactly when the remainder has no prefix of its own |
| `GeminiService.StripDataUrl` | services/geminiService.ts:18-19 | any `data:image/<word>;base64,<payload>` strips to its payload |
| `GeminiService.StripJpegDataUrl` | services/geminiService.ts:18-19 | the camera's JPEG data URL strips to its payload |
| `GeminiService.StripNotIdempotent` | services/geminiService.ts:19 | a payload that itself carries a data-URL header keeps that header after one strip |
| `GeminiService.PromptsByLocale` | services/geminiService.ts:23-24 | the zh prompt names faceShape, dimensions, type and the level literals (kept in English), and summary, sealIssues and reason (written in Chinese) |
| `GeminiService.DefaultPromptQuotesNoField` | services/geminiService.ts:23-25 | every other locale gets the default prompt, which quotes no field |
| `GeminiService.SchemaEnumsMatchTypes` | services/geminiService.ts:36-76 | the faceShape enum is the FaceShape values, the recommendation type enum is the MaskType values, and the dimension enums are the two level sets |
| `GeminiService.SchemaRequiresAllFields` | services/geminiService.ts:49-89 | the required lists name the seven result fields, the four dimensions, the four metrics and the four recommendation fields |
| `GeminiService.ReplyPropertiesAreFields` | services/geminiService.ts:35-88 | the reply object declares one property per AnalysisResult field and nothing else |
| `GeminiService.NestedPropertiesAreFields` | services/geminiService.ts:41-83 | the nested objects declare exactly the fields of their declarations in types.ts |
| `GeminiService.DimensionsConformIff` | services/geminiService.ts:41-50 | a dimensions object conforms exactly when each value is in its level set |
| `GeminiService.EnumListsAreLiterals` | services/geminiService.ts:38-76 | membership in a declared enum list is the same as being an enum literal |
| `GeminiService.RecommendationsConformIff` | services/geminiService.ts:71-83 | a recommendation list conforms exactly when every type is a MaskType literal |
| `GeminiService.ReplyConformsIffWellTyped` | services/geminiService.ts:33-90 | the declared schema accepts the JSON of a reply exactly when the reply is well typed |
| `GeminiService.RequestDiffersOnlyInPrompt` | services/geminiService.ts:28-105 | the model, system instruction, schema, MIME types and stripped image do not depend on the locale |
| `GeminiService.TryBlock` | services/geminiService.ts:107-111 | the try block succeeds exactly when the reply parsed, with the parsed value, falsy or not; a reply without text throws the no-response message |
| `GeminiService.AnalyzeFaceForMaskFit` | services/geminiService.ts:15-117 | the missing-key error exactly when no key; any other failure is the generic message; success exactly when the key is present and the reply parsed, with the parsed value itself, even a falsy one |
| `GeminiService.UncheckedReplyIsReturned` | services/geminiService.ts:110-111 | a reply with face shape "Triangle" and score 150 is ill typed and rejected by the schema, yet returned as a success; so is a reply of `null` |
| `Loader.NextStage` | components/Loader.tsx:16-19 | one step further exactly while below the last stage; never past the last stage |
| `Loader.StageAfterClosedForm` | components/Loader.tsx:12-20 | after n ticks from 0 the stage is min(n, max(0, length-1)) |
| `Loader.StageAfterMonotone` | components/Loader.tsx:16-19 | the stage is non-decreasing across ticks and bounded by max(0, length-1) |
| `Loader.ExactlyOneStatus` | components/Loader.tsx:78-80 | each row is exactly one of active, completed and pending |
| `Loader.ActiveRowIsTheStage` | components/Loader.tsx:77-80 | while stage < length, exactly one row is active, and exactly `stage` rows are completed |
| `Loader.StatusOfAgrees` | components/Loader.tsx:86-94 | the icon chosen (check, spinner, dot) is the one classification that holds |
| `Loader.StageRows` | components/Loader.tsx:77-103 | one row per stage text, in order; the active row is the stage and the completed rows precede it |
| `Loader.StageCounter.constructor` | components/Loader.tsx:11-15 | mounting starts at stage 0 with an interval over the locale's stages |
| `Loader.StageCounter.Tick` | components/Loader.tsx:15-20 | a running tick applies the clamped update and keeps the stage equal to its closed form; a cleared one does nothing |
| `Loader.StageCounter.Rerender` | components/Loader.tsx:14-23 | a locale change keeps the stage count, so the interval is not restarted and the stage is kept |
| `Loader.StageCounter.Teardown` | components/Loader.tsx:22 | unmounting clears the interval and leaves the stage |
| `CameraView.TargetColumn` | components/CameraView.tsx:66-68 | translate(width, 0) then scale(-1, 1) sends source column x to column width-1-x, inside the canvas |
| `CameraView.MirrorRow` | components/CameraView.tsx:66-70 | the drawn row has the source's length, and each source pixel lands at its target column |
| `CameraView.Mirror` | components/CameraView.tsx:66-70 | every row keeps its length and its place, and each pixel of a row lands at its target column |
| `CameraView.MirrorRowInvolution` | components/CameraView.tsx:66-68 | mirroring a row twice gives it back |
| `CameraView.MirrorInvolution` | components/CameraView.tsx:66-68 | mirroring a frame twice gives it back |
| `CameraView.StopTracks` | components/CameraView.tsx:48 | every track of the stream is stopped |
| `CameraView.Camera.ShutterEnabled` | components/CameraView.tsx:120-122 | the shutter is enabled exactly when the stream is marked ready |
| `CameraView.Camera.constructor` | components/CameraView.tsx:13-19 | a new view is not ready, holds no stream and has its request outstanding |
| `CameraView.Camera.AcquisitionSettled` | components/CameraView.tsx:21-42 | as written: the error is reported exactly on rejection; a granted stream is kept live and the metadata callback is attached if the video element exists, even after cleanup |
| `CameraView.Camera.AcquisitionSettledChecked` | components/CameraView.tsx:21-50 | corrected: a stream granted after cleanup is stopped and never attached, so no track outlives the cleanup; a stream granted before cleanup is live and attached if the video element exists; a denial reports the error and keeps `stream` |
| `CameraView.Camera.MetadataLoaded` | components/CameraView.tsx:33-36 | the metadata callback is the one place where the stream becomes ready |
| `CameraView.Camera.Cleanup` | components/CameraView.tsx:46-50 | teardown stops every track of the acquired stream, if one was acquired |
| `CameraView.Camera.Unmount` | components/CameraView.tsx:46-50 | unmounting runs the cleanup, so no track stays live, and drops the video element; readiness, the handler flags and the canvas size are kept |
| `CameraView.Camera.Rerun` | components/CameraView.tsx:18-51 | as written: a re-run stops the old tracks and starts a new request, but keeps the readiness flag |
| `CameraView.Camera.RerunChecked` | components/CameraView.tsx:15-51 | corrected: a re-run also clears the readiness flag, so the shutter is disabled until the new stream loads |
| `CameraView.Camera.Capture` | components/CameraView.tsx:53-76 | emits exactly when video, canvas and context all exist; the canvas takes the video's size first; the emitted frame is the mirrored video frame at the canvas size |
| `CameraView.PressShutter` | components/CameraView.tsx:120-122 | a disabled shutter emits nothing and changes nothing; an enabled one captures, so the canvas takes the video's size and the mirrored frame is emitted at that size; the stream and readiness are kept |
| `CameraView.DeniedCameraNeverCaptures` | components/CameraView.tsx:38-41 | a rejected request reports the error, and the shutter then emits nothing |
| `CameraView.ReadyCameraCaptures` | components/CameraView.tsx:31-76 | granted and loaded, the shutter emits the mirrored frame exactly once, and un-mirroring it gives the video frame back |
| `CameraView.EarlyUnmountLeaks` | components/CameraView.tsx:19-50 | as written: unmounting before the request settles leaves a live track |
| `CameraView.EarlyUnmountChecked` | components/CameraView.tsx:19-50 | corrected: after an early unmount no track stays live, whatever the request yields |
| `CameraView.RerunKeepsShutterEnabled` | components/CameraView.tsx:15-51 | as written: after a re-run the shutter is enabled while the new stream's metadata has not loaded |
| `CameraView.RerunCheckedDisablesShutter` | components/CameraView.tsx:15-51 | corrected: after a re-run the shutter is disabled until the metadata loads |
| `ResultsDashboard.Tr` | components/ResultsDashboard.tsx:17-22 | en is the identity; zh gives the table's non-empty label when one exists and the input unchanged otherwise |
| `ResultsDashboard.TrLabelsEveryLiteral` | components/ResultsDashboard.tsx:17-22 | in zh every enum and level literal shows as its own label, which differs from the literal, and distinct literals show differently |
| `ResultsDashboard.ZhLabelsAreNotLiterals` | constants.ts:131-146 | no zh label equals the literal it labels |
| `ResultsDashboard.TrKeepsUnknownValues` | components/ResultsDashboard.tsx:17-22 | a string outside the table is shown unchanged in both locales |
| `ResultsDashboard.MaskIconFor` | components/ResultsDashboard.tsx:24-60 | a specific icon exactly for the four MaskType literals, the one of that type; the fallback for any other string |
| `ResultsDashboard.MaskIconsDistinct` | components/ResultsDashboard.tsx:24-60 | each mask type gets its own branch, and the four icons are distinct |
| `ResultsDashboard.RadarData` | components/ResultsDashboard.tsx:63-68 | four points in the order nose, chin, cheek, jaw; the values are the metrics, the subjects are the locale's chart labels, and fullMark is 100 |
| `ResultsDashboard.BiometricRows` | components/ResultsDashboard.tsx:209-217 | four rows in the order nose bridge, chin width, cheekbones, face width, each value passed through tr |
| `ResultsDashboard.RecommendationCards` | components/ResultsDashboard.tsx:230-245 | one card per recommendation, in order; the type label goes through tr; the icon is the type's; the name, score and reason are verbatim |
| `ResultsDashboard.LeakSection` | components/ResultsDashboard.tsx:268-282 | the no-leaks message exactly when there are no seal issues, otherwise one item per issue, in order |
| `ResultsDashboard.ToggleChangesOnlyLabels` | components/ResultsDashboard.tsx:63-282 | switching the locale keeps the score, metric values, card names, scores, icons and reasons, summary and seal issues |
| `ResultsDashboard.ZhShowsLabelsForWellTyped` | components/ResultsDashboard.tsx:144-239 | in zh a well-typed result shows its face shape, every dimension and every mask type as their zh labels |
| `App.OutcomeOf` | services/geminiService.ts:113-116 | the service's failures reach the handlers as thrown Error objects that carry the failure message |
| `App.MessageOr` | App.tsx:30 | an Error shows its message; anything else shows the handler's fallback text |
| `App.ScreenOf` | App.tsx:125-227 | the results view appears exactly in the results state with a held result; the error view shows the stored message |
| `App.NullReplyShowsNothing` | App.tsx:24-27 | a capture whose reply parses to `null` stores it and enters results, and the main area shows nothing |
| `App.App.ShowsResults` | App.tsx:217 | the results view is shown exactly when the state is results and a result is held |
| `App.App.constructor` | App.tsx:10-14 | the session starts idle, with no result, an empty message, English and no image |
| `App.App.Start` | App.tsx:19 | start opens the camera and changes nothing else |
| `App.App.CaptureBegin` | App.tsx:21-23 | the capture stores the image and enters analyzing, keeping the previous result |
| `App.App.CaptureComplete` | App.tsx:24-32 | success stores the parsed value as it is, falsy or not, and enters results; failure stores the message (or "Unknown error occurred") and enters error; the other cells are kept |
| `App.App.HandleCapture` | App.tsx:21-33 | a capture ends in results with the service's value and the message kept, or in error with the service's message and the previous result kept |
| `App.App.Retry` | App.tsx:35-40 | retry clears the result, image and message and enters camera; only the language is kept |
| `App.App.ToggleLanguage` | App.tsx:42-44 | the language swaps between en and zh; nothing else changes |
| `App.App.HeaderClick` | App.tsx:93 | the header returns to idle and keeps the result, image and message |
| `App.App.CameraClose` | App.tsx:199 | closing the camera returns to idle and changes nothing else |
| `App.App.CameraError` | App.tsx:191-194 | a camera failure enters error with the current language's cameraError text |
| `App.App.FileSelected` | App.tsx:50-57 | no file changes nothing; a file enters analyzing |
| `App.App.FileLoaded` | App.tsx:60-69 | a string read becomes the current image and the analysis starts; anything else ends in error with "Failed to read file" |
| `App.App.FileAnalysisComplete` | App.tsx:64-74 | success stores the parsed value as it is and enters results; failure stores the message (or "Failed to analyze uploaded image") and enters error; the other cells are kept |
| `App.App.HandleFileChange` | App.tsx:50-77 | the upload path end to end: no file changes nothing; a non-string read ends in error; otherwise the data URL becomes the image and the session ends in results with the service's value (message kept) or in error with its message (result kept) |
| `App.ToggleTwiceRestores` | App.tsx:42-44 | toggling the language twice restores every cell |
| `App.CaptureSucceeds` | App.tsx:19-33 | start, capture and a parsed reply end in results, showing exactly that reply and the captured image |
| `App.MissingKeyThenRetry` | App.tsx:21-40 | without a key the capture ends in error with the missing-key message; retry then clears everything but the language |
| `App.RecaptureKeepsOldResult` | App.tsx:21-23 | a new capture keeps the previous result in its cell while analyzing |
| `App.LateCompletionWins` | App.tsx:21-33 | a header click during analysis does not cancel it: the analysis still lands in results |
| `App.CameraErrorFollowsLanguage` | App.tsx:191-194 | after a toggle, a camera failure shows the new language's camera error |

## Left out

- The Gemini SDK and the network call are not modelled. They are a function parameter that returns an abstract reply: call failed, no text, unparseable text, or a parsed value.
- JSON.parse internals are not modelled. A parsed reply is an `AnalysisResult` object or a falsy value (`None`), and `GeminiService.Encode` gives an object's JSON form only for the schema lemmas.
- A reply that parses to a truthy value that is not an object (a number, a string or an array) is not modelled, and neither is an object whose fields are missing or of another JSON type (such as `{}` or `{"metrics": null}`). The source stores either kind as the result, and the results view would fail to render it, reading fields it lacks. Falsy values (`null`, `false`, `0`, `""`) are all `None`, since the app only tests truthiness.
- JSON numbers are integers in the model. Floating-point scores and metrics are out of scope.
- The schema's `description` strings are dropped from the schema model.
- `getUserMedia`, `FileReader`, canvas `drawImage` and JPEG encoding with `toDataURL` are browser I/O.
  - The model keeps the readiness and release flags, the canvas size and the mirror.
  - The emitted capture is the mirrored frame rather than a JPEG data URL.
  - The request always declares `image/jpeg`, as the source does.
- `setInterval` timing (1500 ms) is not modelled. A tick is a method call.
- The progress-bar width, the 0.85 JPEG quality, all JSX markup, styling, SVG icons and recharts rendering are rendering or floating-point detail. Of `TRANSLATIONS`, only the fields the logic reads are modelled.
- Overlapping asynchronous completions (a second upload while an analysis is in flight) are concurrency. Each completion is modelled as one sequential step.
- `ResultsDashboard.Tr` does not model JavaScript object lookups that reach prototype members (e.g. `"constructor"`). For enum literals and other plain strings it matches the source.
- `CameraView.Camera.Rerun` models only the current run of the effect. A request from an earlier run that settles after the re-run is not tracked, beyond what `CameraView.EarlyUnmountLeaks` shows.
- Loader.StageCounter.Rerender: the class invariant fixes the stage count at four, the count of both locales. A locale with another count would restart the interval, and that is not modelled.
- vite.config.ts (environment substitution at build time) and index.tsx (DOM mount) are packaging. The API key is a parameter.

## Findings

| source | as written | input that shows it | evidently intended | confidence | as-written member | corrected member |
|---|---|---|---|---|---|---|
| components/CameraView.tsx:19-50 | The cleanup stops `stream` only if getUserMedia has already settled. A stream granted after the cleanup is stored in the dead closure and never stopped. | Unmount the camera view (e.g. with the close button) before the permission prompt is answered, then grant access: the track stays live and the camera light stays on. | A stream granted after cleanup is stopped at once. | medium, not executed | `CameraView.EarlyUnmountLeaks` (with `CameraView.Camera.AcquisitionSettled`) | `CameraView.EarlyUnmountChecked` (with `CameraView.Camera.AcquisitionSettledChecked`) |
| components/CameraView.tsx:15-51 | The effect re-runs whenever `onError` changes identity; App.tsx passes a fresh arrow on each render, e.g. after a language toggle. The re-run replaces the stream but keeps `isStreamReady`. | In the camera view, let the stream load, then toggle the language: the shutter is enabled before the new stream's metadata loads, and a capture then sizes the canvas from a video with no metadata yet. | The readiness flag is reset with the stream it describes. | medium, not executed | `CameraView.RerunKeepsShutterEnabled` (with `CameraView.Camera.Rerun`) | `CameraView.RerunCheckedDisablesShutter` (with `CameraView.Camera.RerunChecked`) |
