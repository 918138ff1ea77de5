# StudySnap AI — a Dafny model of the quiz session and its narration decoder

StudySnap AI turns a photo of study material into a multiple-choice quiz.
The quiz questions can be read aloud. This project models the parts of the app that hold state or compute exact values:

- **App** (`app.dfy`): the session state machine of `App.tsx`.
  - Screens: welcome, camera, settings, generating, quiz, result and error.
  - State: the captured image, the question count, the generated questions, the final score and the error message.
  - The result percentage.
- **Quiz** (`quiz_player.dfy`): the player of `components/QuizPlayer.tsx`.
  - Answer guard, scoring, and the advance and finish rules.
  - The narration flags and the handle of the playing source node.
  - The narration text.
- **AudioService** (`audio_service.dfy`): the PCM decoder of `services/audioService.ts`.
  - Base64 text becomes bytes.
  - The bytes are read as little-endian int16 samples.
  - Each sample is divided by 32768.
- **Base64** (`base64.dfy`): the browser's `atob`.
  - It is the forgiving base64 decoder of the WHATWG Infra standard, over the alphabet of section 4 of RFC 4648.
  - The padded encoder of the same section is modelled too, to state the round trip.
- **GeminiService** (`gemini_service.dfy`): the logic around the two gateway calls of `services/geminiService.ts`.
  - Stripping the data-URL header from the image.
  - Mapping a response to questions, audio or an error.
- **Types** (`types.dfy`): `Question`, `AppState`, and `Option`/`Result`.
  - `Option` and `Result` stand for `null` and for thrown errors.

Each handler that changes React state is a method of a class whose fields are that state. These are `App.Session` and `Quiz.QuizPlayer`. Each method's `ensures` gives the complete new state, and the methods keep an invariant `Valid()`.

An `await` in a handler splits it in two:

- `handleGenerate` becomes `BeginGenerate` and `CompleteGenerate`.
- `handlePlayAudio` becomes `BeginNarration` and `CompleteNarration`.

Between `BeginNarration` and `CompleteNarration` the caller may run any other player handler. Between `BeginGenerate` and `CompleteGenerate` no handler runs, because the generating screen has no controls. A gateway's result is an input to the second half.

The two decoder loops are kept as loops over arrays: `DecodeBase64` and `FillChannel`. Each is proved against a specification function, `DecodedBytes` or `Normalise`. The properties of the decoder are lemmas about `DecodedAudio`.

In several places a reader might expect behaviour the code does not have. The model follows the code:

- **No stale-result protection.** One might expect each narration request to carry a request number (an epoch), so that a late result is dropped. The code has no epoch and no cancellation.
  - A synthesis result that arrives after the user moved to the next question still starts playback. `StaleNarrationScenario` shows this.
  - The model proves no epoch guarantee.
- **A failed decode leaves the loading flag set.** When `decodeAudioData` rejects (bad base64 or an odd byte count), the handler rejects after setting `isLoadingAudio`.
  - Nothing clears the flag, and `stopAudio` does not touch it.
  - The narration button stays disabled, also on later questions. `UndecodableNarrationScenario` shows this.
  - A non-empty payload that decodes to zero bytes, such as " ", is the exception. In the app, `createBuffer` rejects a zero-length buffer, so the loading flag stays set here too. In the model that payload decodes to an empty buffer, and `CompleteNarration` starts playing it.
- **Generated questions are not checked.** They are taken exactly as the parser returns them. This covers the count, the number of options and the correct index. `AnyParsedQuestionsAccepted` states this.
- **`onFinish` is called twice** on the last question, both times with the current score. The player keeps a log of these calls in `finishCalls`.
- **The answer guard is the `isAnswered` flag of the displayed question.** One might expect a record of which questions were answered. There is none.
- **Try Again, Retake and Cancel only change the screen.** One might expect them to discard the image or the questions. They clear no data.

## Model

| member | source | states |
|---|---|---|
| Types.Truthy | App.tsx:24 | JavaScript truthiness of a nullable string: true iff the value is neither null nor the empty string. The same test is made at services/geminiService.ts:54 and 83 and components/QuizPlayer.tsx:70. |
| AudioService.DecodeBase64 | services/audioService.ts:3-11 | Returns exactly the bytes `atob` yields, one byte per character of the binary string. Rejects with InvalidCharacter when `atob` throws. |
| AudioService.DecodedBytes | services/audioService.ts:3-11 | Succeeds iff `atob` accepts the text. Its only error is InvalidCharacter. |
| AudioService.CharCodes | services/audioService.ts:5-9 | One byte per character of the binary string; byte i is the code of character i. |
| AudioService.DecodedBytesAreCharCodes | services/audioService.ts:5-9 | The byte count equals the length of the binary string. Byte i is the code of character i. |
| AudioService.Int16FromBytes | services/audioService.ts:20 | The sample is the signed 16-bit value, in [-32768, 32767], whose two's-complement pattern is low byte + 256 * high byte. |
| AudioService.Int16View | services/audioService.ts:20-21 | Half as many samples as bytes. Sample i is read from bytes 2i (low) and 2i+1 (high). |
| AudioService.SampleValue | services/audioService.ts:28 | Sample / 32768 lies in [-1, 1) and scales back to the sample. |
| AudioService.Normalise | services/audioService.ts:26-29 | One output per sample; output i is sample i / 32768. |
| AudioService.FillChannel | services/audioService.ts:24-29 | The fill loop produces exactly the normalised samples, in order. |
| AudioService.DecodedAudio | services/audioService.ts:13-32 | What `decodeAudioData` resolves to: a one-channel buffer at the requested rate with half as many frames as decoded bytes. The lemmas below fix its contents and its error cases. |
| AudioService.DecodeAudioData | services/audioService.ts:13-32 | Resolves or rejects exactly as `DecodedAudio` says for the text and the sample rate (default 24000). |
| AudioService.LittleEndian16 | services/audioService.ts:20 | Two bytes that read back as the given sample. |
| AudioService.Int16ViewOfPcmBytes | services/audioService.ts:20 | Reading little-endian PCM bytes as int16 gives back the samples. |
| AudioService.DecodeRoundTrip | services/audioService.ts:3-29 | Samples encoded as little-endian bytes, then as base64, decode to a one-channel buffer at the given rate. The buffer holds sample / 32768 for each sample, in order. |
| AudioService.DecodedShape | services/audioService.ts:18-29 | Every decoded buffer has one channel and the requested rate. It has half as many frames as bytes. Frame i is int16(bytes 2i, 2i+1) / 32768, inside [-1, 1). |
| AudioService.DecodeFailsIff | services/audioService.ts:18-21 | Decoding fails iff `atob` rejects or yields an odd byte count. The odd count is the OddByteLength error, never a truncation. |
| AudioService.DecodeEmpty | services/audioService.ts:18-23 | An empty payload is a zero-frame one-channel buffer, not an error. |
| Base64.SextetOf | services/audioService.ts:4 | The value of an alphabet character maps back to that character. |
| Base64.StripAsciiWhitespace | services/audioService.ts:4 | The result holds no ASCII whitespace and is no longer than the input. |
| Base64.StripOne | services/audioService.ts:4 | A whitespace character is dropped; any other character is kept. |
| Base64.StripConcat | services/audioService.ts:4 | Whitespace removal distributes over concatenation. With `StripOne`, this means every non-whitespace character is kept, in order. |
| Base64.RemovePadding | services/audioService.ts:4 | Only when the length is a multiple of 4, drops one or two trailing '='. It drops two when the text ends in "==", at least one when it ends in '=', and nothing else. |
| Base64.DecodeSextets | services/audioService.ts:4 | n sextets (n mod 4 ≠ 1) give floor(3n/4) bytes. |
| Base64.Atob | services/audioService.ts:4 | Every character of the binary string has a code below 256. |
| Base64.DecodeEncodeSextets | services/audioService.ts:4 | Packing the sextets of any bytes gives back those bytes. |
| Base64.AtobSkipsWhitespace | services/audioService.ts:4 | Whitespace around a payload is ignored: " QQ== " decodes to "A". |
| Base64.AtobAcceptsIff | services/audioService.ts:4 | `atob` accepts a text iff, once its whitespace is removed, it has one of two shapes. Either it is alphabet characters whose count is not 1 more than a multiple of 4. Or it is alphabet characters followed by "=" or "==", with the whole length a multiple of 4. Otherwise it throws InvalidCharacterError. |
| Base64.AtobRejectsUnalignedPadding | services/audioService.ts:4 | "QQ=" is rejected: padding is removed only when the length is a multiple of 4. |
| Base64.AtobEncode | services/audioService.ts:4 | `atob` of the RFC 4648 encoding of any bytes is the binary string of those bytes. |
| GeminiService.CleanBase64 | services/geminiService.ts:14 | Removes a leading png, jpeg or jpg data-URL header, exactly that header. The result is always a suffix. The input is unchanged iff it starts with none of the three. |
| GeminiService.PrefixesExclusive | services/geminiService.ts:14 | No text starts with two of the three headers. |
| GeminiService.CleanRemovesOnePrefix | services/geminiService.ts:14 | Only one header is removed, even when the rest starts with another. |
| GeminiService.CleanKeepsOtherHeaders | services/geminiService.ts:14 | gif and webp headers, and headers in another letter case, are kept. |
| GeminiService.QuizFromResponse | services/geminiService.ts:54-64 | Succeeds iff the text is present, non-empty and parses; the result is the parsed value itself. A thrown call propagates its error. Missing text gives "Failed to generate quiz content". Unparseable text gives "Invalid response format from AI". |
| GeminiService.AnyParsedQuestionsAccepted | services/geminiService.ts:58-60 | Any parsed questions are returned unchecked. |
| GeminiService.AudioFromResponse | services/geminiService.ts:82-87 | Non-null iff the call answered with non-empty inline data, which is then returned. |
| Quiz.NatToString | components/QuizPlayer.tsx:66 | Decimal digits, non-empty, no leading zero. |
| Quiz.NatToStringRoundTrip | components/QuizPlayer.tsx:66 | The printed number reads back as the number. |
| Quiz.Join | components/QuizPlayer.tsx:66 | `Array.prototype.join`: the empty list joins to "", and a non-empty join starts with the first item. `JoinSnoc` and `JoinLength` fix the rest. |
| Quiz.JoinSnoc | components/QuizPlayer.tsx:66 | Joining one more item appends the separator and the item. |
| Quiz.JoinLength | components/QuizPlayer.tsx:66 | A join is as long as its items plus one separator per adjacent pair. |
| Quiz.NumberedOptions | components/QuizPlayer.tsx:66 | Item i is "{i+1}. {option i}", one per option. |
| Quiz.NumberedOptionsSnoc | components/QuizPlayer.tsx:66 | Numbering one more option appends its item, numbered after the others. |
| Quiz.NarrationText | components/QuizPlayer.tsx:66 | The narration text starts with "Question {index+1}. {text}. Options: " and ends with ".". The lemmas below fix the option list between the two. |
| Quiz.NarrationOneMoreOption | components/QuizPlayer.tsx:66 | With at least one option, one more option adds ". {n}. {option}" just before the final ".". With `NarrationOfNoOptions` and `NarrationOfOneOption`, this fixes the text for every option count. |
| Quiz.NarrationOfOneOption | components/QuizPlayer.tsx:66 | A single option is read as "Options: 1. {option}.". |
| Quiz.JoinNumberedFour | components/QuizPlayer.tsx:66 | Four options join to "1. a. 2. b. 3. c. 4. d". |
| Quiz.NarrationOfFourOptions | components/QuizPlayer.tsx:66 | For four options the narration reads "Question {n}. {text}. Options: 1. a. 2. b. 3. c. 4. d.". |
| Quiz.NarrationOfNoOptions | components/QuizPlayer.tsx:66 | With no options the list part is empty. |
| Quiz.StoppedBy | components/QuizPlayer.tsx:39-45 | `stopAudio` stops exactly the node its handle holds, and none when there is no handle. |
| Quiz.QuizPlayer.constructor | components/QuizPlayer.tsx:13-21 | Index 0, no selection, unanswered, score 0, silent, not loading, no handle. |
| Quiz.QuizPlayer.HandleOptionSelect | components/QuizPlayer.tsx:83-91 | Once answered, nothing changes. Otherwise the choice is stored and the question marked answered. The score rises by 1 iff the choice is the correct index, and is unchanged otherwise. Score ≤ answered ≤ number of questions is kept. |
| Quiz.QuizPlayer.StopAudio | components/QuizPlayer.tsx:38-48 | The current node, if any, is stopped and forgotten, and playing is cleared. The loading flag is untouched. |
| Quiz.QuizPlayer.HandleNext | components/QuizPlayer.tsx:93-108 | Always stops first. Before the last question it advances the index by 1, clears the answer and keeps the score. On the last it keeps the index and reports the score to `onFinish` twice. |
| Quiz.QuizPlayer.BeginNarration | components/QuizPlayer.tsx:50-66 | While playing it only stops. Otherwise it sets loading and requests the narration text of the displayed question. |
| Quiz.QuizPlayer.CompleteNarration | components/QuizPlayer.tsx:68-80 | A null or empty result clears loading. A decodable result clears loading, sets playing and holds a node over the decoded buffer. An undecodable one leaves loading set. No check that the question is still the one requested. |
| Quiz.QuizPlayer.PlaybackEnded | components/QuizPlayer.tsx:75-77 | The end of playback clears the playing flag. |
| Quiz.StaleNarrationScenario | components/QuizPlayer.tsx:68-80 | Narration requested on question 1 and arriving after Next is played on question 2, with question 1's text. |
| Quiz.UndecodableNarrationScenario | components/QuizPlayer.tsx:68-80 | An undecodable result leaves the loading flag set, and it is still set on the next question. |
| App.ResultPercentage | App.tsx:214 | The integer nearest to 100·score/total, halves rounded up. It lies in [0, 100] when 0 ≤ score ≤ total. |
| App.TwoOfThreeIs67 | App.tsx:214 | 2 of 3 shows 67%. |
| App.Session.Percentage | App.tsx:214 | The percentage the result screen shows lies in [0, 100] when the score is at most the question count. |
| App.Session.constructor | App.tsx:9-14 | Welcome screen, count 5, no image, no questions, score 0, no error. |
| App.Session.StartFlow | App.tsx:16 | From the welcome screen, moves to the camera. |
| App.Session.Cancel | App.tsx:102 | From the camera, moves to the welcome screen; no data is cleared. |
| App.Session.HandleCapture | App.tsx:18-21 | From the camera, stores the image and moves to the settings screen. |
| App.Session.SetQuestionCount | App.tsx:123-128 | On the settings screen, sets the count, which stays within 1 to 10. |
| App.Session.Retake | App.tsx:141 | From the settings screen, moves to the camera; no data is cleared. |
| App.Session.BeginGenerate | App.tsx:23-30 | Called from the settings screen. Without a non-empty image, nothing happens. Otherwise it shows the generating screen, clears the error, and requests the header-stripped image with the count. |
| App.Session.CompleteGenerate | App.tsx:29-37 | On success it stores exactly the returned questions and shows the quiz. On any failure it sets the fixed message and shows the error screen, leaving the questions as they were. |
| App.Session.HandleQuizFinish | App.tsx:40-43 | Called from the quiz, or from the result screen for the second `onFinish` call of the same click. Stores the given score and shows the result. |
| App.Session.TryAgain | App.tsx:184 | From the error screen, moves to the camera; no data is cleared. |
| App.Session.ResetApp | App.tsx:45-51 | From the result screen, returns to the welcome screen. Image, questions, score and error are cleared. The question count is kept. |
| App.PlayThreeQuestions | components/QuizPlayer.tsx:93-107 | Correct, incorrect, correct over three questions reports a score of 2 to `onFinish`, twice. |
| App.ThreeQuestionSession | App.tsx:40-43 | A whole session over three questions ends on the result screen with score 2 and 67%. |
| App.FailedGenerationSession | App.tsx:23-37 | A failed generation shows the fixed message and keeps no questions; Try Again returns to the camera. |

## Left out

- Camera capture (`components/CameraView.tsx`): device and media-stream I/O. A captured image is an input to `HandleCapture`.
- `playAudioBuffer` and the creation, resume and suspension of the `AudioContext`: these are Web Audio calls.
  - A started node is an opaque `SourceNode` holding a caller-chosen identity and the decoded buffer.
  - The context is taken to exist and to be running, so the early return when it is missing is not modelled.
- AudioService.DecodeEmpty: the argument checks of the Web Audio `createBuffer` are not modelled. In a browser, `createBuffer` rejects a zero length. Here an empty payload, or one that is only whitespace, decodes to a zero-frame buffer, which is what the decoder computes before that call. So `CompleteNarration` plays such a payload, where the app leaves the loading flag set.
- Platform endianness: `Int16Array` is read little-endian, as on every platform the app runs on.
- Float32 storage: samples are exact rationals. Each int16 / 32768 is exactly representable as a float, so nothing is lost.
- The Gemini SDK calls, the prompts and the response schema: network access. Their answers are inputs (`QuizResponse`, `SpeechResponse`).
  - `JSON.parse` is a parameter returning an optional question list.
  - A parse result that is not an array of questions is not modelled.
- Console logging, the progress bar, and JSX rendering. The visibility and `disabled` guards are kept as `requires` clauses:
  - the narration button is disabled while loading;
  - Next is disabled until the question is answered;
  - the player is shown only with questions;
  - each `Session` handler requires the screen whose controls reach it:
    - welcome for `StartFlow`;
    - camera for `HandleCapture` and `Cancel`;
    - settings for `SetQuestionCount`, `Retake` and `BeginGenerate`;
    - error for `TryAgain`;
    - result for `ResetApp`;
    - quiz or result for `HandleQuizFinish`.
- App.ResultPercentage: computed exactly rather than in floating point. The `NaN` shown for zero questions is not modelled; the result screen is reached only after a quiz with questions.
- The unmount cleanup of the player and the reset of the player's state when it is re-mounted for a new quiz. Each quiz is a new `QuizPlayer`.
- Async interleavings other than those the begin/complete splits allow.
  - `PlaybackEnded` does not say which node ended: the `onended` callback of any node clears the playing flag, as in the source.
- `QuizResult` and `AudioConfig` in types.ts: declared but not used by the app.
