# EchoBot speech service — a verified Dafny model

The speech service of the EchoBot sample sits between a live call and Azure's speech
engines. It writes each audio frame from the call to a push stream, the audio input
it configures for a speech recognizer. It speaks a greeting when a recognition
session starts. It logs the outcome of a keyword-spotting pass. The greeting is the
only text the service speaks: the call that would speak recognized speech is commented
out (`SpeechService.cs:241-244`). `TextToSpeech` rewrites whatever text it is given
before speaking it:

- If the text holds the letters of the trigger `cat` in order, it becomes the configured
  status reply.
- Otherwise, if it holds `dog` in order, it becomes the configured blocker reply.
- If a completion endpoint and key are configured, the text may then be replaced by a
  language-model completion.
- Otherwise, or when the call fails, an apology annotation is appended.

The triggers are tested by `ContainsPattern`. It is a one-pass subsequence test, not a
substring test.

The model has three modules:

- `PatternMatcher` (`matcher.dfy`). `ContainsPattern` is the source's `while` loop
  (`SpeechService.cs:136-155`), proved against `IsSubsequence`. `IsSubsequence` is a non-greedy recursive definition:
  at each step the head of the text is either matched or skipped. It is proved equal to
  a second characterisation: the pattern's characters sit at strictly increasing
  positions of the text (`IsEmbedding`).
- `SpeechText` (`speech_text.dfy`). The strings the service builds are pure functions:
  command substitution (`SubstituteCommand`, `SpeechService.cs:308-317`), the rewrite
  and its annotation (`Rewrite`, `Annotate` and `SpokenText`, `SpeechService.cs:318-356`),
  the greeting (`Greeting`, `SpeechService.cs:269`), and the keyword log line
  (`KeywordLogLine` and its reader `ParseKeywordLogLine`, `SpeechService.cs:222-232`).
  `SpokenText` and `ComposeSpokenText` model `TextToSpeech` for any argument, so the
  lemmas about an arbitrary text describe that method; the greeting is the one text it
  is actually given. The settings are a `Config` record whose defaults are those of
  `InputValues`. The constructor copies the completion endpoint and key from the
  application settings (`SpeechService.cs:52-53`), so by the time a greeting is spoken
  those two fields hold the application settings' values. The remote completion call
  is replaced by its outcome, a `Completion` value (`Completed(text)` or `Failed`). `ComposeSpokenText` is the step-by-step
  reassignment of `TextToSpeech`. It calls `ContainsPattern` and is proved to produce
  `SpokenText`.
- `SpeechSession` (`session.dfy`). The class `SpeechService` holds the run flag, a
  `released` flag for the recognizer, streams and synthesizer, and the bytes written to
  the push stream. The ghost field `written` holds the frames written, in order. The
  ghost field `releases` counts how many times the resources were released.
  `Valid()` ties the stream to the concatenation of `written`, says no written frame is
  empty, and says the resources were released at most once.

The annotations are "I am sorry, I cannot reach gpt model" and "I am sorry, the gpt
variables are not set". The separator before an annotation is two spaces.

One behaviour of the speech SDK is assumed. After `ShutDownAsync` has released the
recognizer, a later frame raises the run flag again. The next `ShutDownAsync` then calls
`StopContinuousRecognitionAsync` on the released recognizer. The model assumes this call
raises, as .NET objects do after `Dispose`. The exception leaves `ShutDownAsync` before
anything is released a second time, and the model reports it as `Faulted`. Likewise, a
write to the released push stream is assumed to raise. The handler at
`SpeechService.cs:85-88` catches it, so the frame is dropped.

## Model

| member | source | states |
|---|---|---|
| PatternMatcher.ContainsPattern | Samples/PublicSamples/EchoBot/src/EchoBot/Media/SpeechService.cs:136-155 | the single greedy pass returns true exactly when the pattern is a subsequence of the text; an empty pattern is always found; a pattern longer than the text never is |
| PatternMatcher.SubsequenceIffEmbedding | Samples/PublicSamples/EchoBot/src/EchoBot/Media/SpeechService.cs:136-155 | a pattern is a subsequence exactly when its characters occur at strictly increasing positions of the text |
| PatternMatcher.EmbeddingIsSubsequence | Samples/PublicSamples/EchoBot/src/EchoBot/Media/SpeechService.cs:136-155 | any choice of strictly increasing matching positions makes the pattern a subsequence |
| PatternMatcher.Embedding | Samples/PublicSamples/EchoBot/src/EchoBot/Media/SpeechService.cs:136-155 | for every subsequence it yields the strictly increasing positions where the pattern's characters are found |
| PatternMatcher.GreedyMatchIsSafe | Samples/PublicSamples/EchoBot/src/EchoBot/Media/SpeechService.cs:143-150 | consuming a pattern character on the first equal text character loses no match |
| PatternMatcher.DropPatternHead | Samples/PublicSamples/EchoBot/src/EchoBot/Media/SpeechService.cs:143-150 | a subsequence stays a subsequence when its first character is dropped |
| PatternMatcher.SubsequenceNotLonger | Samples/PublicSamples/EchoBot/src/EchoBot/Media/SpeechService.cs:141-154 | a pattern that is found is never longer than the text |
| PatternMatcher.FoundCharactersOccur | Samples/PublicSamples/EchoBot/src/EchoBot/Media/SpeechService.cs:136-155 | every character of a found pattern occurs in the text |
| PatternMatcher.ContainsPatternExamples | Samples/PublicSamples/EchoBot/src/EchoBot/Media/SpeechService.cs:136-155 | "cat" is found in "cosmicat" but not in "tac"; the empty pattern is found in every text |
| SpeechText.ScatteredUpdateTriggerSelectsStatus | Samples/PublicSamples/EchoBot/src/EchoBot/Media/SpeechService.cs:308-313 | a text with c, a, t at increasing positions is replaced by the status reply, even when it also holds the blocker trigger |
| SpeechText.TriggerPositions | Samples/PublicSamples/EchoBot/src/EchoBot/Media/SpeechService.cs:310-314 | a three-letter trigger that is found sits at three strictly increasing positions of the text |
| SpeechText.NoUpdateTriggerSkipsStatus | Samples/PublicSamples/EchoBot/src/EchoBot/Media/SpeechService.cs:310-317 | a text with no c, a, t at increasing positions never becomes the status reply: it becomes the blocker reply when it holds the blocker trigger, and is kept otherwise |
| SpeechText.NoTriggerKeepsText | Samples/PublicSamples/EchoBot/src/EchoBot/Media/SpeechService.cs:308-318 | a text with neither c, a, t nor d, o, g at increasing positions is kept unchanged |
| SpeechText.ScatteredBlockerTriggerSelectsBlocker | Samples/PublicSamples/EchoBot/src/EchoBot/Media/SpeechService.cs:314-317 | without the update trigger, d, o, g at increasing positions select the blocker reply |
| SpeechText.TextKeptWithoutTriggerLetters | Samples/PublicSamples/EchoBot/src/EchoBot/Media/SpeechService.cs:308-318 | a text missing a letter of each trigger is kept unchanged |
| PatternMatcher.LackingCharacterNotFound | Samples/PublicSamples/EchoBot/src/EchoBot/Media/SpeechService.cs:310-314 | a trigger with a letter the text lacks does not match |
| SpeechText.UpdateSentenceIsNotACommand | Samples/PublicSamples/EchoBot/src/EchoBot/Media/SpeechService.cs:308-318 | "I have an update" is kept as it is |
| SpeechText.SubstitutionIdempotent | Samples/PublicSamples/EchoBot/src/EchoBot/Media/SpeechService.cs:308-318 | when substitution leaves each canned reply as it is, substituting twice gives the same text as substituting once |
| SpeechText.IdempotentSubstitutionKeepsReplies | Samples/PublicSamples/EchoBot/src/EchoBot/Media/SpeechService.cs:308-318 | conversely, when substituting twice equals substituting once for every text, substitution leaves each canned reply as it is; together with the row above this makes the fixed-point condition exact |
| SpeechText.TriggerFreeSubstitutionIdempotent | Samples/PublicSamples/EchoBot/src/EchoBot/Media/SpeechService.cs:308-318 | canned replies that each lack a letter of each trigger make substitution idempotent |
| SpeechText.DefaultStatusTriggerFree | Samples/PublicSamples/EchoBot/src/EchoBot/Constants/InputValues.cs:13 | the default status reply holds neither trigger |
| SpeechText.DefaultBlockerTriggerFree | Samples/PublicSamples/EchoBot/src/EchoBot/Constants/InputValues.cs:15 | the default blocker reply holds neither trigger |
| SpeechText.UnconfiguredIgnoresCompletion | Samples/PublicSamples/EchoBot/src/EchoBot/Media/SpeechService.cs:318-356 | without both key and endpoint, the spoken text does not depend on the completion outcome; it is the substituted text, two spaces, and the "variables are not set" annotation |
| SpeechText.CompletionReplacesText | Samples/PublicSamples/EchoBot/src/EchoBot/Media/SpeechService.cs:320-356 | when configured, a successful completion is spoken exactly, with no annotation |
| SpeechText.FailedCompletionAnnotates | Samples/PublicSamples/EchoBot/src/EchoBot/Media/SpeechService.cs:342-356 | when configured, a failed completion keeps the substituted text and appends two spaces and the "cannot reach gpt model" annotation |
| SpeechText.SpokenTextShape | Samples/PublicSamples/EchoBot/src/EchoBot/Media/SpeechService.cs:308-356 | every text `TextToSpeech` speaks is either the completion as returned, or the substituted text, two spaces and one of the two annotations; the annotation is present exactly when no completion was used |
| SpeechText.ComposeSpokenText | Samples/PublicSamples/EchoBot/src/EchoBot/Media/SpeechService.cs:304-356 | the step-by-step reassignments of `TextToSpeech`, using `ContainsPattern`, produce the text `SpokenText` defines |
| SpeechText.GreetingNamesPersonTwice | Samples/PublicSamples/EchoBot/src/EchoBot/Media/SpeechService.cs:269 | the greeting is "Hello, My name is ", the name, " bot. I am here on ", the name, "'s behalf", at fixed offsets |
| SpeechText.GreetingInjective | Samples/PublicSamples/EchoBot/src/EchoBot/Media/SpeechService.cs:269 | different names give different greetings |
| SpeechText.DefaultGreeting | Samples/PublicSamples/EchoBot/src/EchoBot/Media/SpeechService.cs:269 | with the default name "Apple" the greeting is "Hello, My name is Apple bot. I am here on Apple's behalf" |
| SpeechText.DefaultGreetingKept | Samples/PublicSamples/EchoBot/src/EchoBot/Media/SpeechService.cs:269-270 | the default greeting holds neither trigger, so command substitution keeps it unchanged |
| SpeechText.DefaultGreetingSpoken | Samples/PublicSamples/EchoBot/src/EchoBot/Media/SpeechService.cs:304-356 | with the default name "Apple" and the key or the endpoint empty, the greeting is spoken followed by two spaces and "I am sorry, the gpt variables are not set", whatever the completion outcome |
| SpeechText.GreetingSpokenOnlyAsCompletion | Samples/PublicSamples/EchoBot/src/EchoBot/Media/SpeechService.cs:304-356 | a greeting is spoken word for word only when the completion service is configured and returns exactly that greeting |
| SpeechText.GreetingCanSelectStatus | Samples/PublicSamples/EchoBot/src/EchoBot/Media/SpeechService.cs:269-270 | the greeting is itself checked for the triggers: with the name "Marcia" it holds c, a, t in order and is replaced by the status reply |
| SpeechText.KeywordLogLineRoundTrip | Samples/PublicSamples/EchoBot/src/EchoBot/Media/SpeechService.cs:222-232 | the log line "Keyword recognized: t" or "No match found: t" reads back to the outcome and text it was built from |
| SpeechText.ParseKeywordLogLineSound | Samples/PublicSamples/EchoBot/src/EchoBot/Media/SpeechService.cs:222-232 | every line that reads back is exactly the log line of what it reads back to |
| SpeechSession.ConcatAppend | Samples/PublicSamples/EchoBot/src/EchoBot/Media/SpeechService.cs:76-83 | the bytes of two runs of frames are the first run's bytes followed by the second's |
| SpeechSession.ConcatIgnoresEmptyFrames | Samples/PublicSamples/EchoBot/src/EchoBot/Media/SpeechService.cs:76-83 | skipping the empty frames changes no byte of the stream |
| SpeechSession.SpeechService.constructor | Samples/PublicSamples/EchoBot/src/EchoBot/Media/SpeechService.cs:25-59 | a new service is not running, holds nothing released and has an empty input stream |
| SpeechSession.SpeechService.Start | Samples/PublicSamples/EchoBot/src/EchoBot/Media/SpeechService.cs:129-135 | the run flag is up afterwards and nothing else changes, so a second call changes nothing |
| SpeechSession.SpeechService.AppendAudioBuffer | Samples/PublicSamples/EchoBot/src/EchoBot/Media/SpeechService.cs:65-89 | starts the service if it is not running; a non-empty frame is appended to the stream unless the stream was released; an empty frame writes nothing |
| SpeechSession.SpeechService.ShutDownAsync | Samples/PublicSamples/EchoBot/src/EchoBot/Media/SpeechService.cs:105-124 | does nothing when not running; otherwise releases the resources once and lowers the flag; the resources are never released twice |
| SpeechSession.FeedFrames | Samples/PublicSamples/EchoBot/src/EchoBot/Media/SpeechService.cs:65-89 | frames appended one after another end up in the push stream as their in-order concatenation |
| SpeechSession.ShutDownTwice | Samples/PublicSamples/EchoBot/src/EchoBot/Media/SpeechService.cs:105-124 | a second shutdown finds the flag down and does nothing |
| SpeechSession.AppendAfterShutDown | Samples/PublicSamples/EchoBot/src/EchoBot/Media/SpeechService.cs:65-124 | a frame after shutdown raises the flag but is not written, and the next shutdown faults rather than releasing again |

## Left out

- Recognition session (`ProcessSpeech`, `SpeechService.cs:160-301`). This covers the recognizer and its `Recognizing`, `Recognized`, `Canceled`, `SessionStarted` and `SessionStopped` handlers, and the completion signal that ends the session. It is callback-driven and concurrent work inside a foreign SDK. Only the greeting and keyword-log strings it builds are modelled. In the model, `AppendAudioBuffer` starts the service and then writes. The source also awaits the whole recognition session between those two steps.
- SpeechSession.SpeechService.AppendAudioBuffer and SpeechSession.FeedFrames state which bytes reach the push stream, not which bytes a recognizer reads. The frame that starts the service is written only after `await ProcessSpeech()` returns (`SpeechService.cs:66-82`), that is, after the recognition session has ended. So with calls made one after another, no recognizer of that session reads the frames. With calls made at the same time, frames arriving during the session are written before the first frame. The model has neither the session nor the interleaving.
- Speech synthesis and the outbound frames (`SpeechService.cs:359-371`), and the `SendMediaBuffer` event (`SpeechService.cs:91-99`). These are foreign SDK calls and observer wiring. `Util.Utilities.CreateAudioMediaBuffers` is not part of this model.
- Keyword spotting itself (`SpeechService.cs:208-220`). This covers the model download to a temporary file and the keyword recognizer. It is file and network I/O and a foreign SDK. Its outcome is a `KeywordResult` value. The unused `keyword` variable (`SpeechService.cs:191`) has no behaviour. The commented-out gate (`SpeechService.cs:241-244`) means recognized speech is never passed to `TextToSpeech`; the model's lemmas about arbitrary texts describe `TextToSpeech` itself, not a reply to recognized speech.
- Blob log writes (`SpeechService.cs:193-205, 234-238, 378-400`). These are network I/O, and every line starts with `DateTime.Now`, which is not deterministic.
- The completion request (`SpeechService.cs:324-339`). It is a remote call with floating-point parameters. Its result is the `Completion` parameter. Any exception in building or making the call, or in reading the first completion, is `Failed`.
- Copying the frame out of unmanaged memory (`Marshal.Copy`, `SpeechService.cs:80`). It is a foreign memory operation. A frame is its byte sequence, so the `long` length and its `int` cast are not modelled.
- Concurrency: frames, shutdown and event handlers running at the same time. The model treats each operation as atomic.
- Null strings: `string.IsNullOrEmpty` treats null as empty, and the model has only the empty string.
- `_isDraining` (`SpeechService.cs:29, 300`): it is only ever set to false and nothing reads it.
- `InputValues.SaConnectionString` (`SpeechService.cs:54`) is assigned but not declared in `InputValues.cs`, and the model has no storage connection.
- The constructor's engine configuration (`SpeechService.cs:48-50, 56-57`). This is the subscription key, region and language of the speech engines and the synthesizer's output. It only configures foreign SDK objects. Lines 52-53 copy the application settings' completion endpoint and key into `InputValues`; the model takes them as the `openAiEndpoint` and `openAiKey` fields of the `Config` parameter.
- PatternMatcher.ContainsPattern: compares Dafny `char`s, which are Unicode scalar values, while C# compares UTF-16 code units. The two agree on texts inside the Basic Multilingual Plane but not outside it: C# finds "\U0001F600" in "\U0001F601\U0001D600", because the high surrogate of the first character and the low surrogate of the second together spell it, while the model does not. The triggers "cat" and "dog" are ASCII, and no surrogate equals an ASCII letter, so the trigger tests give the same answer either way.
- SpeechSession.SpeechService.ShutDownAsync: the model assumes a recognizer exists whenever the run flag is up. If `ProcessSpeech` fails before it creates the recognizer (`SpeechService.cs:163-171`), its handler swallows the exception and the flag stays up with no recognizer. The next `ShutDownAsync` then raises a `NullReferenceException` at `SpeechService.cs:114` without releasing anything, where the model reports `Released`.
- SpeechSession.SpeechService.AppendAudioBuffer: an exception from the copy, other than a write to the released stream, is not modelled. Such an exception would also drop the frame.
