# Speech stream and chat history, modelled in Dafny

This project models two parts of a desktop voice assistant.

1. **`SpeechStream`** (`mic_stream.py`), without its threads and devices. It covers:
   - the 32-slot audio queue that the device callback fills with a
     drop-oldest rule;
   - one iteration of the recognition worker, which measures a frame, asks
     the recogniser and publishes text and levels into a result cell;
   - `poll`, which reads the cell and resets only the text;
   - the `start` / `stop` lifecycle handles and the queue drain;
   - the level meter. `_rms_int16` trims, decodes 16-bit samples, downmixes
     channels and takes the mean square. `_rms_to_dbfs` applies the
     silence rule.
2. **Chat history** (`github_models_client.py`). It covers:
   - `GitHubModelsClient.count_tokens`;
   - the history bookkeeping of `ChatSession`: construction,
     `set_system_prompt`, `_truncate_history`, `chat`, `get_history`,
     `clear_history` and `get_token_count`.

Modules and files:

| file | module | models |
|---|---|---|
| `wrappers.dfy` | `Wrappers` | `Option`, `Min` |
| `level_meter.dfy` | `LevelMeter` | `_rms_int16`, `_rms_to_dbfs` |
| `recognition.dfy` | `Recognition` | Python's `str.strip`, and the choice of the text fragment in `_recognition_worker` |
| `frame_queue.dfy` | `FrameQueues` | the `queue.Queue(maxsize=32)` of frames, and the callback's drop-oldest push as a function on sequences |
| `speech_stream.dfy` | `SpeechStreams` | class `SpeechStream`, plus scenario methods that chain its operations |
| `token_count.dfy` | `TokenCounting` | `count_tokens` |
| `chat_history.dfy` | `ChatHistory` | class `ChatSession`, plus the functions on message sequences that specify it |

Modelling choices:

- **Stateful parts are classes.** `SpeechStream`, `FrameQueue` and
  `ChatSession` are classes whose methods update fields under `modifies`
  clauses. `FrameQueue`'s methods state their whole new state. The
  other two each preserve a `Valid()` invariant:
  - `SpeechStream`: the queue never exceeds 32 frames, a stream implies an
    audio handle, a worker implies a started stream, and the published
    dBFS is always the one of the published RMS;
  - `ChatSession`: only the first message may be a system message.
- **Pure parts are functions.** Each state-changing method is tied to a
  function on values (`DropOldestPush`, `MeanSquare`, `Fragment`,
  `TokenCount`, `Truncated`, `WithSystemPrompt`). The lemmas state what the
  code promises about those functions.
- **The recogniser** is an input `RecognizerOutcome`: `Accepted(text)`,
  `Pending(partial)` or `Raised`.
- **The audio device** is an input `DeviceResponse`: initialisation fails,
  `open` fails, `start_stream` fails, or the stream starts.
- **The completion request** in `chat` is a parameter
  `respond: seq<Message> -> Option<string>`. `None` stands for a request
  that raised.
- **The tokeniser** `len(encoding.encode(s))` is a parameter
  `string -> nat`.
- **Square root and logarithm are kept symbolic.**
  - An RMS value is `RootOf(meanSquare)`, with the mean square computed
    exactly over the reals.
  - A finite dBFS value is `Decibels(powerRatio)` and stands for
    `10 * log10(powerRatio)`, which equals `20 * log10(rms / 32767)`.

Edge behaviours of the code as written, each stated and proved:

- **A failed `open` leaves `_pa` set.**
  - Every later `start` then returns at once without a stream or a worker,
    until `stop` clears the handle.
  - `SpeechStreams.FailedOpenScenario` proves this.
- **`chat` can drop the user's own message.**
  - A user message too large for the budget on its own is removed by the
    truncation, and the whole conversation goes with it.
  - The request is then sent with only the leading system part, which is
    empty when the history has no system message.
  - `ChatHistory.ChatDropsOversizedUserMessage` proves this.
- **The downmix can cancel.**
  - The channel average is taken before squaring. So a stereo position
    holding 5 and -5 measures 0.0 and is reported at minus infinity dBFS
    (`LevelMeter.DownmixCanCancel`).
- **The level can rise above 0 dBFS.**
  - The 0 dBFS reference is 32767, but a frame of -32768 samples measures
    32768.
  - So the dBFS value lies slightly above zero
    (`LevelMeter.NegativeFullScaleAboveZeroDbfs`).
  - No frame measures more than that (`LevelMeter.MeanSquareBounded`).
  - The `poll` docstring gives the RMS range as 0..32768, which agrees.
- **`stop` does not reset the result cell.** A `poll` after `stop` still
  returns the last levels and any unread text.

## Model

| member | source | states |
|---|---|---|
| `LevelMeter.TrimToSamples` | mic_stream.py:205-208 | Exactly `len % 2` trailing bytes are cut. The result is a prefix of even length. |
| `LevelMeter.SampleOf` | mic_stream.py:213-214 | Two bytes decode to a value in the signed 16-bit range. |
| `LevelMeter.Decode` | mic_stream.py:213-214 | An even-length buffer decodes to one sample per byte pair. Sample `i` is made from bytes `2i` and `2i+1` (little-endian). |
| `LevelMeter.Encode` | mic_stream.py:213-214 | Samples encode to two bytes each. This is the partner of `Decode`. |
| `LevelMeter.SampleOfBytes` | mic_stream.py:213-214 | Every 16-bit sample is recovered from its low and high byte. |
| `LevelMeter.BytesOfSample` | mic_stream.py:213-214 | Every byte pair is recovered from the sample it decodes to. |
| `LevelMeter.DecodeEncode` | mic_stream.py:213-214 | Decoding the encoding of 16-bit samples gives the samples back. |
| `LevelMeter.EncodeDecode` | mic_stream.py:213-214 | Encoding the decoding of an even-length buffer gives the buffer back. |
| `LevelMeter.SumPosition` | mic_stream.py:227-229 | The inner channel loop returns the sum of the samples of one position. |
| `LevelMeter.SumDownmixSquares` | mic_stream.py:224-232 | The position loop returns the sum, over the first `n` positions, of the squared channel averages. |
| `LevelMeter.DownmixStep` | mic_stream.py:230-232 | One more position adds the square of that position's average to the sum. |
| `LevelMeter.SumSampleSquares` | mic_stream.py:237-239 | The mono loop returns the sum of the squared samples. |
| `LevelMeter.SumSquares` | mic_stream.py:237-239 | The specification of the mono accumulator: the sum of the squares of the samples, oldest first. |
| `LevelMeter.ChannelSum` | mic_stream.py:228-229 | The specification of the channel loop: the sum of the `count` samples of one position. |
| `LevelMeter.ChannelMean` | mic_stream.py:228-230 | The equal-weight average of the samples of one position. |
| `LevelMeter.DownmixSquares` | mic_stream.py:224-232 | The specification of the position loop: the sum of the squared position averages over the first positions. |
| `LevelMeter.SamplesMeanSquare` | mic_stream.py:210-241 | The mean square of decoded samples: 0.0 for no samples or no whole position, the downmixed mean over whole positions for several channels, the mean of the squares in mono. |
| `LevelMeter.MeanSquare` | mic_stream.py:196-241 | The quantity whose root `_rms_int16` returns: the mean square of the trimmed and decoded buffer. |
| `LevelMeter.RmsInt16` | mic_stream.py:196-241 | The returned RMS is the root of `MeanSquare(raw, bytesPerFrame)`. That covers trimming, the empty case, the multi-channel case with zero whole positions, the downmix and mono. |
| `LevelMeter.RmsToDbfs` | mic_stream.py:243-254 | The level is minus infinity exactly when the RMS is at most zero. Otherwise it is a positive power ratio relative to 32767. |
| `LevelMeter.TrailingByteIgnored` | mic_stream.py:205-208 | Appending one byte to an even-length buffer never changes the measured level, for any channel count. |
| `LevelMeter.EmptyIsSilent` | mic_stream.py:210-211 | A buffer with no whole sample measures 0.0, so its level is minus infinity. |
| `LevelMeter.FewerSamplesThanChannels` | mic_stream.py:217-221 | With several channels and fewer samples than channels, the level is 0.0. |
| `LevelMeter.SumSquaresNonNegative` | mic_stream.py:237-239 | A sum of squared samples is never negative. |
| `LevelMeter.DownmixSquaresNonNegative` | mic_stream.py:224-232 | A sum of squared channel averages is never negative. |
| `LevelMeter.MeanSquareNonNegative` | mic_stream.py:196-241 | The mean square of any buffer is not negative, so its root exists. |
| `LevelMeter.SamplesMeanSquareNonNegative` | mic_stream.py:216-241 | The mean square of any decoded samples is not negative, for every channel count. |
| `LevelMeter.SumSquaresOfZeros` | mic_stream.py:237-239 | Zero samples have a zero sum of squares. |
| `LevelMeter.ChannelSumOfZeros` | mic_stream.py:228-229 | Zero samples have a zero channel sum. |
| `LevelMeter.DownmixSquaresOfZeros` | mic_stream.py:224-232 | Zero samples have a zero downmixed sum of squares. |
| `LevelMeter.ZeroSamplesAreSilent` | mic_stream.py:216-241 | A frame of all-zero samples measures 0.0, whatever the channel count. |
| `LevelMeter.SumSquaresZeroOnlyForZeros` | mic_stream.py:237-239 | A zero sum of squares means every sample is zero. |
| `LevelMeter.MonoSilentIffZero` | mic_stream.py:236-241 | In mono, a frame measures 0.0 if and only if every sample is zero. |
| `LevelMeter.SumSquaresBounded` | mic_stream.py:237-239 | The sum of squares of `k` samples is at most `k * 32768^2`. |
| `LevelMeter.ChannelSumBounded` | mic_stream.py:228-229 | The sum of `k` samples lies between `-32768 k` and `32767 k`. |
| `LevelMeter.ChannelMeanBounded` | mic_stream.py:228-231 | The square of one position's average is at most `32768^2`. |
| `LevelMeter.DownmixSquaresBounded` | mic_stream.py:224-232 | The downmixed sum over `k` positions is at most `k * 32768^2`. |
| `LevelMeter.MonoMeanSquareBounded` | mic_stream.py:236-241 | The mono mean square is at most `32768^2`. |
| `LevelMeter.DownmixMeanSquareBounded` | mic_stream.py:233-234 | The multi-channel mean square is at most `32768^2`. |
| `LevelMeter.PowerRatioBounded` | mic_stream.py:250-254 | A mean square of at most `32768^2` gives a power ratio of at most `32768^2 / 32767^2`. |
| `LevelMeter.MeanSquareBounded` | mic_stream.py:196-254 | No buffer measures above `32768^2`, so the RMS is at most 32768. The dBFS power ratio is at most `(32768/32767)^2`. |
| `LevelMeter.SamplesMeanSquareBounded` | mic_stream.py:216-241 | Decoded 16-bit samples measure at most `32768^2`, for every channel count. |
| `LevelMeter.NegativeFullScale` | mic_stream.py:213-214 | The byte buffer of `count` samples at -32768 has `2 * count` bytes. |
| `LevelMeter.DecodeNegativeFullScale` | mic_stream.py:213-214 | That buffer decodes to `count` samples of -32768. |
| `LevelMeter.SumSquaresOfRepeat` | mic_stream.py:237-239 | `count` copies of `v` have a sum of squares of `count * v^2`. |
| `LevelMeter.RepeatMeanSquare` | mic_stream.py:236-241 | A mono frame repeating one sample measures that sample squared. |
| `LevelMeter.NegativeFullScaleMeanSquare` | mic_stream.py:196-241 | A non-empty mono frame at -32768 reaches the bound `32768^2`. |
| `LevelMeter.NegativeFullScaleAboveZeroDbfs` | mic_stream.py:243-254 | That frame gives a finite dBFS level with a power ratio above one, so its level is above 0 dBFS. |
| `LevelMeter.DownmixCanCancel` | mic_stream.py:217-234 | A stereo position holding 5 and -5 measures 0.0, so its level is minus infinity. |
| `LevelMeter.Repeat` | mic_stream.py:226-232 | `count` copies of one value, the channels of one position. |
| `LevelMeter.Interleaved` | mic_stream.py:217-232 | A frame whose every channel carries the mono samples has `channels` samples per mono sample. |
| `LevelMeter.ChannelSumAppend` | mic_stream.py:228-229 | Samples after a position do not change its channel sum. |
| `LevelMeter.DownmixSquaresAppend` | mic_stream.py:224-232 | Samples after the first `k` positions do not change their downmixed sum. |
| `LevelMeter.ChannelSumOfRepeat` | mic_stream.py:228-229 | Equal samples `v` over `count` channels sum to `count * v`. |
| `LevelMeter.MeanOfEqualChannels` | mic_stream.py:230-231 | The squared average of `channels` copies of `v` is `v^2`. |
| `LevelMeter.LastPositionOfInterleaved` | mic_stream.py:226-232 | The last position of an identical-channel frame averages to its mono sample. |
| `LevelMeter.DownmixOfIdenticalChannels` | mic_stream.py:224-232 | Downmixing identical channels gives the mono sum of squares. |
| `LevelMeter.DivideExactly` | mic_stream.py:219 | `(q * c + e) / c == q` when `e < c`. This is the number of whole positions. |
| `LevelMeter.IdenticalChannelsMeasureAsMono` | mic_stream.py:216-241 | The downmix weighs channels equally: identical channels measure exactly what the mono frame measures. |
| `LevelMeter.IncompletePositionIgnored` | mic_stream.py:219-233 | Samples of an incomplete trailing position do not change the multi-channel level. |
| `Recognition.StripLeading` | mic_stream.py:175 | The result is a suffix of the input. Everything cut is whitespace, and the result does not start with whitespace. |
| `Recognition.IsSpace` | mic_stream.py:175 | The code points Python's `str.isspace` accepts. |
| `Recognition.StripTrailing` | mic_stream.py:175 | The result is a prefix of the input. Everything cut is whitespace, and the result does not end with whitespace. |
| `Recognition.StripCharacterised` | mic_stream.py:175 | `strip()` cuts only whitespace from both ends and leaves a contiguous part that is trimmed at both ends. The result is empty exactly when the input is blank. |
| `Recognition.Strip` | mic_stream.py:175 | Python's `str.strip()`: never longer than its input; `StripCharacterised` gives its full meaning. |
| `Recognition.StripCutsWhitespace` | mic_stream.py:175 | The stripped text sits in the input with only whitespace before and after it. |
| `Recognition.CutTail` | mic_stream.py:175 | Cutting a whitespace tail off a whitespace-preceded suffix cuts it off the whole string. |
| `Recognition.StripEnds` | mic_stream.py:175 | The stripped text neither starts nor ends with whitespace. |
| `Recognition.StripEmptyIffBlank` | mic_stream.py:175-177 | Stripping gives the empty string if and only if the input is all whitespace. |
| `Recognition.StripOfTrimmed` | mic_stream.py:175 | A string with no surrounding whitespace is its own strip. |
| `Recognition.StripIdempotent` | mic_stream.py:175 | Stripping twice is stripping once. |
| `Recognition.Hypothesis` | mic_stream.py:171-184 | A hypothesis is consulted exactly when the frame was accepted, or when it was not and partial results are enabled. |
| `Recognition.Fragment` | mic_stream.py:168-187 | A fragment exists exactly when the consulted text (final, or partial when enabled) is not blank. It is that text stripped and non-empty. An exception, or a partial result with partial results disabled, gives none. |
| `Recognition.FragmentIsStripped` | mic_stream.py:175-184 | A fragment is non-empty and has no whitespace left at either end. |
| `FrameQueues.FrameQueue.constructor` | mic_stream.py:56 | A queue starts empty with the given capacity. |
| `FrameQueues.FrameQueue.Full` | mic_stream.py:143-144 | `Queue.full`: at least `maxsize` frames with a positive `maxsize`. |
| `FrameQueues.FrameQueue.PutNowait` | mic_stream.py:143 | The put succeeds exactly when the queue is not full. It appends on success and changes nothing otherwise. |
| `FrameQueues.FrameQueue.GetNowait` | mic_stream.py:146 | The get returns and removes the oldest frame, or reports empty and changes nothing. |
| `FrameQueues.DropOldestPush` | mic_stream.py:140-153 | The queue grows by one up to the capacity. It always holds the newest frames of old queue plus offered frame, with the offered frame last. |
| `FrameQueues.PushWithRoom` | mic_stream.py:143 | With room left, the callback's push is a plain append. |
| `FrameQueues.PushAll` | mic_stream.py:140-153 | Successive callbacks with no pop: the queue length becomes `min(held + offered, capacity)`. |
| `FrameQueues.PushAllKeepsNewest` | mic_stream.py:142-152 | After any run of pushes with no pop, the queue holds the most recent `min(n, capacity)` frames of everything held or offered, in arrival order. |
| `FrameQueues.NewestAfterPush` | mic_stream.py:142-152 | One push does not change which frames are the newest `capacity` ones. |
| `FrameQueues.PushesIntoEmptyQueue` | mic_stream.py:140-153 | From an empty queue, `n` pushes leave the last `min(n, capacity)` frames, never more than the capacity. |
| `SpeechStreams.SpeechStream.constructor` | mic_stream.py:27-70 | With the same defaults as `__init__` (16000, 1, 4096, no device index, partial results on), a new stream has an empty 32-slot queue, no handles, a cleared stop event, and the result cell at no text, RMS 0.0 and minus infinity dBFS. |
| `SpeechStreams.SpeechStream.Valid` | mic_stream.py:56-70 | The class invariant: the 32-slot queue is never over capacity, a stream needs the audio handle, a worker needs a started stream and a cleared stop event, and the published dBFS is the one of the published RMS. |
| `SpeechStreams.SpeechStream.Start` | mic_stream.py:72-93 | With the audio handle already set, nothing changes and the call succeeds. Otherwise the handles set before a failure stay set, and only a full start clears the stop event and starts the worker. The result cell is untouched. |
| `SpeechStreams.SpeechStream.Poll` | mic_stream.py:95-109 | Poll returns the current text, RMS and dBFS, afterwards the text is cleared, and the levels are unchanged. |
| `SpeechStreams.SpeechStream.Stop` | mic_stream.py:111-134 | From any state, stop sets the stop event and clears the worker, stream and audio handle. It empties the queue and leaves the result cell as it was. |
| `SpeechStreams.SpeechStream.DeviceCallback` | mic_stream.py:140-153 | Called only while the stream runs, the queue becomes the drop-oldest push of the frame. By the invariant, it never holds more than 32 frames. |
| `SpeechStreams.SpeechStream.WorkerIteration` | mic_stream.py:155-194 | Run only while the worker exists or after a stop was requested. A set stop event ends the loop, and an empty queue times out; in both cases nothing changes. Otherwise the oldest frame is taken and the levels are always overwritten with its measurement. The text is overwritten only by a non-empty fragment. |
| `SpeechStreams.SpeechStream.Process` | mic_stream.py:165-194 | One frame's levels are published. The text changes only when the step produced a fragment. |
| `SpeechStreams.SpeechStream.Publish` | mic_stream.py:189-194 | Levels are always overwritten, and the text only by a present update. |
| `SpeechStreams.SpeechStream.DrainQueue` | mic_stream.py:256-263 | The loop empties the queue. |
| `SpeechStreams.HelloScenario` | mic_stream.py:95-194 | Three frames, each followed by a poll: the polls see no text, "hello", then no text. Each time, the levels follow the latest frame. |
| `SpeechStreams.FrameThenPoll` | mic_stream.py:95-194 | A frame delivered, processed and polled yields its fragment, or the previous unread text, with its own RMS. The text is cleared afterwards. |
| `SpeechStreams.DeliverAndRecognise` | mic_stream.py:140-194 | A frame pushed into an empty queue is taken and measured by the next worker step. |
| `SpeechStreams.PollTwice` | mic_stream.py:103-109 | A second immediate poll returns no text and the same levels as the first. |
| `SpeechStreams.HelloFragments` | mic_stream.py:168-187 | Empty and blank partial results give no fragment. The final text " hello " gives "hello". |
| `SpeechStreams.BlankPartials` | mic_stream.py:179-184 | Empty and all-space partial results give no fragment. |
| `SpeechStreams.HelloAccepted` | mic_stream.py:172-177 | The accepted text " hello " gives the fragment "hello". |
| `SpeechStreams.StripHello` | mic_stream.py:175 | `" hello ".strip()` is "hello". |
| `SpeechStreams.BlankSpaces` | mic_stream.py:175-176 | Two spaces are blank. |
| `SpeechStreams.RestartScenario` | mic_stream.py:72-134 | A second `start` changes nothing. `stop` leaves an empty queue after any frames. A later `start` opens a fresh stream and worker. |
| `SpeechStreams.FailedOpenScenario` | mic_stream.py:74-78 | After a failed `open`, a retried `start` reports success but runs no stream and no worker. |
| `TokenCounting.CountTokens` | github_models_client.py:113-135 | The loop returns `TokenCount`: 3 per message, plus the tokens of its items, plus 3. |
| `TokenCounting.Items` | github_models_client.py:129-132 | The pairs `message.items()` yields: role first, content second, and a "name" key exactly when the message has a name. |
| `TokenCounting.MessageTokens` | github_models_client.py:128-132 | The cost of one message: 3 plus the cost of each item. |
| `TokenCounting.MessagesTokens` | github_models_client.py:127-132 | The summed cost of the messages, oldest first. |
| `TokenCounting.TokenCount` | github_models_client.py:123-135 | The value `count_tokens` returns: the message costs plus the 3 priming tokens. |
| `TokenCounting.CountItemTokens` | github_models_client.py:129-132 | The inner loop returns the encoded lengths of all values, plus 1 for a "name" key. |
| `TokenCounting.MessageTokensFormula` | github_models_client.py:127-132 | One message costs 3, plus the encoded lengths of role, content and (if present) name, plus 1 for the name. |
| `TokenCounting.TokenCountEmpty` | github_models_client.py:123-135 | An empty list counts 3. |
| `TokenCounting.MessagesTokensAppend` | github_models_client.py:127-132 | Message costs add up over concatenation. |
| `TokenCounting.TokenCountAppend` | github_models_client.py:123-135 | The count of `a + b` is the counts of `a` and `b`, with the final 3 counted once. |
| `TokenCounting.TokenCountLowerBound` | github_models_client.py:123-135 | Every message costs at least 3, so `n` messages count at least `3n + 3`. |
| `TokenCounting.TokenCountOfSuffix` | github_models_client.py:123-135 | Removing messages never raises the count. |
| `TokenCounting.TokenCountWithLast` | github_models_client.py:123-135 | A list ending in `m` counts at least what the head plus `[m]` counts. |
| `ChatHistory.PromptHistory` | github_models_client.py:170-175 | The starting history is non-empty exactly for a truthy prompt, and is then that one system message. |
| `ChatHistory.LeadingSystem` | github_models_client.py:204-205 | The system part is at most the first message, and is present exactly when the history starts with a system message. |
| `ChatHistory.Conversation` | github_models_client.py:202-205 | The history is its system part followed by its conversation. |
| `ChatHistory.DropOldestExchange` | github_models_client.py:211-214 | One pass removes one or two messages from the front. It removes two exactly when the second message is an assistant reply. |
| `ChatHistory.WithinLimit` | github_models_client.py:208-210 | A history fits exactly when its token count is at most the limit. |
| `ChatHistory.DropUntilFits` | github_models_client.py:208-214 | The loop leaves a suffix of the messages. The suffix fits behind the system part, or it is empty. A list that already fits is kept whole. |
| `ChatHistory.TruncatedShape` | github_models_client.py:195-220 | Truncation keeps the system part at the head and a suffix of the conversation. It leaves a history that fits, or only the system part. |
| `ChatHistory.Truncated` | github_models_client.py:195-220 | The history `_truncate_history` leaves: never longer than before; `TruncatedShape` states its shape. |
| `ChatHistory.WithSystemPrompt` | github_models_client.py:185-192 | The history after `set_system_prompt(p)`: it starts with the system message `p` and is one longer than the conversation it keeps. |
| `ChatHistory.TruncatedWhenFits` | github_models_client.py:208-220 | A history within budget is left unchanged. |
| `ChatHistory.TruncatedParts` | github_models_client.py:204-220 | When only the first message may be a system message, truncation keeps the same system part and that property. |
| `ChatHistory.KeepSuffix` | github_models_client.py:217-220 | The system part followed by any suffix of the conversation splits back into those parts. No other system message appears. |
| `ChatHistory.KeepSuffixLeading` | github_models_client.py:217-220 | The system part stays the leading system part when a suffix of the conversation follows it. |
| `ChatHistory.SuffixAt` | github_models_client.py:208-214 | Message `k` of a kept suffix is the message of the original history at the matching index. |
| `ChatHistory.TruncatedIdempotent` | github_models_client.py:195-220 | Truncating twice is truncating once. |
| `ChatHistory.DropUntilFitsStep` | github_models_client.py:208-214 | Over budget, the loop makes one pass and goes on. |
| `ChatHistory.DropKeepsExchanges` | github_models_client.py:208-214 | On alternating user/assistant messages, truncation removes whole exchanges. What is left still starts with a user message. |
| `ChatHistory.DropOldestOfExchanges` | github_models_client.py:211-214 | On alternating messages, one pass removes one user/assistant exchange. |
| `ChatHistory.DropKeepsLast` | github_models_client.py:208-214 | A newest non-assistant message that fits alone behind the system part survives truncation. |
| `ChatHistory.WithinLimitNewestBounds` | github_models_client.py:208-210 | Under the token budget, a fitting history implies that its newest message alone fits behind the system part. |
| `ChatHistory.DropEverything` | github_models_client.py:208-214 | If the newest message alone does not fit behind the system part, the loop removes everything. |
| `ChatHistory.AppendKeepsSystemOnlyFirst` | github_models_client.py:234-258 | Appending a non-system message keeps only the first message a possible system message. |
| `ChatHistory.AppendToConversation` | github_models_client.py:234-237 | Appending a non-system message keeps the system part and extends the conversation. |
| `ChatHistory.TruncatedAppend` | github_models_client.py:234-240 | The history `chat` sends is the system part, followed by the truncation of the old conversation plus the user message. |
| `ChatHistory.ChatKeepsUserMessage` | github_models_client.py:234-240 | When the user message fits behind the system part, the history sent keeps the system part and ends with that user message. |
| `ChatHistory.ReplyAfterNewest` | github_models_client.py:254-258 | Appending the reply to a sent history that ends in the user message makes the history end with that user message, then the reply. |
| `ChatHistory.KeepsAppendedParts` | github_models_client.py:208-220 | A fitting newest non-assistant message is kept last behind the system part. |
| `ChatHistory.ChatDropsOversizedUserMessage` | github_models_client.py:234-240 | A user message too large on its own is removed with the whole conversation, leaving only the leading system part (nothing when there is no system message). |
| `ChatHistory.SystemPromptReplaced` | github_models_client.py:185-193 | The new history has exactly one new leading system message and the old conversation in order. It keeps only the first message a possible system message. Among successive prompts, the last one set wins. |
| `ChatHistory.SystemPromptParts` | github_models_client.py:185-192 | The system part becomes the new prompt, and the conversation is untouched. |
| `ChatHistory.SystemPromptOnlyFirst` | github_models_client.py:185-192 | Setting the prompt keeps every later message non-system. |
| `ChatHistory.ChatSession.constructor` | github_models_client.py:144-175 | With the defaults of `__init__` (budget 8000, no prompt), the history starts with one system message exactly when the prompt is truthy, and is empty otherwise. |
| `ChatHistory.ChatSession.Valid` | github_models_client.py:170-175 | The class invariant: only the first message of the history may be a system message. |
| `ChatHistory.ChatSession.SetSystemPrompt` | github_models_client.py:177-193 | The history becomes the new system message followed by the old conversation, and the prompt is recorded. |
| `ChatHistory.ChatSession.TruncateHistory` | github_models_client.py:195-220 | The history becomes `Truncated` under the token limit. The class invariant is kept. |
| `ChatHistory.ChatSession.SplitSystem` | github_models_client.py:201-205 | The history is split into its leading system message, if any, and the rest. |
| `ChatHistory.ChatSession.DropWhileOver` | github_models_client.py:208-214 | The loop leaves what `DropUntilFits` specifies under the token limit. |
| `ChatHistory.ChatSession.OverBudget` | github_models_client.py:208-210 | The loop condition holds exactly when messages are left and the count exceeds the limit. |
| `ChatHistory.ChatSession.Chat` | github_models_client.py:222-260 | The reply comes from the truncated history with the user message. The new history is that history plus the assistant reply. |
| `ChatHistory.ChatSession.GetHistory` | github_models_client.py:262-269 | The call returns the current history. |
| `ChatHistory.ChatSession.ClearHistory` | github_models_client.py:271-284 | Keeping is requested by default. With keeping requested and a truthy prompt, the history becomes exactly that system message. Otherwise it becomes empty. |
| `ChatHistory.ChatSession.GetTokenCount` | github_models_client.py:286-293 | The call returns the token count of the whole history. |

## Left out

- PyAudio and Vosk are out:
  - opening, starting, stopping and closing the device;
  - the `Model` / `KaldiRecognizer` construction from `model_path`;
  - the JSON decoding of recogniser results.

  The device is a `DeviceResponse` input, and the recogniser is a
  `RecognizerOutcome` input.
- `model_path` is not a field of the model: it only feeds the recogniser
  construction above. `sampleRate`, `chunkFrames` and `deviceIndex` are only
  stored, because they are passed to foreign libraries.
- The `GitHubModelsClient` constructor arguments of `ChatSession`
  (`github_token`, `model`, `max_tokens`, `temperature`) and their
  defaults are not modelled. `max_history_tokens` and `system_prompt` are,
  with their defaults.
- Threading is out: the worker thread, the stop `Event`, the result
  `Lock`, `join(timeout=2.0)` and the 0.1 s `get` timeout. The worker is
  modelled one atomic iteration at a time, and a `get` on an empty queue
  is the time-out. Interleavings with the callback are not modelled.
- `SpeechStreams.SpeechStream.DeviceCallback` does not model the second
  `put_nowait` failing. Without a concurrent producer, the queue always
  has room after the eviction.
- Floating point is out. `math.sqrt` and `math.log10` are kept symbolic,
  and the mean square is exact over the reals, so float rounding of the
  accumulator is not modelled.
- `LevelMeter.Decode`: `array('h').frombytes` uses the machine's native
  byte order. The model fixes it to little-endian.
- `LevelMeter.RmsToDbfs` does not compute the logarithm, only the power
  ratio behind it.
- The GitHub side is out:
  - the token and environment check of the client;
  - `single_request`;
  - the completion HTTP call. It is the `respond` parameter of `Chat`.
  - the `kwargs` of `chat` (model, temperature, `max_tokens` of the
    request).

  An exception from the request is `respond` returning `None`. The history
  then keeps the user message and gets no reply.
- `tiktoken` is a `Tokeniser` parameter (`string -> nat`).
- Roles are limited to the three the client writes: system, user and
  assistant. So are the keys: role, content and an optional name. An
  assistant reply whose content is `None` is not representable.
- `save_history` and `load_history` are out, because they are file I/O.
  Histories `load_history` could read with other roles or keys are
  therefore not modelled.
- `TesseractOCR` and `EasyOCR` are not part of this model. They are OCR
  library wrappers.
- `screens/`, `AEngineApps/`, `main.py`, `control.py`, `setup.py` and
  `static/js/` are not part of this model. They are web, desktop and
  installer glue.
