# Portfolio chat backend: verified model of its deterministic core

This project models the deterministic logic of the portfolio chatbot backend. The surrounding LLM, cloud-speech and HTTP plumbing is not part of it. The model covers four pieces:

- **The mailto link builder.** `create_mailto_link` builds the link offered to a visitor who wants to email the site owner. It is modelled together with the `urllib.parse.quote` percent-encoding it relies on. Text is encoded as UTF-8. Every byte outside the unreserved set of section 2.3 of RFC 3986, and outside the default safe character `/`, becomes `%` plus two upper-case hex digits, following section 2.1 of RFC 3986. A decoder in the style of `urllib.parse.unquote` is its partner, and a small parser takes a built link apart again.
  - Modules `Utf8`, `UrlQuote` and `Utils`.
- **The per-request stream manager.** `_ChatStreamManager` serves one chat request. It:
  - classifies the message;
  - either answers an email request with a fixed acknowledgement and link, or streams the answer of the RAG chain built for the persona the intent selects;
  - asks for follow-up suggestions unless a link exists;
  - schedules the conversation log;
  - ends the server-sent event stream with one `final` or `error` event.

  The collaborators it awaits become inputs: the intent, the chunks the chain streams, the suggestion generator's result, and the point (`Fault`) where one of them raises. The class `ChatStreamManager` keeps the request fields of the source (`session_id`, `message`, `full_answer`, `suggested_questions`, `mailto_link`) and updates them step by step. The `service` and `db` references are not fields of the model: what the service's methods return is passed in. Its `Process` method returns the run's trace and is proved equal to the specification function `Run`. The trace lists the service calls made and the events yielded, in order. The lemmas beside it state the event protocol, the persona choice, the accumulation of the answer, the suggestion rule and the log job.
  - Module `StreamManager`.
- **The session history store.** `ChatService.store` maps session ids to histories, and `get_session_history` inserts a fresh empty history when the id is absent.
  - Module `ChatSessions`.
- **The audio decisions.** These are the WAV content-type gate and the error raised when speech-to-text fails in `transcribe_audio`, the selection of the first transcript, and the voice chosen in `synthesize_speech` with its case-insensitive language test.
  - Module `AudioService`.

`Wrappers` holds the `Option` and `Result` types.

## Model

| member | source | states |
|---|---|---|
| Utils.CreateMailtoLink | app/core/utils.py:3-7 | The link starts with `mailto:` followed by the address copied verbatim, never encoded. |
| Utils.MailtoRoundTrip | app/core/utils.py:7 | When the address has no `?`, parsing the built link returns exactly the address, subject and body it was built from. Encoding never lets the subject or body break the `?subject=…&body=…` structure. |
| Utils.ParseAssembledLink | app/core/utils.py:7 | The link is exactly `"mailto:" + email + "?subject=" + quote(subject) + "&body=" + quote(body)`: the parser recovers those four parts from that concatenation. |
| Utils.MailtoTestVector | test/test_chat_service.py:45-59 | The repository's test vector: `test@example.com`, `Job Opportunity` and `Hello, I'd like to discuss a role.` give exactly `mailto:test@example.com?subject=Job%20Opportunity&body=Hello%2C%20I%27d%20like%20to%20discuss%20a%20role.`. |
| Utils.TestSubject | test/test_chat_service.py:51-53 | A space is quoted as `%20`, never `+`. |
| Utils.TestBodyPart1 | test/test_chat_service.py:52-53 | `,` is quoted as `%2C` and `'` as `%27`. |
| Utils.TestBodyPart2 | test/test_chat_service.py:52-53 | ` like to` is quoted as `%20like%20to`. |
| Utils.TestBodyPart3 | test/test_chat_service.py:52-53 | ` discuss a role.` is quoted as `%20discuss%20a%20role.`, and `.` is left as it is. |
| Utils.IndexOf | app/core/utils.py:7 | The result is the first position of the character, or none when it does not occur. The parser uses it to find the `?` and `&` separators. |
| UrlQuote.EncodeByte | app/core/utils.py:7 | A safe byte stays the same character. Any other byte becomes `%` and two upper-case hex digits whose value is the byte. |
| UrlQuote.QuoteBytes | app/core/utils.py:7 | `quote_from_bytes`: each byte gives one or three characters, so the output is between one and three times the input's length. Its other properties are the `QuoteBytes*` lemmas and `UnquoteQuoteBytes` below. |
| UrlQuote.Quote | app/core/utils.py:7 | `quote` on text, by way of its UTF-8 bytes: the output is between one and twelve times the text's length. Its alphabet, delimiter freedom and inverse are stated by `QuoteHasNoDelimiters` and `UnquoteQuote`. |
| UrlQuote.QuoteBytesAlphabet | app/core/utils.py:7 | Every output character is a safe ASCII character or a `%` followed by two upper-case hex digits. |
| UrlQuote.QuoteBytesSafe | app/core/utils.py:7 | Letters, digits, `_ . - ~` and `/` are copied unchanged. |
| UrlQuote.QuoteSafeText | app/core/utils.py:7 | Text made only of safe ASCII characters is its own quote. |
| UrlQuote.QuoteHasNoDelimiters | app/core/utils.py:7 | The quote of any text contains no `&`, `?`, `=`, `#`, space or `+`. |
| UrlQuote.QuoteBytesLength | app/core/utils.py:7 | Each byte contributes 1 or 3 characters: the length is the byte count plus twice the number of escaped bytes, so it lies between the byte count and three times it. |
| UrlQuote.QuoteBytesAppend | app/core/utils.py:7 | Quoting is byte by byte: the quote of a concatenation is the concatenation of the quotes. |
| UrlQuote.QuoteAppend | app/core/utils.py:7 | The quote of a concatenation of texts is the concatenation of their quotes. |
| UrlQuote.UnquoteEncodeByte | app/core/utils.py:7 | Decoding one encoded byte followed by any text gives that byte followed by the decoding of the text. |
| UrlQuote.UnquoteQuoteBytes | app/core/utils.py:7 | Percent-decoding the quote of any byte string gives that byte string back. |
| UrlQuote.UnquoteQuote | app/core/utils.py:7 | Unquoting the quote of any text gives the text back. |
| UrlQuote.EncodeByteAlphabet | app/core/utils.py:7 | A single byte's encoding is either one safe character, or `%` followed by two upper-case hex digits. |
| UrlQuote.UnquotePercent | app/core/utils.py:7 | `%` followed by two hex digits decodes to the byte they spell. |
| UrlQuote.QuoteAsciiChar | app/core/utils.py:7 | An ASCII character is quoted as its single byte. |
| UrlQuote.QuoteThenSafeRun | app/core/utils.py:7 | Quoting a text, then one ASCII character, then a run of safe characters gives the text's quote, the character's encoding, and the run copied. |
| Utf8.EncodeChar | app/core/utils.py:7 | UTF-8 encodes a character in 1 to 4 bytes. It takes one byte exactly for ASCII, and that byte equals the code point. Every byte of a multi-byte encoding is at least 0x80. |
| Utf8.Encode | app/core/utils.py:7 | `str.encode('utf-8')`, the first step of `quote`: between one and four bytes per character. `DecodeEncode` gives its inverse. |
| Utf8.DecodeRejects | app/core/utils.py:7 | The decoder that inverts `Encode` is strict: overlong forms, surrogates, code points above U+10FFFF, stray continuation bytes and truncated sequences are refused. |
| Utf8.DecodeEncode | app/core/utils.py:7 | Decoding the UTF-8 encoding of any text gives the text back. |
| Utf8.DecodeFirstEncodeChar | app/core/utils.py:7 | The decoder reads back exactly the bytes of one encoded character, and nothing after them. |
| Utf8.EncodeAppend | app/core/utils.py:7 | The encoding of a concatenation is the concatenation of the encodings. |
| Utf8.EncodeAscii | app/core/utils.py:7 | ASCII text encodes to one byte per character, each equal to its code point. |
| StreamManager.ChatStreamManager.constructor | app/services/stream_manager.py:23-30 | A new manager keeps the session id and message, with an empty answer and no suggestions or link. |
| StreamManager.ChatStreamManager.StreamAnswer | app/services/stream_manager.py:88-97 | The method yields one token per chunk whose `answer` is present and non-empty, in order, and appends exactly those answers to `fullAnswer`. |
| StreamManager.ChatStreamManager.Process | app/services/stream_manager.py:32-86 | The trace of calls and events and the final fields equal those of `Run` for the same inputs, so every property proved of `Run` holds of the method. |
| StreamManager.Run | app/services/stream_manager.py:32-86 | The specification of `process`: every run awaits the classifier first and takes at least two steps. A link is set exactly on the email path past a successful classification. Its protocol, suggestion and log properties are the `Run*` lemmas below. |
| StreamManager.PersonaFor | app/services/stream_manager.py:50-54 | The hiring-manager prompt is chosen exactly for `RECRUITER`. |
| StreamManager.Finish | app/services/stream_manager.py:62-81 | Finishing only extends the trace so far. It keeps the answer and the link. When a link exists, no suggestions are recorded. |
| StreamManager.Complete | app/services/stream_manager.py:65-81 | Completing adds exactly two steps, the last being `final` with the suggestions defaulted to `[]` and the link. The fields keep the answer, the suggestions as returned, and the link. |
| StreamManager.TokenEvents | app/services/stream_manager.py:94-97 | The method yields at most one event per chunk, and each is a `token` with non-empty text. |
| StreamManager.TokenTextIsAnswer | app/services/stream_manager.py:94-95 | The texts of the tokens, concatenated, are the answer accumulated from the same chunks. |
| StreamManager.RunProtocol | app/services/stream_manager.py:36-86 | Every run yields zero or more `token` events, then exactly one terminal event and nothing after it. That event is `error`, with the fixed generic message, exactly when an awaited collaborator raises. Otherwise it is `final`. |
| StreamManager.ClassifyFailedRun | app/services/stream_manager.py:36-39 | If the classifier raises, the run yields only the generic error and leaves the fields unset. |
| StreamManager.RunEmailShortCircuit | app/services/stream_manager.py:41-48 | The run yields one token with the fixed acknowledgement, then `final` with no suggestions and the fixed link. It makes no chain request and no suggestion request. It logs once, just before `final`, and sets `fullAnswer` and `mailtoLink`. |
| StreamManager.AcknowledgedRun | app/services/stream_manager.py:42-48 | Finishing after the acknowledgement with any non-empty link gives exactly those events and calls, whatever the suggestion generator would do. |
| StreamManager.EmailLink | app/services/stream_manager.py:43-47 | The offered link is a `mailto:` link. |
| StreamManager.EmailLinkFields | app/services/stream_manager.py:43-47 | The offered link parses back to the owner's address and the fixed subject and body. |
| StreamManager.RunPersona | app/services/stream_manager.py:50-55 | Every non-email run that gets past classification requests the chain right after it. The hiring-manager persona is used exactly for `RECRUITER`, the default one otherwise. |
| StreamManager.ChainFailedRun | app/services/stream_manager.py:55-86 | If the chain cannot be built, the run yields only the generic error, with no token. |
| StreamManager.StreamFailedRun | app/services/stream_manager.py:59-86 | If the stream raises, the run yields the tokens already streamed and then the generic error. The answer keeps what was streamed, and nothing is logged. |
| StreamManager.SuggestionFailedRun | app/services/stream_manager.py:62-86 | If the suggestion generator raises, the run yields the tokens and then the generic error. The suggestions were asked for, and nothing is logged. |
| StreamManager.AnsweredRun | app/services/stream_manager.py:50-81 | In a successful chain run, the tokens spell `fullAnswer`, and suggestions are asked with the question and that answer. The log job and `final` carry the generator's result or `[]`, and no link. |
| StreamManager.AnswerSpelled | app/services/stream_manager.py:94-97 | The tokens of a run, followed by its terminal event, spell the accumulated answer. |
| StreamManager.RunSuggestions | app/services/stream_manager.py:62-63 | Suggestions are requested exactly when the chain streamed its whole answer. An email request never asks for them. The request carries the question and the full answer. |
| StreamManager.RunLogJobs | app/services/stream_manager.py:67-86 | A successful run schedules exactly one log job. A run where something raises schedules none. |
| StreamManager.RunLogsWhatIsSent | app/services/stream_manager.py:65-81 | In a successful run, the log job is the step just before `final`. It records the session, the message, `fullAnswer`, the suggestions defaulted to `[]`, and the link, which are the values the `final` event sends. |
| StreamManager.CompleteTrace | app/services/stream_manager.py:65-81 | Finishing adds one log call and one `final` event, in that order, to the run so far. |
| StreamManager.FinishWithLink | app/services/stream_manager.py:62-65 | Once a link exists, the suggestion step is skipped, so the outcome is the same whatever the generator would return or raise. |
| StreamManager.FrameNameRoundTrip | app/services/stream_manager.py:48-97 | Reading the name back from an `event: <name>\ndata: <payload>\n\n` frame gives the event's kind, and `final` exactly for a final event. |
| ChatSessions.InsertIfAbsent | app/services/chat_service.py:65-67 | The key set grows by the given key only. Existing entries keep their values, and a present key leaves the map unchanged. A new key maps to the inserted value. |
| ChatSessions.InsertIfAbsentSize | app/services/chat_service.py:65-66 | The store grows by exactly one entry for a new session and by none otherwise. |
| ChatSessions.InsertIfAbsentIdempotent | app/services/chat_service.py:65-67 | A second insertion under the same key leaves the store as the first one left it. |
| ChatSessions.ChatService.constructor | app/services/chat_service.py:25 | The store starts empty. |
| ChatSessions.ChatMessageHistory.constructor | app/services/chat_service.py:66 | A new history has no messages. |
| ChatSessions.ChatService.GetSessionHistory | app/services/chat_service.py:60-67 | Afterwards the id is a key and the result is `store[id]`. A present history is returned as is, with the store unchanged. An absent id gets a fresh, empty history, and no other key changes. |
| AudioService.TranscribeAudio | app/services/audio_service.py:24-52 | A non-WAV type is refused with 415 and a message naming it. A failed recognizer call becomes 500 with `Error during audio transcription.`. Otherwise the result is the first transcript. |
| AudioService.IsWav | app/services/audio_service.py:28 | Only `audio/` types pass the gate. `TranscribeGate` states exactly which two do. |
| AudioService.TranscribeGate | app/services/audio_service.py:28-32 | The result is 415 exactly when the type is not `audio/wav` or `audio/x-wav`, whatever the recognizer does, and both WAV types pass the gate. |
| AudioService.FirstTranscript | app/services/audio_service.py:50-52 | A missing or empty result list gives `""`. Otherwise the result is the first alternative of the first result, or `IndexError` when that result has no alternatives. |
| AudioService.AsciiLower | app/services/audio_service.py:60 | The length is kept. `A`–`Z` are lowered and every other character is kept. |
| AudioService.VoiceFor | app/services/audio_service.py:60-65 | The language is `id-ID` or `en-US`, and the voice name always belongs to the chosen language. `VoiceForIndonesian` states which is chosen when. |
| AudioService.VoiceForIndonesian | app/services/audio_service.py:60-65 | `id-ID` / `id-ID-Standard-A` is chosen exactly for the five-character codes spelling `id-id` in any letter case. Every other code gets `en-US` / `en-US-Standard-J`, so the mapping is total. |
| AudioService.VoiceForCaseInsensitive | app/services/audio_service.py:60 | The voice chosen depends only on the lower-cased language code. |
| AudioService.AsciiLowerIdempotent | app/services/audio_service.py:60 | Lower-casing twice is the same as lower-casing once. |

## Left out

- **Locks and concurrency.**
  - The session lock around intent classification is not modelled (app/services/stream_manager.py:37-39).
  - The asynchronous interleaving of generators is not modelled.
  - `asyncio.create_task` is recorded as a `ScheduleLog` call in the trace. The log job's execution is not modelled.
- **Collaborators whose code is not part of this model.** These are `_get_user_intent`, `get_rag_chain`, `astream`, `_generate_suggested_questions` and `_log_conversation`. Their results are inputs: the intent, the chunks, the suggestions, and where one of them raises.
  - `app/services/chat_service.py` defines no `get_session_lock`, `_get_user_intent`, `get_rag_chain`, `_generate_suggested_questions` or `_log_conversation`, so these calls are known only by what `process` does with their results.
  - A stream that raises part-way is modelled as the chunks it yields before raising, followed by `StreamFault`.
- **Exception details.** Which exception a collaborator raises does not change the outcome, so it is not modelled. The `print` of the error is I/O and is left out.
- **JSON encoding of event payloads.** `json.dumps` is not modelled. Events are kept as values, and `Frame` takes the payload text as a parameter.
- **The cloud clients and the LLM.** The LLM, LangChain, Gemini, and the Google speech-to-text and text-to-speech clients are not modelled. This includes:
  - the recognition configuration (LINEAR16 at 16000 Hz, the language code);
  - `RecognitionAudio`;
  - the MP3 synthesis configuration and the returned `audio_content`.
- **Other parts of `ChatService`.** `get_response`, the prompts and the constructor's chain setup are not modelled.
- **Voice selection.** `AudioService.AsciiLower` models Python's full Unicode `str.lower()` by ASCII lowering. For the comparison with `id-id` the two agree exactly, because no non-ASCII character lowers to `i`, `d` or `-`.
- **Text encoding.** Python strings can hold lone surrogates, for which `quote` would raise an encoding error. Dafny `char` values here are Unicode scalar values, so such strings cannot be represented.
- **The decoder.** `UrlQuote.Unquote` decodes UTF-8 strictly, like `bytes.decode('utf-8')`: it returns none for truncated sequences, stray continuation bytes, overlong forms, surrogates and code points above U+10FFFF (`Utf8.DecodeRejects`). Python's `unquote` substitutes replacement characters there instead. The decoder is only ever applied to the output of `Quote`.
- **History updates.** Adding turns to a `ChatMessageHistory` is done by the chain and is not modelled.
