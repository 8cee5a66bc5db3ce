/**
 * `AudioService`: the checks and choices around the speech clients. Which
 * uploads reach speech-to-text, how its reply becomes a transcript or an HTTP
 * error, and which voice text-to-speech is asked for.
 */
module AudioService {
  import opened Wrappers

  /** The error a request ends with: an `HTTPException`, or the `IndexError` of an empty alternatives list. */
  datatype AudioError = HttpError(status: int, detail: string) | IndexError

  /** A recognition reply: results, each with its alternatives, most likely first. */
  datatype Alternative = Alternative(transcript: string)
  datatype SpeechResult = SpeechResult(alternatives: seq<Alternative>)
  datatype RecognizeResponse = RecognizeResponse(results: seq<SpeechResult>)

  /** What awaiting `recognize` produced: it raised, or it returned a response (or nothing). */
  datatype SttReply = SttFailed | Replied(response: Option<RecognizeResponse>)

  /** The voice requested from text-to-speech. */
  datatype VoiceSelection = VoiceSelection(languageCode: string, name: string)

  /** The upload types accepted for transcription. */
  predicate IsWav(contentType: string)
    ensures IsWav(contentType) ==> |contentType| > 6 && contentType[..6] == "audio/"
  {
    contentType == "audio/wav" || contentType == "audio/x-wav"
  }

  function UnsupportedFormat(contentType: string): string {
    "Unsupported audio format. Please upload a WAV file, not '" + contentType + "'."
  }

  const TranscriptionFailed := "Error during audio transcription."

  /** `response.results[0].alternatives[0].transcript` when there are results, else the empty string. */
  function FirstTranscript(response: Option<RecognizeResponse>): (r: Result<string, AudioError>)
    ensures response.None? || response.value.results == [] ==> r == Success("")
    ensures response.Some? && response.value.results != [] ==>
              && (r.Success? <==> response.value.results[0].alternatives != [])
              && (r.Success? ==> r.value == response.value.results[0].alternatives[0].transcript)
              && (r.Failure? ==> r.error == IndexError)
  {
    if response.Some? && |response.value.results| > 0 then
      var first := response.value.results[0];
      if |first.alternatives| > 0 then Success(first.alternatives[0].transcript) else Failure(IndexError)
    else
      Success("")
  }

  /** `transcribe_audio`, given what the recognizer does with the request. */
  function TranscribeAudio(contentType: string, stt: SttReply): (r: Result<string, AudioError>)
    ensures !IsWav(contentType) ==> r == Failure(HttpError(415, UnsupportedFormat(contentType)))
    ensures IsWav(contentType) && stt.SttFailed? ==> r == Failure(HttpError(500, "Error during audio transcription."))
    ensures IsWav(contentType) && stt.Replied? ==> r == FirstTranscript(stt.response)
  {
    if !IsWav(contentType) then Failure(HttpError(415, UnsupportedFormat(contentType)))
    else if stt.SttFailed? then Failure(HttpError(500, TranscriptionFailed))
    else FirstTranscript(stt.response)
  }

  /**
   * The content-type gate comes first: a non-WAV upload is refused with 415 and a
   * message naming its type, whatever the recognizer would have done; a WAV upload
   * is never refused with 415.
   */
  lemma TranscribeGate(contentType: string, stt: SttReply, other: SttReply)
    ensures TranscribeAudio(contentType, stt).Failure? && TranscribeAudio(contentType, stt).error.HttpError?
            && TranscribeAudio(contentType, stt).error.status == 415
            <==> !IsWav(contentType)
    ensures !IsWav(contentType) ==>
      && TranscribeAudio(contentType, stt) == TranscribeAudio(contentType, other)
      && TranscribeAudio(contentType, stt).error.detail[|TranscribeAudio(contentType, stt).error.detail| - |contentType| - 2..]
         == contentType + "'."
    ensures IsWav("audio/wav") && IsWav("audio/x-wav")
  {
    if !IsWav(contentType) {
      var d := UnsupportedFormat(contentType);
      var prefix := "Unsupported audio format. Please upload a WAV file, not '";
      assert d == prefix + (contentType + "'.");
    }
  }

  /** ASCII lower-casing; every other character is kept. */
  function AsciiLower(s: string): (r: string)
    ensures |r| == |s|
    ensures forall i :: 0 <= i < |s| ==> (if 'A' <= s[i] <= 'Z' then r[i] as int == s[i] as int + 32 else r[i] == s[i])
  {
    if s == [] then []
    else
      var c := s[0];
      [if 'A' <= c <= 'Z' then (c as int + 32) as char else c] + AsciiLower(s[1..])
  }

  /** `language.lower() == 'id-id'`. */
  predicate IsIndonesian(language: string) {
    AsciiLower(language) == "id-id"
  }

  /** The voice `synthesize_speech` asks for: Indonesian for `id-ID` in any case, English otherwise. */
  function VoiceFor(language: string): (r: VoiceSelection)
    ensures r.languageCode == "id-ID" || r.languageCode == "en-US"
    ensures |r.name| > |r.languageCode| && r.name[..|r.languageCode|] == r.languageCode
  {
    if IsIndonesian(language) then VoiceSelection("id-ID", "id-ID-Standard-A")
    else VoiceSelection("en-US", "en-US-Standard-J")
  }

  /** `c` matches `target`, a lower-case letter or a hyphen, ignoring case. */
  predicate SameLetter(c: char, target: char) {
    c == target || ('a' <= target <= 'z' && c as int == target as int - 32)
  }

  /**
   * The Indonesian voice is chosen exactly for the five-character codes that spell
   * `id-id` with each letter in either case; every other code gets the English voice.
   */
  lemma {:induction false} VoiceForIndonesian(language: string)
    ensures VoiceFor(language).languageCode == "id-ID" <==>
      |language| == 5 && forall i :: 0 <= i < 5 ==> SameLetter(language[i], "id-id"[i])
    ensures VoiceFor(language) == VoiceSelection("id-ID", "id-ID-Standard-A")
         || VoiceFor(language) == VoiceSelection("en-US", "en-US-Standard-J")
  {
    var target := "id-id";
    var low := AsciiLower(language);
    if |language| == 5 {
      if forall i :: 0 <= i < 5 ==> SameLetter(language[i], target[i]) {
        forall i | 0 <= i < 5
          ensures low[i] == target[i]
        {
          assert SameLetter(language[i], target[i]);
        }
        assert low == target;
      } else {
        var i :| 0 <= i < 5 && !SameLetter(language[i], target[i]);
        assert low[i] != target[i];
      }
    } else {
      assert |low| != |target|;
    }
  }

  /** The voice choice depends only on the case-folded code. */
  lemma VoiceForCaseInsensitive(language: string)
    ensures VoiceFor(language) == VoiceFor(AsciiLower(language))
  {
    AsciiLowerIdempotent(language);
  }

  lemma {:induction false} AsciiLowerIdempotent(s: string)
    ensures AsciiLower(AsciiLower(s)) == AsciiLower(s)
  {
    var once := AsciiLower(s);
    var twice := AsciiLower(once);
    assert forall i :: 0 <= i < |s| ==> twice[i] == once[i];
  }
}
