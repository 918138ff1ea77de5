/** The logic of services/geminiService.ts around its two gateway calls: the
    data-URL prefix strip applied to the captured image, and the mapping from
    a gateway response to questions, audio or an error. The gateway calls are
    not modelled; what they answer is an input here. */
module GeminiService {
  import opened Types

  /** The three data-URL headers the image cleaner recognises, in the order of
      the alternation `png|jpeg|jpg`. */
  const PngPrefix: string := "data:image/png;base64,"
  const JpegPrefix: string := "data:image/jpeg;base64,"
  const JpgPrefix: string := "data:image/jpg;base64,"
  const ImagePrefixes: seq<string> := [PngPrefix, JpegPrefix, JpgPrefix]

  /** The message thrown when the response carries no text. */
  const NoContentMessage: string := "Failed to generate quiz content"
  /** The message thrown when the response text is not JSON. */
  const InvalidFormatMessage: string := "Invalid response format from AI"

  /** Whether the text starts with one of the three recognised headers. */
  predicate HasImagePrefix(s: string)
  {
    PngPrefix <= s || JpegPrefix <= s || JpgPrefix <= s
  }

  /** `cleanBase64`: the replacement of the anchored, non-global pattern
      `^data:image/(png|jpeg|jpg);base64,` by the empty string. The result is
      always a suffix of the input; exactly the matching header is removed. */
  function CleanBase64(base64Image: string): (r: string)
    ensures |r| <= |base64Image| && r == base64Image[|base64Image| - |r|..]
    ensures PngPrefix <= base64Image ==> r == base64Image[|PngPrefix|..]
    ensures JpegPrefix <= base64Image ==> r == base64Image[|JpegPrefix|..]
    ensures JpgPrefix <= base64Image ==> r == base64Image[|JpgPrefix|..]
    ensures !HasImagePrefix(base64Image) <==> r == base64Image
  {
    PrefixesExclusive(base64Image);
    if PngPrefix <= base64Image then base64Image[|PngPrefix|..]
    else if JpegPrefix <= base64Image then base64Image[|JpegPrefix|..]
    else if JpgPrefix <= base64Image then base64Image[|JpgPrefix|..]
    else base64Image
  }

  /** No text starts with two different headers: they differ at positions 11 and 13. */
  lemma PrefixesExclusive(s: string)
    ensures PngPrefix <= s ==> !(JpegPrefix <= s) && !(JpgPrefix <= s)
    ensures JpegPrefix <= s ==> !(JpgPrefix <= s)
  {
    if PngPrefix <= s {
      assert s[11] == PngPrefix[11] == 'p';
    }
    if JpegPrefix <= s {
      assert s[13] == JpegPrefix[13] == 'e';
    }
  }

  /** Only the leading header is removed, even when what follows starts with a
      header again: prepending a header and cleaning is the identity. */
  lemma CleanRemovesOnePrefix(k: nat, rest: string)
    requires k < |ImagePrefixes|
    ensures CleanBase64(ImagePrefixes[k] + rest) == rest
  {
    var s := ImagePrefixes[k] + rest;
    assert ImagePrefixes[k] <= s;
    assert s[|ImagePrefixes[k]|..] == rest;
  }

  /** Headers of other media types, or in another letter case, are kept. */
  lemma CleanKeepsOtherHeaders(rest: string)
    ensures CleanBase64("data:image/gif;base64," + rest) == "data:image/gif;base64," + rest
    ensures CleanBase64("data:image/webp;base64," + rest) == "data:image/webp;base64," + rest
    ensures CleanBase64("data:image/PNG;base64," + rest) == "data:image/PNG;base64," + rest
  {
    var gif, webp, png := "data:image/gif;base64," + rest, "data:image/webp;base64," + rest, "data:image/PNG;base64," + rest;
    assert gif[11] == 'g' && webp[11] == 'w' && png[11] == 'P';
  }

  /** What the quiz request's gateway call did: it threw (the error propagates
      to the caller), or it answered with a response whose `text` may be absent. */
  datatype QuizResponse = QuizCallThrew(message: string) | QuizAnswered(text: Option<string>)

  /** The outcome of `generateQuizFromImage` for a response. `parse` is
      `JSON.parse` (`None` when it throws); the parsed value is returned as it
      is, without checking the count, the options or the correct index. */
  function QuizFromResponse(response: QuizResponse, parse: string -> Option<seq<Question>>)
    : (r: Result<seq<Question>, string>)
    ensures r.Ok? <==> response.QuizAnswered? && Truthy(response.text) && parse(response.text.value).Some?
    ensures r.Ok? ==> r.value == parse(response.text.value).value
    ensures response.QuizCallThrew? ==> r == Err(response.message)
    ensures response.QuizAnswered? && !Truthy(response.text) ==> r == Err(NoContentMessage)
    ensures response.QuizAnswered? && Truthy(response.text) && parse(response.text.value).None? ==>
              r == Err(InvalidFormatMessage)
  {
    match response
    case QuizCallThrew(message) => Err(message)
    case QuizAnswered(text) =>
      if !Truthy(text) then Err(NoContentMessage)
      else match parse(text.value)
        case None => Err(InvalidFormatMessage)
        case Some(data) => Ok(data)
  }

  /** Whatever questions the parser produces are accepted, however malformed. */
  lemma AnyParsedQuestionsAccepted(questions: seq<Question>, text: string)
    requires text != ""
    ensures QuizFromResponse(QuizAnswered(Some(text)), _ => Some(questions)) == Ok(questions)
  {
  }

  /** What the speech request's gateway call did: it threw, or it answered with
      a response whose first candidate's first part's inline data may be absent
      anywhere along the optional chain. */
  datatype SpeechResponse = SpeechCallThrew | SpeechAnswered(inlineData: Option<string>)

  /** The outcome of `generateQuestionAudio`: the base64 audio, or `None` when
      the call threw, when the inline data is missing, or when it is empty. */
  function AudioFromResponse(response: SpeechResponse): (r: Option<string>)
    ensures r.Some? <==> response.SpeechAnswered? && Truthy(response.inlineData)
    ensures r.Some? ==> r == response.inlineData && r.value != ""
  {
    match response
    case SpeechCallThrew => None
    case SpeechAnswered(data) => if Truthy(data) then data else None
  }
}
