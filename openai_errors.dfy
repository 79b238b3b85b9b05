/**
 * `handle_openai_error`: turns the text of an exception raised by the API
 * client into a message for the user, by looking for HTTP status codes in
 * the text, in a fixed order.
 */
module OpenAIErrors {
  import opened PyStr

  datatype ErrorKind = BadRequest | Unauthorized | RateLimited | ServerError | Other

  // written as its two sentences
  const BadRequestText := "API 요청이 올바르지 않습니다. "
    + "이미지 프롬프트가 OpenAI 정책을 위반했거나, API 키가 유효하지 않을 수 있습니다."
  const UnauthorizedText := "API 키가 유효하지 않거나 만료되었습니다."
  const RateLimitedText := "API 요청 횟수 제한을 초과했습니다. 잠시 후 다시 시도해주세요."
  const ServerErrorText := "OpenAI 서버 오류가 발생했습니다. 잠시 후 다시 시도해주세요."
  const GenericPrefix := "오류가 발생했습니다: "

  /** The codes are tried as substrings in the order 400, 401, 429, 500; the
      first one found decides. */
  function Classify(message: string): (k: ErrorKind)
    ensures k == BadRequest <==> IsSubstring("400", message)
    ensures k == Unauthorized <==> !IsSubstring("400", message) && IsSubstring("401", message)
    ensures k == RateLimited <==>
      !IsSubstring("400", message) && !IsSubstring("401", message) && IsSubstring("429", message)
    ensures k == ServerError <==>
      !IsSubstring("400", message) && !IsSubstring("401", message) && !IsSubstring("429", message)
      && IsSubstring("500", message)
    ensures k == Other <==>
      !IsSubstring("400", message) && !IsSubstring("401", message) && !IsSubstring("429", message)
      && !IsSubstring("500", message)
  {
    if Contains(message, "400") then BadRequest
    else if Contains(message, "401") then Unauthorized
    else if Contains(message, "429") then RateLimited
    else if Contains(message, "500") then ServerError
    else Other
  }

  /** The user-facing message for an error whose text is `message`. */
  function HandleError(message: string): (r: string)
    ensures Classify(message) == BadRequest ==> r == BadRequestText
    ensures Classify(message) == Unauthorized ==> r == UnauthorizedText
    ensures Classify(message) == RateLimited ==> r == RateLimitedText
    ensures Classify(message) == ServerError ==> r == ServerErrorText
    // the generic message embeds the original text verbatim
    ensures Classify(message) == Other ==>
      GenericPrefix <= r && r[|GenericPrefix|..] == message
  {
    match Classify(message)
    case BadRequest => BadRequestText
    case Unauthorized => UnauthorizedText
    case RateLimited => RateLimitedText
    case ServerError => ServerErrorText
    case Other => GenericPrefix + message
  }

  /** Reads the kind of error back from a message. */
  function KindOfMessage(r: string): ErrorKind {
    if r == BadRequestText then BadRequest
    else if r == UnauthorizedText then Unauthorized
    else if r == RateLimitedText then RateLimited
    else if r == ServerErrorText then ServerError
    else Other
  }

  /** The kind can be read back from the message. */
  lemma KindOfMessageInverse(m: string)
    ensures KindOfMessage(HandleError(m)) == Classify(m)
  {
    var r := HandleError(m);
    // the fixed messages differ in length or in their first character, and
    // the generic one starts with a character none of them starts with
    assert |BadRequestText| == 69 && |UnauthorizedText| == 24;
    assert |RateLimitedText| == 37 && |ServerErrorText| == 37;
    assert BadRequestText[0] == 'A' && UnauthorizedText[0] == 'A' && RateLimitedText[0] == 'A';
    assert ServerErrorText[0] == 'O' && GenericPrefix[0] == '오';
    if Classify(m) == Other {
      assert r[0] == '오';
    }
  }

  /** The message tells the kinds apart: two error texts of different kinds
      never get the same message, and two texts without a known code get the
      same message only when they are the same text. */
  lemma HandleErrorSeparatesKinds(m1: string, m2: string)
    ensures Classify(m1) != Classify(m2) ==> HandleError(m1) != HandleError(m2)
    ensures Classify(m1) == Other && Classify(m2) == Other && HandleError(m1) == HandleError(m2) ==> m1 == m2
  {
    KindOfMessageInverse(m1);
    KindOfMessageInverse(m2);
    var r1 := HandleError(m1);
    if Classify(m1) == Other && Classify(m2) == Other && r1 == HandleError(m2) {
      assert m1 == r1[|GenericPrefix|..];
    }
  }
}
