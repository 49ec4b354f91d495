/** `APIError` of utils.php: the exception raised when the VK API answers with an
    error object, and the message it carries for each error code. */
module ApiErrors {
  import opened Wrappers
  import opened Strings

  /** The `error` member of the decoded API answer; `redirect_uri` may be absent. */
  datatype ErrorResponse = ErrorResponse(errorCode: int, errorMsg: string, redirectUri: Option<string>)

  /** The exception: its message and code (as for any exception), the API's own error
      code and the URL that was requested. */
  datatype ApiError = ApiError(message: string, code: int, apiErrorCode: int, requestUrl: string)

  /** The HTTP-like code every `APIError` carries. */
  const ErrorCode := 400

  /** Error 5, "User authorization failed". */
  const AuthorizationFailed := 5

  /** Error 17, "Validation required": the user has to visit `redirect_uri`. */
  const ValidationRequired := 17

  const ExpiredTokenNote := "Access token is expired (probably by app session terminating). It is necessary to create new token. "

  /** The message for an error answer: an authorization failure caused by an invalid
      session is explained as an expired token, a validation request gets the URL to
      visit, and every other error keeps the API's message. */
  function ErrorMessage(response: ErrorResponse): string
  {
    var message := response.errorMsg;
    if response.errorCode == AuthorizationFailed then
      if Contains(message, "invalid session") then ExpiredTokenNote + message else message
    else if response.errorCode == ValidationRequired then
      message + ": " + response.redirectUri.GetOr("")
    else message
  }

  /** `new APIError($error_response, $request_url)`. */
  function NewApiError(response: ErrorResponse, requestUrl: string): (e: ApiError)
    ensures e.code == ErrorCode
    ensures e.apiErrorCode == response.errorCode && e.requestUrl == requestUrl
    ensures |e.message| >= |response.errorMsg|
  {
    ApiError(ErrorMessage(response), ErrorCode, response.errorCode, requestUrl)
  }

  /** The API's own message is always part of the exception message. */
  lemma ApiErrorKeepsMessage(response: ErrorResponse, requestUrl: string)
    ensures Contains(NewApiError(response, requestUrl).message, response.errorMsg)
  {
    var m := response.errorMsg;
    var e := NewApiError(response, requestUrl);
    if e.message == m {
      ContainsInConcat([], m, []);
      assert [] + m + [] == m;
    } else if response.errorCode == AuthorizationFailed {
      ContainsInConcat(ExpiredTokenNote, m, []);
      assert ExpiredTokenNote + m + [] == e.message;
    } else {
      ContainsInConcat([], m, ": " + response.redirectUri.GetOr(""));
      assert [] + m + (": " + response.redirectUri.GetOr("")) == e.message;
    }
  }

  /** An authorization failure with an invalid session gets the expired-token note
      in front of the API's message; without that phrase the message is unchanged. */
  lemma ApiErrorExpiredToken(response: ErrorResponse, requestUrl: string)
    requires response.errorCode == AuthorizationFailed
    ensures var message := NewApiError(response, requestUrl).message;
      && (Contains(response.errorMsg, "invalid session") ==>
            message[..|ExpiredTokenNote|] == ExpiredTokenNote
            && message[|ExpiredTokenNote|..] == response.errorMsg)
      && (!Contains(response.errorMsg, "invalid session") ==> message == response.errorMsg)
  {
  }

  /** A validation request names the URL to visit after the API's message; a missing
      URL leaves the message ending in `": "`. */
  lemma ApiErrorRedirect(response: ErrorResponse, requestUrl: string)
    requires response.errorCode == ValidationRequired
    ensures var message := NewApiError(response, requestUrl).message;
      && message[..|response.errorMsg|] == response.errorMsg
      && message[|response.errorMsg|..|response.errorMsg| + 2] == ": "
      && (response.redirectUri.Some? ==> message[|response.errorMsg| + 2..] == response.redirectUri.value)
      && (response.redirectUri.None? ==> |message| == |response.errorMsg| + 2)
  {
  }

  /** Every other error code keeps the API's message as it is. */
  lemma ApiErrorOtherCodes(response: ErrorResponse, requestUrl: string)
    requires response.errorCode != AuthorizationFailed && response.errorCode != ValidationRequired
    ensures NewApiError(response, requestUrl).message == response.errorMsg
  {
  }
}
