/** The remote Google operations the endpoint calls, abstracted as pure
    functions of their arguments: `slides.presentations.get`,
    `slides.presentations.batchUpdate`, `translate.detect` and
    `translate.translate`. A `Failure`/`None` answer is the exception the
    client library throws. */
module GoogleApis {
  import opened Wrappers
  import opened Slides

  /** An exception thrown by a Google client call: its HTTP status `code` and
      its `message`. */
  datatype ApiError = ApiError(code: int, message: string)

  /** One `replaceAllText` request: replace every case-sensitive (when
      `matchCase`) occurrence of `text` by `replaceText` on the listed pages. */
  datatype ReplaceAllText = ReplaceAllText(
    text: string,
    matchCase: bool,
    replaceText: string,
    pageObjectIds: seq<string>)

  /** One `presentations.batchUpdate` call. */
  datatype BatchUpdateCall = BatchUpdateCall(presentationId: string, requests: seq<ReplaceAllText>)

  /** The answers the remote services give.
      - `getPresentation(id, n)`: the `n`-th `presentations.get` of one request
        (0 for the access check, 1 for the fetch that is translated), so the
        two fetches may see different answers;
      - `detect(text)`: the detected language code;
      - `translate(text, from, to)`: the translation;
      - `batchUpdate(call)`: whether the update was applied. */
  datatype Services = Services(
    getPresentation: (string, nat) -> Result<Presentation, ApiError>,
    detect: string -> Option<string>,
    translate: (string, string, string) -> Option<string>,
    batchUpdate: BatchUpdateCall -> Result<(), ApiError>)
}
