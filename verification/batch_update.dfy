/** `updateSlideText`: the `replaceAllText` requests built from a slide's
    translated runs, sent as one `batchUpdate` call. */
module BatchUpdate {
  import opened Wrappers
  import opened GoogleApis
  import opened Translation

  /** The request for one translated run: replace its original text,
      case-sensitively, by its translation, on this slide only. */
  function ReplaceRequest(slideObjectId: string, t: TranslatedElement): ReplaceAllText {
    ReplaceAllText(t.originalText, true, t.translatedText, [slideObjectId])
  }

  /** `translatedElements.map(...)`: one request per translated run, in the
      same order. */
  function BuildRequests(slideObjectId: string, ts: seq<TranslatedElement>): (reqs: seq<ReplaceAllText>)
    ensures |reqs| == |ts|
    ensures forall i :: 0 <= i < |reqs| ==>
              && reqs[i].text == ts[i].originalText
              && reqs[i].matchCase
              && reqs[i].replaceText == ts[i].translatedText
              && reqs[i].pageObjectIds == [slideObjectId]
  {
    seq(|ts|, i requires 0 <= i < |ts| => ReplaceRequest(slideObjectId, ts[i]))
  }

  /** The batch call `updateSlideText` makes, if any: none for an empty list,
      otherwise one call carrying every request. */
  function UpdateSlideText(presentationId: string, slideObjectId: string, ts: seq<TranslatedElement>)
    : (call: Option<BatchUpdateCall>)
    ensures call.None? <==> ts == []
    ensures call.Some? ==> call.value.presentationId == presentationId
                           && call.value.requests == BuildRequests(slideObjectId, ts)
  {
    var requests := BuildRequests(slideObjectId, ts);
    if |requests| > 0 then Some(BatchUpdateCall(presentationId, requests)) else None
  }

  /** Runs with equal original text produce requests with the same search
      text, so each of those requests rewrites every such run: replacement
      is by text, not by element. This follows at once from `BuildRequests`;
      it is stated only to record that risk of the update strategy. */
  lemma DuplicateTextsShareSearchKey(slideObjectId: string, ts: seq<TranslatedElement>, i: int, j: int)
    requires 0 <= i < |ts| && 0 <= j < |ts|
    requires ts[i].originalText == ts[j].originalText
    ensures BuildRequests(slideObjectId, ts)[i].text == BuildRequests(slideObjectId, ts)[j].text
  {
  }
}
