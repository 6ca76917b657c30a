/** The API route in pages/api/translate.js: per-slide processing
    (`processSlideInParallel`), the whole-presentation fan-out
    (`translatePresentation`), the access check (`validatePresentationAccess`)
    and the request handler with its status codes and error messages. */
module TranslateHandler {
  import opened Wrappers
  import opened JsString
  import opened Slides
  import opened PresentationId
  import opened TextExtraction
  import opened GoogleApis
  import opened Translation
  import opened BatchUpdate

  // ---------------------------------------------------------------------
  // One slide.
  // ---------------------------------------------------------------------

  /** The object `processSlideInParallel` resolves to. */
  datatype SlideResult =
    | SlideSucceeded(slideIndex: nat, translatedElements: nat)
    | SlideFailed(slideIndex: nat, error: string)

  /** A slide's result together with the remote calls made for it: the texts
      sent to `detect`, the `(text, from, to)` triples sent to `translate`
      (both in run order; their real interleaving is not modelled) and the
      batch update, if one was sent. */
  datatype SlideRun = SlideRun(
    result: SlideResult,
    detected: seq<string>,
    translated: seq<(string, string, string)>,
    batch: Option<BatchUpdateCall>)

  /** `processSlideInParallel`. */
  function ProcessSlide(svc: Services, presentationId: string, slide: Slide, requested: string, slideIndex: nat)
    : (run: SlideRun)
    ensures run.result.slideIndex == slideIndex
    // A walk that throws fails the slide before any remote call.
    ensures ExtractTextElements(slide).Failure? ==>
              && run.result == SlideFailed(slideIndex, ErrorMessage(ExtractTextElements(slide).error))
              && run.detected == [] && run.translated == [] && run.batch == None
    // A slide without text succeeds with zero elements and calls nothing.
    ensures ExtractTextElements(slide) == Success([]) ==>
              run == SlideRun(SlideSucceeded(slideIndex, 0), [], [], None)
    // Otherwise every run is detected and translated, then one batch is sent.
    ensures ExtractTextElements(slide).Success? && ExtractTextElements(slide).value != [] ==>
              var es := ExtractTextElements(slide).value;
              && |run.detected| == |es| && |run.translated| == |es|
              && (forall i :: 0 <= i < |es| ==>
                    && run.detected[i] == es[i].text
                    && run.translated[i].0 == es[i].text
                    && run.translated[i].1 == DetectLanguage(svc, es[i].text)
                    && run.translated[i].2 == TargetLanguage(requested, run.translated[i].1))
              && run.batch.Some?
              && run.batch.value.presentationId == presentationId
              && |run.batch.value.requests| == |es|
              && (forall i :: 0 <= i < |es| ==>
                    && run.batch.value.requests[i].text == es[i].text
                    && run.batch.value.requests[i].matchCase
                    && run.batch.value.requests[i].pageObjectIds == [slide.objectId])
              // Request i replaces run i by the answer to translate call i, or
              // by itself when that call fails.
              && (forall i :: 0 <= i < |es| ==>
                    var c := run.translated[i];
                    && (svc.translate(c.0, c.1, c.2).Some? ==>
                          run.batch.value.requests[i].replaceText == svc.translate(c.0, c.1, c.2).value)
                    && (svc.translate(c.0, c.1, c.2).None? ==>
                          run.batch.value.requests[i].replaceText == es[i].text))
              && (svc.batchUpdate(run.batch.value).Success? ==> run.result == SlideSucceeded(slideIndex, |es|))
              && (svc.batchUpdate(run.batch.value).Failure? ==>
                    run.result == SlideFailed(slideIndex, svc.batchUpdate(run.batch.value).error.message))
  {
    match ExtractTextElements(slide)
    case Failure(e) => SlideRun(SlideFailed(slideIndex, ErrorMessage(e)), [], [], None)
    case Success(es) =>
      if |es| == 0 then SlideRun(SlideSucceeded(slideIndex, 0), [], [], None)
      else
        var ts := TranslateAll(svc, es, requested);
        var detected := seq(|es|, i requires 0 <= i < |es| => es[i].text);
        var translated := seq(|es|, i requires 0 <= i < |es| => TranslateCall(svc, es[i].text, requested));
        var call := UpdateSlideText(presentationId, slide.objectId, ts);
        var result := match svc.batchUpdate(call.value)
                      case Success(_) => SlideSucceeded(slideIndex, |ts|)
                      case Failure(err) => SlideFailed(slideIndex, err.message);
        SlideRun(result, detected, translated, call)
  }

  // ---------------------------------------------------------------------
  // The presentation.
  // ---------------------------------------------------------------------

  /** The `TypeError` message for reading `.length` of a missing `slides`
      (split in two pieces, as explained at the access-check messages). */
  const MissingSlidesMessage: string := ReadingHead + ReadingLengthTail
  const ReadingLengthTail: string := "of undefined (reading 'length')"

  /** `translatePresentation`: fetch, then process every slide; the results
      keep slide order. A `Failure` carries the message of the error it
      throws. */
  function TranslatePresentation(svc: Services, presentationId: string, requested: string)
    : (r: Result<seq<SlideResult>, string>)
    ensures svc.getPresentation(presentationId, 1).Failure? ==>
              r == Failure(svc.getPresentation(presentationId, 1).error.message)
    ensures svc.getPresentation(presentationId, 1).Success? ==>
              var slides := svc.getPresentation(presentationId, 1).value.slides;
              && (slides.None? ==> r == Failure(MissingSlidesMessage))
              && (slides.Some? ==>
                    && r.Success? && |r.value| == |slides.value|
                    && forall i :: 0 <= i < |r.value| ==>
                         && r.value[i].slideIndex == i
                         && r.value[i] == ProcessSlide(svc, presentationId, slides.value[i], requested, i).result)
  {
    match svc.getPresentation(presentationId, 1)
    case Failure(e) => Failure(e.message)
    case Success(p) =>
      match p.slides
      case None => Failure(MissingSlidesMessage)
      case Some(slides) =>
        Success(seq(|slides|, i requires 0 <= i < |slides| =>
          ProcessSlide(svc, presentationId, slides[i], requested, i).result))
  }

  // ---------------------------------------------------------------------
  // Access check and error messages.
  // ---------------------------------------------------------------------

  // The longer message literals below are written as concatenations of short
  // pieces; the text is the source's literal unchanged. Short pieces let the
  // verifier read individual characters of a message, which the substring
  // lemmas further down need.

  /** The messages `validatePresentationAccess` throws for 404 and 403. */
  const NotFoundThrown: string := NotFoundHead + "Please check the URL."
  const NotFoundHead: string := "Presentation not found. "
  const PermissionDeniedThrown: string := DeniedHead + DeniedMiddle + DeniedTail
  const DeniedHead: string := "Permission denied. "
  const DeniedMiddle: string := "Please set the presentation to "
  const DeniedTail: string := "\"Anyone with the link can edit\"."

  /** `validatePresentationAccess`: `Failure` carries the message of the
      error it throws. */
  function ValidatePresentationAccess(svc: Services, presentationId: string): (r: Result<(), string>)
    ensures r.Success? <==> svc.getPresentation(presentationId, 0).Success?
    ensures svc.getPresentation(presentationId, 0).Failure? ==>
              var e := svc.getPresentation(presentationId, 0).error;
              && (e.code == 404 ==> r.error == NotFoundThrown)
              && (e.code == 403 ==> r.error == PermissionDeniedThrown)
              && (e.code != 404 && e.code != 403 ==> r.error == e.message)
  {
    match svc.getPresentation(presentationId, 0)
    case Success(_) => Success(())
    case Failure(e) =>
      if e.code == 404 then Failure(NotFoundThrown)
      else if e.code == 403 then Failure(PermissionDeniedThrown)
      else Failure(e.message)
  }

  /** The user-facing messages of a 500 response. */
  const GenericUserMessage: string := "Translation failed. Please try again."
  const PermissionUserMessage: string :=
    "Cannot access presentation. " + "Please ensure it's set to " + "\"Anyone with the link can edit\"."
  const NotFoundUserMessage: string := "Presentation not found. " + "Please check the URL and try again."
  const QuotaUserMessage: string :=
    "Service temporarily unavailable " + "due to high demand. " + "Please try again in a few minutes."

  /** The handler's mapping from an error message to the message shown to the
      user: case-sensitive substring tests, in this order. */
  function UserMessage(message: string): (m: string)
    ensures Includes(message, "permission") ==> m == PermissionUserMessage
    ensures !Includes(message, "permission") && Includes(message, "not found") ==> m == NotFoundUserMessage
    ensures (!Includes(message, "permission") && !Includes(message, "not found") && Includes(message, "quota"))
              ==> m == QuotaUserMessage
    ensures (!Includes(message, "permission") && !Includes(message, "not found") && !Includes(message, "quota"))
              ==> m == GenericUserMessage
  {
    if Includes(message, "permission") then PermissionUserMessage
    else if Includes(message, "not found") then NotFoundUserMessage
    else if Includes(message, "quota") then QuotaUserMessage
    else GenericUserMessage
  }

  // ---------------------------------------------------------------------
  // The handler.
  // ---------------------------------------------------------------------

  /** The parts of the incoming request the handler reads. */
  datatype Request = Request(httpMethod: string, slideUrl: Option<string>, targetLanguage: Option<string>)

  /** The response the handler sends. */
  datatype Response =
    | MethodNotAllowed
    | InvalidUrl
    | Completed(presentationId: string, translatedSlides: nat, results: seq<SlideResult>)
    | ServerError(error: string, details: Option<string>)

  function StatusCode(r: Response): nat {
    match r
    case MethodNotAllowed => 405
    case InvalidUrl => 400
    case Completed(_, _, _) => 200
    case ServerError(_, _) => 500
  }

  /** The `TypeError` message for calling `.match` on a missing `slideUrl`. */
  const MissingUrlMessage: string := ReadingHead + ReadingMatchTail
  const ReadingHead: string := "Cannot read properties "
  const ReadingMatchTail: string := "of undefined (reading 'match')"

  /** The `catch` block: a 500 whose `details` is the raw message only in
      development. */
  function Fail(message: string, development: bool): (resp: Response)
    ensures ReportsFailure(resp, message, development)
  {
    ServerError(UserMessage(message), if development then Some(message) else None)
  }

  /** `resp` is the 500 the `catch` block sends for a thrown `message`. */
  predicate ReportsFailure(resp: Response, message: string, development: bool) {
    && resp.ServerError?
    && resp.error == UserMessage(message)
    && resp.details == (if development then Some(message) else None)
  }

  /** `handler(req, res)`; `development` is `process.env.NODE_ENV ===
      'development'`. */
  function Handle(req: Request, svc: Services, development: bool): (resp: Response)
    ensures req.httpMethod != "POST" ==> resp == MethodNotAllowed
    ensures (req.httpMethod == "POST" && req.slideUrl.Some? && ExtractPresentationId(req.slideUrl.value).None?)
              ==> resp == InvalidUrl
    ensures resp.Completed? ==>
              && req.httpMethod == "POST" && req.slideUrl.Some?
              && ExtractPresentationId(req.slideUrl.value) == Some(resp.presentationId)
              && resp.translatedSlides == |resp.results|
              && (forall i :: 0 <= i < |resp.results| ==> resp.results[i].slideIndex == i)
    ensures resp.ServerError? ==> (resp.details.Some? <==> development)
    // Every 500 reports some thrown message `m`: `error` is its user-facing
    // classification, `details` is `m` itself in development.
    ensures resp.ServerError? ==> exists m :: ReportsFailure(resp, m, development)
    // ... and which message that is, for each source of failure.
    ensures (req.httpMethod == "POST" && req.slideUrl.None?) ==> ReportsFailure(resp, MissingUrlMessage, development)
    ensures (req.httpMethod == "POST" && req.slideUrl.Some? && ExtractPresentationId(req.slideUrl.value).Some?) ==>
              var id := ExtractPresentationId(req.slideUrl.value).value;
              var access := ValidatePresentationAccess(svc, id);
              var fetched := TranslatePresentation(svc, id, req.targetLanguage.GetOr(Auto));
              && (access.Failure? ==> ReportsFailure(resp, access.error, development))
              && (access.Success? && fetched.Failure? ==> ReportsFailure(resp, fetched.error, development))
  {
    if req.httpMethod != "POST" then MethodNotAllowed
    else
      match req.slideUrl
      case None => Fail(MissingUrlMessage, development)
      case Some(url) =>
        match ExtractPresentationId(url)
        case None => InvalidUrl
        case Some(id) =>
          match ValidatePresentationAccess(svc, id)
          case Failure(message) => Fail(message, development)
          case Success(_) =>
            var requested := req.targetLanguage.GetOr(Auto);
            match TranslatePresentation(svc, id, requested)
            case Failure(message) => Fail(message, development)
            case Success(results) => Completed(id, |results|, results)
  }

  // ---------------------------------------------------------------------
  // Properties.
  // ---------------------------------------------------------------------

  /** The message thrown for a 403 contains none of the searched substrings
      ("Permission" is capitalised), so a caller without access is shown the
      generic message. */
  lemma PermissionDeniedReadsAsGeneric()
    ensures UserMessage(PermissionDeniedThrown) == GenericUserMessage
  {
    PermissionDeniedLacks("permission");
    PermissionDeniedLacks("not found");
    PermissionDeniedLacks("quota");
  }

  /** `sub` is absent from the 403 message because its first two characters
      never meet there. */
  lemma PermissionDeniedLacks(sub: string)
    requires sub == "permission" || sub == "not found" || sub == "quota"
    ensures !Includes(PermissionDeniedThrown, sub)
  {
    var x, y := sub[0], sub[1];
    assert LacksPair(DeniedHead, x, y);
    assert LacksPair(DeniedMiddle, x, y);
    assert LacksPair(DeniedTail, x, y);
    LacksPairJoin(DeniedHead, DeniedMiddle, x, y);
    LacksPairJoin(DeniedHead + DeniedMiddle, DeniedTail, x, y);
    NotIncludedByPair(PermissionDeniedThrown, sub, 0);
  }

  /** The message thrown for a 404 is recognised as "not found". */
  lemma NotFoundReadsAsNotFound()
    ensures UserMessage(NotFoundThrown) == NotFoundUserMessage
  {
    NotIncludedByPair(NotFoundThrown, "permission", 0);
    assert NotFoundHead[13..22] == "not found";
    assert NotFoundThrown[13..22] == NotFoundHead[13..22];
    IncludedAt(NotFoundThrown, "not found", 13);
  }

  /** A request that passes the URL check and then fails the access check
      ends in a 500 whose message depends on the status: generic for 403,
      "not found" for 404. */
  lemma AccessFailureResponse(req: Request, svc: Services, development: bool)
    requires req.httpMethod == "POST" && req.slideUrl.Some?
    requires ExtractPresentationId(req.slideUrl.value).Some?
    requires var id := ExtractPresentationId(req.slideUrl.value).value;
             svc.getPresentation(id, 0).Failure? && svc.getPresentation(id, 0).error.code in {403, 404}
    ensures var id := ExtractPresentationId(req.slideUrl.value).value;
            var resp := Handle(req, svc, development);
            && StatusCode(resp) == 500
            && (svc.getPresentation(id, 0).error.code == 403 ==> resp.error == GenericUserMessage)
            && (svc.getPresentation(id, 0).error.code == 404 ==> resp.error == NotFoundUserMessage)
  {
    PermissionDeniedReadsAsGeneric();
    NotFoundReadsAsNotFound();
  }

  /** A missing `slideUrl` is not a 400: the `TypeError` it raises falls
      through every substring test to the generic 500. */
  lemma MissingUrlIsGenericServerError(req: Request, svc: Services, development: bool)
    requires req.httpMethod == "POST" && req.slideUrl.None?
    ensures Handle(req, svc, development).ServerError?
    ensures Handle(req, svc, development).error == GenericUserMessage
  {
    TypeErrorLacks(ReadingMatchTail, "permission", 3);
    TypeErrorLacks(ReadingMatchTail, "not found", 4);
    TypeErrorLacks(ReadingMatchTail, "quota", 0);
  }

  /** `sub` is absent from the `TypeError` message `ReadingHead + tail`
      because its characters `k` and `k + 1` never meet there. */
  lemma TypeErrorLacks(tail: string, sub: string, k: nat)
    requires tail == ReadingMatchTail || tail == ReadingLengthTail
    requires || (sub == "permission" && k == 3)
             || (sub == "not found" && k == 4)
             || (sub == "quota" && k == 0)
    ensures !Includes(ReadingHead + tail, sub)
  {
    var x, y := sub[k], sub[k + 1];
    assert LacksPair(ReadingHead, x, y);
    assert LacksPair(tail, x, y);
    LacksPairJoin(ReadingHead, tail, x, y);
    NotIncludedByPair(ReadingHead + tail, sub, k);
  }

  /** A fetched resource without `slides` is a generic 500: the `TypeError`
      it raises contains none of the searched substrings. */
  lemma MissingSlidesIsGenericServerError(req: Request, svc: Services, development: bool)
    requires req.httpMethod == "POST" && req.slideUrl.Some?
    requires ExtractPresentationId(req.slideUrl.value).Some?
    requires var id := ExtractPresentationId(req.slideUrl.value).value;
             && svc.getPresentation(id, 0).Success?
             && svc.getPresentation(id, 1).Success?
             && svc.getPresentation(id, 1).value.slides.None?
    ensures ReportsFailure(Handle(req, svc, development), MissingSlidesMessage, development)
    ensures Handle(req, svc, development).error == GenericUserMessage
  {
    TypeErrorLacks(ReadingLengthTail, "permission", 3);
    TypeErrorLacks(ReadingLengthTail, "not found", 4);
    TypeErrorLacks(ReadingLengthTail, "quota", 0);
  }

  /** A translated fetch rejected with a message that mentions "quota" (and
      neither earlier substring) reaches the caller as the "try again later"
      message. */
  lemma QuotaErrorIsReported(req: Request, svc: Services, development: bool)
    requires req.httpMethod == "POST" && req.slideUrl.Some?
    requires ExtractPresentationId(req.slideUrl.value).Some?
    requires var id := ExtractPresentationId(req.slideUrl.value).value;
             && svc.getPresentation(id, 0).Success?
             && svc.getPresentation(id, 1).Failure?
             && var m := svc.getPresentation(id, 1).error.message;
                Includes(m, "quota") && !Includes(m, "permission") && !Includes(m, "not found")
    ensures StatusCode(Handle(req, svc, development)) == 500
    ensures Handle(req, svc, development).error == QuotaUserMessage
  {
  }

  /** The handler answers 200 exactly when the request is a POST with a
      recognisable URL, both fetches succeed and the fetched presentation
      has a slide list; per-slide failures do not change the status. The
      200 body reports one result per slide of that list. */
  lemma HandleSucceedsIff(req: Request, svc: Services, development: bool)
    ensures var resp := Handle(req, svc, development);
            StatusCode(resp) == 200 <==>
              && req.httpMethod == "POST" && req.slideUrl.Some?
              && ExtractPresentationId(req.slideUrl.value).Some?
              && var id := ExtractPresentationId(req.slideUrl.value).value;
                 && svc.getPresentation(id, 0).Success?
                 && svc.getPresentation(id, 1).Success?
                 && svc.getPresentation(id, 1).value.slides.Some?
    ensures var resp := Handle(req, svc, development);
            resp.Completed? ==>
              && var slides := svc.getPresentation(resp.presentationId, 1).value.slides.value;
                 && resp.translatedSlides == |slides|
                 && forall i :: 0 <= i < |slides| ==>
                      resp.results[i] == ProcessSlide(svc, resp.presentationId, slides[i],
                                                      req.targetLanguage.GetOr(Auto), i).result
  {
  }

  /** Every request of a slide's batch searches for a trimmed, non-blank
      run of that slide, and only on that slide. */
  lemma BatchTextsComeFromSlide(svc: Services, presentationId: string, slide: Slide, requested: string, slideIndex: nat)
    requires ProcessSlide(svc, presentationId, slide, requested, slideIndex).batch.Some?
    ensures var reqs := ProcessSlide(svc, presentationId, slide, requested, slideIndex).batch.value.requests;
            forall i :: 0 <= i < |reqs| ==>
              && reqs[i].pageObjectIds == [slide.objectId]
              && reqs[i].text != []
              && reqs[i].text == Trim(reqs[i].text)
              && exists e :: EmittedFromSlide(slide, e) && e.text == reqs[i].text
  {
    var es := ExtractTextElements(slide).value;
    ExtractedEntriesAreOnSlide(slide);
    var reqs := ProcessSlide(svc, presentationId, slide, requested, slideIndex).batch.value.requests;
    forall i | 0 <= i < |reqs|
      ensures reqs[i].text != [] && reqs[i].text == Trim(reqs[i].text)
      ensures exists e :: EmittedFromSlide(slide, e) && e.text == reqs[i].text
    {
      assert EmittedFromSlide(slide, es[i]);
      var item :| OnSlide(slide, item) && Kept(item) && es[i] == Emit(item);
      TrimIdempotent(item.element.textRun.value.content.value);
    }
  }

  /** When every translate call fails the slide is still rewritten, with
      each run replaced by itself, and its result depends only on the batch
      update. */
  lemma TranslationOutageKeepsText(svc: Services, presentationId: string, slide: Slide, requested: string, slideIndex: nat)
    requires forall text, from, to :: svc.translate(text, from, to).None?
    requires ExtractTextElements(slide).Success? && ExtractTextElements(slide).value != []
    ensures var run := ProcessSlide(svc, presentationId, slide, requested, slideIndex);
            && run.batch.Some?
            && (forall r :: r in run.batch.value.requests ==> r.replaceText == r.text)
            && (svc.batchUpdate(run.batch.value).Success? <==> run.result.SlideSucceeded?)
  {
    var es := ExtractTextElements(slide).value;
    FailingTranslationKeepsText(svc, es, requested);
  }
}
