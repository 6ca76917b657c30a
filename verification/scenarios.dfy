/** Whole-request scenarios: concrete requests and service answers, and the
    response and remote calls the handler produces for them. */
module Scenarios {
  import opened Wrappers
  import opened JsString
  import opened Slides
  import opened PresentationId
  import opened TextExtraction
  import opened GoogleApis
  import opened Translation
  import opened BatchUpdate
  import opened TranslateHandler
  import opened PromptInputBox

  const ExampleUrl: string := SlidesUrlPrefix + "ABC123/edit"

  /** One slide holding one shape whose only run is "Hello" and a line
      break. */
  const HelloSlide: Slide :=
    Slide("p1", [PageElement("s1", [TextElement(Some(0), Some(6), Some(TextRun(Some("Hello\n"))))], [])])

  /** The mocked Chinese translation. */
  const NiHao: string := ['\U{4F60}', '\U{597D}']

  /** Services that serve `HelloSlide`, detect English, translate everything
      to `NiHao` and accept every update. */
  function HelloServices(): Services {
    Services(
      (id: string, n: nat) => Success(Presentation(Some([HelloSlide]))),
      (text: string) => Some(English),
      (text: string, from: string, to: string) => Some(NiHao),
      (call: BatchUpdateCall) => Success(()))
  }

  /** The example URL carries the identifier "ABC123". */
  lemma ExampleUrlId()
    ensures ExtractPresentationId(ExampleUrl) == Some("ABC123")
  {
    var rest := "/edit";
    assert ExampleUrl == SlidesUrlPrefix + "ABC123" + rest;
    assert ExampleUrl[..|SlidesUrlPrefix|] == SlidesUrlPrefix;
    assert ExampleUrl[|SlidesUrlPrefix|] == 'A';
    assert AllIdChars("ABC123");
    AcceptedUrlYieldsId(ExampleUrl);
    IdRunOfDelimited(SlidesUrlPrefix, "ABC123", rest);
  }

  /** The slide's single run is extracted, trimmed. */
  lemma HelloSlideExtracted()
    ensures ExtractTextElements(HelloSlide) == Success([Extracted("s1", "Hello", Some(0), Some(6), InShape)])
  {
    assert AllWhitespace("\n");
    TrimSurrounded([], "Hello", "\n");
    assert [] + "Hello" + "\n" == "Hello\n";
    var pe := HelloSlide.pageElements[0];
    var e := Extracted("s1", "Hello", Some(0), Some(6), InShape);
    assert RunEntry("s1", pe.shapeText[0], InShape) == Success([e]);
    assert RunsEntries("s1", pe.shapeText[1..], InShape) == Success([]);
    assert [e] + [] == [e];
    assert RunsEntries("s1", pe.shapeText, InShape) == Success([e]);
    assert RowsEntries("s1", pe.tableRows, 0) == Success([]);
    assert ElementEntries(pe) == Success([e]);
    assert ElementsEntries(HelloSlide.pageElements[1..]) == Success([]);
  }

  /** The batch update the example produces. */
  const HelloCall: BatchUpdateCall :=
    BatchUpdateCall("ABC123", [ReplaceAllText("Hello", true, NiHao, ["p1"])])

  /** The run is detected as English, translated into Chinese, and the slide
      is rewritten in one batch update. */
  lemma HelloSlideProcessed()
    ensures ProcessSlide(HelloServices(), "ABC123", HelloSlide, Auto, 0)
              == SlideRun(SlideSucceeded(0, 1), ["Hello"], [("Hello", English, SimplifiedChinese)], Some(HelloCall))
  {
    var svc := HelloServices();
    HelloSlideExtracted();
    var e := Extracted("s1", "Hello", Some(0), Some(6), InShape);
    assert DetectLanguage(svc, "Hello") == English;
    assert TranslateText(svc, "Hello", English, Auto) == NiHao;
    var t := TranslatedElement("s1", "Hello", NiHao, Some(0), Some(6));
    assert TranslateElement(svc, e, Auto) == t;
    assert TranslateAll(svc, [e], Auto) == [t];
    var reqs := BuildRequests("p1", [t]);
    assert reqs[0] == ReplaceAllText("Hello", true, NiHao, ["p1"]);
    assert reqs == HelloCall.requests;
  }

  /** The fetched presentation's one slide is processed successfully. */
  lemma HelloPresentationTranslated()
    ensures TranslatePresentation(HelloServices(), "ABC123", Auto) == Success([SlideSucceeded(0, 1)])
  {
    var svc := HelloServices();
    HelloSlideProcessed();
    assert svc.getPresentation("ABC123", 1) == Success(Presentation(Some([HelloSlide])));
    var r := TranslatePresentation(svc, "ABC123", Auto);
    assert r.Success? && |r.value| == 1;
    assert r.value[0] == SlideSucceeded(0, 1);
    assert r.value == [SlideSucceeded(0, 1)];
  }

  /** An English "Hello" sent with `auto` is translated into Chinese in one
      batch update, and the request completes with one slide holding one
      translated element. */
  lemma EndToEndTranslation(development: bool)
    ensures Handle(Request("POST", Some(ExampleUrl), None), HelloServices(), development)
              == Completed("ABC123", 1, [SlideSucceeded(0, 1)])
  {
    ExampleUrlId();
    HelloPresentationTranslated();
    assert ValidatePresentationAccess(HelloServices(), "ABC123") == Success(());
  }

  const DeniedServices: Services :=
    Services(
      (id: string, n: nat) => Failure(ApiError(403, "The caller does not have permission")),
      (text: string) => None,
      (text: string, from: string, to: string) => None,
      (call: BatchUpdateCall) => Success(()))

  /** A presentation the service account may not read: the 403 is turned
      into a message starting with "Permission", which the lower-case
      "permission" test misses, so the caller sees the generic message and,
      outside development, nothing more. */
  lemma AccessDeniedScenario()
    ensures Handle(Request("POST", Some(ExampleUrl), None), DeniedServices, false)
              == ServerError(GenericUserMessage, None)
    ensures Handle(Request("POST", Some(ExampleUrl), None), DeniedServices, true)
              == ServerError(GenericUserMessage, Some(PermissionDeniedThrown))
  {
    ExampleUrlId();
    PermissionDeniedReadsAsGeneric();
  }

  /** A table row without `tableCells` makes the walk throw; the slide is
      reported as failed with the `TypeError` message and nothing is sent. */
  lemma BrokenTableScenario()
    ensures var slide := Slide("p1", [PageElement("t1", [], [TableRow(None)])]);
            ProcessSlide(HelloServices(), "ABC123", slide, Auto, 0)
              == SlideRun(SlideFailed(0, ErrorMessage(RowWithoutCells)), [], [], None)
  {
  }
}
