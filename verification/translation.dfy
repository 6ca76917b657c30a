/** Language detection, target-language choice and translation of one text
    run (`detectLanguage`, `translateText` and the per-element mapping in
    `processSlideInParallel`), with the source's fallbacks on failure. */
module Translation {
  import opened Wrappers
  import opened JsString
  import opened TextExtraction
  import opened GoogleApis

  const Auto: string := "auto"
  const English: string := "en"
  const SimplifiedChinese: string := "zh-CN"

  /** The `to` language of the translate call for a run detected as
      `source` when the caller asked for `requested`. With `auto`, English
      goes to Chinese and everything else (Chinese included) to English; any
      other request is used as is. */
  function TargetLanguage(requested: string, source: string): (target: string)
    ensures requested != Auto ==> target == requested
    ensures requested == Auto ==> (target == SimplifiedChinese <==> source == English)
    ensures requested == Auto && source != English ==> target == English
    ensures requested == Auto && StartsWith(source, "zh") ==> target == English
  {
    if requested == Auto then
      if source == English then
        assert source[..2][0] != 'z';
        SimplifiedChinese
      else if StartsWith(source, "zh") then English
      else English
    else requested
  }

  /** `detectLanguage`: the detected language, or English when detection
      fails. */
  function DetectLanguage(svc: Services, text: string): (lang: string)
    ensures svc.detect(text).Some? ==> lang == svc.detect(text).value
    ensures svc.detect(text).None? ==> lang == English
  {
    svc.detect(text).GetOr(English)
  }

  /** `translateText`: the translation, or the text itself when the call
      fails. */
  function TranslateText(svc: Services, text: string, source: string, requested: string): (r: string)
    ensures var to := TargetLanguage(requested, source);
            && (svc.translate(text, source, to).Some? ==> r == svc.translate(text, source, to).value)
            && (svc.translate(text, source, to).None? ==> r == text)
  {
    svc.translate(text, source, TargetLanguage(requested, source)).GetOr(text)
  }

  /** The object built for each extracted run. */
  datatype TranslatedElement = TranslatedElement(
    objectId: string,
    originalText: string,
    translatedText: string,
    startIndex: Option<int>,
    endIndex: Option<int>)

  /** The `(text, from, to)` arguments of the translate call made for one
      run: `from` is the detected language, `to` the chosen target. */
  function TranslateCall(svc: Services, text: string, requested: string): (string, string, string) {
    var source := DetectLanguage(svc, text);
    (text, source, TargetLanguage(requested, source))
  }

  /** Detect, then translate, one extracted run. */
  function TranslateElement(svc: Services, e: Extracted, requested: string): (t: TranslatedElement)
    ensures t.objectId == e.objectId && t.originalText == e.text
    ensures t.startIndex == e.startIndex && t.endIndex == e.endIndex
    ensures var c := TranslateCall(svc, e.text, requested);
            && (svc.translate(c.0, c.1, c.2).Some? ==> t.translatedText == svc.translate(c.0, c.1, c.2).value)
            && (svc.translate(c.0, c.1, c.2).None? ==> t.translatedText == e.text)
    ensures t.translatedText == e.text
            || exists from, to :: svc.translate(e.text, from, to) == Some(t.translatedText)
  {
    var c := TranslateCall(svc, e.text, requested);
    TranslatedElement(e.objectId, e.text, TranslateText(svc, e.text, c.1, requested), e.startIndex, e.endIndex)
  }

  /** The `Promise.all` over a slide's runs: one translated element per run,
      in the runs' order. */
  function TranslateAll(svc: Services, es: seq<Extracted>, requested: string): (ts: seq<TranslatedElement>)
    ensures |ts| == |es|
    ensures forall i :: 0 <= i < |ts| ==>
              && ts[i].originalText == es[i].text && ts[i].objectId == es[i].objectId
              && ts[i].startIndex == es[i].startIndex && ts[i].endIndex == es[i].endIndex
    // Each run gets the answer to its own translate call, or itself when
    // that call fails.
    ensures forall i :: 0 <= i < |ts| ==>
              var c := TranslateCall(svc, es[i].text, requested);
              && (svc.translate(c.0, c.1, c.2).Some? ==> ts[i].translatedText == svc.translate(c.0, c.1, c.2).value)
              && (svc.translate(c.0, c.1, c.2).None? ==> ts[i].translatedText == es[i].text)
  {
    seq(|es|, i requires 0 <= i < |es| => TranslateElement(svc, es[i], requested))
  }

  /** With `auto`, a run is never sent to be translated into the language it
      was detected in. */
  lemma AutoNeverTargetsSource(source: string)
    ensures TargetLanguage(Auto, source) != source
  {
  }

  /** With `auto`, English and Chinese swap: translating the target back
      returns to the start. */
  lemma AutoSwapsEnglishAndChinese(source: string)
    requires source == English || source == SimplifiedChinese
    ensures TargetLanguage(Auto, TargetLanguage(Auto, source)) == source
  {
  }

  /** A translation service that always fails leaves every run untouched. */
  lemma FailingTranslationKeepsText(svc: Services, es: seq<Extracted>, requested: string)
    requires forall text, from, to :: svc.translate(text, from, to).None?
    ensures forall i :: 0 <= i < |es| ==>
              TranslateAll(svc, es, requested)[i].translatedText == es[i].text
  {
  }
}
