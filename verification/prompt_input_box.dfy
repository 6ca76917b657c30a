/** The URL form in components/ui/prompt-input-box.js: its client-side
    validator and the two event handlers that drive the `message` and
    `isValid` state. The React rendering is not modelled. */
module PromptInputBox {
  import opened Wrappers
  import opened JsString
  import opened PresentationId

  const Host: string := "https://docs.google.com"

  /** The literal prefix of the anchored pattern
      `^https:\/\/docs\.google\.com\/presentation\/d\/([a-zA-Z0-9-_]+)`. */
  const SlidesUrlPrefix: string := Host + Marker

  /** `validateGoogleSlidesUrl`: the URL starts with the prefix, followed by
      at least one identifier character (`test` does not need the rest).
      That is the server's pattern, anchored right after the host. */
  function ValidateGoogleSlidesUrl(url: string): (ok: bool)
    ensures ok <==> StartsWith(url, Host) && MatchesAt(url, |Host|)
  {
    PrefixTestIsAnchoredPattern(url);
    StartsWith(url, SlidesUrlPrefix) && |url| > |SlidesUrlPrefix| && IsIdChar(url[|SlidesUrlPrefix|])
  }

  /** Testing the literal prefix and one identifier character after it is
      the same as finding the host followed by a match of the server's
      pattern. */
  lemma PrefixTestIsAnchoredPattern(url: string)
    ensures (StartsWith(url, SlidesUrlPrefix) && |url| > |SlidesUrlPrefix| && IsIdChar(url[|SlidesUrlPrefix|]))
            <==> StartsWith(url, Host) && MatchesAt(url, |Host|)
  {
    if StartsWith(url, Host) && |Host| + |Marker| <= |url| {
      assert url[..|SlidesUrlPrefix|] == url[..|Host|] + url[|Host|..|Host| + |Marker|];
    }
    if StartsWith(url, SlidesUrlPrefix) {
      assert url[..|Host|] == SlidesUrlPrefix[..|Host|];
      assert url[|Host|..|Host| + |Marker|] == SlidesUrlPrefix[|Host|..];
    }
  }

  /** The form's state: the text in the input and whether it is shown as
      valid. */
  datatype FormState = FormState(message: string, isValid: bool)

  /** The state after a submit, and the argument of `onSend` if it was
      called. */
  datatype Submission = Submission(state: FormState, sent: Option<string>)

  /** `handleSubmit`: blank or unrecognised input is flagged and nothing is
      sent; otherwise the trimmed input is sent once and the flag cleared. */
  function HandleSubmit(st: FormState): (sub: Submission)
    ensures sub.state.message == st.message
    ensures sub.sent.Some? <==> ValidateGoogleSlidesUrl(Trim(st.message))
    ensures sub.sent.Some? ==> sub.sent.value == Trim(st.message)
    ensures sub.state.isValid <==> sub.sent.Some?
    ensures AllWhitespace(st.message) ==> sub == Submission(FormState(st.message, false), None)
  {
    TrimEmptyIffBlank(st.message);
    var m := Trim(st.message);
    if m == [] then Submission(FormState(st.message, false), None)
    else if !ValidateGoogleSlidesUrl(m) then Submission(FormState(st.message, false), None)
    else Submission(FormState(st.message, true), Some(m))
  }

  /** `handleInputChange`: the input always takes the new value; a flagged
      form is un-flagged by any non-blank edit, and an unflagged form stays
      unflagged. */
  function HandleInputChange(st: FormState, value: string): (st': FormState)
    ensures st'.message == value
    ensures st'.isValid <==> st.isValid || !AllWhitespace(value)
  {
    TrimEmptyIffBlank(value);
    if !st.isValid && Trim(value) != [] then FormState(value, true)
    else FormState(value, st.isValid)
  }

  // ---------------------------------------------------------------------
  // Properties.
  // ---------------------------------------------------------------------

  /** Only two slashes occur in the host part, and neither is followed by
      `p`, so no match of the server's pattern can start there. */
  lemma NoMatchInsideHost(url: string, k: int)
    requires StartsWith(url, SlidesUrlPrefix) && 0 <= k < |Host|
    ensures !MatchesAt(url, k)
  {
    assert url[k] == SlidesUrlPrefix[k] && url[k + 1] == SlidesUrlPrefix[k + 1];
    assert SlidesUrlPrefix[k] == Host[k];
    assert Host[k] == '/' ==> SlidesUrlPrefix[k + 1] != 'p';
    MatchStartsWithSlashP(url, k);
  }

  /** A match starts with the marker's first two characters. */
  lemma MatchStartsWithSlashP(url: string, k: int)
    ensures MatchesAt(url, k) ==> url[k] == '/' && url[k + 1] == 'p'
  {
    if 0 <= k && k + |Marker| <= |url| {
      assert url[k..k + |Marker|][0] == url[k];
      assert url[k..k + |Marker|][1] == url[k + 1];
    }
  }

  /** Whatever the client accepts, the server parses, and the identifier it
      extracts is the run of identifier characters right after the
      prefix. */
  lemma AcceptedUrlYieldsId(url: string)
    requires ValidateGoogleSlidesUrl(url)
    ensures ExtractPresentationId(url) == Some(IdRun(url, |SlidesUrlPrefix|))
  {
    forall k | 0 <= k < |Host|
      ensures !MatchesAt(url, k)
    {
      NoMatchInsideHost(url, k);
    }
    assert IsFirstMatch(url, |Host|);
    assert IsExtractionOf(url, IdRun(url, |SlidesUrlPrefix|));
    ExtractionCharacterised(url, IdRun(url, |SlidesUrlPrefix|));
  }

  /** The server is more lenient than the client: a bare path that the form
      rejects still yields an identifier on the server. */
  lemma ServerAcceptsUnanchoredUrl()
    ensures !ValidateGoogleSlidesUrl("/presentation/d/A")
    ensures ExtractPresentationId("/presentation/d/A") == Some("A")
  {
    var url := "/presentation/d/A";
    assert MatchesAt(url, 0);
    assert IsFirstMatch(url, 0);
    assert IdRun(url, 16) == "A";
    assert IsExtractionOf(url, "A");
    ExtractionCharacterised(url, "A");
  }

  /** Every URL the form sends names a presentation the server can parse. */
  lemma SubmittedUrlHasId(st: FormState)
    requires HandleSubmit(st).sent.Some?
    ensures ExtractPresentationId(HandleSubmit(st).sent.value).Some?
  {
    AcceptedUrlYieldsId(HandleSubmit(st).sent.value);
  }

  /** Whitespace around a valid URL is tolerated: the URL itself is sent. */
  lemma PaddedUrlIsSent(w1: string, url: string, w2: string, isValid: bool)
    requires AllWhitespace(w1) && AllWhitespace(w2)
    requires ValidateGoogleSlidesUrl(url) && !IsWhitespace(url[|url| - 1])
    ensures HandleSubmit(FormState(w1 + url + w2, isValid)).sent == Some(url)
  {
    assert url[0] == SlidesUrlPrefix[0];
    TrimSurrounded(w1, url, w2);
  }

  /** Submitting twice in a row is submitting once: the second submit sees
      the same text and reaches the same verdict. */
  lemma SubmitIdempotent(st: FormState)
    ensures HandleSubmit(HandleSubmit(st).state) == HandleSubmit(st)
  {
  }

  /** A flagged form is un-flagged by the next non-blank edit and stays
      flagged through blank ones. */
  lemma RejectedSubmitRecovers(st: FormState, value: string)
    requires HandleSubmit(st).sent.None?
    ensures !HandleSubmit(st).state.isValid
    ensures HandleInputChange(HandleSubmit(st).state, value).isValid <==> !AllWhitespace(value)
  {
  }
}
