/**
 * The scanner view model of `DocScanner.kt`: it sorts the AI's reply into
 * a schedule to import (`<JSON>`), an explanation to show (`<NA>`) or an
 * unexpected answer, sets its four state fields accordingly, and pushes the
 * imported events into the schedule view model.
 */
module Scanner {
  import opened Options
  import opened Strings
  import opened Schedule

  const JsonOpen: string := "<JSON>"
  const JsonClose: string := "</JSON>"
  const InfoOpen: string := "<NA>"
  const InfoClose: string := "</NA>"
  const UnexpectedReply: string := "An unexpected error occurred. Please try again."
  const FailurePrefix: string := "Failed to scan: "

  /** The outcome of the model call: the reply text, or the exception it threw with its (nullable) message. */
  datatype ApiReply = Reply(text: string) | Thrown(message: Option<string>)

  /** How `processScannedImage` reads a reply. */
  datatype Classified =
    | JsonReply(json: string)   // a schedule to import, as JSON text
    | InfoReply(info: string)   // the model's reason for not reading a schedule
    | UnknownReply              // neither tag

  lemma TagsAreTags()
    ensures IsTag(JsonOpen) && IsTag(JsonClose) && IsTag(InfoOpen) && IsTag(InfoClose)
  {
  }

  /**
   * `<JSON>` is looked for first, so it wins even when `<NA>` also occurs.
   * The text taken is what follows the first opening tag, up to the next
   * closing tag or to the end; the `<NA>` text is also trimmed.
   */
  function Classify(response: string): (c: Classified)
    ensures c.JsonReply? <==> Contains(response, JsonOpen)
    ensures c.InfoReply? <==> !Contains(response, JsonOpen) && Contains(response, InfoOpen)
    ensures c.InfoReply? ==> Trimmed(c.info)
  {
    if Contains(response, JsonOpen) then
      JsonReply(SubstringBefore(SubstringAfter(response, JsonOpen), JsonClose))
    else if Contains(response, InfoOpen) then
      InfoReply(Trim(SubstringBefore(SubstringAfter(response, InfoOpen), InfoClose)))
    else UnknownReply
  }

  /** A reply that wraps `body` in JSON tags yields exactly `body`, whatever surrounds it. */
  lemma JsonBetweenTags(a: string, body: string, c: string)
    requires !Contains(a, JsonOpen) && !Contains(body, JsonClose)
    ensures Classify(a + JsonOpen + body + JsonClose + c) == JsonReply(body)
  {
    var s := a + JsonOpen + body + JsonClose + c;
    TagsAreTags();
    assert s == a + JsonOpen + (body + JsonClose + c);
    FirstOccurrenceAfter(a, JsonOpen, body + JsonClose + c);
    BetweenTags(a, JsonOpen, body, JsonClose, c);
  }

  /** Without a closing tag the whole remainder after `<JSON>` is taken. */
  lemma JsonUnclosed(a: string, rest: string)
    requires !Contains(a, JsonOpen) && !Contains(rest, JsonClose)
    ensures Classify(a + JsonOpen + rest) == JsonReply(rest)
  {
    TagsAreTags();
    FirstOccurrenceAfter(a, JsonOpen, rest);
    AfterTagUnclosed(a, JsonOpen, rest, JsonClose);
  }

  /** A reply without `<JSON>` that wraps padded text in NA tags yields that text, trimmed. */
  lemma InfoBetweenTags(a: string, pre: string, core: string, post: string, c: string)
    requires !Contains(a + InfoOpen + (pre + core + post) + InfoClose + c, JsonOpen)
    requires !Contains(a, InfoOpen) && !Contains(pre + core + post, InfoClose)
    requires AllWhitespace(pre) && AllWhitespace(post) && Trimmed(core)
    ensures Classify(a + InfoOpen + (pre + core + post) + InfoClose + c) == InfoReply(core)
  {
    var body := pre + core + post;
    var s := a + InfoOpen + body + InfoClose + c;
    TagsAreTags();
    assert s == a + InfoOpen + (body + InfoClose + c);
    FirstOccurrenceAfter(a, InfoOpen, body + InfoClose + c);
    BetweenTags(a, InfoOpen, body, InfoClose, c);
    TrimPadded(pre, core, post);
  }

  class ScannerViewModel {
    var isLoading: bool
    var generatedText: Option<string>
    var showInfoPopup: bool
    var scanSuccess: bool
    const scheduleViewModel: ScheduleViewModel

    constructor(scheduleViewModel: ScheduleViewModel)
      ensures !isLoading && generatedText.None? && !showInfoPopup && !scanSuccess
      ensures this.scheduleViewModel == scheduleViewModel
    {
      isLoading := false;
      generatedText := None;
      showInfoPopup := false;
      scanSuccess := false;
      this.scheduleViewModel := scheduleViewModel;
    }

    /** `resetState`: clears the text and nothing else. */
    method ResetState()
      modifies this
      ensures generatedText.None?
      ensures isLoading == old(isLoading) && showInfoPopup == old(showInfoPopup) && scanSuccess == old(scanSuccess)
    {
      generatedText := None;
    }

    /**
     * `processScannedImage` once the model call has returned or thrown;
     * `decode` and `freshId` are the JSON decoder and the UUID source that
     * `parseScheduleEvents` uses.
     */
    method ProcessScannedImage(reply: ApiReply, decode: string -> Option<seq<EventRecord>>, freshId: nat -> string)
      modifies this, scheduleViewModel
      ensures !isLoading
      ensures reply.Thrown? ==>
                && generatedText == Some(FailurePrefix + reply.message.GetOr("null"))
                && showInfoPopup == old(showInfoPopup) && scanSuccess == old(scanSuccess)
                && scheduleViewModel.events == old(scheduleViewModel.events)
      ensures reply.Reply? && Classify(reply.text).JsonReply? ==>
                var json := Classify(reply.text).json;
                && generatedText == Some(json) && !showInfoPopup && scanSuccess
                && scheduleViewModel.events == old(scheduleViewModel.events) + ParseScheduleEvents(json, decode, freshId)
      ensures reply.Reply? && Classify(reply.text).InfoReply? ==>
                && generatedText == Some(Classify(reply.text).info) && showInfoPopup && scanSuccess == old(scanSuccess)
                && scheduleViewModel.events == old(scheduleViewModel.events)
      ensures reply.Reply? && Classify(reply.text).UnknownReply? ==>
                && generatedText == Some(UnexpectedReply) && showInfoPopup && scanSuccess == old(scanSuccess)
                && scheduleViewModel.events == old(scheduleViewModel.events)
    {
      isLoading := true;
      ResetState();
      match reply {
        case Thrown(message) =>
          generatedText := Some(FailurePrefix + message.GetOr("null"));
        case Reply(apiCallResponse) =>
          if Contains(apiCallResponse, JsonOpen) {
            showInfoPopup := false;
            var json := SubstringBefore(SubstringAfter(apiCallResponse, JsonOpen), JsonClose);
            generatedText := Some(json);
            var events := ParseScheduleEvents(json, decode, freshId);
            ImportEvents(events);
            scanSuccess := true;
          } else if Contains(apiCallResponse, InfoOpen) {
            showInfoPopup := true;
            generatedText := Some(Trim(SubstringBefore(SubstringAfter(apiCallResponse, InfoOpen), InfoClose)));
          } else {
            showInfoPopup := true;
            generatedText := Some(UnexpectedReply);
          }
      }
      isLoading := false;
    }

    /** `events.forEach { scheduleViewModel.addEvent(it) }`. */
    method ImportEvents(events: seq<ScheduleEvent>)
      modifies scheduleViewModel
      ensures scheduleViewModel.events == old(scheduleViewModel.events) + events
    {
      for i := 0 to |events|
        invariant scheduleViewModel.events == old(scheduleViewModel.events) + events[..i]
      {
        scheduleViewModel.AddEvent(events[i]);
        assert events[..i + 1] == events[..i] + [events[i]];
      }
      assert events[..|events|] == events;
    }
  }
}
