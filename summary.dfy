/** summarize_description (app.py:69-93): the summary stored with each record.
    The chat-completion call itself is outside the model; its outcome is an input. */
module Summary {
  import opened Wrappers
  import opened PyValue
  import Text

  const Unavailable: string := "Summarization unavailable."
  const NoDescription: string := "No description provided."
  const NoSummary: string := "Could not generate summary."
  const SummaryError: string := "Error during summarization."

  /** What the one chat-completion call gives back, when it is made: it raises,
      it answers with no choices, or it answers and the first choice's message
      content is a string or None. */
  datatype CallOutcome =
    | CallRaised
    | NoChoices
    | Choice(content: Option<string>)

  /** Whether summarize_description calls the service at all. */
  predicate CallsService(client: bool, description: Json)
  {
    client && Truthy(description)
  }

  /** summarize_description(description) when the OpenRouter client is configured
      exactly when `client` holds and the call, if made, ends as `reply` says.
      `.strip()` on a None content raises inside the try, so it is caught too. */
  function Summarize(client: bool, description: Json, reply: CallOutcome): string
  {
    if !client then Unavailable
    else if !Truthy(description) then NoDescription
    else match reply
      case CallRaised => SummaryError
      case NoChoices => NoSummary
      case Choice(None) => SummaryError
      case Choice(Some(content)) => Text.Strip(content)
  }

  /** Without a client, or with a falsy description, no call is made: the
      summary is the same whatever the call would have given, and the client
      is checked first, so an empty description without a client is
      "Summarization unavailable.". */
  lemma NoCallNoDependence(client: bool, description: Json, a: CallOutcome, b: CallOutcome)
    requires !CallsService(client, description)
    ensures Summarize(client, description, a) == Summarize(client, description, b)
    ensures Summarize(client, description, a) == if client then NoDescription else Unavailable
  {
  }

  /** When the call is made, its outcome decides: no choices and a raised
      exception each have their own text, and a content is stripped of
      surrounding whitespace and kept otherwise as it is. */
  lemma CalledSummary(description: Json, reply: CallOutcome)
    requires CallsService(true, description)
    ensures var r := Summarize(true, description, reply);
      && (reply.NoChoices? ==> r == NoSummary)
      && (reply.CallRaised? || reply == Choice(None) ==> r == SummaryError)
      && (reply.Choice? && reply.content.Some? ==>
            var c := reply.content.value; var i := |c| - |Text.TrimStart(c)|;
            && r == c[i..i + |r|] && Text.AllSpace(c[..i]) && Text.AllSpace(c[i + |r|..])
            && (r == [] || (!Text.IsSpace(r[0]) && !Text.IsSpace(r[|r| - 1]))))
  {
    if reply.Choice? && reply.content.Some? {
      Text.StripSpec(reply.content.value);
    }
  }

  /** The summary never escapes as an exception: it is one of the four fixed
      texts or the stripped content of the reply. */
  lemma SummaryIsTotal(client: bool, description: Json, reply: CallOutcome)
    ensures var r := Summarize(client, description, reply);
      r in {Unavailable, NoDescription, NoSummary, SummaryError} ||
      (reply.Choice? && reply.content.Some? && r == Text.Strip(reply.content.value))
  {
  }
}
