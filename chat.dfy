/**
 * The message-exchange state machine of App (Frontend/src/App.jsx:98-180): the input box,
 * the transcript, the `loading` flag and the abort handle, and the events that change them.
 */
module Chat {
  import opened Wrappers
  import opened Gate
  import opened Attachments
  import opened Transcript

  /** The AbortController of one request; `aborted` is its signal's state. */
  class AbortController {
    var aborted: bool

    constructor ()
      ensures !aborted
    {
      aborted := false;
    }

    /** controller.abort(): signals the request; a second call has no further effect. */
    method Abort()
      modifies this
      ensures aborted
    {
      aborted := true;
    }
  }

  /** How the awaited request ended, as the network layer reports it. */
  datatype Outcome =
    | Reply(status: int, body: Option<string>)  // a response; body None when res.json() rejects
    | NetworkError                             // fetch rejected with an error other than an abort
    | AbortError                               // fetch or res.json() rejected because the signal was aborted

  /** Which branch of handleSubmit's try/catch an outcome takes. */
  datatype Event = Answered(answer: string) | Failed | Abandoned

  /**
   * A response is an answer only with an ok status (200-299) and a readable body; an abort
   * is abandoned; every other outcome is a failure (Frontend/src/App.jsx:145-146, 153-154).
   */
  function Classify(o: Outcome): (e: Event)
    ensures e.Answered? <==> o.Reply? && 200 <= o.status <= 299 && o.body.Some?
    ensures e.Answered? ==> e.answer == o.body.value
    ensures e.Abandoned? <==> o.AbortError?
  {
    match o
    case Reply(status, body) =>
      if !(200 <= status <= 299) then Failed
      else if body.None? then Failed
      else Answered(body.value)
    case NetworkError => Failed
    case AbortError => Abandoned
  }

  class ChatSession {
    var input: string
    var messages: seq<Msg>
    var loading: bool
    /** abortRef.current: the controller of the request whose handler has not yet finished. */
    var abortRef: AbortController?

    /** No request: nothing loads. */
    ghost predicate Idle()
      reads this
    {
      abortRef == null && !loading && Settled(messages)
    }

    /** A request awaits its outcome: loading, and exactly the last entry, an assistant one, is loading. */
    ghost predicate InFlight()
      reads this, abortRef
    {
      abortRef != null && !abortRef.aborted && loading && Awaiting(messages)
    }

    /** Stop has run, the aborted request's handler has not: nothing loads, the handle is still set. */
    ghost predicate Stopping()
      reads this, abortRef
    {
      abortRef != null && abortRef.aborted && !loading && Settled(messages)
    }

    ghost predicate Valid()
      reads this, abortRef
    {
      Paired(messages) && (Idle() || InFlight() || Stopping())
    }

    constructor ()
      ensures Valid() && Idle()
      ensures input == [] && messages == []
    {
      input := [];
      messages := [];
      loading := false;
      abortRef := null;
    }

    /**
     * handleSubmit(text) up to its await: a blank text, or one given while loading, changes
     * nothing; otherwise the input is cleared, the question and a loading placeholder are
     * appended, loading is set and a fresh controller is stored. t0 and t1 are the readings
     * of Date.now() for the two new ids. The model assumes an aborted request's handler has
     * finished before the next submit (not Stopping()). That holds while fetch is pending,
     * where abort() rejects it and the handler runs in a microtask; it need not hold once
     * fetch has resolved and res.json() is still reading the body.
     */
    method Submit(text: string, t0: int, t1: int)
      requires Valid() && !Stopping()
      modifies this
      ensures Valid()
      ensures match Accept(text, old(loading))
        case None =>
          input == old(input) && messages == old(messages)
          && loading == old(loading) && abortRef == old(abortRef)
        case Some(question) =>
          && input == []
          && messages == old(messages) + Exchange(question, t0, t1)
          && loading && abortRef != null && fresh(abortRef) && InFlight()
    {
      var accepted := Accept(text, loading);
      if accepted.None? {
        return;
      }
      var question := accepted.value;
      ExchangeAwaits(messages, question, t0, t1);
      input := [];
      messages := messages + Exchange(question, t0, t1);
      loading := true;
      var controller := new AbortController();
      abortRef := controller;
    }

    /**
     * The response was ok and its body read: the last entry becomes the answer; the request
     * is over. The handler does not look at the controller, so after Stop (Stopping()) the
     * answer replaces "(stopped)".
     */
    method CompleteSuccess(answer: string, t: int)
      requires Valid() && abortRef != null
      modifies this
      ensures Valid() && Idle()
      ensures messages == ReplaceLast(old(messages), Msg(t + 2, Assistant, answer, false))
      ensures input == old(input)
    {
      ResolveSettles(messages, Msg(t + 2, Assistant, answer, false));
      messages := ReplaceLast(messages, Msg(t + 2, Assistant, answer, false));
      loading := false;
      abortRef := null;
    }

    /** A non-ok status or an error other than an abort: the last entry becomes the fallback text. */
    method CompleteFailure(t: int)
      requires Valid() && abortRef != null
      modifies this
      ensures Valid() && Idle()
      ensures messages == ReplaceLast(old(messages), Msg(t + 3, Assistant, FallbackText, false))
      ensures input == old(input)
    {
      ResolveSettles(messages, Msg(t + 3, Assistant, FallbackText, false));
      messages := ReplaceLast(messages, Msg(t + 3, Assistant, FallbackText, false));
      loading := false;
      abortRef := null;
    }

    /** The aborted request's handler: the catch returns early, so only the finally runs. */
    method CompleteAbort()
      requires Valid() && Stopping()
      modifies this
      ensures Valid() && Idle()
      ensures messages == old(messages) && input == old(input)
    {
      loading := false;
      abortRef := null;
    }

    /**
     * The rest of handleSubmit once the request settles; t is the reading of Date.now() for
     * the new id. An abort error comes only from Stop's abort(). An aborted request can still
     * settle with a reply: when Stop runs after fetch resolved and the body was fully read,
     * res.json() resolves all the same.
     */
    method Complete(o: Outcome, t: int)
      requires Valid() && abortRef != null
      requires o.AbortError? ==> abortRef.aborted
      modifies this
      ensures Valid() && Idle() && input == old(input)
      ensures match Classify(o)
        case Answered(answer) => messages == ReplaceLast(old(messages), Msg(t + 2, Assistant, answer, false))
        case Failed => messages == ReplaceLast(old(messages), Msg(t + 3, Assistant, FallbackText, false))
        case Abandoned => messages == old(messages)
    {
      match Classify(o)
      case Answered(answer) => CompleteSuccess(answer, t);
      case Failed => CompleteFailure(t);
      case Abandoned => CompleteAbort();
    }

    /**
     * Complete with a check of controller.signal.aborted before writing, which handleSubmit
     * lacks (see Findings in README): a stopped request leaves the transcript as Stop made it.
     */
    method CompleteGuarded(o: Outcome, t: int)
      requires Valid() && abortRef != null
      requires o.AbortError? ==> abortRef.aborted
      modifies this
      ensures Valid() && Idle() && input == old(input)
      ensures old(abortRef.aborted) ==> messages == old(messages)
      ensures !old(abortRef.aborted) ==> match Classify(o)
        case Answered(answer) => messages == ReplaceLast(old(messages), Msg(t + 2, Assistant, answer, false))
        case Failed => messages == ReplaceLast(old(messages), Msg(t + 3, Assistant, FallbackText, false))
        case Abandoned => messages == old(messages)
    {
      if abortRef.aborted {
        CompleteAbort();
      } else {
        Complete(o, t);
      }
    }

    /**
     * handleStop: aborts the stored controller if there is one, clears loading and turns a
     * loading last entry into "(stopped)". With nothing loading the transcript is unchanged.
     */
    method Stop()
      requires Valid()
      modifies this, abortRef
      ensures Valid() && !loading
      ensures abortRef == old(abortRef) && (abortRef != null ==> abortRef.aborted)
      ensures messages == Stopped(old(messages)) && input == old(input)
      ensures !old(loading) ==> messages == old(messages)
    {
      if abortRef != null {
        abortRef.Abort();
      }
      StoppedSettles(messages);
      loading := false;
      messages := Stopped(messages);
    }

    /** The textarea's onChange: the input box takes the typed text; nothing else changes. */
    method SetInput(text: string)
      requires Valid()
      modifies this
      ensures Valid() && input == text
      ensures messages == old(messages) && loading == old(loading) && abortRef == old(abortRef)
    {
      input := text;
    }

    /** handleFileChange: the chosen file names are appended to the input in brackets. */
    method AttachFiles(names: seq<string>)
      requires Valid()
      modifies this
      ensures Valid()
      ensures input == Attach(old(input), names)
      ensures messages == old(messages) && loading == old(loading) && abortRef == old(abortRef)
    {
      input := Attach(input, names);
    }
  }
}
