/**
 * Conversations played against the ChatSession contracts alone: each returns the final
 * transcript and busy flag, and its postcondition states what they must be.
 */
module Scenarios {
  import opened Wrappers
  import opened JsText
  import opened Gate
  import opened Attachments
  import opened Transcript
  import opened Chat

  /** Submit a question, the server answers: one settled pair, not busy. */
  method AnsweredExchange(question: string, answer: string) returns (transcript: seq<Msg>, busy: bool)
    requires question != [] && IsTrimmed(question)
    ensures transcript == [Msg(10, User, question, false), Msg(12, Assistant, answer, false)]
    ensures !busy
  {
    var s := new ChatSession();
    AcceptTrimmed(question);
    s.Submit(question, 10, 10);
    assert s.messages == [Msg(10, User, question, false), Msg(11, Assistant, [], true)] && s.loading;
    s.Complete(Reply(200, Some(answer)), 10);
    transcript, busy := s.messages, s.loading;
  }

  /** Submit and stop before the reply: the placeholder reads "(stopped)", and the late abort changes nothing. */
  method StoppedExchange(question: string) returns (transcript: seq<Msg>, busy: bool)
    requires question != [] && IsTrimmed(question)
    ensures transcript == [Msg(5, User, question, false), Msg(6, Assistant, StoppedText, false)]
    ensures !busy
  {
    var s := new ChatSession();
    AcceptTrimmed(question);
    s.Submit(question, 5, 5);
    s.Stop();
    var afterStop := s.messages;
    s.Complete(AbortError, 7);
    assert s.messages == afterStop;
    transcript, busy := s.messages, s.loading;
  }

  /**
   * Submit, then Stop after fetch resolved and the body was read: res.json() still resolves,
   * and the answer overwrites "(stopped)" as the code is written.
   */
  method LateAnswerAfterStop(question: string, answer: string) returns (transcript: seq<Msg>, busy: bool)
    requires question != [] && IsTrimmed(question)
    ensures transcript == [Msg(5, User, question, false), Msg(9, Assistant, answer, false)]
    ensures !busy
  {
    var s := new ChatSession();
    AcceptTrimmed(question);
    s.Submit(question, 5, 5);
    s.Stop();
    assert s.messages[1].content == StoppedText;
    s.Complete(Reply(200, Some(answer)), 7);
    transcript, busy := s.messages, s.loading;
  }

  /** The same order of events with the handler checking the signal: "(stopped)" stays. */
  method LateAnswerDiscarded(question: string, answer: string) returns (transcript: seq<Msg>, busy: bool)
    requires question != [] && IsTrimmed(question)
    ensures transcript == [Msg(5, User, question, false), Msg(6, Assistant, StoppedText, false)]
    ensures !busy
  {
    var s := new ChatSession();
    AcceptTrimmed(question);
    s.Submit(question, 5, 5);
    s.Stop();
    s.CompleteGuarded(Reply(200, Some(answer)), 7);
    transcript, busy := s.messages, s.loading;
  }

  /** Submit, the server answers with a non-ok status: the placeholder shows the fallback text. */
  method ServerErrorExchange(question: string, status: int) returns (transcript: seq<Msg>, busy: bool)
    requires question != [] && IsTrimmed(question)
    requires !(200 <= status <= 299)
    ensures transcript == [Msg(1, User, question, false), Msg(4, Assistant, FallbackText, false)]
    ensures !busy
  {
    var s := new ChatSession();
    AcceptTrimmed(question);
    s.Submit(question, 1, 1);
    s.Complete(Reply(status, None), 1);
    transcript, busy := s.messages, s.loading;
  }

  /** Submitting the empty text or whitespace changes nothing, not even the input box. */
  method BlankSubmissions(blank: string, typed: string) returns (transcript: seq<Msg>, busy: bool, text: string)
    requires IsBlank(blank)
    ensures transcript == [] && !busy && text == typed
  {
    var s := new ChatSession();
    s.SetInput(typed);
    s.Submit([], 0, 0);
    s.Submit(blank, 0, 0);
    transcript, busy, text := s.messages, s.loading, s.input;
  }

  /** A second submit before the first reply is rejected: only the first placeholder loads. */
  method SecondSubmitRejected(first: string, second: string) returns (transcript: seq<Msg>, busy: bool)
    requires first != [] && IsTrimmed(first)
    ensures transcript == [Msg(0, User, first, false), Msg(1, Assistant, [], true)]
    ensures busy
    ensures |set i | 0 <= i < |transcript| && transcript[i].loading| == 1
  {
    var s := new ChatSession();
    AcceptTrimmed(first);
    s.Submit(first, 0, 0);
    s.Submit(second, 3, 3);
    transcript, busy := s.messages, s.loading;
    assert (set i | 0 <= i < |transcript| && transcript[i].loading) == {1};
  }

  /** Whitespace around the question is trimmed before it is appended. */
  method TrimmedQuestion(pre: string, question: string, post: string) returns (transcript: seq<Msg>)
    requires IsBlank(pre) && IsBlank(post)
    requires question != [] && IsTrimmed(question)
    ensures transcript == [Msg(0, User, question, false), Msg(1, Assistant, [], true)]
  {
    var s := new ChatSession();
    AcceptTrimmed(question);
    AcceptUnpadded(pre, question, post, false);
    s.Submit(pre + question + post, 0, 0);
    transcript := s.messages;
  }

  /** Attach files to a typed input, then attach none, then submit: the question reads back the file names. */
  method AttachThenSubmit(typed: string, names: seq<string>) returns (question: string)
    requires typed != [] && IsTrimmed(typed)
    requires names != [] && forall j :: 0 <= j < |names| ==> !HasSep(names[j])
    ensures |question| > |typed| + 2
    ensures question[..|typed|] == typed && question[|typed|] == ' ' && question[|typed| + 1] == '['
    ensures Split(question[|typed| + 2..|question| - 1]) == names
  {
    var s := new ChatSession();
    s.SetInput(typed);
    s.AttachFiles(names);
    s.AttachFiles([]);
    var text := s.input;
    AttachRoundTrip(typed, names);
    assert text[0] == typed[0];
    AcceptTrimmed(text);
    s.Submit(s.input, 0, 0);
    question := s.messages[0].content;
  }
}
