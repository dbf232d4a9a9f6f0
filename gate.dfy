/**
 * The submission gate of the chat client (Frontend/src/App.jsx:122-124) and the
 * Send button's enabled state (Frontend/src/App.jsx:261-263).
 */
module Gate {
  import opened Wrappers
  import opened JsText

  /**
   * The question handleSubmit goes on with, or None when it returns early: the text
   * trimmed, rejected when nothing is left or while a request is loading.
   */
  function Accept(text: string, loading: bool): (r: Option<string>)
    ensures r.Some? <==> !loading && !IsBlank(text)
    ensures r.Some? ==> r.value == Trim(text) && r.value != [] && IsTrimmed(r.value)
  {
    var question := Trim(text);
    if question == [] || loading then None else Some(question)
  }

  /** The Send button is enabled, and styled active, when the input has something besides whitespace. */
  predicate SendEnabled(input: string): (r: bool)
    ensures r <==> !IsBlank(input)
  {
    Trim(input) != []
  }

  /** Whenever the Send button is shown (nothing loading), it is enabled exactly when a click would be accepted. */
  lemma SendEnabledIffAccepted(input: string)
    ensures SendEnabled(input) <==> Accept(input, false).Some?
  {
  }

  /** Accepting is insensitive to surrounding whitespace, and an accepted question passes the gate again unchanged. */
  lemma AcceptUnpadded(pre: string, text: string, post: string, loading: bool)
    requires IsBlank(pre) && IsBlank(post)
    requires Accept(text, loading).Some?
    ensures Accept(pre + Accept(text, loading).value + post, loading) == Accept(text, loading)
  {
    var q := Accept(text, loading).value;
    TrimUnpad(pre, q, post);
  }

  /** A non-empty question without surrounding whitespace is accepted as it is whenever nothing is loading. */
  lemma AcceptTrimmed(question: string)
    requires question != [] && IsTrimmed(question)
    ensures Accept(question, false) == Some(question)
  {
    assert [] + question + [] == question;
    TrimUnpad([], question, []);
  }
}
