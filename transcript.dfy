/**
 * The transcript of the chat client (the `messages` state of Frontend/src/App.jsx:100):
 * its entries, the shapes it takes between events, and the three ways it is rewritten.
 */
module Transcript {

  datatype Role = User | Assistant

  /** One transcript entry; `loading` marks the assistant placeholder awaiting an answer. */
  datatype Msg = Msg(id: int, role: Role, content: string, loading: bool)

  /** What a stopped placeholder reads (Frontend/src/App.jsx:176). */
  const StoppedText: string := "(stopped)"

  /** The fixed reply shown on an HTTP or network failure (Frontend/src/App.jsx:159). */
  const FallbackText: string :=
    "\U{26A0}\U{FE0F} Could not reach the server. Check the backend is running."

  /** No entry is loading. */
  predicate Settled(ms: seq<Msg>) {
    forall i :: 0 <= i < |ms| ==> !ms[i].loading
  }

  /** Exactly the last entry is loading, and it is an assistant entry. */
  predicate Awaiting(ms: seq<Msg>) {
    |ms| > 0 && ms[|ms| - 1].loading && ms[|ms| - 1].role == Assistant && Settled(ms[..|ms| - 1])
  }

  /** The role the i-th entry has: entries come in user/assistant pairs. */
  function RoleAt(i: nat): Role {
    if i % 2 == 0 then User else Assistant
  }

  /** The transcript is a sequence of complete user/assistant pairs. */
  predicate Paired(ms: seq<Msg>) {
    |ms| % 2 == 0 && forall i :: 0 <= i < |ms| ==> ms[i].role == RoleAt(i)
  }

  /**
   * The two entries an accepted submit appends: the question, then the empty loading
   * assistant placeholder. t0 and t1 are the two clock readings the ids come from.
   */
  function Exchange(question: string, t0: int, t1: int): (pair: seq<Msg>)
    ensures |pair| == 2
    ensures pair[0].role == User && pair[0].content == question && !pair[0].loading
    ensures pair[1].role == Assistant && pair[1].content == [] && pair[1].loading
  {
    [Msg(t0, User, question, false), Msg(t1 + 1, Assistant, [], true)]
  }

  /**
   * next[next.length - 1] = entry on a copy: only the last entry changes. On an empty
   * array the write at index -1 adds no element, so the transcript stays empty.
   */
  function ReplaceLast(ms: seq<Msg>, entry: Msg): (r: seq<Msg>)
    ensures |r| == |ms|
    ensures forall i :: 0 <= i < |ms| - 1 ==> r[i] == ms[i]
    ensures ms != [] ==> r[|ms| - 1] == entry
  {
    if ms == [] then ms else ms[|ms| - 1 := entry]
  }

  /**
   * handleStop's update: a loading last entry keeps its role and id and becomes a
   * non-loading "(stopped)" entry; any other transcript, the empty one included, is kept.
   */
  function Stopped(ms: seq<Msg>): (r: seq<Msg>)
    ensures |r| == |ms|
    ensures forall i :: 0 <= i < |ms| ==> r[i].role == ms[i].role && r[i].id == ms[i].id
    ensures forall i :: 0 <= i < |ms| - 1 ==> r[i] == ms[i]
    ensures ms != [] && ms[|ms| - 1].loading ==>
      r[|ms| - 1].content == StoppedText && !r[|ms| - 1].loading
    ensures !(ms != [] && ms[|ms| - 1].loading) ==> r == ms
  {
    if ms != [] && ms[|ms| - 1].loading then
      ms[|ms| - 1 := ms[|ms| - 1].(content := StoppedText, loading := false)]
    else ms
  }

  /** Appending an exchange to a settled, paired transcript keeps the earlier entries and awaits its answer. */
  lemma ExchangeAwaits(ms: seq<Msg>, question: string, t0: int, t1: int)
    requires Settled(ms) && Paired(ms)
    ensures var next := ms + Exchange(question, t0, t1);
      next[..|ms|] == ms && Awaiting(next) && Paired(next)
  {
  }

  /** Resolving an awaited placeholder with a non-loading assistant entry settles the transcript and keeps it paired. */
  lemma ResolveSettles(ms: seq<Msg>, entry: Msg)
    requires Awaiting(ms) || Settled(ms)
    requires Paired(ms)
    requires entry.role == Assistant && !entry.loading
    ensures Settled(ReplaceLast(ms, entry)) && Paired(ReplaceLast(ms, entry))
  {
  }

  /** Stopping settles an awaiting or settled transcript and keeps it paired. */
  lemma StoppedSettles(ms: seq<Msg>)
    requires Awaiting(ms) || Settled(ms)
    requires Paired(ms)
    ensures Settled(Stopped(ms)) && Paired(Stopped(ms))
  {
  }

  /** Stopping a second time changes nothing: a stop resolves the placeholder at most once. */
  lemma StoppedIdempotent(ms: seq<Msg>)
    ensures Stopped(Stopped(ms)) == Stopped(ms)
  {
  }
}
