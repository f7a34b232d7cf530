/** What a caller of a queue sees: the arguments it passed, call by call, and what each
    finished call returned. */
module Calls {
  import opened Core

  datatype Log<T> = Log(called: seq<T>, answers: seq<bool>)

  function NoCalls<T>(): Log<T> {
    Log([], [])
  }

  function Opened<T>(log: Log<T>, item: T): Log<T> {
    log.(called := log.called + [item])
  }

  function Closed<T>(log: Log<T>, answer: bool): Log<T> {
    log.(answers := log.answers + [answer])
  }

  /** No call is in progress. */
  predicate Quiet<T>(log: Log<T>) {
    |log.called| == |log.answers|
  }

  /** A call with this argument is in progress. */
  predicate Within<T(==)>(log: Log<T>, item: T) {
    |log.called| == |log.answers| + 1 && log.called[|log.answers|] == item
  }

  /** The arguments of the calls that returned true, in call order. */
  function Succeeded<T>(called: seq<T>, answers: seq<bool>): seq<T> {
    if answers == [] || |called| < |answers| then []
    else
      var last := |answers| - 1;
      Succeeded(called, answers[..last]) + (if answers[last] then [called[last]] else [])
  }

  lemma {:induction false} SucceededOpened<T>(called: seq<T>, answers: seq<bool>, item: T)
    requires |answers| <= |called|
    ensures Succeeded(called + [item], answers) == Succeeded(called, answers)
  {
    if answers != [] {
      SucceededOpened(called, answers[..|answers| - 1], item);
    }
  }

  lemma SucceededClosed<T>(called: seq<T>, answers: seq<bool>, answer: bool)
    requires |answers| < |called|
    ensures Succeeded(called, answers + [answer]) ==
            Succeeded(called, answers) + (if answer then [called[|answers|]] else [])
  {
    assert (answers + [answer])[..|answers|] == answers;
  }

  /** What the calls of a consumer gave, in call order. */
  function Received<T>(pops: seq<Option<T>>): seq<T> {
    if pops == [] then []
    else
      var last := |pops| - 1;
      Received(pops[..last]) + (if pops[last].Some? then [pops[last].value] else [])
  }

  lemma ReceivedAppend<T>(pops: seq<Option<T>>, pop: Option<T>)
    ensures Received(pops + [pop]) == Received(pops) + (if pop.Some? then [pop.value] else [])
  {
    assert (pops + [pop])[..|pops|] == pops;
  }
}
