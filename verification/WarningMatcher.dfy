/** The ordered known-warning matcher of build_docs.py (`check_docs`): log messages
    are matched against the list of known warnings, never moving backwards in it. */
module WarningMatcher {

  datatype LogMessage = LogMessage(original: string, sanitized: string)

  // ----- specification -----

  // `where` sends each message to an equal known warning and never goes backwards.
  ghost predicate Explains(known: seq<string>, log: seq<LogMessage>, start: nat, where: seq<nat>) {
    && |where| == |log|
    && (forall i :: 0 <= i < |log| ==> start <= where[i] < |known| && known[where[i]] == log[i].sanitized)
    && (forall i, j :: 0 <= i < j < |log| ==> where[i] <= where[j])
  }

  ghost predicate Explainable(known: seq<string>, log: seq<LogMessage>, start: nat) {
    exists where :: Explains(known, log, start, where)
  }

  // ----- the matcher -----

  // `known.index(text, start)`; `|known|` stands for the ValueError.
  function IndexFrom(known: seq<string>, text: string, start: nat): (i: nat)
    requires start <= |known|
    ensures start <= i <= |known|
    ensures i < |known| ==> known[i] == text
    ensures text !in known[start..i]
    decreases |known| - start
  {
    if start == |known| then start
    else if known[start] == text then start
    else IndexFrom(known, text, start + 1)
  }

  function NewMessages(known: seq<string>, log: seq<LogMessage>, start: nat): seq<LogMessage>
    requires start <= |known|
    decreases |log|
  {
    if log == [] then [] else
      var i := IndexFrom(known, log[0].sanitized, start);
      if i < |known| then NewMessages(known, log[1..], i)
      else [log[0]] + NewMessages(known, log[1..], start)
  }

  lemma {:induction false} AllMatchedIsExplained(known: seq<string>, log: seq<LogMessage>, start: nat)
    requires start <= |known| && NewMessages(known, log, start) == []
    ensures Explainable(known, log, start)
    decreases |log|
  {
    if log == [] {
      assert Explains(known, log, start, []);
    } else {
      var i := IndexFrom(known, log[0].sanitized, start);
      AllMatchedIsExplained(known, log[1..], i);
      var rest :| Explains(known, log[1..], i, rest);
      assert Explains(known, log, start, [i] + rest);
    }
  }

  // The exchange step: the greedy choice is never later than anybody else's.
  lemma {:induction false} ExplainedIsMatched(known: seq<string>, log: seq<LogMessage>, start: nat, where: seq<nat>)
    requires start <= |known| && Explains(known, log, start, where)
    ensures NewMessages(known, log, start) == []
    decreases |log|
  {
    if log != [] {
      var i := IndexFrom(known, log[0].sanitized, start);
      assert i <= where[0];
      assert Explains(known, log[1..], i, where[1..]);
      ExplainedIsMatched(known, log[1..], i, where[1..]);
    }
  }

  // Nothing is reported if and only if some non-decreasing map explains the log.
  lemma NoNewMessagesIff(known: seq<string>, log: seq<LogMessage>, start: nat)
    requires start <= |known|
    ensures NewMessages(known, log, start) == [] <==> Explainable(known, log, start)
  {
    if Explainable(known, log, start) {
      var where :| Explains(known, log, start, where);
      ExplainedIsMatched(known, log, start, where);
    } else if NewMessages(known, log, start) == [] {
      AllMatchedIsExplained(known, log, start);
    }
  }

  lemma {:induction false} PrefixReportsPrefix(known: seq<string>, log: seq<LogMessage>, start: nat, k: nat)
    requires start <= |known| && k <= |log|
    ensures NewMessages(known, log[..k], start) <= NewMessages(known, log, start)
    decreases |log|
  {
    if k > 0 {
      var i := IndexFrom(known, log[0].sanitized, start);
      assert log[..k][1..] == log[1..][..k - 1];
      PrefixReportsPrefix(known, log[1..], if i < |known| then i else start, k - 1);
    }
  }

  lemma {:induction false} FirstReport(known: seq<string>, log: seq<LogMessage>, start: nat) returns (k: nat)
    requires start <= |known| && NewMessages(known, log, start) != []
    ensures k < |log| && log[k] == NewMessages(known, log, start)[0]
    ensures NewMessages(known, log[..k], start) == []
    ensures NewMessages(known, log[..k + 1], start) != []
    decreases |log|
  {
    var i := IndexFrom(known, log[0].sanitized, start);
    if i < |known| {
      k := FirstReport(known, log[1..], i);
      k := k + 1;
      assert log[..k][1..] == log[1..][..k - 1];
      assert log[..k + 1][1..] == log[1..][..k];
    } else {
      k := 0;
    }
  }

  // The first message reported is the one at which the log stops being explainable.
  lemma FirstReportIsFirstUnexplained(known: seq<string>, log: seq<LogMessage>) returns (k: nat)
    requires NewMessages(known, log, 0) != []
    ensures k < |log| && log[k] == NewMessages(known, log, 0)[0]
    ensures forall n :: 0 <= n <= |log| ==> (Explainable(known, log[..n], 0) <==> n <= k)
  {
    k := FirstReport(known, log, 0);
    forall n | 0 <= n <= |log| ensures Explainable(known, log[..n], 0) <==> n <= k {
      NoNewMessagesIff(known, log[..n], 0);
      if n <= k {
        assert log[..k][..n] == log[..n];
        PrefixReportsPrefix(known, log[..k], 0, n);
      } else {
        assert log[..n][..k + 1] == log[..k + 1];
        PrefixReportsPrefix(known, log[..n], 0, k + 1);
      }
    }
  }

  // ----- what is reported after the first message -----

  // The messages that are explained: each one as soon as it can follow those before it.
  ghost function Kept(known: seq<string>, log: seq<LogMessage>): seq<LogMessage> {
    if log == [] then []
    else
      var kept, m := Kept(known, log[..|log| - 1]), log[|log| - 1];
      if Explainable(known, kept + [m], 0) then kept + [m] else kept
  }

  // The messages that cannot follow the explained ones before them.
  ghost function Unexplained(known: seq<string>, log: seq<LogMessage>): seq<LogMessage> {
    if log == [] then []
    else
      var init, m := log[..|log| - 1], log[|log| - 1];
      Unexplained(known, init) + if Explainable(known, Kept(known, init) + [m], 0) then [] else [m]
  }

  // Where the search stands after a log.
  function Reached(known: seq<string>, log: seq<LogMessage>, start: nat): (i: nat)
    requires start <= |known|
    ensures i <= |known|
    decreases |log|
  {
    if log == [] then start
    else
      var i := IndexFrom(known, log[0].sanitized, start);
      Reached(known, log[1..], if i < |known| then i else start)
  }

  lemma {:induction false} ReachedAppends(known: seq<string>, log: seq<LogMessage>, m: LogMessage, start: nat)
    requires start <= |known|
    ensures var r := Reached(known, log, start);
            var i := IndexFrom(known, m.sanitized, r);
            && Reached(known, log + [m], start) == (if i < |known| then i else r)
            && NewMessages(known, log + [m], start) == NewMessages(known, log, start) + if i < |known| then [] else [m]
    decreases |log|
  {
    if log == [] {
      assert log + [m] == [m] && [m][1..] == [];
    } else {
      var i := IndexFrom(known, log[0].sanitized, start);
      assert (log + [m])[1..] == log[1..] + [m];
      ReachedAppends(known, log[1..], m, if i < |known| then i else start);
    }
  }

  // The explained messages are matched, and leave the search where the whole log does.
  lemma {:induction false} KeptReaches(known: seq<string>, log: seq<LogMessage>)
    ensures NewMessages(known, Kept(known, log), 0) == []
    ensures Reached(known, Kept(known, log), 0) == Reached(known, log, 0)
    ensures NewMessages(known, log, 0) == Unexplained(known, log)
    decreases |log|
  {
    if log != [] {
      var init, m := log[..|log| - 1], log[|log| - 1];
      var kept := Kept(known, init);
      assert log == init + [m];
      KeptReaches(known, init);
      ReachedAppends(known, init, m, 0);
      ReachedAppends(known, kept, m, 0);
      NoNewMessagesIff(known, kept + [m], 0);
    }
  }

  // A message is reported if and only if it cannot follow the messages explained before it.
  lemma ReportsAreUnexplained(known: seq<string>, log: seq<LogMessage>)
    ensures NewMessages(known, log, 0) == Unexplained(known, log)
    ensures Explainable(known, Kept(known, log), 0)
  {
    KeptReaches(known, log);
    NoNewMessagesIff(known, Kept(known, log), 0);
  }

  method CheckDocs(known: seq<string>, log: seq<LogMessage>) returns (unknown: seq<LogMessage>)
    ensures unknown == NewMessages(known, log, 0)
    ensures unknown == [] <==> Explainable(known, log, 0)
    ensures unknown == Unexplained(known, log)
  {
    unknown := [];
    var knownIdx := 0;
    for n := 0 to |log|
      invariant 0 <= knownIdx <= |known|
      invariant NewMessages(known, log, 0) == unknown + NewMessages(known, log[n..], knownIdx)
    {
      assert log[n..][0] == log[n] && log[n..][1..] == log[n + 1..];
      var i := knownIdx;
      while i < |known| && known[i] != log[n].sanitized
        invariant knownIdx <= i <= |known|
        invariant IndexFrom(known, log[n].sanitized, knownIdx) == IndexFrom(known, log[n].sanitized, i)
      {
        i := i + 1;
      }
      if i < |known| {
        knownIdx := i;
      } else {
        unknown := unknown + [log[n]];
      }
    }
    NoNewMessagesIff(known, log, 0);
    ReportsAreUnexplained(known, log);
  }
}
