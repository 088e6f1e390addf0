/** Streamed chat completions: retrying before anything was emitted, then collecting the chunks. */
module LlmStream {
  import opened Wrappers
  import opened ToolCalls

  // ---- Retrying ------------------------------------------------------------

  datatype Ending = Completed | NetworkError | OtherError

  /** What one call of the endpoint would do: the chunks it yields and how it ends. */
  datatype Attempt<T> = Attempt(chunks: seq<T>, ending: Ending)

  /** What the consumer of the retrying stream sees, after `used` attempts. */
  datatype Outcome<T> = Outcome(chunks: seq<T>, ending: Ending, used: nat)

  /** An attempt that failed on the network before it emitted anything. */
  predicate Retryable<T>(attempt: Attempt<T>) {
    |attempt.chunks| == 0 && attempt.ending == NetworkError
  }

  /** The decisive attempt is the first that may not be retried, or the last one allowed. */
  ghost predicate Decisive<T>(attempts: seq<Attempt<T>>, maxAttempts: nat, k: nat)
    requires maxAttempts <= |attempts|
  {
    && k < maxAttempts
    && (forall j :: 0 <= j < k ==> Retryable(attempts[j]))
    && (k == maxAttempts - 1 || !Retryable(attempts[k]))
  }

  /** Without any attempt the stream is empty; otherwise it is that of the decisive attempt. */
  ghost predicate Streams<T>(attempts: seq<Attempt<T>>, maxAttempts: nat, outcome: Outcome<T>)
    requires maxAttempts <= |attempts|
  {
    if maxAttempts == 0 then outcome == Outcome([], Completed, 0)
    else
      && outcome.used > 0
      && Decisive(attempts, maxAttempts, outcome.used - 1)
      && outcome.chunks == attempts[outcome.used - 1].chunks
      && outcome.ending == attempts[outcome.used - 1].ending
  }

  /** Attempt after attempt, chunk after chunk, as the generator runs. */
  method RetryLlm<T>(attempts: seq<Attempt<T>>, maxAttempts: nat) returns (outcome: Outcome<T>)
    requires maxAttempts <= |attempts|
    ensures Streams(attempts, maxAttempts, outcome)
  {
    var yielded: seq<T> := [];
    for attempt := 0 to maxAttempts
      invariant |yielded| == 0
      invariant forall j :: 0 <= j < attempt ==> Retryable(attempts[j])
      invariant attempt == 0 || attempt < maxAttempts
    {
      var emitted := false;
      var call := attempts[attempt];
      for i := 0 to |call.chunks|
        invariant yielded == call.chunks[..i]
        invariant emitted <==> i > 0
      {
        emitted := true;
        yielded := yielded + [call.chunks[i]];
      }
      assert call.chunks[..|call.chunks|] == call.chunks;
      if call.ending == Completed || emitted || attempt >= maxAttempts - 1 || call.ending != NetworkError {
        return Outcome(yielded, call.ending, attempt + 1);
      }
    }
    outcome := Outcome([], Completed, 0);
  }

  lemma DecisiveUnique<T>(attempts: seq<Attempt<T>>, maxAttempts: nat, j: nat, k: nat)
    requires maxAttempts <= |attempts|
    requires Decisive(attempts, maxAttempts, j) && Decisive(attempts, maxAttempts, k)
    ensures j == k
  {
  }

  /** There is one decisive attempt, so the attempts determine the whole stream. */
  lemma StreamIsDetermined<T>(attempts: seq<Attempt<T>>, maxAttempts: nat, first: Outcome<T>, second: Outcome<T>)
    requires maxAttempts <= |attempts|
    requires Streams(attempts, maxAttempts, first) && Streams(attempts, maxAttempts, second)
    ensures first == second
  {
    if maxAttempts > 0 {
      DecisiveUnique(attempts, maxAttempts, first.used - 1, second.used - 1);
    }
  }

  /** A stream completes exactly when some attempt does after silent network failures only. */
  lemma CompletesIff<T>(attempts: seq<Attempt<T>>, maxAttempts: nat, outcome: Outcome<T>)
    requires 0 < maxAttempts <= |attempts| && Streams(attempts, maxAttempts, outcome)
    ensures outcome.used <= maxAttempts
    ensures outcome.ending == Completed
       <==> exists k :: 0 <= k < maxAttempts && attempts[k].ending == Completed
                        && forall j :: 0 <= j < k ==> Retryable(attempts[j])
    ensures outcome.ending == Completed ==> outcome.chunks == attempts[outcome.used - 1].chunks
  {
    if k: nat :| 0 <= k < maxAttempts && attempts[k].ending == Completed
                 && forall j :: 0 <= j < k ==> Retryable(attempts[j]) {
      DecisiveUnique(attempts, maxAttempts, outcome.used - 1, k);
    }
  }

  // ---- Collecting the chunks -----------------------------------------------

  /** One streamed delta; some carry the token usage. */
  datatype Delta = Delta(usage: bool, content: string, toolCalls: seq<Fragment>)

  function AllFragments(deltas: seq<Delta>): seq<Fragment> {
    if deltas == [] then [] else AllFragments(deltas[..|deltas| - 1]) + deltas[|deltas| - 1].toolCalls
  }

  function Collected(deltas: seq<Delta>): seq<Fragment> {
    if deltas == [] then []
    else Collected(deltas[..|deltas| - 1])
         + if deltas[|deltas| - 1].usage then [] else deltas[|deltas| - 1].toolCalls
  }

  method CollectFragments(deltas: seq<Delta>) returns (fragments: seq<Fragment>)
    ensures fragments == Collected(deltas)
  {
    fragments := [];
    for n := 0 to |deltas|
      invariant fragments == Collected(deltas[..n])
    {
      assert deltas[..n + 1][..n] == deltas[..n];
      if deltas[n].usage {
        continue;
      }
      fragments := fragments + deltas[n].toolCalls;
    }
    assert deltas[..|deltas|] == deltas;
  }

  predicate UsageAlone(deltas: seq<Delta>) {
    forall i :: 0 <= i < |deltas| && deltas[i].usage ==> deltas[i].toolCalls == []
  }

  /** No fragment is lost exactly when deltas that carry usage carry no fragment. */
  lemma {:induction false} CollectedIsAll(deltas: seq<Delta>)
    ensures Collected(deltas) == AllFragments(deltas) <==> UsageAlone(deltas)
    ensures |Collected(deltas)| <= |AllFragments(deltas)|
  {
    if deltas != [] {
      var init, last := deltas[..|deltas| - 1], deltas[|deltas| - 1];
      CollectedIsAll(init);
      assert deltas == init + [last];
      assert UsageAlone(deltas) <==> UsageAlone(init) && (last.usage ==> last.toolCalls == []);
      if Collected(deltas) == AllFragments(deltas) {
        assert last.usage ==> |last.toolCalls| == 0;
        assert Collected(init) == Collected(deltas)[..|Collected(init)|];
        assert AllFragments(init) == AllFragments(deltas)[..|AllFragments(init)|];
      }
    }
  }

  /** It does happen: a delta that reports usage and carries the only fragment loses it. */
  lemma UsageLosesFragment(f: Fragment)
    ensures Collected([Delta(true, "", [f])]) == [] && AllFragments([Delta(true, "", [f])]) == [f]
  {
    var deltas := [Delta(true, "", [f])];
    assert deltas[..0] == [] && AllFragments([]) == [] && Collected([]) == [];
  }

  /** The tool calls of a completed stream in index order, or nothing when it raised. */
  method StreamToolCalls(attempts: seq<Attempt<Delta>>, maxAttempts: nat)
    returns (response: Option<seq<Call>>, stream: Outcome<Delta>)
    requires maxAttempts <= |attempts|
    ensures Streams(attempts, maxAttempts, stream)
    ensures response.Some? <==> stream.ending == Completed
    ensures response.Some? ==> Ordered(response.value, Merged(Collected(stream.chunks)))
  {
    stream := RetryLlm(attempts, maxAttempts);
    if stream.ending != Completed {
      return None, stream;
    }
    var fragments := CollectFragments(stream.chunks);
    var calls := MergeStreamToolCalls(fragments);
    response := Some(calls);
  }

  /**
   The completing attempt spelled out the calls, cut and interleaved in any way: they come back
   whole, however many silent network failures came before.
  */
  lemma CallsComeBackWhole(attempts: seq<Attempt<Delta>>, maxAttempts: nat, outcome: Outcome<Delta>,
                           calls: map<int, Call>)
    requires 0 < maxAttempts <= |attempts| && Streams(attempts, maxAttempts, outcome)
    requires outcome.ending == Completed && UsageAlone(attempts[outcome.used - 1].chunks)
    requires forall index :: index in calls ==>
               Fragments(Of(AllFragments(attempts[outcome.used - 1].chunks), index), calls[index])
    requires forall index :: index !in calls ==> Of(AllFragments(attempts[outcome.used - 1].chunks), index) == []
    ensures Merged(Collected(outcome.chunks)) == calls
  {
    CollectedIsAll(outcome.chunks);
    InterleavingsMergeBack(AllFragments(outcome.chunks), calls);
  }
}
