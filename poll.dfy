/**
 * One poll cycle of connectAndFetchEmails (main.go), from the search result on:
 * an empty search ends the cycle before any fetch; otherwise the fetched messages
 * are processed one after the other, and a message whose processing ends the
 * process leaves every later message unprocessed.
 */
module Poll {
  import opened Completion
  import opened Responder

  /** How a cycle ends: the search matched nothing, or the fetched messages were processed
      (the sequence holds one result per message that was reached). */
  datatype Cycle = NothingFound | Ran(results: seq<Processed>)

  /** The messages in fetch order, stopping after the first one that ends the process. */
  function ProcessAll(msgs: seq<FetchedMessage>, service: Json -> Exchange): seq<Processed>
    decreases |msgs|
  {
    if msgs == [] then []
    else
      var p := Process(msgs[0], service);
      if p.outcome.Terminates() then [p] else [p] + ProcessAll(msgs[1..], service)
  }

  /** The cycle for the message ids the search found and the messages the fetch delivers. */
  function PollCycle(ids: seq<nat>, fetched: seq<FetchedMessage>, service: Json -> Exchange): Cycle
  {
    if |ids| == 0 then NothingFound else Ran(ProcessAll(fetched, service))
  }

  /** The consumer loop of connectAndFetchEmails. */
  method ConnectAndFetch(ids: seq<nat>, fetched: seq<FetchedMessage>, service: Json -> Exchange)
    returns (c: Cycle)
    ensures c == PollCycle(ids, fetched, service)
  {
    if |ids| == 0 {
      return NothingFound;
    }
    var results: seq<Processed> := [];
    var i := 0;
    while i < |fetched|
      invariant 0 <= i <= |fetched|
      invariant results + ProcessAll(fetched[i..], service) == ProcessAll(fetched, service)
    {
      var p := ProcessMessage(fetched[i], service);
      assert fetched[i..][1..] == fetched[i + 1..];
      results := results + [p];
      if p.outcome.Terminates() {
        return Ran(results);
      }
      i := i + 1;
    }
    assert fetched[i..] == [];
    return Ran(results);
  }

  /** Messages are processed in fetch order; all of them when none ends the process, and
      otherwise up to and including the first one that does, and none after it. */
  lemma {:induction false} ProcessAllInOrder(msgs: seq<FetchedMessage>, service: Json -> Exchange)
    ensures var r := ProcessAll(msgs, service);
            && |r| <= |msgs|
            && (forall i :: 0 <= i < |r| ==> r[i] == Process(msgs[i], service))
            && (forall i :: 0 <= i < |r| - 1 ==> !r[i].outcome.Terminates())
            && (|r| == |msgs| || r[|r| - 1].outcome.Terminates())
    decreases |msgs|
  {
    if msgs != [] {
      ProcessAllInOrder(msgs[1..], service);
    }
  }

  /** A message that ends the process is the last one processed in the cycle. */
  lemma StopsAtFirstTermination(msgs: seq<FetchedMessage>, service: Json -> Exchange, k: nat)
    requires k < |msgs| && Process(msgs[k], service).outcome.Terminates()
    requires forall j :: 0 <= j < k ==> !Process(msgs[j], service).outcome.Terminates()
    ensures |ProcessAll(msgs, service)| == k + 1
  {
    ProcessAllInOrder(msgs, service);
  }

  /** Skips, replies and failed sends never stop the cycle: when no message ends the
      process, every fetched message is processed. */
  lemma EveryMessageProcessed(msgs: seq<FetchedMessage>, service: Json -> Exchange)
    requires forall j :: 0 <= j < |msgs| ==> !Process(msgs[j], service).outcome.Terminates()
    ensures |ProcessAll(msgs, service)| == |msgs|
  {
    ProcessAllInOrder(msgs, service);
  }

  /** An empty search ends the cycle before any fetch: whatever a fetch would have
      delivered, nothing is processed, requested or sent. */
  lemma EmptySearchShortCircuits(fetched: seq<FetchedMessage>, service: Json -> Exchange)
    ensures PollCycle([], fetched, service) == NothingFound
  {
  }
}
