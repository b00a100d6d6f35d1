/** The provider client's one stateful behaviour: the bounded retry loop of
    `get_all_event_types`. The replies the provider would give to successive
    attempts are a parameter; the waits the loop asks for are returned. */
module ProviderClient {
  import opened Common
  import opened Outcomes

  /** `max_retries`: at most three attempts. */
  const MaxRetries: nat := 3

  /** The back-off after failed attempt `k` (counting from 0) is
      `0.5 * (k + 1)` seconds, kept here in milliseconds. */
  const BackoffStepMillis: int := 500

  /** The catalog owner whose event types are listed. */
  const Username: string := "tommyjtl"

  /** The reply that stands for an exception on the final attempt. */
  function ErrorReply<D>(message: string): Response<D> {
    Response(Some(message), Some("error"), None, None)
  }

  /** A reply without an `error` key ends the loop. */
  predicate Succeeded<D>(a: Attempt<Response<D>>) {
    a.Returned? && a.reply.error.None?
  }

  /** The loop's result: the reply returned, how many attempts were made,
      and the waits requested between attempts. */
  datatype Retried<D> = Retried(reply: Response<D>, attempts: nat, delays: seq<int>)

  function Sum(s: seq<int>): int
    decreases |s|
  {
    if |s| == 0 then 0 else s[0] + Sum(s[1..])
  }

  /** What the final attempt gives when every attempt failed: its reply, or
      `{status: "error", error: <message>}` if it threw. */
  function LastResort<D>(a: Attempt<Response<D>>): Response<D> {
    match a
    case Returned(reply) => reply
    case Threw(message) => ErrorReply(message)
  }

  /** The loop from attempt `attempt` on. */
  function RetryFrom<D>(replies: seq<Attempt<Response<D>>>, attempt: nat): (r: Retried<D>)
    requires attempt < MaxRetries == |replies|
    ensures attempt < r.attempts <= MaxRetries
    ensures |r.delays| == r.attempts - 1 - attempt
    ensures forall i :: 0 <= i < |r.delays| ==> r.delays[i] == BackoffStepMillis * (attempt + i + 1)
    ensures forall i :: attempt <= i < r.attempts - 1 ==> !Succeeded(replies[i])
    ensures Succeeded(replies[r.attempts - 1]) ==> r.reply == replies[r.attempts - 1].reply
    ensures !Succeeded(replies[r.attempts - 1]) ==>
              r.attempts == MaxRetries && r.reply == LastResort(replies[MaxRetries - 1])
    decreases MaxRetries - attempt
  {
    var failedBeforeLast := attempt < MaxRetries - 1;
    match replies[attempt]
    case Returned(reply) =>
      if reply.error.None? || !failedBeforeLast then Retried(reply, attempt + 1, [])
      else
        var rest := RetryFrom(replies, attempt + 1);
        rest.(delays := [BackoffStepMillis * (attempt + 1)] + rest.delays)
    case Threw(message) =>
      if !failedBeforeLast then Retried(ErrorReply(message), attempt + 1, [])
      else
        var rest := RetryFrom(replies, attempt + 1);
        rest.(delays := [BackoffStepMillis * (attempt + 1)] + rest.delays)
  }

  /** `get_all_event_types`: the first reply without an `error` key, after
      waiting 0.5 s and then 1 s between failed attempts; after three
      failures, the last reply (or an error reply if the last attempt threw). */
  function GetAllEventTypes(replies: seq<Attempt<CatalogResponse>>): (r: Retried<seq<EventType>>)
    requires |replies| == MaxRetries
    ensures 1 <= r.attempts <= MaxRetries
    ensures forall k :: 0 <= k < r.attempts - 1 ==> !Succeeded(replies[k])
    ensures forall k :: 0 <= k < MaxRetries && Succeeded(replies[k]) && (forall j :: 0 <= j < k ==> !Succeeded(replies[j])) ==>
              r.attempts == k + 1 && r.reply == replies[k].reply
    ensures (forall k :: 0 <= k < MaxRetries ==> !Succeeded(replies[k])) ==>
              r.attempts == MaxRetries && r.reply == LastResort(replies[MaxRetries - 1])
    ensures |r.delays| == r.attempts - 1
    ensures forall i :: 0 <= i < |r.delays| ==> r.delays[i] == BackoffStepMillis * (i + 1)
    ensures Sum(r.delays) <= 3 * BackoffStepMillis
  {
    var r := RetryFrom(replies, 0);
    BackoffTotal(r.delays);
    r
  }

  lemma BackoffTotal(delays: seq<int>)
    requires |delays| < MaxRetries
    requires forall i :: 0 <= i < |delays| ==> delays[i] == BackoffStepMillis * (i + 1)
    ensures Sum(delays) <= 3 * BackoffStepMillis
  {
    if |delays| == 2 {
      assert delays[1..][1..] == [];
    } else if |delays| == 1 {
      assert delays[1..] == [];
    }
  }

  /** The calls a retry run issued: one catalog request per attempt. */
  function CatalogCalls(attempts: nat): (calls: seq<Call>)
    ensures |calls| == attempts
    ensures forall i :: 0 <= i < attempts ==> calls[i] == ListEventTypes(Username)
  {
    seq(attempts, _ => ListEventTypes(Username))
  }
}
