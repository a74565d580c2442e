/** The reply waiter of the bridge (`waitForReply`): a bounded polling loop over the session
    log. Time is counted in poll ticks of 1500 ms; `logAt(file, t)` is the content of the
    session file as read on tick `t` (the log may grow between ticks). */
module ReplyWaiter {
  import opened Common
  import opened SessionLog

  const PollIntervalMs: int := 1500
  const DefaultMaxWaitMs: int := 60000

  /** The loop bound `Math.ceil(maxWaitMs / interval)`; no attempt at all when it is not
      positive. */
  function Attempts(maxWaitMs: int): (n: nat)
    ensures maxWaitMs <= 0 ==> n == 0
    ensures maxWaitMs > 0 ==> (n - 1) * PollIntervalMs < maxWaitMs <= n * PollIntervalMs
  {
    if maxWaitMs <= 0 then 0 else (maxWaitMs + PollIntervalMs - 1) / PollIntervalMs
  }

  /** Sixty seconds of waiting is forty polls. */
  lemma DefaultBudgetIsFortyPolls()
    ensures Attempts(DefaultMaxWaitMs) == 40
  {
  }

  /** `if (reply)`: an absent reply and an empty string both count as not found. */
  predicate Truthy(reply: Option<string>) {
    reply.Some? && reply.value != ""
  }

  /** The reply the reader returns on tick `t`. */
  function ReplyAt(logAt: (string, nat) -> seq<Option<Entry>>, file: string, after: int, t: nat): Option<string> {
    LatestReply(logAt(file, t), after)
  }

  /** The first tick in `[t, n)` whose read finds a reply. */
  function FirstHit(logAt: (string, nat) -> seq<Option<Entry>>, file: string, after: int, t: nat, n: nat): (r: Option<nat>)
    decreases n - t
    ensures r.Some? ==> t <= r.value < n && Truthy(ReplyAt(logAt, file, after, r.value))
    ensures r.Some? ==> forall u :: t <= u < r.value ==> !Truthy(ReplyAt(logAt, file, after, u))
    ensures r.None? ==> forall u :: t <= u < n ==> !Truthy(ReplyAt(logAt, file, after, u))
  {
    if t >= n then None
    else if Truthy(ReplyAt(logAt, file, after, t)) then Some(t)
    else FirstHit(logAt, file, after, t + 1, n)
  }

  /** What `waitForReply` returns: the reply of the first successful tick within the budget,
      or `None` (`null`) once every attempt came back empty. */
  function WaitResult(logAt: (string, nat) -> seq<Option<Entry>>, file: string, after: int, maxWaitMs: int): Option<string> {
    match FirstHit(logAt, file, after, 0, Attempts(maxWaitMs))
    case Some(t) => ReplyAt(logAt, file, after, t)
    case None => None
  }

  /** A found reply is never empty and was read within the budget; no reply means no tick of
      the budget saw one. */
  lemma WaitResultMeaning(logAt: (string, nat) -> seq<Option<Entry>>, file: string, after: int, maxWaitMs: int)
    ensures var r := WaitResult(logAt, file, after, maxWaitMs);
      && (r.Some? ==>
            && r.value != ""
            && exists t :: 0 <= t < Attempts(maxWaitMs) && r == ReplyAt(logAt, file, after, t))
      && (r.None? <==> forall t :: 0 <= t < Attempts(maxWaitMs) ==> !Truthy(ReplyAt(logAt, file, after, t)))
  {
  }

  /** `waitForReply`: sleep one interval, read, stop at the first reply; `polls` counts the
      polls made. */
  method WaitForReply(logAt: (string, nat) -> seq<Option<Entry>>, file: string, after: int, maxWaitMs: int)
    returns (reply: Option<string>, polls: nat)
    ensures reply == WaitResult(logAt, file, after, maxWaitMs)
    ensures polls <= Attempts(maxWaitMs)
    ensures reply.None? ==> polls == Attempts(maxWaitMs)
    ensures reply.Some? ==> polls == FirstHit(logAt, file, after, 0, Attempts(maxWaitMs)).value + 1
  {
    var n := Attempts(maxWaitMs);
    var i := 0;
    polls := 0;
    while i < n
      invariant 0 <= i <= n && polls == i
      invariant FirstHit(logAt, file, after, 0, n) == FirstHit(logAt, file, after, i, n)
    {
      var r := ReadLatestReply(logAt(file, i), after);
      polls := polls + 1;
      if r.Some? && r.value != "" {
        reply := r;
        return;
      }
      i := i + 1;
    }
    reply := None;
  }
}
