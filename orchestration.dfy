/** The message handler of the bridge (`handleWecomMessage`): wake the agent, find its
    session file, wait for the reply and relay it, answering the user with a fixed text at
    each point of failure.

    The world outside the bridge is given as parameters: `wake` says whether the wake-up
    request is accepted (the HTTP call does not throw), `listing` is the sessions directory as
    read after the two-second pause, `logAt` the session log as read on each poll tick, and
    `sendTime` the moment the message arrived, in milliseconds. */
module Orchestration {
  import opened Common
  import opened SessionLog
  import opened ReplyWaiter
  import opened Delivery

  /** The request sent to the agent's `/hooks/wake` endpoint. */
  datatype WakeRequest = WakeRequest(text: string, mode: string, authorization: string)

  /** How the handling of one message ended. */
  datatype Outcome = WakeFailed | NoSessionFile | TimedOut | Replied(reply: string)

  const UnavailableText: string := "The service is temporarily unavailable. Please try again later."
  const ServiceErrorText: string := "Service error. Please try again later."
  const TimeoutText: string := "The request timed out. Please try again later."
  const ReplyWaitMs: int := 60000

  /** The wake-up request for a message: the prompt names the user and quotes the text. */
  function Wake(user: string, text: string, openclawToken: string): (w: WakeRequest)
    ensures w.mode == "now" && w.authorization == "Bearer " + openclawToken
    ensures EndsWith(w.text, text) && Contains(w.text, user)
  {
    var prefix := "【WeCom Message】User " + user;
    var w := WakeRequest(prefix + " says: " + text, "now", "Bearer " + openclawToken);
    assert OccursAt(w.text, user, |"【WeCom Message】User "|) by {
      assert w.text[|"【WeCom Message】User "|..][..|user|] == user;
    }
    assert w.text[|w.text| - |text|..] == text;
    w
  }

  /** The outcome the handler reaches for a message. */
  function OutcomeOf(user: string, text: string, openclawToken: string, wake: WakeRequest -> bool,
                     sessionsDir: string, listing: Option<seq<DirEntry>>,
                     logAt: (string, nat) -> seq<Option<Entry>>, sendTime: int): Outcome
  {
    if !wake(Wake(user, text, openclawToken)) then WakeFailed
    else
      match LatestSessionFile(sessionsDir, listing)
      case None => NoSessionFile
      case Some(file) =>
        match WaitResult(logAt, file, sendTime, ReplyWaitMs)
        case None => TimedOut
        case Some(reply) => Replied(reply)
  }

  /** The WeCom calls that answer an outcome. */
  function OutcomeCalls(user: string, o: Outcome, env: Env): seq<ApiCall> {
    match o
    case WakeFailed => TextCalls(user, UnavailableText, env)
    case NoSessionFile => TextCalls(user, ServiceErrorText, env)
    case TimedOut => TextCalls(user, TimeoutText, env)
    case Replied(reply) => ReplyCalls(user, reply, env)
  }

  /** `handleWecomMessage`: each failure ends the handling with its own message; a reply is
      relayed through the text-and-image delivery. */
  method HandleMessage(client: Client, user: string, text: string, openclawToken: string,
                       wake: WakeRequest -> bool, sessionsDir: string, listing: Option<seq<DirEntry>>,
                       logAt: (string, nat) -> seq<Option<Entry>>, sendTime: int)
    returns (outcome: Outcome)
    modifies client
    ensures outcome == OutcomeOf(user, text, openclawToken, wake, sessionsDir, listing, logAt, sendTime)
    ensures client.calls == old(client.calls) + OutcomeCalls(user, outcome, client.env)
  {
    if !wake(Wake(user, text, openclawToken)) {
      client.SendText(user, UnavailableText);
      return WakeFailed;
    }
    var file := LatestSessionFile(sessionsDir, listing);
    if file.None? {
      client.SendText(user, ServiceErrorText);
      return NoSessionFile;
    }
    var reply, polls := WaitForReply(logAt, file.value, sendTime, ReplyWaitMs);
    if reply.Some? {
      outcome := Replied(reply.value);
      client.SendReply(user, reply.value);
      RepliedCalls(user, reply.value, client.env);
    } else {
      outcome := TimedOut;
      client.SendText(user, TimeoutText);
      TimedOutCalls(user, client.env);
    }
  }

  lemma RepliedCalls(user: string, reply: string, env: Env)
    ensures OutcomeCalls(user, Replied(reply), env) == ReplyCalls(user, reply, env)
  {
  }

  lemma TimedOutCalls(user: string, env: Env)
    ensures OutcomeCalls(user, TimedOut, env) == TextCalls(user, TimeoutText, env)
  {
  }

  /** Each failure is answered by exactly one text, its own, once a token can be had. */
  lemma FailuresAnsweredByTheirText(user: string, env: Env)
    requires AccessToken(env.token).Ok?
    ensures OutcomeCalls(user, WakeFailed, env) == [PostText(user, UnavailableText)]
    ensures OutcomeCalls(user, NoSessionFile, env) == [PostText(user, ServiceErrorText)]
    ensures OutcomeCalls(user, TimedOut, env) == [PostText(user, TimeoutText)]
    ensures UnavailableText != ServiceErrorText && ServiceErrorText != TimeoutText && UnavailableText != TimeoutText
  {
  }

  /** Whatever happens, the user hears back, provided a token can be had. */
  lemma UserAlwaysAnswered(user: string, o: Outcome, env: Env)
    requires AccessToken(env.token).Ok?
    ensures OutcomeCalls(user, o, env) != []
    ensures ReachesUser(OutcomeCalls(user, o, env), user)
  {
    match o
    case Replied(reply) => ReplyNeverSilent(user, reply, env);
    case WakeFailed => assert OutcomeCalls(user, o, env)[0] == PostText(user, UnavailableText);
    case NoSessionFile => assert OutcomeCalls(user, o, env)[0] == PostText(user, ServiceErrorText);
    case TimedOut => assert OutcomeCalls(user, o, env)[0] == PostText(user, TimeoutText);
  }

  /** A relayed reply is non-empty and was written to the newest session file, on some poll
      of the sixty-second budget, by an assistant record strictly later than the message:
      the first such record of the log in file order. */
  lemma RelayedReplyIsFresh(user: string, text: string, openclawToken: string, wake: WakeRequest -> bool,
                            sessionsDir: string, listing: Option<seq<DirEntry>>,
                            logAt: (string, nat) -> seq<Option<Entry>>, sendTime: int)
    requires OutcomeOf(user, text, openclawToken, wake, sessionsDir, listing, logAt, sendTime).Replied?
    ensures var reply := OutcomeOf(user, text, openclawToken, wake, sessionsDir, listing, logAt, sendTime).reply;
      && reply != ""
      && wake(Wake(user, text, openclawToken))
      && LatestSessionFile(sessionsDir, listing).Some?
      && exists t: nat, k ::
           var lines := logAt(LatestSessionFile(sessionsDir, listing).value, t);
           && t < Attempts(ReplyWaitMs)
           && 0 <= k < |lines| && lines[k].Some? && Qualifies(lines[k].value, sendTime)
           && lines[k].value.timestamp.value > sendTime
           && ReplyText(lines[k].value) == Some(reply)
  {
    var file := LatestSessionFile(sessionsDir, listing).value;
    WaitResultMeaning(logAt, file, sendTime, ReplyWaitMs);
    var r := WaitResult(logAt, file, sendTime, ReplyWaitMs);
    var t :| 0 <= t < Attempts(ReplyWaitMs) && r == ReplyAt(logAt, file, sendTime, t);
    LatestReplyFromQualifying(logAt(file, t), sendTime);
    var lines := logAt(file, t);
    var k :| 0 <= k < |lines| && lines[k].Some? && Qualifies(lines[k].value, sendTime)
      && LatestReply(lines, sendTime) == ReplyText(lines[k].value);
    assert ReplyText(lines[k].value) == r;
  }

  /** The timeout message is sent only after all forty polls came back without a reply. */
  lemma TimeoutAfterFortyEmptyPolls(user: string, text: string, openclawToken: string, wake: WakeRequest -> bool,
                                    sessionsDir: string, listing: Option<seq<DirEntry>>,
                                    logAt: (string, nat) -> seq<Option<Entry>>, sendTime: int)
    requires OutcomeOf(user, text, openclawToken, wake, sessionsDir, listing, logAt, sendTime) == TimedOut
    ensures LatestSessionFile(sessionsDir, listing).Some?
    ensures forall t :: 0 <= t < 40 ==>
      !Truthy(ReplyAt(logAt, LatestSessionFile(sessionsDir, listing).value, sendTime, t))
  {
    DefaultBudgetIsFortyPolls();
    WaitResultMeaning(logAt, LatestSessionFile(sessionsDir, listing).value, sendTime, ReplyWaitMs);
  }
}
