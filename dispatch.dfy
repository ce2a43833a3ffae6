/** The notification dispatcher: the multicast message (functions/index.js:79-88) and
    the partition of the transport's per-token answers (functions/index.js:93-106). */
module Dispatch {
  import opened Wrappers

  const Title: string := "Usuario Disponible"
  const BodySuffix: string := " ahora está disponible"

  datatype Notification = Notification(title: string, body: string)

  /** The argument of `sendEachForMulticast`: one notification for many device tokens. */
  datatype Message = Message(notification: Notification, data: map<string, string>, tokens: seq<string>)

  /** The announced user's display name, read back from a message body. */
  function AnnouncedName(m: Message): Option<string> {
    var body := m.notification.body;
    if |BodySuffix| <= |body| && body[|body| - |BodySuffix|..] == BodySuffix
    then Some(body[..|body| - |BodySuffix|])
    else None
  }

  /** The announced user's id, read back from a message's data. */
  function AnnouncedUser(m: Message): Option<string> {
    if "userId" in m.data then Some(m.data["userId"]) else None
  }

  /** The message the handler sends: the fixed title, a body that names the user,
      the user's id as the only data entry, and the token list unchanged. */
  function BuildMessage(userId: string, displayName: string, tokens: seq<string>): (m: Message)
    ensures m.notification.title == Title
    ensures AnnouncedName(m) == Some(displayName)
    ensures AnnouncedUser(m) == Some(userId) && m.data.Keys == {"userId"}
    ensures m.tokens == tokens
  {
    var body := displayName + BodySuffix;
    assert body[|body| - |BodySuffix|..] == BodySuffix;
    Message(Notification(Title, body), map["userId" := userId], tokens)
  }

  /** Two messages built for different users or names differ: the body and data
      determine whom the notification is about. */
  lemma BuildMessageInjective(u1: string, n1: string, u2: string, n2: string, tokens: seq<string>)
    requires BuildMessage(u1, n1, tokens) == BuildMessage(u2, n2, tokens)
    ensures u1 == u2 && n1 == n2
  {
    assert AnnouncedName(BuildMessage(u1, n1, tokens)) == Some(n1);
    assert AnnouncedName(BuildMessage(u2, n2, tokens)) == Some(n2);
  }

  /** The transport's answer for one token; `error` is only logged. */
  datatype SendResponse = SendResponse(success: bool, error: Option<string>)

  /** The `BatchResponse` of `sendEachForMulticast`: the counters are the transport's
      own, the responses come one per token in submission order. */
  datatype BatchResponse = BatchResponse(successCount: int, failureCount: int, responses: seq<SendResponse>)

  /** Number of responses that report a failure. */
  function Failures(responses: seq<SendResponse>): (n: nat)
    ensures n <= |responses|
  {
    if responses == [] then 0
    else Failures(responses[..|responses| - 1]) + (if responses[|responses| - 1].success then 0 else 1)
  }

  /** `tokens[idx]` for every `idx` whose response is not a success, in index order. */
  function FailedTokens(tokens: seq<string>, responses: seq<SendResponse>): (failed: seq<string>)
    requires |responses| <= |tokens|
    ensures |failed| == Failures(responses)
    ensures forall t | t in failed :: t in tokens
  {
    if responses == [] then []
    else
      var n := |responses| - 1;
      FailedTokens(tokens, responses[..n]) + (if responses[n].success then [] else [tokens[n]])
  }

  /** The positions whose response failed, increasing, and all of them. */
  function FailedIndices(responses: seq<SendResponse>): (idx: seq<nat>)
    ensures forall k | 0 <= k < |idx| :: idx[k] < |responses| && !responses[idx[k]].success
    ensures forall j, k | 0 <= j < k < |idx| :: idx[j] < idx[k]
    ensures forall i | 0 <= i < |responses| && !responses[i].success :: i in idx
  {
    if responses == [] then []
    else
      var n := |responses| - 1;
      assert forall i | 0 <= i < n :: responses[..n][i] == responses[i];
      FailedIndices(responses[..n]) + (if responses[n].success then [] else [n])
  }

  /** The failed-token list is the subsequence of `tokens` at the failed positions:
      its k-th entry is the token submitted at the k-th failed index. */
  lemma {:induction false} FailedTokensAtFailedIndices(tokens: seq<string>, responses: seq<SendResponse>)
    requires |responses| <= |tokens|
    ensures |FailedTokens(tokens, responses)| == |FailedIndices(responses)|
    ensures forall k | 0 <= k < |FailedIndices(responses)| ::
      FailedTokens(tokens, responses)[k] == tokens[FailedIndices(responses)[k]]
  {
    if responses != [] {
      FailedTokensAtFailedIndices(tokens, responses[..|responses| - 1]);
    }
  }

  /** What the handler records after a send (and logs): the transport's counters and,
      only when it reports failures, the failed tokens. */
  datatype DeliveryReport = DeliveryReport(successCount: int, failureCount: int, failedTokens: seq<string>)

  function Report(tokens: seq<string>, response: BatchResponse): DeliveryReport
    requires |response.responses| <= |tokens|
  {
    DeliveryReport(
      response.successCount,
      response.failureCount,
      if response.failureCount > 0 then FailedTokens(tokens, response.responses) else [])
  }

  /** When the transport's counters agree with its per-token answers, the report lists
      exactly the failed tokens, as many as the failure counter says, and the
      successes and failures together cover every token. */
  lemma ReportConsistent(tokens: seq<string>, response: BatchResponse)
    requires |response.responses| == |tokens|
    requires response.failureCount == Failures(response.responses)
    requires response.successCount == |tokens| - response.failureCount
    ensures Report(tokens, response).failedTokens == FailedTokens(tokens, response.responses)
    ensures |Report(tokens, response).failedTokens| == response.failureCount
    ensures response.successCount + |Report(tokens, response).failedTokens| == |tokens|
  {
  }

  /** The loop of the handler: walk the responses by index and push `tokens[idx]`
      for each one that did not succeed. */
  method CollectFailedTokens(tokens: seq<string>, responses: seq<SendResponse>) returns (failed: seq<string>)
    requires |responses| <= |tokens|
    ensures failed == FailedTokens(tokens, responses)
  {
    failed := [];
    for idx := 0 to |responses|
      invariant failed == FailedTokens(tokens, responses[..idx])
    {
      if !responses[idx].success {
        failed := failed + [tokens[idx]];
      }
      assert responses[..idx + 1][..idx] == responses[..idx];
    }
    assert responses[..|responses|] == responses;
  }

  /** Two of five sends fail: the report names exactly those two tokens, in order. */
  lemma PartialFailureExample()
    ensures
      var tokens := ["t1", "t2", "t3", "t4", "t5"];
      var ok, ko := SendResponse(true, None), SendResponse(false, Some("unregistered"));
      var responses := [ok, ko, ok, ko, ok];
      Failures(responses) == 2 && |responses| - Failures(responses) == 3 &&
      Report(tokens, BatchResponse(3, 2, responses)).failedTokens == ["t2", "t4"]
  {
    var tokens := ["t1", "t2", "t3", "t4", "t5"];
    var ok, ko := SendResponse(true, None), SendResponse(false, Some("unregistered"));
    var responses := [ok, ko, ok, ko, ok];
    var r1, r2, r3, r4 := [ok], [ok, ko], [ok, ko, ok], [ok, ko, ok, ko];
    assert r2[..1] == r1 && r3[..2] == r2 && r4[..3] == r3 && responses[..4] == r4;
    assert Failures(r1) == 0 && FailedTokens(tokens, r1) == [];
    assert Failures(r2) == 1 && FailedTokens(tokens, r2) == ["t2"];
    assert Failures(r3) == 1 && FailedTokens(tokens, r3) == ["t2"];
    assert Failures(r4) == 2 && FailedTokens(tokens, r4) == ["t2", "t4"];
  }
}
