/** The handler `onUserShareWithChange` (functions/index.js:17-112): detect the
    transition, look the subject up, scan the users, send one multicast and record
    the failed tokens. The store reads and the send are external calls; their answers
    are inputs here, and the run records which of them the handler made. */
module Handler {
  import opened Wrappers
  import opened Transition
  import opened Profiles
  import opened Recipients
  import opened Dispatch
  import opened JsString

  /** The trigger's input: the `{userId}` of the path and the field's two values. */
  datatype ChangeEvent = ChangeEvent(userId: string, before: RawValue, after: RawValue)

  /** What an awaited external call produced: a value, or a thrown error. */
  datatype Reply<T> = Returned(value: T) | Threw

  /** The external calls, in the order the handler can make them. */
  datatype Call =
    | FetchSubject(id: string)     // users/{userId} in the document store
    | ScanUsers                    // the whole users collection
    | SendMulticast(message: Message)

  /** How the invocation ended; every one of them returns `null` to the trigger. */
  datatype Outcome =
    | Ignored                      // not a not-true to true transition
    | SubjectMissing               // no profile document for the subject
    | NoRecipients                 // nobody else has a usable token
    | Sent(message: Message, report: DeliveryReport)
    | Failed                       // a store read or the send threw; caught and logged

  datatype Run = Run(outcome: Outcome, calls: seq<Call>)

  /** The transport answers for the tokens it was given, one response per token;
      the handler relies on this when it indexes `tokens` by response position. */
  predicate TransportAnswersTokens(userId: string, users: Reply<seq<UserDoc>>, delivery: Reply<BatchResponse>) {
    users.Returned? && delivery.Returned? ==>
      |delivery.value.responses| <= |Recipients.Recipients(userId, users.value)|
  }

  /** The handler as a function of the event and the answers of its external calls. */
  function Handle(event: ChangeEvent, subject: Reply<Option<Profile>>, users: Reply<seq<UserDoc>>,
                  delivery: Reply<BatchResponse>): Run
    requires TransportAnswersTokens(event.userId, users, delivery)
  {
    if !IsQualifyingTransition(event.before, event.after) then Run(Ignored, [])
    else
      match subject
      case Threw => Run(Failed, [FetchSubject(event.userId)])
      case Returned(None) => Run(SubjectMissing, [FetchSubject(event.userId)])
      case Returned(Some(profile)) => Notify(event.userId, DisplayName(profile), users, delivery)
  }

  /** The rest of the handler once the subject's profile is found and its display name
      derived: scan the users, then send to the collected tokens if there are any. */
  function Notify(userId: string, name: string, users: Reply<seq<UserDoc>>,
                  delivery: Reply<BatchResponse>): Run
    requires TransportAnswersTokens(userId, users, delivery)
  {
    var scanned := [FetchSubject(userId), ScanUsers];
    match users
    case Threw => Run(Failed, scanned)
    case Returned(docs) =>
      var tokens := Recipients.Recipients(userId, docs);
      if tokens == [] then Run(NoRecipients, scanned)
      else
        var message := BuildMessage(userId, name, tokens);
        var sent := scanned + [SendMulticast(message)];
        match delivery
        case Threw => Run(Failed, sent)
        case Returned(response) => Run(Sent(message, Report(tokens, response)), sent)
  }

  /** The invocation: the same steps, with the two `forEach` loops as loops. It returns
      `null` on every path, including after a caught error. */
  method OnUserShareWithChange(event: ChangeEvent, subject: Reply<Option<Profile>>,
                               users: Reply<seq<UserDoc>>, delivery: Reply<BatchResponse>)
    returns (result: RawValue, run: Run)
    requires TransportAnswersTokens(event.userId, users, delivery)
    ensures result == Null
    ensures run == Handle(event, subject, users, delivery)
  {
    result := Null;
    var wasUnavailable := event.before != Bool(true);
    var isNowAvailable := event.after == Bool(true);
    if !wasUnavailable || !isNowAvailable {
      run := Run(Ignored, []);
      return;
    }
    if subject.Threw? {
      run := Run(Failed, [FetchSubject(event.userId)]);
      return;
    }
    if subject.value.None? {
      run := Run(SubjectMissing, [FetchSubject(event.userId)]);
      return;
    }
    var finalUserName := DisplayName(subject.value.value);
    run := NotifyOthers(event.userId, finalUserName, users, delivery);
  }

  /** The steps after the lookup: scan the users, collect their tokens, send one
      multicast and collect the failed tokens. */
  method NotifyOthers(userId: string, finalUserName: string, users: Reply<seq<UserDoc>>,
                      delivery: Reply<BatchResponse>) returns (run: Run)
    requires TransportAnswersTokens(userId, users, delivery)
    ensures run == Notify(userId, finalUserName, users, delivery)
  {
    var calls := [FetchSubject(userId), ScanUsers];
    if users.Threw? {
      run := Run(Failed, calls);
      return;
    }
    var tokens := CollectTokens(userId, users.value);
    if |tokens| == 0 {
      run := Run(NoRecipients, calls);
      return;
    }
    var message := BuildMessage(userId, finalUserName, tokens);
    calls := calls + [SendMulticast(message)];
    if delivery.Threw? {
      run := Run(Failed, calls);
      return;
    }
    var response := delivery.value;
    var failedTokens := [];
    if response.failureCount > 0 {
      failedTokens := CollectFailedTokens(tokens, response.responses);
    }
    run := Run(Sent(message, DeliveryReport(response.successCount, response.failureCount, failedTokens)), calls);
  }

  /** The event is processed iff the old value is not `true` and the new one is;
      an ignored event makes no external call at all. */
  lemma IgnoredIffNotQualifying(event: ChangeEvent, subject: Reply<Option<Profile>>,
                                users: Reply<seq<UserDoc>>, delivery: Reply<BatchResponse>)
    requires TransportAnswersTokens(event.userId, users, delivery)
    ensures var run := Handle(event, subject, users, delivery);
      && (run.outcome.Ignored? <==> !IsQualifyingTransition(event.before, event.after))
      && (run.outcome.Ignored? <==> run.calls == [])
      && (!run.outcome.Ignored? ==> run.calls[0] == FetchSubject(event.userId))
  {
  }

  /** A missing subject stops the handler after the lookup: no scan, no send. */
  lemma SubjectMissingStopsEarly(event: ChangeEvent, subject: Reply<Option<Profile>>,
                                 users: Reply<seq<UserDoc>>, delivery: Reply<BatchResponse>)
    requires TransportAnswersTokens(event.userId, users, delivery)
    ensures var run := Handle(event, subject, users, delivery);
      run.outcome.SubjectMissing? <==>
        IsQualifyingTransition(event.before, event.after) && subject == Returned(None)
    ensures var run := Handle(event, subject, users, delivery);
      run.outcome.SubjectMissing? ==> run.calls == [FetchSubject(event.userId)]
  {
  }

  /** With a qualifying event, a found subject and a scan that yields at least one
      token, the transport is called once, as the last call, with the message built
      from the display name and the collected tokens. */
  lemma SendsWhenRecipients(event: ChangeEvent, profile: Profile, docs: seq<UserDoc>,
                            delivery: Reply<BatchResponse>)
    requires IsQualifyingTransition(event.before, event.after)
    requires TransportAnswersTokens(event.userId, Returned(docs), delivery)
    requires Recipients.Recipients(event.userId, docs) != []
    ensures
      var m := BuildMessage(event.userId, DisplayName(profile), Recipients.Recipients(event.userId, docs));
      Handle(event, Returned(Some(profile)), Returned(docs), delivery).calls
        == [FetchSubject(event.userId), ScanUsers, SendMulticast(m)]
  {
  }

  /** In every other case the transport is never called: an ignored event, a failed
      or empty lookup, a failed scan or a scan with no usable token. */
  lemma NoSendWithoutRecipients(event: ChangeEvent, subject: Reply<Option<Profile>>,
                                users: Reply<seq<UserDoc>>, delivery: Reply<BatchResponse>)
    requires TransportAnswersTokens(event.userId, users, delivery)
    requires !IsQualifyingTransition(event.before, event.after)
          || subject.Threw? || subject.value.None?
          || users.Threw? || Recipients.Recipients(event.userId, users.value) == []
    ensures forall c | c in Handle(event, subject, users, delivery).calls :: !c.SendMulticast?
  {
    var run := Handle(event, subject, users, delivery);
    var fetch := FetchSubject(event.userId);
    if IsQualifyingTransition(event.before, event.after) {
      match subject
      case Threw => assert run.calls == [fetch];
      case Returned(None) => assert run.calls == [fetch];
      case Returned(Some(p)) =>
        assert run.calls == [fetch, ScanUsers];
    }
  }

  /** A run ends with a sent notification exactly when the event qualifies, the subject
      is found, the scan succeeds with at least one token and the send returns. */
  lemma SentIffDelivered(event: ChangeEvent, subject: Reply<Option<Profile>>,
                         users: Reply<seq<UserDoc>>, delivery: Reply<BatchResponse>)
    requires TransportAnswersTokens(event.userId, users, delivery)
    ensures Handle(event, subject, users, delivery).outcome.Sent? <==>
      && IsQualifyingTransition(event.before, event.after)
      && subject.Returned? && subject.value.Some?
      && users.Returned? && Recipients.Recipients(event.userId, users.value) != []
      && delivery.Returned?
  {
    if IsQualifyingTransition(event.before, event.after) && subject.Returned? && subject.value.Some? {
      assert Handle(event, subject, users, delivery)
          == Notify(event.userId, DisplayName(subject.value.value), users, delivery);
    }
  }

  /** A sent notification carries the fixed title, the subject's display name in the
      body, the subject's id in the data and the collected tokens unchanged, and it
      goes to nobody through the subject's own document. */
  lemma SentMessageContents(event: ChangeEvent, profile: Profile, docs: seq<UserDoc>, response: BatchResponse)
    requires IsQualifyingTransition(event.before, event.after)
    requires |response.responses| <= |Recipients.Recipients(event.userId, docs)|
    requires Recipients.Recipients(event.userId, docs) != []
    ensures var run := Handle(event, Returned(Some(profile)), Returned(docs), Returned(response));
      && run.outcome.Sent?
      && run.outcome.message.notification.title == "Usuario Disponible"
      && AnnouncedName(run.outcome.message) == Some(DisplayName(profile))
      && AnnouncedUser(run.outcome.message) == Some(event.userId)
      && run.outcome.message.tokens == Recipients.Recipients(event.userId, docs)
      && forall t | t in run.outcome.message.tokens :: exists i | 0 <= i < |docs| ::
           docs[i].id != event.userId && docs[i].data.fcmToken == Some(t)
  {
    forall t | t in Recipients.Recipients(event.userId, docs)
      ensures exists i | 0 <= i < |docs| :: docs[i].id != event.userId && docs[i].data.fcmToken == Some(t)
    {
      SubjectExcluded(event.userId, docs, t);
    }
  }

  /** After a send, the report carries the transport's counters and lists the failed
      tokens in submission order whenever the transport reports any failure; a partial
      failure still ends the run normally. */
  lemma SentReportsFailures(event: ChangeEvent, profile: Profile, docs: seq<UserDoc>, response: BatchResponse)
    requires IsQualifyingTransition(event.before, event.after)
    requires |response.responses| <= |Recipients.Recipients(event.userId, docs)|
    requires Recipients.Recipients(event.userId, docs) != []
    ensures var run := Handle(event, Returned(Some(profile)), Returned(docs), Returned(response));
      && run.outcome.Sent?
      && run.outcome.report.successCount == response.successCount
      && run.outcome.report.failureCount == response.failureCount
      && (response.failureCount > 0 ==>
            run.outcome.report.failedTokens == FailedTokens(Recipients.Recipients(event.userId, docs), response.responses))
      && (response.failureCount <= 0 ==> run.outcome.report.failedTokens == [])
  {
  }

  /** Scenario: u1 ("Joe X") becomes available; of u2 (token
      "t2"), u3 (no token) and u4 (empty token) only u2 is notified. */
  lemma EndToEndScenario(joe: Profile, docs: seq<UserDoc>)
    requires joe == Profile(Some("Joe"), Some("X"), None, None)
    requires docs == [
        UserDoc("u1", joe),
        UserDoc("u2", Profile(None, None, None, Some("t2"))),
        UserDoc("u3", Profile(None, None, None, None)),
        UserDoc("u4", Profile(None, None, None, Some("")))]
    ensures Handle(ChangeEvent("u1", Bool(false), Bool(true)), Returned(Some(joe)), Returned(docs), Threw).calls
      == [FetchSubject("u1"), ScanUsers, SendMulticast(BuildMessage("u1", "Joe" + " " + "X", ["t2"]))]
  {
    ScenarioRecipients(docs);
    FullNameJoined(joe, "Joe", "X");
    SendsWhenRecipients(ChangeEvent("u1", Bool(false), Bool(true)), joe, docs, Threw);
  }

  /** The same scenario with a send that returns one success: the run ends with the
      message for "Joe X" sent to ["t2"] and a report with no failed token. */
  lemma EndToEndDelivered(joe: Profile, docs: seq<UserDoc>)
    requires joe == Profile(Some("Joe"), Some("X"), None, None)
    requires docs == [
        UserDoc("u1", joe),
        UserDoc("u2", Profile(None, None, None, Some("t2"))),
        UserDoc("u3", Profile(None, None, None, None)),
        UserDoc("u4", Profile(None, None, None, Some("")))]
    ensures Recipients.Recipients("u1", docs) == ["t2"]
    ensures Handle(ChangeEvent("u1", Bool(false), Bool(true)), Returned(Some(joe)), Returned(docs),
                   Returned(BatchResponse(1, 0, [SendResponse(true, None)]))).outcome
      == Sent(BuildMessage("u1", "Joe" + " " + "X", ["t2"]), DeliveryReport(1, 0, []))
  {
    ScenarioRecipients(docs);
    FullNameJoined(joe, "Joe", "X");
    assert Handle(ChangeEvent("u1", Bool(false), Bool(true)), Returned(Some(joe)), Returned(docs),
                  Returned(BatchResponse(1, 0, [SendResponse(true, None)])))
        == Notify("u1", DisplayName(joe), Returned(docs), Returned(BatchResponse(1, 0, [SendResponse(true, None)])));
  }

  lemma ScenarioRecipients(docs: seq<UserDoc>)
    requires docs == [
        UserDoc("u1", Profile(Some("Joe"), Some("X"), None, None)),
        UserDoc("u2", Profile(None, None, None, Some("t2"))),
        UserDoc("u3", Profile(None, None, None, None)),
        UserDoc("u4", Profile(None, None, None, Some("")))]
    ensures Recipients.Recipients("u1", docs) == ["t2"]
  {
    assert !IsBlank("t2") by { assert !IsWhitespace("t2"[0]); }
    assert Recipients.Recipients("u1", docs[..1]) == [] by {
      assert docs[..1][..0] == [];
    }
    assert Recipients.Recipients("u1", docs[..2]) == ["t2"] by {
      assert docs[..2][..1] == docs[..1];
      assert Contributes("u1", docs[1]);
    }
    assert Recipients.Recipients("u1", docs[..3]) == ["t2"] by {
      assert docs[..3][..2] == docs[..2];
      assert !Contributes("u1", docs[2]);
    }
    assert docs[..4][..3] == docs[..3] && docs[..4] == docs;
    assert !Contributes("u1", docs[3]);
  }
}
