# onUserShareWithChange, modelled in Dafny

The repository is one Firebase Cloud Function, `onUserShareWithChange`. It fires when
`users/{userId}/shareWith` is updated in the realtime database (`onValueUpdated`:
an existing value changes; creation and deletion do not trigger it). When the value goes
from anything other than `true` to exactly `true`, it does four things:

- it reads the user's profile from the `users` collection of the document store;
- it derives a display name;
- it collects the push (FCM) tokens of every other user;
- it sends one multicast notification and records which tokens failed.

Every path returns `null`. Errors are caught and only logged.

This project models that handler as a closed, sequential program. The three external
calls (profile lookup, collection scan, multicast send) are inputs: each one either
returns a value or throws (`Reply<T>`). The run records which of them were made, in
order (`Call`). The modules follow the handler's steps:

- `Transition` (transition.dfy): the raw stored value (`undefined`, `null`, a boolean,
  a number, a string, an object) and the strict test `before !== true && after === true`.
- `JsString` (jsstring.dfy): `String.prototype.trim`, over the ECMAScript whitespace and
  line-terminator set, and `s.split('@')[0]`.
- `Profiles` (profiles.dfy): the user document and the display-name derivation.
- `Recipients` (recipients.dfy): the token-collection loop, as a method proved against
  a filter function. A second, index-based description of the contributing documents
  is proved equal to it.
- `Dispatch` (dispatch.dfy): the message, and the failed-token loop. The loop is a method
  proved against a function; that function is also related to the failed positions.
- `Handler` (handler.dfy): the whole invocation. `OnUserShareWithChange` is a method
  that calls the two loops. It is proved equal to the function `Handle`, and the
  control-flow properties are lemmas about `Handle`.

Three behaviours of the code that are easy to misread:

- The code excludes the subject's *document*, not the subject's token string. Another
  user's document holding the same token string still contributes it.
  `SubjectExcluded` states the code's guarantee.
- The code falls back to "Usuario" when the e-mail is missing *or empty*, because an
  empty string is falsy in `userData.email || 'Usuario'`.
- The code builds the failed-token list only when the transport's `failureCount` is
  positive. Otherwise the model records an empty list.

## Model

| member | source | states |
|---|---|---|
| Transition.IsQualifyingTransition | functions/index.js:27-30 | the event is processed iff the old value is not strictly `true` and the new value is strictly `true` |
| Transition.QualifyingCases | functions/index.js:26-33 | an event qualifies iff the new value is exactly boolean `true` and the old one is anything but `true` (`undefined`, `null`, `false`, a number, a string, an object) |
| Transition.DetectorExamples | functions/index.js:26-33 | (false,true), (null,true), (undefined,true) qualify; (true,true), (true,false), (false,false) do not |
| Transition.StrictNotTruthy | functions/index.js:27-28 | a truthy new value that is not `true` (e.g. "true", 1) never qualifies; a truthy old value other than `true` does not block |
| JsString.IsWhitespace | functions/index.js:50 | the characters `trim` removes: ECMAScript WhiteSpace (TAB, VT, FF, SP, NBSP, ZWNBSP, Zs) and LineTerminator (LF, CR, LS, PS) |
| JsString.Trim | functions/index.js:50 | `trim` returns the substring left after removing the maximal whitespace prefix and suffix; it has no whitespace at its ends and is empty iff the input is all whitespace |
| JsString.TrimRemovesOnlyWhitespace | functions/index.js:50 | everything `trim` drops after the kept part is whitespace |
| JsString.TrimUnique | functions/index.js:50 | for any blank prefix, a core with no whitespace at either end and a blank suffix, `trim` returns exactly the core |
| JsString.LeadingSpaceOf | functions/index.js:50 | a blank margin before a non-whitespace character is exactly the whitespace prefix `trim` removes |
| JsString.TrailingSpaceOf | functions/index.js:50 | a blank margin after a non-whitespace character is exactly the whitespace suffix `trim` removes |
| JsString.BeforeFirst | functions/index.js:51 | `split('@')[0]` is a prefix of the string that contains no `@` and stops at the first `@` (or at the end) |
| JsString.BeforeFirstSplit | functions/index.js:51 | the first segment of `pre + "@" + post` is `pre` when `pre` has no `@` |
| JsString.BeforeFirstAbsent | functions/index.js:51 | a string without `@` is its own first segment |
| Profiles.OrElse | functions/index.js:50-51 | `field || fallback` on a string field: the field when present and non-empty, else the fallback |
| Profiles.JoinedName | functions/index.js:50 | the template `${name || ''} ${lastName || ''}` before trimming |
| Profiles.DisplayName | functions/index.js:50-51 | `finalUserName`: the trimmed joined name when non-empty, else the text before the first `@` of the e-mail, or of "Usuario" when the e-mail is missing or empty |
| Profiles.JoinedNameBlank | functions/index.js:50 | the trimmed full name is empty iff both `name` and `lastName` (missing counts as empty) are blank |
| Profiles.FullNameJoined | functions/index.js:50 | two clean name parts are announced as `name + " " + lastName` |
| Profiles.SingleNamePart | functions/index.js:50 | a lone name part is announced unchanged, with no trailing space |
| Profiles.SingleLastNamePart | functions/index.js:50 | a lone last name is announced unchanged, with no leading space |
| Profiles.EmailFallback | functions/index.js:51 | with blank names the result is the e-mail's text before its first `@`, or "Usuario" when the e-mail is missing or empty |
| Profiles.DisplayNameEmptyIff | functions/index.js:50-51 | the display name is empty iff both names are blank and the e-mail starts with `@` |
| Profiles.FullNameExample | functions/index.js:50 | {name: "Ana", lastName: "Ruiz"} gives "Ana" + " " + "Ruiz" |
| Profiles.LoneNameExample | functions/index.js:50 | {name: "Ana"} gives "Ana", with no trailing space |
| Profiles.EmptyProfileExample | functions/index.js:51 | {} gives "Usuario" |
| Profiles.EmailOnlyExample | functions/index.js:51 | {name: "", lastName: "", email: "ana@x.com"} gives "ana" |
| Recipients.HasUsableToken | functions/index.js:64-65 | `fcmToken && fcmToken.trim() !== ''`: the token is present, non-empty and not all whitespace |
| Recipients.Contributes | functions/index.js:63-65 | a scanned document adds its token iff its id differs from the subject's and its token is usable |
| Recipients.Recipients | functions/index.js:60-69 | the collected list has at most one token per document |
| Recipients.RecipientsNotBlank | functions/index.js:64-66 | no collected token is empty or all whitespace |
| Recipients.ContributorIndices | functions/index.js:61-68 | the contributing positions are increasing, each is a non-subject document with a usable token, and every such document is listed |
| Recipients.RecipientsAreContributorTokens | functions/index.js:60-69 | the k-th collected token is the untrimmed stored token of the k-th contributing document, so the list follows enumeration order |
| Recipients.SubjectExcluded | functions/index.js:63 | every collected token is held by a document whose id differs from the subject's |
| Recipients.RecipientsPerOtherDoc | functions/index.js:61-68 | there are no more tokens than documents other than the subject's |
| Recipients.RecipientCountBound | functions/index.js:61-68 | a scan of N documents that includes the subject yields at most N - 1 tokens |
| Recipients.CollectTokens | functions/index.js:60-69 | the `forEach` loop builds exactly the list `Recipients` describes |
| Recipients.UntrimmedTokenExample | functions/index.js:64-66 | a token "  t2 " is kept with its spaces; a blank token and the subject's token are skipped |
| Dispatch.BuildMessage | functions/index.js:79-88 | the message has title "Usuario Disponible", a body that reads back as the display name plus " ahora está disponible", `userId` as its only data key, and the tokens unchanged |
| Dispatch.BuildMessageInjective | functions/index.js:79-88 | two messages for the same tokens are equal only if they announce the same user and name |
| Dispatch.FailedTokens | functions/index.js:98-104 | the failed-token list has one entry per failed response, each one a submitted token |
| Dispatch.FailedIndices | functions/index.js:99-103 | the failed positions are increasing, each one failed, and every failed position is listed |
| Dispatch.FailedTokensAtFailedIndices | functions/index.js:98-104 | the k-th failed token is `tokens[idx]` for the k-th failed index |
| Dispatch.Report | functions/index.js:93-106 | what a send records: the transport's two counters and, only when `failureCount > 0`, the failed tokens; otherwise no list |
| Dispatch.ReportConsistent | functions/index.js:93-106 | when the transport's counters agree with its responses, the report lists exactly `failureCount` failed tokens, and successes plus failures cover all tokens |
| Dispatch.CollectFailedTokens | functions/index.js:98-104 | the `forEach` loop over the responses builds exactly `FailedTokens` |
| Dispatch.PartialFailureExample | functions/index.js:97-105 | with 2 failures out of 5, the report names the 2 failed tokens in their original order |
| Handler.TransportAnswersTokens | functions/index.js:99-101 | the assumption the loop relies on when it reads `tokens[idx]`: the transport returns no more responses than tokens submitted |
| Handler.Handle | functions/index.js:17-112 | the invocation's outcome and external calls: ignored with no call unless the transition qualifies, then lookup (throw: failed; absent: subject missing), then `Notify` with the display name |
| Handler.Notify | functions/index.js:56-106 | after the lookup: scan (throw: failed), no tokens: no recipients, else one send of the built message (throw: failed; returned: sent with the report) |
| Handler.OnUserShareWithChange | functions/index.js:17-112 | the invocation returns `null` on every path, and its outcome and external calls are those of `Handle` |
| Handler.NotifyOthers | functions/index.js:56-106 | the steps after the lookup (scan, token loop, send, failed-token loop) produce exactly the outcome and calls of `Notify` |
| Handler.IgnoredIffNotQualifying | functions/index.js:26-33 | the event is ignored iff it is not a not-true to true transition; an ignored event makes no external call; otherwise the first call is the subject lookup |
| Handler.SubjectMissingStopsEarly | functions/index.js:44-47 | a missing subject ends the run after the lookup, with no scan and no send |
| Handler.SendsWhenRecipients | functions/index.js:56-91 | if the event qualifies, the subject exists and the scan yields a token, the calls are exactly lookup, scan, then one send of the message built from the display name and the collected tokens |
| Handler.NoSendWithoutRecipients | functions/index.js:26-77 | if the event does not qualify, the lookup throws or finds nothing, the scan throws or yields no token, the transport is never called |
| Handler.SentIffDelivered | functions/index.js:30-91 | a run ends with a sent notification iff the event qualifies, the subject exists, the scan succeeds with at least one token and the send returns |
| Handler.SentMessageContents | functions/index.js:79-91 | with a qualifying event, a found subject, a token-yielding scan and a returned send, the sent message has the fixed title, the subject's display name and id, the collected token list, and only tokens of documents other than the subject's |
| Handler.SentReportsFailures | functions/index.js:93-106 | after such a send, the report carries the transport's counters and, when failures are reported, the failed tokens in submission order; otherwise none |
| Handler.EndToEndDelivered | functions/index.js:17-106 | the same scenario with a send returning one success ends with the message for "Joe" + " " + "X" sent to ["t2"] and a report (1, 0) with no failed token |
| Handler.EndToEndScenario | functions/index.js:17-91 | u1 {Joe, X} becoming available with u2 ("t2"), u3 (no token), u4 ("") makes the calls lookup u1, scan, and one send of the message for u1 named "Joe" + " " + "X" to ["t2"] |

## Left out

- Firebase wiring (trigger registration, path and region, `initializeApp`) has no behaviour to model.
- The two store reads and `sendEachForMulticast` are inputs (`Reply<T>`). Their own semantics are not modelled, and neither is an error's cause.
- `console.log` and `console.error` output, including each failed response's `error`, is observability only. `SendResponse.error` is carried but never inspected.
- `async`/`await` and concurrent invocations: each run is sequential and independent.
- `successCount` and `failureCount` are the transport's own numbers. The model copies them, and `ReportConsistent` relates them to the responses only under a stated agreement.
- Handler.OnUserShareWithChange: requires the transport to return at most one response per submitted token. The source indexes `tokens` by response position; a longer response list would push `undefined` entries, and the model does not capture that.
- Profile fields are modelled as optional strings. A falsy non-string `email` or `fcmToken` (`0`, `false`, `null`) behaves like a missing field: `email` takes the `|| 'Usuario'` fallback (functions/index.js:51) and `fcmToken` fails the `fcmToken &&` test (functions/index.js:65). `None` covers that case.
- A truthy non-string `email` or `fcmToken` would make `.split` or `.trim` throw, and the catch would end the run. A non-string `name` or `lastName` would be stringified by the template literal. Neither case is modelled.
- Numbers in the watched field are modelled as integers. Only their strict inequality to `true` matters.
- The whitespace set of `trim` is ECMAScript's WhiteSpace and LineTerminator characters as of current Unicode. Later changes to the Zs category are not tracked.
- No correction is made for an e-mail that starts with `@`. It gives an empty display name, so the body becomes " ahora está disponible". `DisplayNameEmptyIff` states this behaviour of the code.
