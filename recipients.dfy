/** Recipient collection: the scan of the `users` collection that gathers the push
    tokens of every user other than the one who became available
    (functions/index.js:60-69). */
module Recipients {
  import opened Wrappers
  import opened JsString
  import opened Profiles

  /** `fcmToken && fcmToken.trim() !== ''`: present, non-empty and, since `trim` empties
      exactly the all-whitespace strings, not blank. */
  predicate HasUsableToken(p: Profile) {
    p.fcmToken.Some? && p.fcmToken.value != "" && !IsBlank(p.fcmToken.value)
  }

  /** A scanned document adds a token when it is not the subject's own document
      and it holds a usable token. */
  predicate Contributes(subjectId: string, d: UserDoc) {
    d.id != subjectId && HasUsableToken(d.data)
  }

  /** The token list the scan builds from `docs`, in enumeration order; each token is
      the stored string itself, untrimmed. */
  function Recipients(subjectId: string, docs: seq<UserDoc>): (tokens: seq<string>)
    ensures |tokens| <= |docs|
  {
    if docs == [] then []
    else
      var d := docs[|docs| - 1];
      Recipients(subjectId, docs[..|docs| - 1])
        + (if Contributes(subjectId, d) then [d.data.fcmToken.value] else [])
  }

  /** The positions in the scan of the documents that contribute, in increasing
      order: an independent description of which documents the list draws on. */
  function ContributorIndices(subjectId: string, docs: seq<UserDoc>): (idx: seq<nat>)
    ensures forall k | 0 <= k < |idx| :: idx[k] < |docs| && Contributes(subjectId, docs[idx[k]])
    ensures forall j, k | 0 <= j < k < |idx| :: idx[j] < idx[k]
    ensures forall i | 0 <= i < |docs| && Contributes(subjectId, docs[i]) :: i in idx
  {
    if docs == [] then []
    else
      var n := |docs| - 1;
      var init := docs[..n];
      assert forall i | 0 <= i < n :: init[i] == docs[i];
      ContributorIndices(subjectId, init) + (if Contributes(subjectId, docs[n]) then [n] else [])
  }

  /** The token list is the subsequence of the contributing documents' tokens:
      the k-th token is exactly the stored token of the k-th contributor. */
  lemma {:induction false} RecipientsAreContributorTokens(subjectId: string, docs: seq<UserDoc>)
    ensures |Recipients(subjectId, docs)| == |ContributorIndices(subjectId, docs)|
    ensures forall k | 0 <= k < |Recipients(subjectId, docs)| ::
      Recipients(subjectId, docs)[k] == docs[ContributorIndices(subjectId, docs)[k]].data.fcmToken.value
  {
    if docs != [] {
      var n := |docs| - 1;
      var init := docs[..n];
      RecipientsAreContributorTokens(subjectId, init);
      var r, idx := Recipients(subjectId, init), ContributorIndices(subjectId, init);
      forall k | 0 <= k < |idx|
        ensures docs[idx[k]] == init[idx[k]]
      {
      }
    }
  }

  /** No collected token is empty or all whitespace. */
  lemma {:induction false} RecipientsNotBlank(subjectId: string, docs: seq<UserDoc>)
    ensures forall t | t in Recipients(subjectId, docs) :: t != "" && !IsBlank(t)
  {
    if docs != [] {
      RecipientsNotBlank(subjectId, docs[..|docs| - 1]);
    }
  }

  /** Every collected token belongs to some other user's document: the subject's own
      document never contributes, so a token only the subject holds is never sent to. */
  lemma SubjectExcluded(subjectId: string, docs: seq<UserDoc>, t: string)
    requires t in Recipients(subjectId, docs)
    ensures exists i | 0 <= i < |docs| :: docs[i].id != subjectId && docs[i].data.fcmToken == Some(t)
  {
    RecipientsAreContributorTokens(subjectId, docs);
    var r, idx := Recipients(subjectId, docs), ContributorIndices(subjectId, docs);
    var k :| 0 <= k < |r| && r[k] == t;
    assert docs[idx[k]].data.fcmToken == Some(t);
  }

  /** Number of scanned documents that are not the subject's. */
  function OtherDocs(subjectId: string, docs: seq<UserDoc>): (n: nat)
    ensures n <= |docs|
  {
    if docs == [] then 0
    else OtherDocs(subjectId, docs[..|docs| - 1]) + (if docs[|docs| - 1].id != subjectId then 1 else 0)
  }

  /** At most one token per document that is not the subject's. */
  lemma {:induction false} RecipientsPerOtherDoc(subjectId: string, docs: seq<UserDoc>)
    ensures |Recipients(subjectId, docs)| <= OtherDocs(subjectId, docs)
  {
    if docs != [] {
      RecipientsPerOtherDoc(subjectId, docs[..|docs| - 1]);
    }
  }

  /** A scan of N documents that includes the subject's (at position `i`) yields at
      most N - 1 tokens. */
  lemma {:induction false} RecipientCountBound(subjectId: string, docs: seq<UserDoc>, i: nat)
    requires i < |docs| && docs[i].id == subjectId
    ensures |Recipients(subjectId, docs)| <= |docs| - 1
  {
    RecipientsPerOtherDoc(subjectId, docs);
    SubjectNotOther(subjectId, docs, i);
  }

  /** The subject's document is not counted among the other documents. */
  lemma {:induction false} SubjectNotOther(subjectId: string, docs: seq<UserDoc>, i: nat)
    requires i < |docs| && docs[i].id == subjectId
    ensures OtherDocs(subjectId, docs) <= |docs| - 1
  {
    var n := |docs| - 1;
    if i < n {
      SubjectNotOther(subjectId, docs[..n], i);
    }
  }

  /** The loop of the handler: walk the scan, skip the subject's document and any
      missing or blank token, and push the token as stored. */
  method CollectTokens(subjectId: string, docs: seq<UserDoc>) returns (tokens: seq<string>)
    ensures tokens == Recipients(subjectId, docs)
  {
    tokens := [];
    for i := 0 to |docs|
      invariant tokens == Recipients(subjectId, docs[..i])
    {
      var doc := docs[i];
      if doc.id != subjectId {
        var fcmToken := doc.data.fcmToken;
        if fcmToken.Some? && fcmToken.value != "" && Trim(fcmToken.value) != "" {
          tokens := tokens + [fcmToken.value];
        }
      }
      assert docs[..i + 1][..i] == docs[..i];
    }
    assert docs[..|docs|] == docs;
  }

  /** Tokens are pushed as stored: a token with surrounding spaces keeps them, a
      blank token is skipped, and the subject's own token is left out. */
  lemma UntrimmedTokenExample(docs: seq<UserDoc>)
    requires docs == [
        UserDoc("me", Profile(None, None, None, Some("mine"))),
        UserDoc("a", Profile(None, None, None, Some("  t2 "))),
        UserDoc("b", Profile(None, None, None, Some("  ")))]
    ensures Recipients("me", docs) == ["  t2 "]
  {
    assert !IsWhitespace("  t2 "[2]);
    assert IsBlank("  ");
    assert Recipients("me", docs[..1]) == [] by {
      assert docs[..1][..0] == [];
    }
    assert Recipients("me", docs[..2]) == ["  t2 "] by {
      assert docs[..2][..1] == docs[..1];
      assert Contributes("me", docs[1]);
    }
    assert docs[..3][..2] == docs[..2] && docs[..3] == docs;
    assert !Contributes("me", docs[2]);
  }
}
