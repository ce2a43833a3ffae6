/** User profile documents of the `users` collection, and the display name the
    notification announces (functions/index.js:49-51). */
module Profiles {
  import opened Wrappers
  import opened JsString

  /** The fields of a `users/{id}` document the handler reads; each may be missing. */
  datatype Profile = Profile(
    name: Option<string>,
    lastName: Option<string>,
    email: Option<string>,
    fcmToken: Option<string>)

  /** One entry of the collection scan: the document id and its data. */
  datatype UserDoc = UserDoc(id: string, data: Profile)

  /** `field || fallback` on a string field: a missing or empty string is falsy. */
  function OrElse(field: Option<string>, fallback: string): string {
    if field.Some? && field.value != "" then field.value else fallback
  }

  /** `${name || ''} ${lastName || ''}`, before trimming. */
  function JoinedName(p: Profile): string {
    OrElse(p.name, "") + " " + OrElse(p.lastName, "")
  }

  const DefaultName: string := "Usuario"

  /** `finalUserName`: the trimmed full name, or else the part of the e-mail address
      before its first `@`, or else (no e-mail) the literal "Usuario". */
  function DisplayName(p: Profile): string {
    var userName := Trim(JoinedName(p));
    if userName != "" then userName
    else BeforeFirst(OrElse(p.email, DefaultName), '@')
  }

  /** The full name is blank exactly when both name fields are. */
  lemma JoinedNameBlank(p: Profile)
    ensures Trim(JoinedName(p)) == [] <==> IsBlank(OrElse(p.name, "")) && IsBlank(OrElse(p.lastName, ""))
  {
    var n, l := OrElse(p.name, ""), OrElse(p.lastName, "");
    var joined := JoinedName(p);
    assert joined == n + " " + l;
    if IsBlank(n) && IsBlank(l) {
      forall k | 0 <= k < |joined|
        ensures IsWhitespace(joined[k])
      {
        if k < |n| {
          assert joined[k] == n[k];
        } else if k > |n| {
          assert joined[k] == l[k - |n| - 1];
        }
      }
    }
    if IsBlank(joined) {
      forall k | 0 <= k < |n|
        ensures IsWhitespace(n[k])
      {
        assert joined[k] == n[k];
      }
      forall k | 0 <= k < |l|
        ensures IsWhitespace(l[k])
      {
        assert joined[|n| + 1 + k] == l[k];
      }
    }
  }

  /** Two clean name parts are joined by exactly one space. */
  lemma FullNameJoined(p: Profile, n: string, l: string)
    requires p.name == Some(n) && p.lastName == Some(l)
    requires n != [] && l != [] && IsTrimmed(n) && IsTrimmed(l)
    ensures DisplayName(p) == n + " " + l
  {
    var full := n + " " + l;
    assert JoinedName(p) == full;
    assert full[0] == n[0] && full[|full| - 1] == l[|l| - 1];
    assert "" + full + "" == full;
    TrimUnique("", full, "");
    assert Trim(JoinedName(p)) == full;
  }

  /** A lone name part is announced as is, with no stray space. */
  lemma SingleNamePart(p: Profile, n: string)
    requires n != [] && IsTrimmed(n)
    requires p.name == Some(n) && OrElse(p.lastName, "") == ""
    ensures DisplayName(p) == n
  {
    TrimUnique("", n, " ");
    assert "" + n + " " == JoinedName(p);
  }

  /** A lone last name is announced as is, without the leading space. */
  lemma SingleLastNamePart(p: Profile, l: string)
    requires l != [] && IsTrimmed(l)
    requires OrElse(p.name, "") == "" && p.lastName == Some(l)
    ensures DisplayName(p) == l
  {
    TrimUnique(" ", l, "");
    assert " " + l + "" == JoinedName(p);
  }

  /** When both name parts are blank the e-mail decides: its text before the first `@`
      (all of it when there is none), and "Usuario" when there is no e-mail. */
  lemma EmailFallback(p: Profile)
    requires IsBlank(OrElse(p.name, "")) && IsBlank(OrElse(p.lastName, ""))
    ensures OrElse(p.email, "") == "" ==> DisplayName(p) == DefaultName
    ensures OrElse(p.email, "") != "" ==>
      var e, r := p.email.value, DisplayName(p);
      r == e[..|r|] && '@' !in r && (|r| < |e| ==> e[|r|] == '@')
  {
    JoinedNameBlank(p);
    if OrElse(p.email, "") == "" {
      BeforeFirstAbsent(DefaultName, '@');
    }
  }

  /** The announced name is empty only for blank name parts and an e-mail that
      starts with `@`; in every other case the notification names someone. */
  lemma DisplayNameEmptyIff(p: Profile)
    ensures DisplayName(p) == "" <==>
      && IsBlank(OrElse(p.name, "")) && IsBlank(OrElse(p.lastName, ""))
      && OrElse(p.email, "") != "" && p.email.value[0] == '@'
  {
    JoinedNameBlank(p);
    if Trim(JoinedName(p)) == "" && OrElse(p.email, "") == "" {
      BeforeFirstAbsent(DefaultName, '@');
    }
  }

  /** Example: `{name: "Ana", lastName: "Ruiz"}`. */
  lemma FullNameExample(p: Profile)
    requires p == Profile(Some("Ana"), Some("Ruiz"), None, None)
    ensures DisplayName(p) == "Ana" + " " + "Ruiz"
  {
    FullNameJoined(p, "Ana", "Ruiz");
  }

  /** Example: `{name: "Ana"}`, announced with no trailing space. */
  lemma LoneNameExample(p: Profile)
    requires p == Profile(Some("Ana"), None, None, None)
    ensures DisplayName(p) == "Ana"
  {
    SingleNamePart(p, "Ana");
  }

  /** Example: `{}`, announced as "Usuario". */
  lemma EmptyProfileExample(p: Profile)
    requires p == Profile(None, None, None, None)
    ensures DisplayName(p) == "Usuario"
  {
    EmailFallback(p);
  }

  /** Example: `{name: "", lastName: "", email: "ana@x.com"}`. */
  lemma EmailOnlyExample(p: Profile)
    requires p == Profile(Some(""), Some(""), Some("ana" + "@" + "x.com"), None)
    ensures DisplayName(p) == "ana"
  {
    BeforeFirstSplit("ana", '@', "x.com");
    EmailFallback(p);
  }
}
