/**
 * lib/context/AuthContext.tsx: the e-mail domain test applied to a redirected sign-in, and the
 * provider's `user` / `loading` / `error` state as its callbacks update it.
 */
module Auth {
  import opened Base
  import opened Types

  const AllowedDomains: seq<string> := ["snoonu.com", "gmail.com"]
  const RestrictedMessage: string := "Access restricted to company emails only."

  /** The position of the first `c` in `s`, if any. */
  function IndexOf(s: string, c: char): (r: Option<nat>)
    ensures r.None? <==> c !in s
    ensures r.Some? ==> r.value < |s| && s[r.value] == c && c !in s[..r.value]
  {
    if s == [] then None
    else if s[0] == c then Some(0)
    else match IndexOf(s[1..], c)
      case None => None
      case Some(k) => assert s[..k + 1] == [s[0]] + s[1..][..k]; Some(k + 1)
  }

  /** The prefix of `s` before its first `c` (all of `s` when there is none). */
  function UpTo(s: string, c: char): (r: string)
    ensures c !in r
    ensures |r| <= |s| && r == s[..|r|]
    ensures |r| == |s| || s[|r|] == c
  {
    match IndexOf(s, c)
    case None => s
    case Some(k) => s[..k]
  }

  /**
   * `email?.split('@')[1]`: the text between the first `@` and the next one (or the end);
   * nothing for a missing e-mail or one without `@`.
   */
  function EmailDomain(email: Option<string>): (d: Option<string>)
    ensures d.Some? ==> email.Some? && '@' in email.value && '@' !in d.value
    ensures email.Some? && '@' in email.value ==> d.Some?
  {
    match email
    case None => None
    case Some(e) =>
      match IndexOf(e, '@')
      case None => None
      case Some(i) => Some(UpTo(e[i + 1..], '@'))
  }

  /** The redirected user is kept when the domain is present, non-empty and exactly an allowed one. */
  predicate DomainAccepted(email: Option<string>)
    ensures DomainAccepted(email) ==> email.Some? && '@' in email.value
  {
    var d := EmailDomain(email);
    d.Some? && d.value != "" && d.value in AllowedDomains
  }

  lemma {:induction false} IndexOfAt(s: string, c: char, k: nat)
    requires k < |s| && s[k] == c && c !in s[..k]
    ensures IndexOf(s, c) == Some(k)
  {
    if k > 0 {
      assert s[0] in s[..k];
      assert s[1..][..k - 1] == s[1..k];
      assert forall x :: x in s[1..k] ==> x in s[..k];
      IndexOfAt(s[1..], c, k - 1);
    }
  }

  lemma UpToAt(s: string, c: char, k: nat)
    requires k <= |s| && c !in s[..k] && (k == |s| || s[k] == c)
    ensures UpTo(s, c) == s[..k]
  {
    if k < |s| {
      IndexOfAt(s, c, k);
    } else {
      assert s[..k] == s;
    }
  }

  /** An address written as local part, `@`, domain, and optionally `@` and further text. */
  function Address(local: string, domain: string, rest: Option<string>): string
  {
    local + ['@'] + domain + (if rest.Some? then ['@'] + rest.value else [])
  }

  /**
   * For any split of an address as local part, `@`, a domain and optionally `@` and more text,
   * the address is accepted exactly when that domain is an allowed one.
   */
  lemma DecompositionDecides(local: string, domain: string, rest: Option<string>)
    requires '@' !in local && '@' !in domain
    ensures DomainAccepted(Some(Address(local, domain, rest))) <==> domain in AllowedDomains
  {
    DomainOfAddress(local, domain, rest);
  }

  lemma DomainOfAddress(local: string, domain: string, rest: Option<string>)
    requires '@' !in local && '@' !in domain
    ensures EmailDomain(Some(Address(local, domain, rest))) == Some(domain)
  {
    var tail := domain + (if rest.Some? then ['@'] + rest.value else []);
    var e := Address(local, domain, rest);
    assert e == local + ['@'] + tail;
    assert e[..|local|] == local;
    IndexOfAt(e, '@', |local|);
    assert e[|local| + 1..] == tail;
    assert tail[..|domain|] == domain;
    UpToAt(tail, '@', |domain|);
  }

  /** Conversely every accepted address splits that way, with an allowed domain. */
  lemma AcceptedSplits(e: string) returns (local: string, domain: string, rest: Option<string>)
    requires DomainAccepted(Some(e))
    ensures '@' !in local && '@' !in domain && domain in AllowedDomains
    ensures e == Address(local, domain, rest)
  {
    var i := IndexOf(e, '@').value;
    local := e[..i];
    var after := e[i + 1..];
    domain := UpTo(after, '@');
    assert EmailDomain(Some(e)) == Some(domain);
    rest := if |domain| == |after| then None else Some(after[|domain| + 1..]);
    SplitAt(e, i, domain, rest);
  }

  lemma SplitAt(e: string, i: nat, domain: string, rest: Option<string>)
    requires i < |e| && e[i] == '@' && |domain| <= |e| - i - 1
    requires domain == e[i + 1..][..|domain|]
    requires |domain| == |e[i + 1..]| ==> rest == None
    requires |domain| < |e[i + 1..]| ==> e[i + 1..][|domain|] == '@' && rest == Some(e[i + 1..][|domain| + 1..])
    ensures e == Address(e[..i], domain, rest)
  {
    var after := e[i + 1..];
    assert e == e[..i] + [e[i]] + after;
    if |domain| < |after| {
      assert after == domain + ([after[|domain|]] + after[|domain| + 1..]);
    } else {
      assert after == domain;
    }
  }

  /** Only the text between the first and second `@` is checked: whatever follows a second `@` is ignored. */
  lemma SecondAtIgnored(local: string, domain: string, rest: string)
    requires '@' !in local && '@' !in domain && domain in AllowedDomains
    ensures DomainAccepted(Some(Address(local, domain, Some(rest))))
    ensures DomainAccepted(Some(Address(local, domain, None)))
  {
    DecompositionDecides(local, domain, Some(rest));
    DecompositionDecides(local, domain, None);
  }

  /** `a@gmail.com@other.org` is accepted. */
  lemma TrailingDomainAccepted(e: string)
    requires e == "a@gmail.com@other.org"
    ensures DomainAccepted(Some(e))
  {
    assert e == Address("a", "gmail.com", Some("other.org"));
    SecondAtIgnored("a", "gmail.com", "other.org");
  }

  /** The comparison is case-sensitive: `x@Gmail.com` is rejected. */
  lemma CaseSensitive(e: string)
    requires e == "x@Gmail.com"
    ensures !DomainAccepted(Some(e))
  {
    assert e == Address("x", "Gmail.com", None);
    DecompositionDecides("x", "Gmail.com", None);
    assert "Gmail.com"[0] != "gmail.com"[0];
  }

  /** An address without `@`, and a missing address, are rejected. */
  lemma NoDomainRejected(e: string)
    requires '@' !in e
    ensures !DomainAccepted(Some(e))
    ensures !DomainAccepted(None)
  {
  }

  /** What `getRedirectResult` delivers. */
  datatype RedirectResult = NoRedirect | RedirectUser(user: User) | RedirectFailed(message: string)

  /** The provider's state. */
  class AuthState {
    var user: Option<User>
    var loading: bool
    var error: Option<string>

    constructor()
      ensures user == None && loading && error == None
    {
      user := None;
      loading := true;
      error := None;
    }

    /** The auth-state listener stores the user and ends loading. */
    method OnAuthStateChanged(u: Option<User>)
      modifies this
      ensures user == u && !loading && error == old(error)
    {
      user := u;
      loading := false;
    }

    /**
     * The redirect handler: a user outside the allowed domains is signed out (the result says
     * a sign-out was requested) and the restriction message is set; a failed redirect stores its
     * message. `signOutFailure` stands for a rejected sign-out: the handler's catch then stores
     * that error's message instead of the restriction message.
     */
    method HandleRedirectResult(result: RedirectResult, signOutFailure: Option<string>) returns (signOut: bool)
      modifies this
      ensures signOut <==> result.RedirectUser? && !DomainAccepted(result.user.email)
      ensures error == (if signOut && signOutFailure.Some? then Some(signOutFailure.value)
                        else if signOut then Some(RestrictedMessage)
                        else if result.RedirectFailed? then Some(result.message)
                        else old(error))
      ensures user == old(user) && loading == old(loading)
    {
      signOut := false;
      match result {
        case NoRedirect =>
        case RedirectUser(u) =>
          var emailDomain := EmailDomain(u.email);
          if emailDomain.None? || emailDomain.value == "" || emailDomain.value !in AllowedDomains {
            signOut := true;
            if signOutFailure.Some? {
              error := Some(signOutFailure.value);
            } else {
              error := Some(RestrictedMessage);
            }
          }
        case RedirectFailed(message) =>
          error := Some(message);
      }
    }

    /** Sign-in clears the error and starts loading; a failure to redirect stores its message and stops loading. */
    method SignInWithGoogle(failure: Option<string>)
      modifies this
      ensures error == failure
      ensures loading <==> failure.None?
      ensures user == old(user)
    {
      loading := true;
      error := None;
      if failure.Some? {
        error := failure;
        loading := false;
      }
    }
  }
}
