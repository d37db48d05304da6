/**
 * The e-mail ("magic link") login form (src/components/auth/EmailAuthForm.tsx).
 * The address is checked only for containing '@'; after a simulated delay
 * a mock user is built from it: the part before the first '@' is the
 * username, and the raw address is spliced into an avatar URL.
 */
module EmailAuthForm {
  import opened Text

  datatype MockUser = MockUser(id: string, email: string, username: string, avatar: string, provider: string)

  /** What `handleEmailAuth` ends in: the "Email inválido" toast, or a mock user handed to `onSuccess`. */
  datatype AuthResult = InvalidEmail | SignedIn(user: MockUser)

  const MockUserId: string := "email_user_456"
  const Provider: string := "email"
  const AvatarPrefix: string := "https://ui-avatars.com/api/?name="
  const AvatarSuffix: string := "&background=6366f1&color=fff"

  /**
   * The check at the top of the handler. Its emptiness test adds nothing:
   * an address is accepted exactly when it contains '@'.
   */
  predicate EmailAccepted(email: string)
    ensures EmailAccepted(email) <==> '@' in email
  {
    email != "" && '@' in email
  }

  /** Any '@' will do: a leading one, or several. */
  lemma AcceptsOddAddresses()
    ensures EmailAccepted("@") && EmailAccepted("a@b@c") && !EmailAccepted("ab")
  {
    assert "@"[0] == '@';
    assert "a@b@c"[1] == '@';
  }

  function AvatarUrl(email: string): (url: string)
    ensures |url| == |AvatarPrefix| + |email| + |AvatarSuffix|
    ensures url[..|AvatarPrefix|] == AvatarPrefix
    ensures url[|AvatarPrefix|..|AvatarPrefix| + |email|] == email
    ensures url[|AvatarPrefix| + |email|..] == AvatarSuffix
  {
    AvatarPrefix + email + AvatarSuffix
  }

  function MakeMockUser(email: string): (u: MockUser)
    ensures u.id == MockUserId && u.provider == Provider && u.email == email
    ensures u.avatar == AvatarUrl(email)
    ensures |u.username| <= |email| && u.username == email[..|u.username|] && '@' !in u.username
    ensures '@' in email ==> |u.username| < |email| && email[|u.username|] == '@'
  {
    MockUser(MockUserId, email, BeforeFirst(email, '@'), AvatarUrl(email), Provider)
  }

  /** `handleEmailAuth`, without its timers. */
  function HandleEmailAuth(email: string): (r: AuthResult)
    ensures r.InvalidEmail? <==> '@' !in email
    ensures r.SignedIn? ==> r.user.email == email
    ensures r.SignedIn? ==> r.user == MakeMockUser(email)
  {
    if !EmailAccepted(email) then InvalidEmail else SignedIn(MakeMockUser(email))
  }

  /** The username and the rest of an accepted address put it back together. */
  lemma UsernameSplitsEmail(email: string)
    requires EmailAccepted(email)
    ensures var u := HandleEmailAuth(email).user.username;
            email == u + "@" + email[|u| + 1..]
  {
    var u := HandleEmailAuth(email).user.username;
    assert email == email[..|u|] + [email[|u|]] + email[|u| + 1..];
  }

  /** An address starting with '@' gives an empty username. */
  lemma LeadingAtGivesEmptyUsername(email: string)
    requires |email| > 0 && email[0] == '@'
    ensures HandleEmailAuth(email).SignedIn? && HandleEmailAuth(email).user.username == ""
  {
    assert '@' in email;
  }
}
