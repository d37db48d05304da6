/**
 * The home page (src/pages/Index.tsx): the display name and the mock
 * profile built from the signed-in user, the view switch, and the gate
 * that shows a spinner while the session loads and the landing page when
 * nobody is signed in.
 */
module IndexPage {
  import opened Wrappers
  import opened Text
  import FastTimer

  /** The parts of the authenticated user the page reads. */
  datatype AuthUser = AuthUser(metadataUsername: Option<string>, email: Option<string>)

  const FallbackName: string := "Usuário"

  /** `user.user_metadata?.username || user.email?.split('@')[0] || 'Usuário'`. */
  function DisplayName(user: AuthUser): (name: string)
    ensures name != ""
    ensures user.metadataUsername.Some? && user.metadataUsername.value != "" ==>
              name == user.metadataUsername.value
    ensures (user.metadataUsername.None? || user.metadataUsername.value == "") && user.email.Some? &&
            BeforeFirst(user.email.value, '@') != "" ==>
              name == BeforeFirst(user.email.value, '@') && name == user.email.value[..|name|] && '@' !in name
    ensures (user.metadataUsername.None? || user.metadataUsername.value == "") &&
            (user.email.None? || BeforeFirst(user.email.value, '@') == "") ==>
              name == FallbackName
  {
    if user.metadataUsername.Some? && user.metadataUsername.value != "" then user.metadataUsername.value
    else if user.email.Some? && BeforeFirst(user.email.value, '@') != "" then BeforeFirst(user.email.value, '@')
    else FallbackName
  }

  /** `userProfileData`: fixed counters under the user's display name, or nothing without a user. */
  function UserProfileData(user: Option<AuthUser>): (d: Option<FastTimer.UserData>)
    ensures d.Some? <==> user.Some?
    ensures d.Some? ==> d.value.name == DisplayName(user.value) && d.value.level == 5 &&
                        d.value.fastPoints == 1250 && d.value.currentStreak == 12 && d.value.totalFasts == 48
    ensures d.Some? ==> FastTimer.Consistent(d.value)
  {
    match user
    case None => None
    case Some(u) => Some(FastTimer.UserData(DisplayName(u), 5, 1250, 12, 48))
  }

  /** What `renderView` puts on the page. */
  datatype View = TimerView | ProfileView(data: FastTimer.UserData) | AchievementsView | LeaderboardView | NoView

  /** `renderView`: unknown views fall back to the timer; the others need a user. */
  function RenderView(currentView: string, user: Option<AuthUser>): (v: View)
    ensures v == TimerView <==> currentView !in {"profile", "achievements", "progress"}
    ensures v == NoView <==> user.None? && currentView in {"profile", "achievements", "progress"}
    ensures currentView == "profile" && user.Some? ==> v == ProfileView(UserProfileData(user).value)
    ensures currentView == "achievements" && user.Some? ==> v == AchievementsView
    ensures currentView == "progress" && user.Some? ==> v == LeaderboardView
  {
    match currentView
    case "timer" => TimerView
    case "profile" =>
      var data := UserProfileData(user);
      if user.Some? && data.Some? then ProfileView(data.value) else NoView
    case "achievements" => if user.Some? then AchievementsView else NoView
    case "progress" => if user.Some? then LeaderboardView else NoView
    case _ => TimerView
  }

  datatype Page = Spinner | Landing | Main(view: View)

  /** The page: loading first, then the sign-in gate, then the chosen view. */
  function RenderPage(loading: bool, user: Option<AuthUser>, currentView: string): (p: Page)
    ensures p == Spinner <==> loading
    ensures p == Landing <==> !loading && user.None?
    ensures p.Main? ==> user.Some? && p.view != NoView
    ensures p.Main? ==> p.view == RenderView(currentView, user)
  {
    if loading then Spinner
    else if user.None? then Landing
    else Main(RenderView(currentView, user))
  }

  /** Once the page is past its gate, every view shows something. */
  lemma MainPageNeverEmpty(user: Option<AuthUser>, currentView: string)
    requires user.Some?
    ensures RenderPage(false, user, currentView).Main?
    ensures RenderPage(false, user, currentView).view != NoView
  {
  }
}
