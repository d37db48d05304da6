# FastQuest core, modelled in Dafny

FastQuest is an intermittent-fasting companion app. Its main stateful
logic is the fasting timer: a running flag, the seconds elapsed, and a
target in hours. A one-second interval adds 1 to the elapsed time while
the fast runs. Completing a fast at or past the target earns 10
FastPoints per whole hour. It also adds one to the streak and to the
number of fasts. Completing earlier breaks the streak. Around the timer
sit small pure computations:

- the achievement catalog's filter and counts;
- the profile's level-progress arithmetic;
- two form validators;
- the leaderboard's rank badges;
- the mascot's message rotation;
- the home page's display name, view switch and loading/sign-in gate.

One module per source file:

| file | module | form |
|---|---|---|
| `fast_timer.dfy` | `FastTimer` | class `Timer` with the session fields, proved against the pure transition `Step`; completion rule `Settle`; pure display helpers |
| `achievements.dfy` | `Achievements` | constant catalog, `Filter`, counts, the "Quase lá" list |
| `user_profile.dfy` | `UserProfile` | level-progress expressions, with JavaScript's `%` and `Math.round` written out |
| `signup_form.dfy` | `SignupForm` | the submit handler as a function returning an outcome; the button's `disabled` test |
| `email_auth_form.dfy` | `EmailAuthForm` | the e-mail check and the mock user built from the address |
| `social_leaderboard.dfy` | `SocialLeaderboard` | icon and badge case splits, rows numbered by index |
| `zen_mascot.dfy` | `ZenMascot` | class `Mascot` with the message index and its `Rotate` step |
| `index_page.dfy` | `IndexPage` | display-name fallback, mock profile, `renderView`, page gate |
| `text.dfy` | `Text` | `toString`, `padStart` and `split(sep)[0]` on strings |
| `wrappers.dfy` | `Wrappers` | `Option`, standing for `undefined`/`null` |

What the code does, and what it does not do:

- Elapsed time is counted +1 per tick. No wall-clock anchor is kept.
- There are five phases, the last from 16 hours on.
- The target can be changed while a fast runs.
- Start, pause and complete have no state guards and report no
  transition errors. The timer screen offers "Iniciar Jejum" only while
  the fast is not running (before the first start, while paused and
  after a completion), and "Pausar" and "Finalizar" only while running
  (src/components/FastTimer.tsx:166-182). The model's event sequences
  are therefore more permissive than the screen. They also include a
  start while running, which leaves the fast running, and a pause or
  complete of a paused fast.
- No level is computed from points. The timer never writes `level`, and
  the home page passes a fixed level 5.
- No achievement is unlocked by rule. The `unlocked` flags are constants
  of the catalog, and the `user` prop is never read.
- No persistence store is involved.

## Model

| member | source | states |
|---|---|---|
| `FastTimer.Step` | src/components/FastTimer.tsx:26-71 | the elapsed time changes only by +1 on a tick of an active fast or by reset to 0 on complete; the target changes only through the selector; start and pause only flip `isActive`; complete always resets the elapsed time to 0 and the selector always sets the target to the chosen hours |
| `FastTimer.Timer.constructor` | src/components/FastTimer.tsx:22-24 | a new timer is inactive, at 0 seconds, with target 16 |
| `FastTimer.Timer.Tick` | src/components/FastTimer.tsx:26-34 | the interval callback performs the `Tick` transition and keeps the target one of the offered ones |
| `FastTimer.Timer.StartFast` | src/components/FastTimer.tsx:57-63 | performs the `Start` transition: only `isActive` changes, to true |
| `FastTimer.Timer.PauseFast` | src/components/FastTimer.tsx:65-71 | performs the `Pause` transition: only `isActive` changes, to false |
| `FastTimer.Timer.CompleteFast` | src/components/FastTimer.tsx:73-104 | returns the counters and outcome given by `Settle` for the old elapsed time and target; the session ends inactive at 0 seconds with its target kept |
| `FastTimer.Timer.Progress` | src/components/FastTimer.tsx:43-46 | `getProgress` on the timer's own state: the progress percentage of its elapsed time and target, in 0..100 and 100 exactly at the target; the class invariant keeps the target positive |
| `FastTimer.Timer.SelectTarget` | src/components/FastTimer.tsx:207-210 | sets the target to the chosen button's hours, whether or not a fast runs |
| `FastTimer.PauseAndResume` | src/components/FastTimer.tsx:57-71 | pause, a tick while paused, and start leave the session exactly as it was |
| `FastTimer.Settle` | src/components/FastTimer.tsx:73-99 | completion at or past the target earns 10 points per whole hour, at least 10 per target hour, and adds 1 to streak and fasts; earlier completion zeroes the streak and changes no other counter; name and level never change; consistent counters stay consistent |
| `FastTimer.TargetStaysAnOption` | src/components/FastTimer.tsx:207-210 | if every selected target comes from the buttons, the target stays one of 12, 14, 16, 18, 20, 24 after any events |
| `FastTimer.TargetAlwaysAnOption` | src/components/FastTimer.tsx:24 | from the initial target 16, any event sequence whose selected targets come from the buttons keeps the target among the offered ones |
| `FastTimer.ElapsedGrowsUntilComplete` | src/components/FastTimer.tsx:26-34 | with no complete event the elapsed time never decreases and grows by at most the number of ticks |
| `FastTimer.RunningTicksAdd` | src/components/FastTimer.tsx:28-31 | k ticks of a running fast add exactly k seconds and change nothing else |
| `FastTimer.PausedTicksIgnored` | src/components/FastTimer.tsx:26-34 | ticks of a paused fast change nothing |
| `FastTimer.PauseThenStartResumes` | src/components/FastTimer.tsx:57-71 | pausing, any idle time, and starting again resume from the same count |
| `FastTimer.SixteenHourFast` | src/components/FastTimer.tsx:73-89 | start, 57600 ticks and complete with the default target earn 160 points and one more fast and streak |
| `FastTimer.EightHourAttempt` | src/components/FastTimer.tsx:90-102 | completing after 8 hours of a 16-hour target only zeroes the streak |
| `FastTimer.ClockFields` | src/components/FastTimer.tsx:36-39 | minutes and seconds are below 60 and hours*3600 + minutes*60 + seconds is the input |
| `FastTimer.Pad2` | src/components/FastTimer.tsx:40 | a padded field has at least two characters, exactly two for values below 100; from 10 on it is the bare numeral, with no zero added |
| `FastTimer.Pad2ReadsBack` | src/components/FastTimer.tsx:40 | a padded field is all digits and reads back as the number it was written from |
| `FastTimer.FormatTime` | src/components/FastTimer.tsx:36-41 | the text is at least 8 characters, with colons before the two-character minute and second fields |
| `FastTimer.FormatTimeRoundTrip` | src/components/FastTimer.tsx:36-41 | reading the formatted text back (digits, two-digit minutes and seconds below 60) gives the input seconds |
| `FastTimer.ProgressPercent` | src/components/FastTimer.tsx:43-46 | the percentage lies in 0..100, is 100 exactly when the target is reached, and below that is elapsed/target*100 |
| `FastTimer.ProgressMonotone` | src/components/FastTimer.tsx:43-46 | more elapsed time never shows less progress |
| `FastTimer.FastingPhase` | src/components/FastTimer.tsx:48-55 | the phase index is min(whole hours / 4, 4) |
| `FastTimer.PhaseDependsOnlyOnWholeHours` | src/components/FastTimer.tsx:48-49 | two times with the same whole hours have the same phase |
| `FastTimer.PhaseMonotone` | src/components/FastTimer.tsx:48-55 | the phase never goes back as time passes |
| `FastTimer.PhaseBreaks` | src/components/FastTimer.tsx:50-54 | the phase changes exactly at 4, 8, 12 and 16 hours |
| `FastTimer.DeepKetosisFromSixteenHours` | src/components/FastTimer.tsx:53-54 | from 16 hours on the phase is "Cetose Profunda", and that is the title shown |
| `Text.Decimal` | src/components/FastTimer.tsx:40 | `toString` gives a non-empty digit string without a leading zero, one digit exactly below 10 |
| `Text.DecimalRoundTrip` | src/components/FastTimer.tsx:40 | the digits of `toString` read back as the number |
| `Text.PadStart` | src/components/FastTimer.tsx:40 | `padStart` keeps strings already long enough and otherwise prefixes fill characters up to the width |
| `Text.PaddedDecimalRoundTrip` | src/components/FastTimer.tsx:40 | a zero-padded number still reads back as the number |
| `Text.BeforeFirst` | src/components/auth/EmailAuthForm.tsx:44 | `split(sep)[0]` is the longest prefix without the separator, and the whole string when it has none |
| `Achievements.Filter` | src/components/Achievements.tsx:77 | the result keeps exactly the elements satisfying the test, each as often as before, in their original order |
| `Achievements.FilteredAchievements` | src/components/Achievements.tsx:75-77 | "Todos" gives the catalog unchanged; any other category gives exactly its entries, in catalog order, each as often as in the catalog |
| `Achievements.UnlockedCount` | src/components/Achievements.tsx:79 | the count is the number of catalog indices holding an unlocked entry; so it is at most the catalog length, and equal to it exactly when every entry is unlocked |
| `Achievements.UnlockedRatio` | src/components/Achievements.tsx:94 | the header bar ratio lies in [0,1] and is 1 exactly when every entry is unlocked |
| `Achievements.Take` | src/components/Achievements.tsx:197 | `slice(0, n)` is the prefix of length min(n, length) |
| `Achievements.AlmostThere` | src/components/Achievements.tsx:195-197 | the first min(2, number of candidates) locked entries with progress, in catalog order |
| `Achievements.CatalogWellFormed` | src/components/Achievements.tsx:11-72 | catalog ids are 1..6 and distinct; every progress has a positive total it does not exceed; every entry's category is one of the filter buttons other than "Todos" |
| `Achievements.CatalogCounts` | src/components/Achievements.tsx:79-89 | the header reads 3 of 6 |
| `Achievements.CatalogAlmostThere` | src/components/Achievements.tsx:195-197 | the "Quase lá" list holds achievements 4 and 5 |
| `Achievements.Render` | src/components/Achievements.tsx:75-197 | the screen shows the category's filtered list, the unlocked count out of the catalog length, and the "Quase lá" list, so the count is at most the total and the list has at most two entries |
| `Achievements.RenderIgnoresUser` | src/components/Achievements.tsx:7-10 | two different users see the same screen |
| `UserProfile.JsRem` | src/components/UserProfile.tsx:17 | JavaScript's remainder: agrees with the mathematical one for non-negative dividends and takes the dividend's sign otherwise |
| `UserProfile.JsRound` | src/components/UserProfile.tsx:36 | `Math.round` gives the integer within half a unit, halves rounded up |
| `UserProfile.NextLevelPoints` | src/components/UserProfile.tsx:16 | a multiple of 200, at least 200 for every level from 0 |
| `UserProfile.NextLevelStep` | src/components/UserProfile.tsx:16 | each level adds 200 to the next-level points |
| `UserProfile.ProgressToNextLevel` | src/components/UserProfile.tsx:17 | the percentage is half the remainder mod 200, and in [0,100) for non-negative points |
| `UserProfile.ProgressDependsOnRemainder` | src/components/UserProfile.tsx:17 | non-negative points with the same remainder mod 200 show the same progress |
| `UserProfile.ProgressPeriodic` | src/components/UserProfile.tsx:17 | adding 200 points leaves the progress unchanged |
| `UserProfile.RemainingPoints` | src/components/UserProfile.tsx:45 | the FP still needed is positive for every level from 0 |
| `UserProfile.RoundedProgress` | src/components/UserProfile.tsx:36 | the printed percentage is an integer in 0..100 for non-negative points |
| `UserProfile.HundredPercentBeforeNextLevel` | src/components/UserProfile.tsx:16-45 | with 199 points over a block the label shows 100% while points are still missing |
| `UserProfile.HomePageProfile` | src/components/UserProfile.tsx:16-45 | the home page's profile (level 5, 1250 points) shows 25% and 1150 FP to go |
| `SignupForm.HandleSubmit` | src/components/auth/SignupForm.tsx:23-41 | an empty field ends silently; otherwise a mismatch alerts; otherwise a password under 6 characters alerts; otherwise `signUp` gets the email, the password, and the username or nothing when it is empty |
| `SignupForm.SubmitDisabled` | src/components/auth/SignupForm.tsx:125 | an enabled button means not loading, every field filled, and matching passwords |
| `SignupForm.EnabledSubmitOnlyLengthCanReject` | src/components/auth/SignupForm.tsx:26-36 | with the button enabled, submission either calls `signUp` or fails the length check, and fails it exactly for short passwords |
| `SignupForm.MismatchReportedBeforeLength` | src/components/auth/SignupForm.tsx:28-36 | filled, mismatched passwords report a mismatch whatever their length |
| `EmailAuthForm.EmailAccepted` | src/components/auth/EmailAuthForm.tsx:20 | an address is accepted exactly when it contains '@' |
| `EmailAuthForm.AcceptsOddAddresses` | src/components/auth/EmailAuthForm.tsx:20 | "@" and "a@b@c" are accepted, "ab" is not |
| `EmailAuthForm.AvatarUrl` | src/components/auth/EmailAuthForm.tsx:45 | the URL is the fixed prefix, the raw address, then the fixed suffix |
| `EmailAuthForm.MakeMockUser` | src/components/auth/EmailAuthForm.tsx:41-47 | fixed id and provider, the address unchanged, the avatar URL, and a username that is the prefix before the first '@' |
| `EmailAuthForm.HandleEmailAuth` | src/components/auth/EmailAuthForm.tsx:19-50 | the toast fires exactly for addresses without '@'; otherwise the user signed in is the mock user built from the address |
| `EmailAuthForm.UsernameSplitsEmail` | src/components/auth/EmailAuthForm.tsx:44 | username, '@' and the rest put the accepted address back together |
| `EmailAuthForm.LeadingAtGivesEmptyUsername` | src/components/auth/EmailAuthForm.tsx:44 | an address starting with '@' is accepted with an empty username |
| `SocialLeaderboard.PositionIcon` | src/components/sharing/SocialLeaderboard.tsx:72-83 | positions 1, 2, 3 get trophy, medal, award; every other position is shown as itself |
| `SocialLeaderboard.PositionBadge` | src/components/sharing/SocialLeaderboard.tsx:85-96 | 1, 2, 3 get their named badges; other positions up to 10, non-positive ones included, get "Top 10"; above 10 "Ativo" |
| `SocialLeaderboard.Rows` | src/components/sharing/SocialLeaderboard.tsx:111-120 | one row per entry in list order with position index+1; exactly the first three are highlighted; each row's icon and badge are those of its position, so rows past the third show "#position" |
| `SocialLeaderboard.PositionsStrictlyIncrease` | src/components/sharing/SocialLeaderboard.tsx:111-112 | positions run from 1 to n, strictly increasing, hence distinct |
| `SocialLeaderboard.RankFollowsInputOrder` | src/components/sharing/SocialLeaderboard.tsx:111-112 | swapping two entries swaps their ranks: the rank is the list order, nothing sorts |
| `SocialLeaderboard.MockDataRanksByShares` | src/components/sharing/SocialLeaderboard.tsx:23-69 | the mock list happens to be in descending share count, so its first row is the top sharer |
| `ZenMascot.Next` | src/components/ZenMascot.tsx:17 | the next index is in bounds and wraps from the last message to the first |
| `ZenMascot.StepsAdd` | src/components/ZenMascot.tsx:17 | k updates from an index in bounds give (index + k) mod 5 |
| `ZenMascot.FiveStepsReturn` | src/components/ZenMascot.tsx:17 | five updates return to the starting message |
| `ZenMascot.EveryMessageShown` | src/components/ZenMascot.tsx:17 | every message is reached from any start within five updates |
| `ZenMascot.Mascot.constructor` | src/components/ZenMascot.tsx:5 | the index starts at 0 |
| `ZenMascot.Mascot.Rotate` | src/components/ZenMascot.tsx:15-20 | the interval callback sets the index to `Next` of the old one, keeping it in bounds |
| `ZenMascot.Mascot.Shown` | src/components/ZenMascot.tsx:30 | the message shown is one of the constant messages |
| `ZenMascot.RotateFiveTimes` | src/components/ZenMascot.tsx:17 | five rotations show the same message again |
| `IndexPage.DisplayName` | src/pages/Index.tsx:32 | never empty: the username if non-empty, else the address prefix before '@' if non-empty, else "Usuário" |
| `IndexPage.UserProfileData` | src/pages/Index.tsx:31-37 | present exactly when a user is; then level 5, 1250 points, streak 12, 48 fasts under the display name |
| `IndexPage.RenderView` | src/pages/Index.tsx:43-56 | the timer for "timer" and every unknown view; profile, achievements and progress show nothing without a user |
| `IndexPage.RenderPage` | src/pages/Index.tsx:58-151 | the spinner exactly while loading; the landing page exactly when not loading and signed out; otherwise the main page shows `renderView` of the current view, which is never empty |
| `IndexPage.MainPageNeverEmpty` | src/pages/Index.tsx:43-151 | `renderView` returns an element for every view past the sign-in gate |

## Left out

- Rendering: markup, styling, the SVG stroke arithmetic, the phase colours and descriptions, and toast texts. Toasts and alerts appear only as outcome values (`Outcome`, `SubmitResult`, `AuthResult`).
- Timers: `setInterval`, `setTimeout` and their cleanup. The timer tick and the mascot rotation are methods the environment calls. The e-mail form's delays are dropped.
- The authentication hook (src/hooks/useAuth.tsx). `signUp` appears only as the `SignUp` outcome that records its arguments. The loading flag and the user are parameters of the page.
- The other forms (LoginForm, ForgotPasswordForm), modals, avatars, navigation and sharing dialog. They hold only UI and I/O.
- Prop wiring. The home page passes `user`/`setUser` to the timer, which declares `userData`/`updateUserData`. The timer is modelled against its own props. `updateUserData` is the merge of the fields it lists, returned by `CompleteFast`. As wired, the timer's `userData` is undefined, so its render reads `userData.currentStreak` (src/components/FastTimer.tsx:190) of undefined and the default timer view throws rather than showing something. The model does not capture that failure.
- Number representation: JavaScript numbers are doubles. The model uses unbounded integers for counters and `real` for percentages and ratios. Rounding error and integers beyond 2^53 are not modelled.
- String lengths: JavaScript's `length` counts UTF-16 code units. The model counts characters, so passwords outside the Basic Multilingual Plane are measured differently.
- `FastTimer.TargetStaysAnOption`: assumes selected targets come from the buttons. Only the button handlers call `setTargetHours`.
- `FastTimer.ProgressPercent`: requires a positive target. The target is always one of the offered hours, so `FastTimer.Timer.Progress` meets this requirement from its class invariant.
- `Achievements.UnlockedRatio`: requires a non-empty catalog. The catalog has six entries.
