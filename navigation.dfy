/**
 * navigation/Navigation.tsx: which navigator is shown for the signed-in
 * state, the onboarding navigator's first screen, and the status-bar style.
 */
module Navigation {
  import opened Wrappers
  import UserTypes
  import opened ThemeTypes

  datatype Stack = AuthenticatedStack | OnboardingStack | UnauthenticatedStack

  /** The two screens of the onboarding navigator. */
  datatype Route = FavouriteLeague | FavouriteTeam

  datatype BarStyle = DarkContent | LightContent

  /** isOnboardingCompleted: a user exists and has registered clubs. */
  function IsOnboardingCompleted(user: Option<UserTypes.User>): (r: bool)
    ensures r <==> user.Some? && user.value.onboardingStatus == UserTypes.RegisteredClubs
  {
    if user.Some? && user.value.onboardingStatus == UserTypes.RegisteredClubs then true else false
  }

  /** The nested choice of navigator. */
  function ChooseStack(isAuthenticated: bool, user: Option<UserTypes.User>): (r: Stack)
    ensures r == AuthenticatedStack <==> isAuthenticated && IsOnboardingCompleted(user)
    ensures r == OnboardingStack <==> isAuthenticated && !IsOnboardingCompleted(user)
    ensures r == UnauthenticatedStack <==> !isAuthenticated
  {
    if isAuthenticated && IsOnboardingCompleted(user) then AuthenticatedStack
    else if isAuthenticated && !IsOnboardingCompleted(user) then OnboardingStack
    else UnauthenticatedStack
  }

  /** getInitialRouteName: the screen that matches how far the user got, if any. */
  function InitialRouteName(user: Option<UserTypes.User>): (r: Option<Route>)
    ensures user.Some? && user.value.onboardingStatus == UserTypes.OnboardingStatus.None ==> r == Some(FavouriteLeague)
    ensures user.Some? && user.value.onboardingStatus == UserTypes.RegisteredLeagues ==> r == Some(FavouriteTeam)
    ensures r.None? <==> user.None? || user.value.onboardingStatus == UserTypes.RegisteredClubs
  {
    if user.None? then None
    else match user.value.onboardingStatus
      case None => Some(FavouriteLeague)
      case RegisteredLeagues => Some(FavouriteTeam)
      case RegisteredClubs => None
  }

  /**
   * The status-bar effect compares the type with `Light || Auto`, which is
   * just Light: dark content for Light only, Auto included among the rest.
   */
  function StatusBarStyle(themeType: ThemeType): (r: BarStyle)
    ensures r == DarkContent <==> themeType == Light
  {
    var compared := Light;
    if themeType == compared then DarkContent else LightContent
  }

  /** Signed out, the user record and its status play no part. */
  lemma SignedOutIgnoresUser(u1: Option<UserTypes.User>, u2: Option<UserTypes.User>)
    ensures ChooseStack(false, u1) == ChooseStack(false, u2) == UnauthenticatedStack
  {
  }

  /**
   * Whenever the onboarding navigator is shown for a loaded user, it has a
   * first screen; the home navigator is shown exactly when it would have none.
   */
  lemma OnboardingStackHasRoute(user: UserTypes.User)
    ensures ChooseStack(true, Some(user)) == OnboardingStack <==> InitialRouteName(Some(user)).Some?
    ensures ChooseStack(true, Some(user)) == AuthenticatedStack <==> InitialRouteName(Some(user)).None?
  {
  }

  /** Auto gets light content although the comment means it to follow Light. */
  lemma AutoGetsLightContent()
    ensures StatusBarStyle(Auto) == LightContent
    ensures StatusBarStyle(Dark) == LightContent
    ensures StatusBarStyle(Light) == DarkContent
  {
  }
}
