/** The user profile record and its onboarding status (interfaces/user/IUser.ts). */
module UserTypes {

  /** How far a user got through onboarding, in the order the screens run. */
  datatype OnboardingStatus = None | RegisteredLeagues | RegisteredClubs

  datatype User = User(id: string, userName: string, email: string, onboardingStatus: OnboardingStatus)
}
