/**
 * `SessionManager`: who is signed in, persisted across launches in the
 * user-defaults store, and whether that user still has to choose a daily
 * goal. The defaults store is a map from keys to stored values; the JSON
 * encoding of the user is abstracted to storing the user record itself.
 */
module Session {
  import opened Wrappers

  /** `AppleSignInUser`: the identity Sign in with Apple returned. */
  datatype SignInUser = SignInUser(displayName: string, email: Option<string>, identifier: string)

  /**
   * A value in the defaults store: an encoded user, a boolean, or data that
   * does not decode as a user.
   */
  datatype DefaultsValue = UserRecord(user: SignInUser) | Flag(b: bool) | Unreadable

  type Defaults = map<string, DefaultsValue>

  datatype Session = Session(signedInUser: Option<SignInUser>, defaults: Defaults)

  const UserKey: string := "session.signedInUser"
  const GoalKeyPrefix: string := "session.goalOnboardingComplete."

  /** The per-user onboarding key. */
  function GoalKey(user: SignInUser): string {
    GoalKeyPrefix + user.identifier
  }

  /** `goalKey`: no key when no one is signed in. */
  function CurrentGoalKey(s: Session): (r: Option<string>)
    ensures r.Some? <==> s.signedInUser.Some?
  {
    match s.signedInUser
    case None => None
    case Some(u) => Some(GoalKey(u))
  }

  /** `defaults.bool(forKey:)`: false for a missing key or a non-boolean value. */
  function BoolForKey(defaults: Defaults, key: string): (b: bool)
    ensures b <==> key in defaults && defaults[key] == Flag(true)
  {
    key in defaults && defaults[key].Flag? && defaults[key].b
  }

  /** `init()`: restores the user stored under the user key, if it decodes. */
  function Init(defaults: Defaults): (s: Session)
    ensures s.defaults == defaults
    ensures s.signedInUser.Some? <==> UserKey in defaults && defaults[UserKey].UserRecord?
    ensures s.signedInUser.Some? ==> defaults[UserKey] == UserRecord(s.signedInUser.value)
  {
    if UserKey in defaults && defaults[UserKey].UserRecord? then Session(Some(defaults[UserKey].user), defaults)
    else Session(None, defaults)
  }

  /** `isSignedIn`: exactly when there is a per-user onboarding key to consult. */
  predicate IsSignedIn(s: Session)
    ensures IsSignedIn(s) <==> CurrentGoalKey(s).Some?
  {
    s.signedInUser.Some?
  }

  /** `updateUser(_:)`: sets the user and stores it, or deletes the stored user on sign-out. */
  function UpdateUser(s: Session, user: Option<SignInUser>): (r: Session)
    ensures r.signedInUser == user
    ensures user.Some? ==> r.defaults == s.defaults[UserKey := UserRecord(user.value)]
    ensures user.None? ==> r.defaults == s.defaults - {UserKey}
  {
    match user
    case Some(u) => Session(user, s.defaults[UserKey := UserRecord(u)])
    case None => Session(user, s.defaults - {UserKey})
  }

  /** `needsGoalOnboarding`: a signed-in user whose completion flag is not set. */
  function NeedsGoalOnboarding(s: Session): (b: bool)
    ensures b ==> IsSignedIn(s)
    ensures IsSignedIn(s) ==> (b <==> !BoolForKey(s.defaults, GoalKey(s.signedInUser.value)))
  {
    match CurrentGoalKey(s)
    case None => false
    case Some(key) => !BoolForKey(s.defaults, key)
  }

  /** `markGoalOnboardingComplete()`: sets the current user's flag; does nothing when signed out. */
  function MarkGoalOnboardingComplete(s: Session): (r: Session)
    ensures r.signedInUser == s.signedInUser
    ensures !IsSignedIn(s) ==> r == s
    ensures IsSignedIn(s) ==> r.defaults == s.defaults[GoalKey(s.signedInUser.value) := Flag(true)]
  {
    match CurrentGoalKey(s)
    case None => s
    case Some(key) => s.(defaults := s.defaults[key := Flag(true)])
  }

  /** The next launch restores whatever user `updateUser` last stored, or no one. */
  lemma UpdateUserPersists(s: Session, user: Option<SignInUser>)
    ensures Init(UpdateUser(s, user).defaults).signedInUser == user
  {
  }

  /** Once marked, the signed-in user no longer needs onboarding, now or after relaunch. */
  lemma MarkClearsOnboarding(s: Session)
    requires IsSignedIn(s)
    requires UserKey in s.defaults && s.defaults[UserKey] == UserRecord(s.signedInUser.value)
    ensures !NeedsGoalOnboarding(MarkGoalOnboardingComplete(s))
    ensures !NeedsGoalOnboarding(Init(MarkGoalOnboardingComplete(s).defaults))
  {
    GoalKeyIsNotUserKey(s.signedInUser.value);
  }

  /** No goal key is the user key: marking onboarding never disturbs the stored user. */
  lemma GoalKeyIsNotUserKey(user: SignInUser)
    ensures GoalKey(user) != UserKey
  {
    assert GoalKey(user)[8] == 'g' && UserKey[8] == 's';
  }

  /** Different identifiers give different goal keys. */
  lemma GoalKeyInjective(a: SignInUser, b: SignInUser)
    requires a.identifier != b.identifier
    ensures GoalKey(a) != GoalKey(b)
  {
    assert GoalKey(a)[|GoalKeyPrefix|..] == a.identifier;
    assert GoalKey(b)[|GoalKeyPrefix|..] == b.identifier;
  }

  /** Onboarding is tracked per user: one user completing it says nothing about another. */
  lemma OnboardingIsPerUser(s: Session, other: SignInUser)
    requires IsSignedIn(s) && s.signedInUser.value.identifier != other.identifier
    ensures NeedsGoalOnboarding(UpdateUser(MarkGoalOnboardingComplete(s), Some(other)))
            == NeedsGoalOnboarding(UpdateUser(s, Some(other)))
  {
    GoalKeyInjective(s.signedInUser.value, other);
    GoalKeyIsNotUserKey(other);
  }

  /** Signing out and back in as the same user keeps the onboarding state. */
  lemma SignOutKeepsOnboarding(s: Session)
    requires IsSignedIn(s)
    ensures NeedsGoalOnboarding(UpdateUser(UpdateUser(s, None), s.signedInUser)) == NeedsGoalOnboarding(s)
  {
    GoalKeyIsNotUserKey(s.signedInUser.value);
  }
}
