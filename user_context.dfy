/** The signed-in user's profile and the updaters the pages call on it. The
    identity service and the profile store are foreign calls: their outcomes
    are parameters. */
module UserContext {
  import opened Wrappers

  /** A JavaScript number that arithmetic has touched: an integer, or NaN
      once `undefined` took part in a sum. */
  datatype Number = Finite(n: int) | NaN

  /** The profile's level: "Beginner" when registered, whatever `levelUp`
      is handed later. */
  datatype Level = Named(name: string) | Numbered(value: int)

  /** The profile object. A field that the object does not have is None. */
  datatype Profile = Profile(
    uid: Option<string>,
    name: Option<string>,
    email: Option<string>,
    avatar: Option<Option<string>>,   // present and null after registration
    level: Option<Level>,
    exp: Option<Number>,
    coins: Option<Number>,
    streak: Option<Number>,
    joinedDate: Option<string>)

  /** The empty object `{}`, what spreading `null` contributes. */
  const NoFields := Profile(None, None, None, None, None, None, None, None, None)

  function Pick<T>(incoming: Option<T>, current: Option<T>): Option<T> {
    if incoming.Some? then incoming else current
  }

  /** `{ ...prev, ...update }`: the update's fields win, the rest are kept. */
  function Merge(prev: Profile, update: Profile): (r: Profile)
  {
    Profile(Pick(update.uid, prev.uid), Pick(update.name, prev.name), Pick(update.email, prev.email),
            Pick(update.avatar, prev.avatar), Pick(update.level, prev.level), Pick(update.exp, prev.exp),
            Pick(update.coins, prev.coins), Pick(update.streak, prev.streak),
            Pick(update.joinedDate, prev.joinedDate))
  }

  /** `updateUser`: a shallow merge; with no user yet, the user becomes the
      update alone. */
  function UpdatedUser(user: Option<Profile>, update: Profile): (r: Option<Profile>)
    ensures r.Some?
  {
    Some(Merge(if user.Some? then user.value else NoFields, update))
  }

  /** The merge keeps every field the update has and every other field of
      the previous record; merging the same update twice is merging it once. */
  lemma MergeProperties(prev: Profile, update: Profile)
    ensures update.exp.Some? ==> Merge(prev, update).exp == update.exp
    ensures update.exp.None? ==> Merge(prev, update).exp == prev.exp
    ensures update.level.Some? ==> Merge(prev, update).level == update.level
    ensures update.level.None? ==> Merge(prev, update).level == prev.level
    ensures update.name.Some? ==> Merge(prev, update).name == update.name
    ensures update.name.None? ==> Merge(prev, update).name == prev.name
    ensures update.uid.Some? ==> Merge(prev, update).uid == update.uid
    ensures update.uid.None? ==> Merge(prev, update).uid == prev.uid
    ensures update.email.Some? ==> Merge(prev, update).email == update.email
    ensures update.email.None? ==> Merge(prev, update).email == prev.email
    ensures update.avatar.Some? ==> Merge(prev, update).avatar == update.avatar
    ensures update.avatar.None? ==> Merge(prev, update).avatar == prev.avatar
    ensures update.coins.Some? ==> Merge(prev, update).coins == update.coins
    ensures update.coins.None? ==> Merge(prev, update).coins == prev.coins
    ensures update.streak.Some? ==> Merge(prev, update).streak == update.streak
    ensures update.streak.None? ==> Merge(prev, update).streak == prev.streak
    ensures update.joinedDate.Some? ==> Merge(prev, update).joinedDate == update.joinedDate
    ensures update.joinedDate.None? ==> Merge(prev, update).joinedDate == prev.joinedDate
    ensures Merge(Merge(prev, update), update) == Merge(prev, update)
    ensures Merge(prev, NoFields) == prev
    ensures Merge(NoFields, update) == update
  {
  }

  /** `prev.x + amount`: NaN when the field is missing. */
  function Plus(x: Option<Number>, amount: int): (r: Option<Number>)
    ensures r.Some?
    ensures x.Some? && x.value.Finite? ==> r == Some(Finite(x.value.n + amount))
    ensures !(x.Some? && x.value.Finite?) ==> r == Some(NaN)
  {
    if x.Some? && x.value.Finite? then Some(Finite(x.value.n + amount)) else Some(NaN)
  }

  /** `addExp`: experience grows by `amount`; nothing else changes, and no
      user stays no user. */
  function WithExp(user: Option<Profile>, amount: int): (r: Option<Profile>)
    ensures r.None? <==> user.None?
    ensures r.Some? ==> r.value.(exp := user.value.exp) == user.value
  {
    if user.Some? then Some(user.value.(exp := Plus(user.value.exp, amount))) else None
  }

  /** `addCoins`: coins grow by `amount`; nothing else changes. */
  function WithCoins(user: Option<Profile>, amount: int): (r: Option<Profile>)
    ensures r.None? <==> user.None?
    ensures r.Some? ==> r.value.(coins := user.value.coins) == user.value
  {
    if user.Some? then Some(user.value.(coins := Plus(user.value.coins, amount))) else None
  }

  /** Two awards add up, and an award taken back restores the profile. */
  lemma AwardsAdd(user: Option<Profile>, a: int, b: int)
    requires user.Some? && user.value.exp.Some? && user.value.exp.value.Finite?
    requires user.value.coins.Some? && user.value.coins.value.Finite?
    ensures WithExp(WithExp(user, a), b) == WithExp(user, a + b)
    ensures WithExp(WithExp(user, a), -a) == user
    ensures WithCoins(WithCoins(user, a), b) == WithCoins(user, a + b)
    ensures WithCoins(WithExp(user, a), b) == WithExp(WithCoins(user, b), a)
  {
  }

  /** `levelUp`: exactly the level and the experience are set. */
  function WithLevel(user: Option<Profile>, newLevel: Level, newExp: Number): (r: Option<Profile>)
    ensures r.None? <==> user.None?
    ensures r.Some? ==>
      r.value.level == Some(newLevel) && r.value.exp == Some(newExp)
      && r.value.(level := user.value.level, exp := user.value.exp) == user.value
  {
    if user.Some? then Some(user.value.(level := Some(newLevel), exp := Some(newExp))) else None
  }

  /** `updateStreak`: exactly the streak is set. */
  function WithStreak(user: Option<Profile>, streak: Number): (r: Option<Profile>)
    ensures r.None? <==> user.None?
    ensures r.Some? ==> r.value.streak == Some(streak) && r.value.(streak := user.value.streak) == user.value
  {
    if user.Some? then Some(user.value.(streak := Some(streak))) else None
  }

  /** The profile `register` stores for a new account. */
  function NewProfile(uid: string, name: string, email: string, creationTime: string): (r: Profile)
    ensures r.exp == Some(Finite(0)) && r.coins == Some(Finite(0)) && r.streak == Some(Finite(0))
    ensures r.level == Some(Named("Beginner")) && r.avatar == Some(None)
    ensures r.uid == Some(uid) && r.name == Some(name) && r.email == Some(email)
  {
    Profile(Some(uid), Some(name), Some(email), Some(None), Some(Named("Beginner")),
            Some(Finite(0)), Some(Finite(0)), Some(Finite(0)), Some(creationTime))
  }

  /** On a new account the first award is the whole experience. */
  lemma NewProfileAward(uid: string, name: string, email: string, creationTime: string, amount: int)
    ensures WithExp(Some(NewProfile(uid, name, email, creationTime)), amount).value.exp == Some(Finite(amount))
  {
  }

  /** The account the identity service creates or signs in. */
  datatype Account = Account(uid: string, creationTime: string)

  class UserProvider {
    var user: Option<Profile>
    var isAuthenticated: bool
    var isLoading: bool

    constructor()
      ensures user.None? && !isAuthenticated && !isLoading
    {
      user := None;
      isAuthenticated := false;
      isLoading := false;
    }

    method UpdateUser(update: Profile)
      modifies this`user
      ensures user == UpdatedUser(old(user), update)
    {
      user := UpdatedUser(user, update);
    }

    method AddExp(amount: int)
      modifies this`user
      ensures user == WithExp(old(user), amount)
    {
      user := WithExp(user, amount);
    }

    method AddCoins(amount: int)
      modifies this`user
      ensures user == WithCoins(old(user), amount)
    {
      user := WithCoins(user, amount);
    }

    method LevelUp(newLevel: Level, newExp: Number)
      modifies this`user
      ensures user == WithLevel(old(user), newLevel, newExp)
    {
      user := WithLevel(user, newLevel, newExp);
    }

    method UpdateStreak(streak: Number)
      modifies this`user
      ensures user == WithStreak(old(user), streak)
    {
      user := WithStreak(user, streak);
    }

    /** `login`: on success the stored profile (absent when there is none)
        becomes the user and the provider is authenticated; on failure the
        error code is reported and the user is kept. */
    method Login(signIn: Result<Account>, stored: Option<Profile>) returns (r: Result<()>)
      modifies this
      ensures !isLoading
      ensures r.Success? <==> signIn.Success?
      ensures r.Success? ==> user == stored && isAuthenticated
      ensures r.Failure? ==> r.error == signIn.error && user == old(user) && isAuthenticated == old(isAuthenticated)
    {
      isLoading := true;
      if signIn.Failure? {
        isLoading := false;
        return Failure(signIn.error);
      }
      user := stored;
      isAuthenticated := true;
      isLoading := false;
      return Success(());
    }

    /** `register`: the new account's starting profile is uploaded; an upload
        error is only logged. The signed-in user is left to the session
        listener. */
    method Register(name: string, email: string, created: Result<Account>)
      returns (r: Result<()>, uploaded: Option<Profile>)
      modifies this`isLoading
      ensures !isLoading
      ensures r.Success? <==> created.Success?
      ensures r.Failure? ==> r.error == created.error && uploaded.None?
      ensures r.Success? ==>
        uploaded == Some(NewProfile(created.value.uid, name, email, created.value.creationTime))
    {
      isLoading := true;
      if created.Failure? {
        isLoading := false;
        return Failure(created.error), None;
      }
      var profile := NewProfile(created.value.uid, name, email, created.value.creationTime);
      isLoading := false;
      return Success(()), Some(profile);
    }

    /** `logout`: a successful sign-out clears the user and the
        authentication flag; a failed one is only logged. */
    method Logout(signOutFault: Option<string>)
      modifies this
      ensures !isLoading
      ensures signOutFault.None? ==> user.None? && !isAuthenticated
      ensures signOutFault.Some? ==> user == old(user) && isAuthenticated == old(isAuthenticated)
    {
      isLoading := false;
      if signOutFault.None? {
        user := None;
        isAuthenticated := false;
      }
      isLoading := false;
    }
  }
}
