/** The account entity (`entity/User.java`): its defaults, its status and
    presence tests, and its balance arithmetic. `BigDecimal` is exact decimal
    arithmetic, modelled by `real`; `null` fields are `None`; clock readings are
    whole seconds passed in as `now`. */
module Accounts {
  import opened Wrappers

  /** `isOnline` looks back five minutes. */
  const OnlineWindow: int := 5 * 60

  class User {
    var username: Option<string>
    var nickname: Option<string>
    var email: Option<string>
    var balance: Option<real>
    var status: Option<int>
    var lastOnline: Option<int>
    var createdAt: Option<int>
    var updateTime: Option<int>

    /** `new User()`: stamped now, balance zero, status 1 (active). */
    constructor (now: int)
      ensures balance == Some(0.0) && status == Some(1)
      ensures createdAt == Some(now) && updateTime == Some(now)
      ensures username == None && nickname == None && email == None && lastOnline == None
      ensures IsActive() && HasSufficientBalance(Some(0.0))
    {
      username, nickname, email := None, None, None;
      lastOnline := None;
      createdAt, updateTime := Some(now), Some(now);
      balance := Some(0.0);
      status := Some(1);
    }

    /** `new User(username, nickname, email)`: the defaults above plus the profile. */
    constructor WithProfile(username: Option<string>, nickname: Option<string>, email: Option<string>, now: int)
      ensures this.username == username && this.nickname == nickname && this.email == email
      ensures balance == Some(0.0) && status == Some(1)
      ensures createdAt == Some(now) && updateTime == Some(now) && lastOnline == None
    {
      this.username, this.nickname, this.email := username, nickname, email;
      lastOnline := None;
      createdAt, updateTime := Some(now), Some(now);
      balance := Some(0.0);
      status := Some(1);
    }

    /** `@PrePersist onCreate`: fills each null among the timestamps, balance
        and status with its default and leaves set fields alone. */
    method OnCreate(now: int)
      modifies this
      ensures createdAt == (if old(createdAt).None? then Some(now) else old(createdAt))
      ensures updateTime == (if old(updateTime).None? then Some(now) else old(updateTime))
      ensures balance == (if old(balance).None? then Some(0.0) else old(balance))
      ensures status == (if old(status).None? then Some(1) else old(status))
      ensures username == old(username) && nickname == old(nickname) && email == old(email)
      ensures lastOnline == old(lastOnline)
      ensures balance.Some? && status.Some?
      ensures IsActive() <==> old(status).None? || old(status) == Some(1)
    {
      if createdAt.None? {
        createdAt := Some(now);
      }
      if updateTime.None? {
        updateTime := Some(now);
      }
      if balance.None? {
        balance := Some(0.0);
      }
      if status.None? {
        status := Some(1);
      }
    }

    /** `isActive()`: status is non-null and equal to 1. */
    predicate IsActive()
      reads this
    {
      status.Some? && status.value == 1
    }

    /** `isOnline()`: last seen strictly after five minutes before `now`. */
    predicate IsOnline(now: int)
      reads this
    {
      lastOnline.Some? && lastOnline.value > now - OnlineWindow
    }

    /** `hasSufficientBalance(amount)`: both non-null and balance >= amount. */
    predicate HasSufficientBalance(amount: Option<real>)
      reads this
    {
      balance.Some? && amount.Some? && balance.value >= amount.value
    }

    /** `deductBalance(amount)`: subtracts when the balance suffices, otherwise
        throws `IllegalArgumentException("余额不足")` (here `Err`) and changes
        nothing. The balance never goes negative through this method. */
    method DeductBalance(amount: Option<real>) returns (r: Result<Unit, string>)
      modifies this`balance
      ensures r.Ok? <==> old(HasSufficientBalance(amount))
      ensures r.Ok? ==> balance == Some(old(balance).value - amount.value) && balance.value >= 0.0
      ensures r.Err? ==> balance == old(balance)
    {
      if HasSufficientBalance(amount) {
        balance := Some(balance.value - amount.value);
        r := Ok(Unit);
      } else {
        r := Err("余额不足");
      }
    }

    /** `addBalance(amount)`: only a strictly positive amount is added, a null
        balance counting as zero; a null or non-positive amount changes nothing,
        so the balance never decreases. */
    method AddBalance(amount: Option<real>)
      modifies this`balance
      ensures amount.Some? && amount.value > 0.0 ==>
        balance == Some((if old(balance).None? then 0.0 else old(balance).value) + amount.value)
      ensures !(amount.Some? && amount.value > 0.0) ==> balance == old(balance)
      ensures old(balance).Some? ==> balance.Some? && balance.value >= old(balance).value
    {
      if amount.Some? && amount.value > 0.0 {
        if balance.None? {
          balance := Some(0.0);
        }
        balance := Some(balance.value + amount.value);
      }
    }
  }

  /** A user counts as online from the moment last seen until five minutes
      later, and as offline from then on. */
  lemma OnlineWindowBounds(u: User, now: int)
    requires u.lastOnline.Some?
    ensures u.IsOnline(now) <==> now < u.lastOnline.value + OnlineWindow
    ensures u.IsOnline(u.lastOnline.value) && !u.IsOnline(u.lastOnline.value + OnlineWindow)
  {
  }

  /** Presence is monotone in the last-seen time: a user seen later than one who
      counts as online counts as online too. */
  lemma OnlineMonotone(u: User, v: User, now: int)
    requires u.IsOnline(now) && v.lastOnline.Some? && v.lastOnline.value >= u.lastOnline.value
    ensures v.IsOnline(now)
  {
  }
}
