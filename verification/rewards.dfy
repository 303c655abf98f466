/** The two credits outside conversions: the daily reward and the registration bonus. */
module Rewards {
  import opened Wrappers
  import opened Ledger

  /** `DAILY_REWARD` and `REGISTER_BONUS`. */
  const DailyReward: int := 20
  const RegisterBonus: int := 500

  /** One user's turn in `give_daily`: skip if already credited today, else credit and stamp today. */
  function RewardOne(a: Account, today: Day, reward: int): (a': Account)
    // afterwards the row is stamped today, and only its balance and stamp can have changed
    ensures a'.lastDailyDate == Some(today)
    ensures a'.(coins := a.coins, lastDailyDate := a.lastDailyDate) == a
    // the reward is paid at most once a day: a row already stamped today keeps its balance
    ensures a'.coins == a.coins + (if a.lastDailyDate == Some(today) then 0 else reward)
  {
    if a.lastDailyDate == Some(today) then a
    else a.(coins := a.coins + reward, lastDailyDate := Some(today))
  }

  /** `give_daily`: every user row takes its turn. */
  function GiveDaily(users: Users, today: Day, reward: int): (r: Users)
    ensures r.Keys == users.Keys
    ensures forall u :: u in users ==> r[u].lastDailyDate == Some(today)
    ensures forall u :: u in users && users[u].lastDailyDate == Some(today) ==> r[u] == users[u]
    ensures forall u :: u in users && users[u].lastDailyDate != Some(today) ==>
      r[u].coins == users[u].coins + reward && r[u].(coins := 0, lastDailyDate := None) == users[u].(coins := 0, lastDailyDate := None)
  {
    map u | u in users :: RewardOne(users[u], today, reward)
  }

  /** A second run on the same day credits nothing. */
  lemma GiveDailyIdempotent(users: Users, today: Day, reward: int)
    ensures GiveDaily(GiveDaily(users, today, reward), today, reward) == GiveDaily(users, today, reward)
  {
  }

  /** Over two runs on one day every user gains exactly one reward. */
  lemma OneRewardPerDay(users: Users, today: Day, reward: int, u: UserId)
    requires u in users && users[u].lastDailyDate != Some(today)
    ensures GiveDaily(GiveDaily(users, today, reward), today, reward)[u].coins == users[u].coins + reward
  {
    GiveDailyIdempotent(users, today, reward);
  }

  /**
   * The "register" text: the row is created if missing, then the bonus is
   * credited and the registration stamped, unless a registration is already
   * stamped. The flag says whether the bonus was paid.
   */
  function Register(users: Users, uid: UserId, now: Seconds, bonus: int): (r: (Users, bool))
    ensures r.0.Keys == users.Keys + {uid}
    ensures forall u :: u in users && u != uid ==> r.0[u] == users[u]
    ensures r.1 <==> uid !in users || users[uid].registeredAt.None?
    ensures !r.1 ==> r.0 == users
    ensures r.1 ==> r.0[uid] == EnsureUser(users, uid)[uid].(coins := EnsureUser(users, uid)[uid].coins + bonus, registeredAt := Some(now))
  {
    var users1 := EnsureUser(users, uid);
    var a := users1[uid];
    if a.registeredAt.Some? then (users1, false)
    else (users1[uid := a.(coins := a.coins + bonus, registeredAt := Some(now))], true)
  }

  /** Registering again pays nothing and changes nothing. */
  lemma RegisterIdempotent(users: Users, uid: UserId, now: Seconds, later: Seconds, bonus: int)
    ensures var (users1, _) := Register(users, uid, now, bonus);
      Register(users1, uid, later, bonus) == (users1, false)
  {
  }

  /** A new user who registers holds exactly the bonus. */
  lemma NewUserGetsBonus(users: Users, uid: UserId, now: Seconds)
    requires uid !in users
    ensures Register(users, uid, now, RegisterBonus).0[uid].coins == 500
    ensures Register(users, uid, now, RegisterBonus).1
  {
  }
}
