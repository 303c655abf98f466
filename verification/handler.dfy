/**
 * `handle_start_text` on the ledger: every text message first upserts the
 * sender's row, whatever it says; only "register" changes more than that.
 */
module StartText {
  import opened Ledger
  import opened TextCommands
  import Rewards

  /** The ledger after one text message, and the command it was read as. */
  function HandleText(users: Users, uid: UserId, raw: string, now: Seconds): (r: (Users, Command))
    ensures r.1 == Classify(raw)
    // the sender has a row afterwards, whatever the text
    ensures r.0.Keys == users.Keys + {uid}
    ensures forall u :: u in users && u != uid ==> r.0[u] == users[u]
    // a text other than "register" changes nothing else
    ensures r.1 != Register ==> r.0 == EnsureUser(users, uid)
    // "register" pays the bonus exactly as registering from scratch does
    ensures r.1 == Register ==> r.0 == Rewards.Register(users, uid, now, Rewards.RegisterBonus).0
  {
    var users1 := EnsureUser(users, uid);
    var cmd := Classify(raw);
    if cmd == Register then (Rewards.Register(users1, uid, now, Rewards.RegisterBonus).0, cmd)
    else (users1, cmd)
  }

  /**
   * Any text at all, not only "register", enrols a new sender in the daily
   * reward: after it, the next `give_daily` credits them although they never
   * registered.
   */
  lemma AnyTextEarnsDaily(users: Users, uid: UserId, raw: string, now: Seconds, today: Day)
    requires uid !in users
    requires Classify(raw) != Register
    ensures var users1 := HandleText(users, uid, raw, now).0;
      && users1[uid].registeredAt.None?
      && Rewards.GiveDaily(users1, today, Rewards.DailyReward)[uid].coins == Rewards.DailyReward
  {
  }
}
