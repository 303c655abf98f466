/**
 * Admission of a conversion request once the user has picked a tier: price it,
 * check the daily limit, then the cooldown, then debit; only a successful
 * debit is followed by the bookkeeping and a new conversion record. Two
 * messages sent on the way change the outcome when sending them raises: the
 * cooldown notice, whose error the surrounding handler swallows so that the
 * request goes on to the debit, and the queued-status message, whose error
 * ends the handler after the debit and the record but before the job is queued.
 */
module Admission {
  import opened Wrappers
  import opened Ledger
  import Costs

  /** The tunables: conversions per day and seconds between conversions. */
  datatype Config = Config(dailyLimit: int, cooldown: int)

  /** `DAILY_LIMIT_PER_USER` and `COOLDOWN_SECONDS` when the environment leaves them unset. */
  const Defaults: Config := Config(10, 60)

  datatype Rejection = DailyLimitReached | TooFrequent(wait: int) | InsufficientCoins(cost: int)

  /** The user's choices so far: title, session type and the tier button pressed. */
  datatype Request = Request(user: UserId, title: string, kind: string, quality: int)

  /** The payload queued for the worker: the request, its price and its conversion id. */
  datatype Job = Job(user: UserId, title: string, kind: string, quality: int, cost: int, convId: int)

  /** Whether sending the cooldown notice and the queued-status message raises. */
  datatype Sends = Sends(waitNoticeRaises: bool, statusRaises: bool)

  /** Both messages go out. */
  const Delivered: Sends := Sends(false, false)

  /** The ledger afterwards, the verdict, and whether the job reached the user's queue. */
  datatype Outcome = Outcome(store: Store, verdict: Result<Job, Rejection>, queued: bool)

  /** The stored last-conversion instant, when it parses. */
  function ParsedLast(users: Users, uid: UserId): Option<Seconds> {
    match RateInfo(users, uid).2
    case Some(At(t)) => Some(t)
    case _ => None
  }

  /** The request passes the daily-limit check. */
  predicate UnderLimit(users: Users, uid: UserId, today: Day, cfg: Config) {
    CountToday(users, uid, today) < cfg.dailyLimit
  }

  /** The request falls inside the cooldown after the last parseable conversion. */
  predicate Cooling(users: Users, uid: UserId, now: Seconds, cfg: Config) {
    ParsedLast(users, uid).Some? && now - ParsedLast(users, uid).value < cfg.cooldown
  }

  function Admit(s: Store, cfg: Config, req: Request, today: Day, now: Seconds, sends: Sends): (r: Outcome)
    // a rejection writes nothing, not even the stale daily count
    ensures r.verdict.Err? ==> r.store == s
    // the daily limit is checked first
    ensures r.verdict == Err(DailyLimitReached) <==> !UnderLimit(s.users, req.user, today, cfg)
    // the cooldown only after the limit passes, and only if its notice goes out; the wait is what remains of it
    ensures (r.verdict.Err? && r.verdict.error.TooFrequent?) <==>
      UnderLimit(s.users, req.user, today, cfg) && Cooling(s.users, req.user, now, cfg) && !sends.waitNoticeRaises
    ensures (r.verdict.Err? && r.verdict.error.TooFrequent?) ==>
      r.verdict.error.wait == cfg.cooldown - (now - ParsedLast(s.users, req.user).value)
    // the debit only after both checks pass, or after a cooldown notice that raised
    ensures (r.verdict.Err? && r.verdict.error.InsufficientCoins?) <==>
      && UnderLimit(s.users, req.user, today, cfg)
      && (!Cooling(s.users, req.user, now, cfg) || sends.waitNoticeRaises)
      && (req.user !in s.users || s.users[req.user].coins < Costs.CostFor(req.kind, req.quality))
    // the refusal names the price the user was asked for
    ensures (r.verdict.Err? && r.verdict.error.InsufficientCoins?) ==>
      r.verdict.error.cost == Costs.CostFor(req.kind, req.quality)
    ensures r.verdict.Ok? ==>
      var uid := req.user;
      var cost := Costs.CostFor(req.kind, req.quality);
      && uid in s.users && s.users[uid].coins >= cost
      && SameElsewhere(s.users, r.store.users, uid)
      && var a, a' := s.users[uid], r.store.users[uid];
      && a'.coins == a.coins - cost
      && KindCount(a', req.kind) == KindCount(a, req.kind) + 1
      && OtherCount(a', req.kind) == OtherCount(a, req.kind)
      && a'.dailyCount == CountToday(s.users, uid, today) + 1
      && a'.dailyCountDate == Some(today)
      && a'.lastConversionAt == Some(At(now))
      && a'.lastDailyDate == a.lastDailyDate && a'.registeredAt == a.registeredAt
      && r.store.log == s.log + [Conversion(uid, req.title, req.kind, req.quality, cost, now, Done, false)]
      && r.verdict.value == Job(uid, req.title, req.kind, req.quality, cost, |r.store.log|)
    // the job is queued unless the status message raised first
    ensures r.queued <==> r.verdict.Ok? && !sends.statusRaises
  {
    var uid := req.user;
    var cost := Costs.CostFor(req.kind, req.quality);
    if !UnderLimit(s.users, uid, today, cfg) then Outcome(s, Err(DailyLimitReached), false)
    else if Cooling(s.users, uid, now, cfg) && !sends.waitNoticeRaises then
      Outcome(s, Err(TooFrequent(cfg.cooldown - (now - ParsedLast(s.users, uid).value))), false)
    else
      var (ok, users1) := Deduct(s.users, uid, cost);
      if !ok then Outcome(s, Err(InsufficientCoins(cost)), false)
      else
        var users2 := BumpDailyCount(users1, uid, today);
        var users3 := SetLastConversion(users2, uid, now);
        var users4 := IncrementCounter(users3, uid, req.kind);
        var (log1, id) := LogConversion(s.log, uid, req.title, req.kind, req.quality, cost, now);
        assert log1 == s.log + [log1[|s.log|]];
        Outcome(Store(users4, log1), Ok(Job(uid, req.title, req.kind, req.quality, cost, id)), !sends.statusRaises)
  }

  /**
   * Debits never race past the balance in this sequential model: once an
   * admission has spent the whole balance, every further request is refused.
   */
  lemma NoDoubleSpend(s: Store, cfg: Config, req: Request, today: Day, now: Seconds, sends: Sends,
                      req2: Request, today2: Day, now2: Seconds, sends2: Sends)
    requires req2.user == req.user
    requires Admit(s, cfg, req, today, now, sends).verdict.Ok?
    requires s.users[req.user].coins == Costs.CostFor(req.kind, req.quality)
    ensures Admit(Admit(s, cfg, req, today, now, sends).store, cfg, req2, today2, now2, sends2).verdict.Err?
  {
    var s1 := Admit(s, cfg, req, today, now, sends).store;
    assert s1.users[req.user].coins == 0;
    Costs.CostIsConfigured(req2.kind, req2.quality);
  }

  /**
   * Balance 100, audio at 128 kbps, cooldown 60: the first request is queued,
   * the second ten seconds later must wait 50, unless the notice telling the
   * user so raises, in which case that second request is debited after all.
   */
  lemma CooldownScenario(uid: UserId, today: Day)
    ensures var s := Store(map[uid := Fresh.(coins := 100)], []);
      var req := Request(uid, "song", "audio", 128);
      var first := Admit(s, Defaults, req, today, 1000, Delivered);
      var second := Admit(first.store, Defaults, req, today, 1010, Delivered);
      var third := Admit(first.store, Defaults, req, today, 1010, Sends(true, false));
      && first.verdict.Ok? && first.queued && first.store.users[uid].coins == 80
      && second.verdict == Err(TooFrequent(50)) && second.store.users[uid].coins == 80
      && third.verdict.Ok? && third.store.users[uid].coins == 60
  {
    var s := Store(map[uid := Fresh.(coins := 100)], []);
    var req := Request(uid, "song", "audio", 128);
    Costs.AudioPrices();
    assert UnderLimit(s.users, uid, today, Defaults) && !Cooling(s.users, uid, 1000, Defaults);
    var first := Admit(s, Defaults, req, today, 1000, Delivered);
    assert first.verdict.Ok?;
    var a1 := first.store.users[uid];
    assert a1.coins == 80 && a1.dailyCount == 1 && a1.dailyCountDate == Some(today);
    assert a1.lastConversionAt == Some(At(1000));
    assert UnderLimit(first.store.users, uid, today, Defaults);
    assert ParsedLast(first.store.users, uid) == Some(1000);
  }

  /** Ten conversions today exhaust the default limit whatever the balance; the next day the request passes. */
  lemma DailyLimitScenario(uid: UserId, today: Day, coins: int)
    requires coins >= 120
    ensures var a := Fresh.(coins := coins, dailyCount := 10, dailyCountDate := Some(today), lastConversionAt := Some(At(0)));
      var s := Store(map[uid := a], []);
      var req := Request(uid, "clip", "video", 1080);
      && Admit(s, Defaults, req, today, 100000, Delivered).verdict == Err(DailyLimitReached)
      && Admit(s, Defaults, req, today + 1, 100000, Delivered).verdict.Ok?
      && Admit(s, Defaults, req, today + 1, 100000, Delivered).store.users[uid].dailyCount == 1
  {
    assert Costs.CostFor("video", 1080) == 120 by {
      assert Costs.VideoCosts[3] == (1080, 120);
    }
  }
}
