/**
 * The coin ledger: user accounts and the conversion log, with the primitive
 * updates the bot issues against them. Every update addresses one user row
 * and, like an SQL `UPDATE ... WHERE user_id = ?`, does nothing when the row
 * is missing.
 */
module Ledger {
  import opened Wrappers

  type UserId = int

  /** A calendar day in the fixed UTC+8 zone, as a day number. */
  type Day = int

  /** A UTC instant in whole seconds. */
  type Seconds = int

  /** A stored `last_conversion_at` value: a parseable instant or text `fromisoformat` rejects. */
  datatype Stamp = At(t: Seconds) | Unparseable

  datatype Account = Account(
    coins: int,
    musicCount: int,
    videoCount: int,
    dailyCount: int,
    dailyCountDate: Option<Day>,
    lastConversionAt: Option<Stamp>,
    lastDailyDate: Option<Day>,
    registeredAt: Option<Seconds>)

  /** The row `INSERT OR IGNORE` creates: every column at its default. */
  const Fresh: Account := Account(0, 0, 0, 0, None, None, None, None)

  type Users = map<UserId, Account>

  datatype Status = Done | Refunded | Failed

  datatype Conversion = Conversion(
    owner: UserId,
    title: string,
    kind: string,
    quality: int,
    cost: int,
    createdAt: Seconds,
    status: Status,
    refunded: bool)

  /** The whole store; the conversion with id `k` is `log[k - 1]` (ids start at 1). */
  datatype Store = Store(users: Users, log: seq<Conversion>)

  /** The kind counters treat only the exact string "audio" as music. */
  predicate IsAudio(kind: string) {
    kind == "audio"
  }

  /** The lifetime counter that `kind` addresses. */
  function KindCount(a: Account, kind: string): int {
    if IsAudio(kind) then a.musicCount else a.videoCount
  }

  /** The lifetime counter that `kind` does not address. */
  function OtherCount(a: Account, kind: string): int {
    if IsAudio(kind) then a.videoCount else a.musicCount
  }

  /** Everything except the given users is untouched. */
  predicate SameElsewhere(users: Users, users': Users, uid: UserId) {
    users'.Keys == users.Keys && forall u :: u in users && u != uid ==> users'[u] == users[u]
  }

  /** `create_or_update_user`: insert a fresh row when missing, otherwise leave it. */
  function EnsureUser(users: Users, uid: UserId): (r: Users)
    ensures r.Keys == users.Keys + {uid}
    ensures uid in users ==> r == users
    ensures uid !in users ==> r[uid] == Fresh && forall u :: u in users ==> r[u] == users[u]
  {
    if uid in users then users else users[uid := Fresh]
  }

  /** `add_coins` (and `refund_coins`): credit `amount`, which may be negative. */
  function AddCoins(users: Users, uid: UserId, amount: int): (r: Users)
    ensures SameElsewhere(users, r, uid)
    ensures uid in users ==> r[uid] == users[uid].(coins := users[uid].coins + amount)
  {
    if uid in users then users[uid := users[uid].(coins := users[uid].coins + amount)] else users
  }

  /**
   * `deduct_coins`: refuse (false, nothing written) when the row is missing or
   * the balance is below `amount`; otherwise subtract exactly `amount`.
   */
  function Deduct(users: Users, uid: UserId, amount: int): (r: (bool, Users))
    ensures r.0 <==> uid in users && users[uid].coins >= amount
    ensures !r.0 ==> r.1 == users
    ensures r.0 ==>
      && SameElsewhere(users, r.1, uid)
      && r.1[uid] == users[uid].(coins := users[uid].coins - amount)
      && r.1[uid].coins >= 0
  {
    if uid !in users then (false, users)
    else if users[uid].coins < amount then (false, users)
    else (true, users[uid := users[uid].(coins := users[uid].coins - amount)])
  }

  /** `increment_counter`: one more conversion of `kind`. */
  function IncrementCounter(users: Users, uid: UserId, kind: string): (r: Users)
    ensures SameElsewhere(users, r, uid)
    ensures uid in users ==>
      && KindCount(r[uid], kind) == KindCount(users[uid], kind) + 1
      && OtherCount(r[uid], kind) == OtherCount(users[uid], kind)
      && r[uid].(musicCount := 0, videoCount := 0) == users[uid].(musicCount := 0, videoCount := 0)
  {
    if uid !in users then users
    else
      var a := users[uid];
      if IsAudio(kind) then users[uid := a.(musicCount := a.musicCount + 1)]
      else users[uid := a.(videoCount := a.videoCount + 1)]
  }

  /** The SQL `CASE WHEN c > 0 THEN c - 1 ELSE 0 END`. */
  function Saturating(c: int): (r: int)
    ensures r >= 0
    ensures c > 0 ==> r == c - 1
    ensures c <= 0 ==> r == 0
  {
    if c > 0 then c - 1 else 0
  }

  /** `decrement_counter`: one conversion of `kind` fewer, never below zero. */
  function DecrementCounter(users: Users, uid: UserId, kind: string): (r: Users)
    ensures SameElsewhere(users, r, uid)
    ensures uid in users ==>
      && KindCount(r[uid], kind) == Saturating(KindCount(users[uid], kind))
      && OtherCount(r[uid], kind) == OtherCount(users[uid], kind)
      && r[uid].(musicCount := 0, videoCount := 0) == users[uid].(musicCount := 0, videoCount := 0)
  {
    if uid !in users then users
    else
      var a := users[uid];
      if IsAudio(kind) then users[uid := a.(musicCount := Saturating(a.musicCount))]
      else users[uid := a.(videoCount := Saturating(a.videoCount))]
  }

  /** `get_user_rate_info`: (count, count date, last conversion); (0, None, None) for a missing row. */
  function RateInfo(users: Users, uid: UserId): (r: (int, Option<Day>, Option<Stamp>))
    // a missing row reads exactly like the fresh row that inserting it would create
    ensures var a := EnsureUser(users, uid)[uid]; r == (a.dailyCount, a.dailyCountDate, a.lastConversionAt)
  {
    if uid in users then (users[uid].dailyCount, users[uid].dailyCountDate, users[uid].lastConversionAt)
    else (0, None, None)
  }

  /** The day's count as the limit check sees it: a count stamped with another day is 0. */
  function CountToday(users: Users, uid: UserId, today: Day): (n: int)
    // a missing row and a count dated another day both read as no conversions yet
    ensures uid !in users || users[uid].dailyCountDate != Some(today) ==> n == 0
    ensures uid in users && users[uid].dailyCountDate == Some(today) ==> n == users[uid].dailyCount
  {
    var (count, date, _) := RateInfo(users, uid);
    if date != Some(today) then 0 else count
  }

  /**
   * `bump_user_daily_count`: a count stamped with another day restarts at 1
   * under today's date; today's count goes up by one. A missing row is first
   * inserted fresh.
   */
  function BumpDailyCount(users: Users, uid: UserId, today: Day): (r: Users)
    ensures r.Keys == users.Keys + {uid}
    ensures forall u :: u in users && u != uid ==> r[u] == users[u]
    ensures r[uid].dailyCount == CountToday(users, uid, today) + 1
    ensures r[uid].dailyCountDate == Some(today)
    ensures r[uid].(dailyCount := 0, dailyCountDate := None)
         == EnsureUser(users, uid)[uid].(dailyCount := 0, dailyCountDate := None)
  {
    var users1 := EnsureUser(users, uid);
    var a := users1[uid];
    if a.dailyCountDate != Some(today) then users1[uid := a.(dailyCount := 1, dailyCountDate := Some(today))]
    else users1[uid := a.(dailyCount := a.dailyCount + 1)]
  }

  /** `set_user_last_conversion`: stamp the cooldown clock with `now`. */
  function SetLastConversion(users: Users, uid: UserId, now: Seconds): (r: Users)
    ensures SameElsewhere(users, r, uid)
    ensures uid in users ==> r[uid] == users[uid].(lastConversionAt := Some(At(now)))
  {
    if uid in users then users[uid := users[uid].(lastConversionAt := Some(At(now)))] else users
  }

  /** `log_conversion`: append a record that starts as done and not refunded; its id is the new length. */
  function LogConversion(log: seq<Conversion>, uid: UserId, title: string, kind: string,
                         quality: int, cost: int, now: Seconds): (r: (seq<Conversion>, nat))
    ensures r.1 == |r.0| == |log| + 1 && r.0[..|log|] == log
    ensures r.0[|log|] == Conversion(uid, title, kind, quality, cost, now, Done, false)
  {
    (log + [Conversion(uid, title, kind, quality, cost, now, Done, false)], |log| + 1)
  }

  predicate ValidId(log: seq<Conversion>, id: int) {
    1 <= id <= |log|
  }

  /** `mark_conversion_refunded`: status 'refunded' and refunded=1; an unknown id changes nothing. */
  function MarkRefunded(log: seq<Conversion>, id: int): (r: seq<Conversion>)
    ensures |r| == |log|
    ensures forall k :: 0 <= k < |log| && k != id - 1 ==> r[k] == log[k]
    ensures ValidId(log, id) ==>
      && r[id - 1].status == Refunded && r[id - 1].refunded
      && r[id - 1].(status := Done, refunded := false) == log[id - 1].(status := Done, refunded := false)
    ensures !ValidId(log, id) ==> r == log
  {
    if ValidId(log, id) then log[id - 1 := log[id - 1].(status := Refunded, refunded := true)] else log
  }

  /** `mark_conversion_failed`: status 'failed', the refunded flag left as it was. */
  function MarkFailed(log: seq<Conversion>, id: int): (r: seq<Conversion>)
    ensures |r| == |log|
    ensures forall k :: 0 <= k < |log| && k != id - 1 ==> r[k] == log[k]
    ensures ValidId(log, id) ==> r[id - 1] == log[id - 1].(status := Failed)
    ensures !ValidId(log, id) ==> r == log
  {
    if ValidId(log, id) then log[id - 1 := log[id - 1].(status := Failed)] else log
  }

  /** A refund exactly undoes a successful debit. */
  lemma RefundUndoesDebit(users: Users, uid: UserId, amount: int)
    requires Deduct(users, uid, amount).0
    ensures AddCoins(Deduct(users, uid, amount).1, uid, amount) == users
  {
    var after := AddCoins(Deduct(users, uid, amount).1, uid, amount);
    assert after[uid] == users[uid];
  }

  /** A decrement after an increment restores a non-negative counter; both touch the same counter. */
  lemma DecrementUndoesIncrement(users: Users, uid: UserId, kind: string)
    requires uid in users && KindCount(users[uid], kind) >= 0
    ensures DecrementCounter(IncrementCounter(users, uid, kind), uid, kind) == users
  {
    var after := DecrementCounter(IncrementCounter(users, uid, kind), uid, kind);
    assert after[uid] == users[uid];
  }

  /** A new record is done and unrefunded; marking refunded sets both; marking failed keeps the flag clear. */
  lemma StatusLifecycle(log: seq<Conversion>, uid: UserId, title: string, kind: string, quality: int, cost: int, now: Seconds)
    ensures var (log1, id) := LogConversion(log, uid, title, kind, quality, cost, now);
      && log1[id - 1].status == Done && !log1[id - 1].refunded
      && MarkRefunded(log1, id)[id - 1].status == Refunded && MarkRefunded(log1, id)[id - 1].refunded
      && MarkFailed(log1, id)[id - 1].status == Failed && !MarkFailed(log1, id)[id - 1].refunded
  {
  }
}
