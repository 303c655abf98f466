/**
 * Finalisation of a conversion after the download step: the outcome (was a
 * file produced, did sending it succeed, which refund step raised) comes in
 * as input, and the ledger is refunded, the kind counter decremented and the
 * record marked accordingly.
 */
module Settlement {
  import opened Wrappers
  import opened Ledger
  import opened Admission

  /**
   * The awaited step of the refund that raised, if any. Steps before it took
   * effect; steps after it did not run. A step that does not run (the mark
   * when the job has no conversion id) cannot raise.
   */
  datatype Fault = NoFault | RefundRaises | DecrementRaises | MarkRaises | NoticeRaises

  /** What the user is told about the ledger. */
  datatype Notice = NoNotice | RefundedNotice(cost: int) | RefundFailedNotice | ConversionFailedNotice

  datatype Settled = Settled(store: Store, notice: Notice)

  /** The record step runs only for a job that carries a conversion id. */
  predicate HasId(job: Job) {
    job.convId != 0
  }

  /** Only the coin balance and the two kind counters may differ between `users` and `users'`. */
  predicate OnlyMoneyAndCounters(users: Users, users': Users) {
    && users'.Keys == users.Keys
    && forall u :: u in users ==>
         users'[u].(coins := 0, musicCount := 0, videoCount := 0) == users[u].(coins := 0, musicCount := 0, videoCount := 0)
  }

  /** Only the record of `job` may differ between `log` and `log'`. */
  predicate OnlyRecordOf(log: seq<Conversion>, log': seq<Conversion>, job: Job) {
    |log'| == |log| && forall k :: 0 <= k < |log| && k != job.convId - 1 ==> log'[k] == log[k]
  }

  /**
   * The send-failure branch: refund, then decrement, then mark refunded, then
   * tell the user. If any of those raises, the "refund failed" message goes out
   * instead, and the steps after the raising one never run.
   */
  function RefundAfterSendFailure(s: Store, job: Job, fault: Fault): (r: Settled)
    ensures OnlyMoneyAndCounters(s.users, r.store.users) && OnlyRecordOf(s.log, r.store.log, job)
    // only the job's owner is touched: every write is keyed by its user id
    ensures SameElsewhere(s.users, r.store.users, job.user)
    ensures fault == RefundRaises ==> r.store == s
    ensures job.user in s.users ==>
      var a, a' := s.users[job.user], r.store.users[job.user];
      && (a'.coins == a.coins + job.cost <==> fault != RefundRaises || job.cost == 0)
      && (fault != RefundRaises ==> a'.coins == a.coins + job.cost)
      && (fault !in {RefundRaises, DecrementRaises} ==> KindCount(a', job.kind) == Saturating(KindCount(a, job.kind)))
      && (fault in {RefundRaises, DecrementRaises} ==> KindCount(a', job.kind) == KindCount(a, job.kind))
      && OtherCount(a', job.kind) == OtherCount(a, job.kind)
    // the record is marked refunded exactly when refund and decrement went through and the mark ran
    ensures ValidId(s.log, job.convId) ==>
      (r.store.log[job.convId - 1] == s.log[job.convId - 1].(status := Refunded, refunded := true)
         <== fault !in {RefundRaises, DecrementRaises, MarkRaises})
      && (fault in {RefundRaises, DecrementRaises, MarkRaises} ==> r.store.log == s.log)
    ensures r.notice == RefundedNotice(job.cost) <==> fault == NoFault || (fault == MarkRaises && !HasId(job))
    ensures r.notice != RefundedNotice(job.cost) ==> r.notice == RefundFailedNotice
  {
    if fault == RefundRaises then Settled(s, RefundFailedNotice)
    else
      var users1 := AddCoins(s.users, job.user, job.cost);
      if fault == DecrementRaises then Settled(Store(users1, s.log), RefundFailedNotice)
      else
        var users2 := DecrementCounter(users1, job.user, job.kind);
        if fault == MarkRaises && HasId(job) then Settled(Store(users2, s.log), RefundFailedNotice)
        else
          var log1 := if HasId(job) then MarkRefunded(s.log, job.convId) else s.log;
          if fault == NoticeRaises then Settled(Store(users2, log1), RefundFailedNotice)
          else
            assert fault == NoFault || (fault == MarkRaises && !HasId(job));
            Settled(Store(users2, log1), RefundedNotice(job.cost))
  }

  /**
   * The production-failure branch: the record is marked failed first, outside
   * any handler, so a raising mark stops everything; then refund and decrement
   * run under a handler that swallows a fault.
   */
  function RefundAfterProductionFailure(s: Store, job: Job, fault: Fault): (r: Settled)
    ensures OnlyMoneyAndCounters(s.users, r.store.users) && OnlyRecordOf(s.log, r.store.log, job)
    // only the job's owner is touched: every write is keyed by its user id
    ensures SameElsewhere(s.users, r.store.users, job.user)
    ensures fault == MarkRaises && HasId(job) ==> r.store == s && r.notice == NoNotice
    // marked failed before the refund runs, whether or not the refund then succeeds
    ensures ValidId(s.log, job.convId) && fault != MarkRaises ==>
      r.store.log[job.convId - 1] == s.log[job.convId - 1].(status := Failed)
    ensures job.user in s.users && !(fault == MarkRaises && HasId(job)) ==>
      var a, a' := s.users[job.user], r.store.users[job.user];
      && (fault != RefundRaises ==> a'.coins == a.coins + job.cost)
      && (fault == RefundRaises ==> a' == a)
      && (fault !in {RefundRaises, DecrementRaises} ==> KindCount(a', job.kind) == Saturating(KindCount(a, job.kind)))
      && (fault == DecrementRaises ==> KindCount(a', job.kind) == KindCount(a, job.kind))
      && OtherCount(a', job.kind) == OtherCount(a, job.kind)
    ensures !(fault == MarkRaises && HasId(job)) ==> r.notice == ConversionFailedNotice
  {
    if fault == MarkRaises && HasId(job) then Settled(s, NoNotice)
    else
      var log1 := if HasId(job) then MarkFailed(s.log, job.convId) else s.log;
      if fault == RefundRaises then Settled(Store(s.users, log1), ConversionFailedNotice)
      else
        var users1 := AddCoins(s.users, job.user, job.cost);
        if fault == DecrementRaises then Settled(Store(users1, log1), ConversionFailedNotice)
        else Settled(Store(DecrementCounter(users1, job.user, job.kind), log1), ConversionFailedNotice)
  }

  /** `async_finalize_and_update` past its polling loop. */
  function Finalize(s: Store, job: Job, produced: bool, sent: bool, fault: Fault): (r: Settled)
    // a delivered file leaves the ledger and the record alone
    ensures produced && sent ==> r == Settled(s, NoNotice)
    // the rate-limit bookkeeping is never rolled back, and no other record changes
    ensures OnlyMoneyAndCounters(s.users, r.store.users) && OnlyRecordOf(s.log, r.store.log, job)
    // only the job's owner is touched: every write is keyed by its user id
    ensures SameElsewhere(s.users, r.store.users, job.user)
    ensures produced && !sent ==> r == RefundAfterSendFailure(s, job, fault)
    ensures !produced ==> r == RefundAfterProductionFailure(s, job, fault)
  {
    if produced then
      if sent then Settled(s, NoNotice) else RefundAfterSendFailure(s, job, fault)
    else RefundAfterProductionFailure(s, job, fault)
  }

  /**
   * A refund restores the balance and the kind counter to their values before
   * admission, while the daily count and the cooldown stamp stay as admission
   * left them; the record ends refunded after a failed send and failed after a
   * failed download.
   */
  lemma RefundRestoresAdmission(s: Store, cfg: Config, req: Request, today: Day, now: Seconds, sends: Sends,
                                produced: bool, sent: bool)
    requires Admit(s, cfg, req, today, now, sends).verdict.Ok?
    requires KindCount(s.users[req.user], req.kind) >= 0
    requires !(produced && sent)
    ensures var adm := Admit(s, cfg, req, today, now, sends);
      var fin := Finalize(adm.store, adm.verdict.value, produced, sent, NoFault);
      var a, a' := s.users[req.user], fin.store.users[req.user];
      && a'.coins == a.coins
      && KindCount(a', req.kind) == KindCount(a, req.kind)
      && OtherCount(a', req.kind) == OtherCount(a, req.kind)
      && a'.dailyCount == CountToday(s.users, req.user, today) + 1
      && a'.lastConversionAt == Some(At(now))
      && var rec := fin.store.log[|s.log|];
      && (produced ==> rec.status == Refunded && rec.refunded)
      && (!produced ==> rec.status == Failed && !rec.refunded)
  {
    var adm := Admit(s, cfg, req, today, now, sends);
    var job := adm.verdict.value;
    assert ValidId(adm.store.log, job.convId) && HasId(job);
    var fin := Finalize(adm.store, job, produced, sent, NoFault);
    var a1 := adm.store.users[req.user];
    assert KindCount(a1, req.kind) == KindCount(s.users[req.user], req.kind) + 1;
    assert adm.store.log[|s.log|].status == Done && !adm.store.log[|s.log|].refunded;
  }

  /** The coins a user has paid for conversions still standing as done. */
  function Held(log: seq<Conversion>, uid: UserId): int
    decreases |log|
  {
    if |log| == 0 then 0 else Held(log[..|log| - 1], uid) + Share(log[|log| - 1], uid)
  }

  /** What one record contributes to its owner's held coins. */
  function Share(c: Conversion, uid: UserId): int {
    if c.owner == uid && c.status == Done then c.cost else 0
  }

  /** Appending a record adds its share. */
  lemma HeldAppend(log: seq<Conversion>, c: Conversion, uid: UserId)
    ensures Held(log + [c], uid) == Held(log, uid) + Share(c, uid)
  {
    assert (log + [c])[..|log|] == log;
  }

  /** Replacing one record swaps its share. */
  lemma {:induction false} HeldUpdate(log: seq<Conversion>, k: nat, c: Conversion, uid: UserId)
    requires k < |log|
    ensures Held(log[k := c], uid) == Held(log, uid) - Share(log[k], uid) + Share(c, uid)
    decreases |log|
  {
    var log' := log[k := c];
    if k < |log| - 1 {
      assert log'[..|log'| - 1] == log[..|log| - 1][k := c];
      HeldUpdate(log[..|log| - 1], k, c, uid);
    } else {
      assert log'[..|log'| - 1] == log[..|log| - 1];
    }
  }

  /** Coins in hand plus coins held by standing conversions: what the user is owed in total. */
  function Worth(s: Store, uid: UserId): int
    requires uid in s.users
  {
    s.users[uid].coins + Held(s.log, uid)
  }

  /** The record that `job` refers to: its owner's, at its price, still done. */
  predicate Standing(s: Store, job: Job) {
    && job.user in s.users
    && ValidId(s.log, job.convId)
    && var c := s.log[job.convId - 1];
    && c.owner == job.user && c.cost == job.cost && c.status == Done
  }

  /** Admission moves the price from the balance into a standing conversion; nobody's worth changes. */
  lemma AdmissionKeepsWorth(s: Store, cfg: Config, req: Request, today: Day, now: Seconds, sends: Sends, u: UserId)
    requires u in s.users
    ensures u in Admit(s, cfg, req, today, now, sends).store.users
    ensures Worth(Admit(s, cfg, req, today, now, sends).store, u) == Worth(s, u)
  {
    var adm := Admit(s, cfg, req, today, now, sends);
    if adm.verdict.Ok? {
      HeldAppend(s.log, adm.store.log[|s.log|], u);
    }
  }

  /**
   * A queued-status message that raises strands the admission: the price is
   * debited and the record stands as done, but no job reaches the queue, so
   * nothing will ever finalise or refund it.
   */
  lemma StatusFailureStrandsPrice(s: Store, cfg: Config, req: Request, today: Day, now: Seconds, waitNoticeRaises: bool)
    requires Admit(s, cfg, req, today, now, Sends(waitNoticeRaises, true)).verdict.Ok?
    ensures var adm := Admit(s, cfg, req, today, now, Sends(waitNoticeRaises, true));
      && !adm.queued
      && Standing(adm.store, adm.verdict.value)
      && adm.store.users[req.user].coins == s.users[req.user].coins - adm.verdict.value.cost
      && Held(adm.store.log, req.user) == Held(s.log, req.user) + adm.verdict.value.cost
  {
    var adm := Admit(s, cfg, req, today, now, Sends(waitNoticeRaises, true));
    HeldAppend(s.log, adm.store.log[|s.log|], req.user);
  }

  /**
   * Without a fault in the refund, finalisation keeps every user's worth:
   * either the file was delivered and nothing moves, or the price goes back
   * to the balance and the record stops standing.
   */
  lemma FinalizeKeepsWorth(s: Store, job: Job, produced: bool, sent: bool, fault: Fault, u: UserId)
    requires Standing(s, job) && u in s.users
    requires fault == NoFault || fault == NoticeRaises
    ensures u in Finalize(s, job, produced, sent, fault).store.users
    ensures Worth(Finalize(s, job, produced, sent, fault).store, u) == Worth(s, u)
  {
    var r := Finalize(s, job, produced, sent, fault);
    if !(produced && sent) {
      var k := job.convId - 1;
      assert r.store.log == s.log[k := r.store.log[k]];
      HeldUpdate(s.log, k, r.store.log[k], u);
    }
  }

  /**
   * The double fault: the download failed, the record was marked failed, and
   * the refund raised. The user is out the price with nothing standing for it.
   */
  lemma DoubleFaultLosesPrice(s: Store, job: Job)
    requires Standing(s, job)
    ensures Worth(Finalize(s, job, false, false, RefundRaises).store, job.user) == Worth(s, job.user) - job.cost
  {
    var r := Finalize(s, job, false, false, RefundRaises);
    var k := job.convId - 1;
    assert r.store.log == s.log[k := r.store.log[k]];
    HeldUpdate(s.log, k, r.store.log[k], job.user);
  }

  /**
   * A send failure whose decrement or mark raises: the price goes back to the
   * balance once, but the record still stands as done, so the user's worth
   * counts the price twice: once in hand and once as held.
   */
  lemma PartialRefundCreditsTwice(s: Store, job: Job, fault: Fault)
    requires Standing(s, job)
    requires fault == DecrementRaises || fault == MarkRaises
    ensures Worth(Finalize(s, job, true, false, fault).store, job.user) == Worth(s, job.user) + job.cost
    ensures Finalize(s, job, true, false, fault).notice == RefundFailedNotice
  {
  }
}
