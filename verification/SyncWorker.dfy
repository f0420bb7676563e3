/** `SyncWorker.doWork`: one background sync run, its notification and the
    result it hands back to the scheduler. */
module SyncWorker {
  import opened Remote
  import Entities
  import ArticleMapper
  import NewsRepository

  datatype WorkResult = Success | Retry | Failure

  /** A notification shown through the notification helper. */
  datatype Notification = Notification(title: string, content: string)

  /** What the sync use case did: returned a count, or threw. */
  datatype SyncOutcome = Synced(count: int) | Threw

  /** The attempt count below which a failed run asks to be retried. */
  const RetryLimit := 3

  const NotificationTitle := "NewsFlow Updates"

  // ---- decimal rendering of the count, as a string template prints an Int ----

  function DigitChar(d: int): char
    requires 0 <= d < 10
  {
    "0123456789"[d]
  }

  /** The decimal digits of `n`, without leading zeros. */
  function NatToString(n: nat): (s: string)
    ensures s != []
    ensures forall i :: 0 <= i < |s| ==> '0' <= s[i] <= '9'
    ensures |s| > 1 ==> s[0] != '0'
  {
    if n < 10 then [DigitChar(n)] else NatToString(n / 10) + [DigitChar(n % 10)]
  }

  /** The number a string of decimal digits denotes. */
  function DecimalValue(s: string): nat
    requires forall i :: 0 <= i < |s| ==> '0' <= s[i] <= '9'
  {
    if s == [] then 0
    else 10 * DecimalValue(s[..|s| - 1]) + (s[|s| - 1] - '0') as nat
  }

  /** The rendering can be read back: it denotes the count. */
  lemma {:induction false} NatToStringRoundTrip(n: nat)
    ensures DecimalValue(NatToString(n)) == n
  {
    if n >= 10 {
      NatToStringRoundTrip(n / 10);
      var s := NatToString(n);
      assert s[..|s| - 1] == NatToString(n / 10);
    }
  }

  /** `"Found $newArticlesCount new headlines!"` */
  function NotificationContent(count: nat): string {
    "Found " + NatToString(count) + " new headlines!"
  }

  // ---- doWork ----

  /** `doWork()`: `sync` is the outcome of the sync use case, `notifyThrows`
      whether showing the notification throws, `runAttemptCount` how many
      times this work ran before. Returns the result and the notifications
      shown. */
  function DoWork(sync: SyncOutcome, notifyThrows: bool, runAttemptCount: int): (WorkResult, seq<Notification>) {
    var failed := if runAttemptCount < RetryLimit then Retry else Failure;
    match sync
    case Threw => (failed, [])
    case Synced(count) =>
      if count > 0 then
        if notifyThrows then (failed, [])
        else (Success, [Notification(NotificationTitle, NotificationContent(count))])
      else (Success, [])
  }

  /** A positive count shows exactly one notification, whose text reads back
      as that count, and succeeds. */
  lemma PositiveCountNotifiesOnce(count: int, runAttemptCount: int)
    requires count > 0
    ensures var (result, shown) := DoWork(Synced(count), false, runAttemptCount);
      && result == Success
      && |shown| == 1
      && shown[0].title == "NewsFlow Updates"
      && shown[0].content[..6] == "Found "
      && shown[0].content[|shown[0].content| - 15..] == " new headlines!"
      && DecimalValue(shown[0].content[6..|shown[0].content| - 15]) == count
  {
    var c := NotificationContent(count);
    assert c[6..|c| - 15] == NatToString(count);
    NatToStringRoundTrip(count);
  }

  /** A count of zero or less succeeds silently. */
  lemma NoCountNoNotification(count: int, notifyThrows: bool, runAttemptCount: int)
    requires count <= 0
    ensures DoWork(Synced(count), notifyThrows, runAttemptCount) == (Success, [])
  {
  }

  /** A run succeeds exactly when nothing threw on its path; a run that
      succeeds has shown a notification exactly when the count is positive. */
  lemma SuccessOnlyWithoutException(sync: SyncOutcome, notifyThrows: bool, runAttemptCount: int)
    ensures DoWork(sync, notifyThrows, runAttemptCount).0 == Success <==>
      sync.Synced? && (sync.count <= 0 || !notifyThrows)
    ensures DoWork(sync, notifyThrows, runAttemptCount).0 == Success ==>
      (|DoWork(sync, notifyThrows, runAttemptCount).1| == 1 <==> sync.count > 0)
  {
  }

  /** A run that threw asks for a retry while fewer than three attempts came
      before it, and fails from then on; it never shows a notification. */
  lemma RetryBudget(sync: SyncOutcome, notifyThrows: bool, runAttemptCount: int)
    requires DoWork(sync, notifyThrows, runAttemptCount).0 != Success
    ensures DoWork(sync, notifyThrows, runAttemptCount).0 == (if runAttemptCount < 3 then Retry else Failure)
    ensures DoWork(sync, notifyThrows, runAttemptCount).1 == []
  {
  }

  /** The attempts a run that keeps throwing goes through: retried after the
      runs numbered 0, 1 and 2, failed at run 3, so four runs in all. */
  lemma ThrowingRunsStopAfterFourAttempts()
    ensures DoWork(Threw, false, 0).0 == Retry
    ensures DoWork(Threw, false, 1).0 == Retry
    ensures DoWork(Threw, false, 2).0 == Retry
    ensures DoWork(Threw, false, 3).0 == Failure
  {
  }

  /** Chained with the repository: the sync catches every failure itself, so
      a run over any server reply succeeds unless the notification throws,
      and it notifies exactly when the reply held a valid record. */
  lemma RunAfterSync(reply: ApiReply, now: int, rows: map<string, Entities.ArticleEntity>, runAttemptCount: int)
    ensures var count := NewsRepository.Sync(reply, now, rows).0;
      && DoWork(Synced(count), false, runAttemptCount).0 == Success
      && (|DoWork(Synced(count), false, runAttemptCount).1| == 1 <==>
          reply.Response? && IsSuccessful(reply.code) &&
          exists d :: d in ArticlesOf(reply.body) && ArticleMapper.HasMandatoryFields(d))
  {
    NewsRepository.SyncCount(reply, now, rows);
  }
}
