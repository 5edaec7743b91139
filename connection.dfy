/**
 * The connection bootstrap `set_odoo_client` and its retrying helper
 * `_connect` (djangodoo/__init__.py:23-102), as pure functions of the
 * settings and of the outcome of each connect attempt.
 *
 * The outcome of the erppeek call is an input: `ok[i]` says whether the
 * server accepted the attempt made with retry counter `i` (an index past
 * the end of `ok` is a failure). Logging, sleeping and mailing are recorded
 * as events of a trace rather than performed.
 */
module Connection {
  import opened Wrappers
  import opened Types

  /** The host configuration the failure e-mail reports; the password is not part of it. */
  datatype Report = Report(retries: int, delay: real, user: Value, host: Value, port: Value, db: Value)

  /** What one run of the bootstrap does that is visible outside the settings. */
  datatype Event =
    | Attempted(retryCnt: nat)      // one execution of the `try` block of `_connect`
    | Warned(trialsLeft: int)       // the warnings logged after a failure
    | Slept(seconds: real)          // `sleep(retry_delay)`
    | GaveUp                        // the error logged once the attempts are exhausted
    | Notified(subject: string, fromEmail: string, recipients: seq<string>, report: Report)  // `send_mail`

  /** The trace, the client that was set (if any) and the exception that escaped (if any). */
  datatype Run = Run(trace: seq<Event>, client: Option<Client>, raised: Option<Error>)

  /** The subject line of the failure e-mail. */
  const FailureSubject: string := "APPLICATION FAILURE - DJANGODOO"

  /** The check made before any attempt: ODOO_HOST must be a non-empty dictionary with a truthy HOST. */
  function Validate(conf: Conf): Option<Error> {
    if conf.odooHost.None? || conf.odooHost.value == map[] then Some(MissingOdooHost)
    else if "HOST" !in conf.odooHost.value || !Truthy(conf.odooHost.value["HOST"]) then Some(MissingHostLocation)
    else None
  }

  /**
   * The arguments of `erppeek.Client` can be built: every key is present and
   * PORT is numeric (`%d`). Otherwise the `try` block raises before the
   * server is contacted, and the bare `except` treats it as a failed attempt.
   */
  predicate ClientArgsOk(h: HostConfig) {
    && "HOST" in h && "PORT" in h && h["PORT"].Number?
    && "DB" in h && "USER" in h && "PASSWORD" in h
  }

  function NewClient(conf: Conf): Client
    requires ClientArgsOk(HostOf(conf))
  {
    var h := HostOf(conf);
    Client(h["HOST"], h["PORT"].n, h["DB"], h["USER"], h["PASSWORD"], conf.languageCode)
  }

  /** The attempt with retry counter `cnt` connects. */
  predicate Succeeds(conf: Conf, ok: seq<bool>, cnt: nat) {
    ClientArgsOk(HostOf(conf)) && cnt < |ok| && ok[cnt]
  }

  /** The keys the failure report reads from ODOO_HOST. */
  predicate ReportKeysPresent(h: HostConfig) {
    "USER" in h && "HOST" in h && "PORT" in h && "DB" in h
  }

  /** The e-mail notification is configured: ODOO_EMAIL_NOTIFICATION is truthy. */
  predicate MailConfigured(conf: Conf) {
    conf.emailNotification != map[]
  }

  /**
   * The branch taken once the retry counter has reached its bound: log the
   * error, compose the report (a KeyError for the first of USER, HOST, PORT,
   * DB that is missing), and send the e-mail when the notification is
   * configured (a KeyError when it has no RECIPIENTS).
   */
  function FailureReport(conf: Conf): Run {
    var h := HostOf(conf);
    if "USER" !in h then Run([GaveUp], None, Some(KeyError(Text("USER"))))
    else if "HOST" !in h then Run([GaveUp], None, Some(KeyError(Text("HOST"))))
    else if "PORT" !in h then Run([GaveUp], None, Some(KeyError(Text("PORT"))))
    else if "DB" !in h then Run([GaveUp], None, Some(KeyError(Text("DB"))))
    else if !MailConfigured(conf) then Run([GaveUp], None, None)
    else if "RECIPIENTS" !in conf.emailNotification then Run([GaveUp], None, Some(KeyError(Text("RECIPIENTS"))))
    else
      var report := Report(MaxRetryAttempts(conf), RetryDelay(conf), h["USER"], h["HOST"], h["PORT"], h["DB"]);
      Run([GaveUp, Notified(FailureSubject, conf.defaultFromEmail.GetOr(DefaultFromEmail), conf.emailNotification["RECIPIENTS"], report)], None, None)
  }

  /** The events of one failed attempt, logged before the retry decision is made. */
  function FailedAttempt(conf: Conf, cnt: nat): seq<Event> {
    [Attempted(cnt), Warned(MaxRetryAttempts(conf) - cnt), Slept(RetryDelay(conf))]
  }

  /**
   * A failed attempt whose `sleep(retry_delay)` raises because the delay is
   * negative: the warnings are logged, then the exception escapes every
   * pending `_connect` call, with no retry, no error log and no e-mail.
   */
  function SleepFailure(conf: Conf, cnt: nat): Run {
    Run([Attempted(cnt), Warned(MaxRetryAttempts(conf) - cnt)], None, Some(InvalidSleep))
  }

  /** `run` with `t` happening before it. */
  function Then(t: seq<Event>, run: Run): Run {
    run.(trace := t + run.trace)
  }

  /** Events happening before events happening before a run. */
  lemma ThenThen(t: seq<Event>, f: seq<Event>, run: Run)
    ensures Then(t, Then(f, run)) == Then(t + f, run)
  {
    assert t + (f + run.trace) == (t + f) + run.trace;
  }

  /** `_connect(cnt)`: the reference definition, recursive as the source is. */
  function ConnectFrom(conf: Conf, ok: seq<bool>, cnt: nat): Run
    decreases MaxRetryAttempts(conf) - cnt
  {
    if Succeeds(conf, ok, cnt) then Run([Attempted(cnt)], Some(NewClient(conf)), None)
    else if RetryDelay(conf) < 0.0 then SleepFailure(conf, cnt)
    else if cnt < MaxRetryAttempts(conf) then Then(FailedAttempt(conf, cnt), ConnectFrom(conf, ok, cnt + 1))
    else Then(FailedAttempt(conf, cnt), FailureReport(conf))
  }

  /** `set_odoo_client()`: validate the settings, then `_connect(0)`. */
  function Bootstrap(conf: Conf, ok: seq<bool>): Run {
    var invalid := Validate(conf);
    if invalid.Some? then Run([], None, invalid) else ConnectFrom(conf, ok, 0)
  }

  /** The largest retry counter `_connect` runs with. */
  function LastRetry(conf: Conf): nat {
    if MaxRetryAttempts(conf) < 0 then 0 else MaxRetryAttempts(conf)
  }

  // ---------------------------------------------------------------------
  // Reading a trace

  datatype Kind = AttemptKind | WarningKind | SleepKind | GiveUpKind | NotificationKind

  function KindOf(e: Event): Kind {
    match e
    case Attempted(_) => AttemptKind
    case Warned(_) => WarningKind
    case Slept(_) => SleepKind
    case GaveUp => GiveUpKind
    case Notified(_, _, _, _) => NotificationKind
  }

  /** The number of events of kind `k` in `t`. */
  function Count(t: seq<Event>, k: Kind): nat {
    if t == [] then 0 else (if KindOf(t[0]) == k then 1 else 0) + Count(t[1..], k)
  }

  /** The "trials left" figures of the warnings in `t`, in order. */
  function TrialsLeft(t: seq<Event>): seq<int> {
    if t == [] then [] else (if t[0].Warned? then [t[0].trialsLeft] else []) + TrialsLeft(t[1..])
  }

  /** The pauses of `t`, in seconds, in order. */
  function Pauses(t: seq<Event>): seq<real> {
    if t == [] then [] else (if t[0].Slept? then [t[0].seconds] else []) + Pauses(t[1..])
  }

  lemma {:induction false} CountAppend(a: seq<Event>, b: seq<Event>, k: Kind)
    ensures Count(a + b, k) == Count(a, k) + Count(b, k)
  {
    if a == [] {
      assert a + b == b;
    } else {
      assert (a + b)[1..] == a[1..] + b;
      CountAppend(a[1..], b, k);
    }
  }

  lemma {:induction false} TrialsLeftAppend(a: seq<Event>, b: seq<Event>)
    ensures TrialsLeft(a + b) == TrialsLeft(a) + TrialsLeft(b)
  {
    if a == [] {
      assert a + b == b;
    } else {
      assert (a + b)[0] == a[0] && (a + b)[1..] == a[1..] + b;
      TrialsLeftAppend(a[1..], b);
      var h := if a[0].Warned? then [a[0].trialsLeft] else [];
      assert TrialsLeft(a) == h + TrialsLeft(a[1..]) && TrialsLeft(a + b) == h + TrialsLeft(a[1..] + b);
      assert h + (TrialsLeft(a[1..]) + TrialsLeft(b)) == (h + TrialsLeft(a[1..])) + TrialsLeft(b);
    }
  }

  lemma {:induction false} PausesAppend(a: seq<Event>, b: seq<Event>)
    ensures Pauses(a + b) == Pauses(a) + Pauses(b)
  {
    if a == [] {
      assert a + b == b;
    } else {
      assert (a + b)[0] == a[0] && (a + b)[1..] == a[1..] + b;
      PausesAppend(a[1..], b);
      var h := if a[0].Slept? then [a[0].seconds] else [];
      assert Pauses(a) == h + Pauses(a[1..]) && Pauses(a + b) == h + Pauses(a[1..] + b);
      assert h + (Pauses(a[1..]) + Pauses(b)) == (h + Pauses(a[1..])) + Pauses(b);
    }
  }

  /** The counts of all kinds in `a + b` are the sums of the counts in `a` and `b`. */
  lemma AllCountsAppend(a: seq<Event>, b: seq<Event>)
    ensures forall k :: Count(a + b, k) == Count(a, k) + Count(b, k)
    ensures TrialsLeft(a + b) == TrialsLeft(a) + TrialsLeft(b)
    ensures Pauses(a + b) == Pauses(a) + Pauses(b)
  {
    forall k ensures Count(a + b, k) == Count(a, k) + Count(b, k) {
      CountAppend(a, b, k);
    }
    TrialsLeftAppend(a, b);
    PausesAppend(a, b);
  }

  // ---------------------------------------------------------------------
  // Properties

  /**
   * The exhaustion branch logs one error and sends at most one e-mail; it
   * raises exactly when the report cannot be composed or the notification
   * has no recipients, and it e-mails exactly when the notification is
   * configured and nothing was raised.
   */
  lemma FailureReportFacts(conf: Conf)
    ensures var r := FailureReport(conf);
      && r.client == None
      && Count(r.trace, GiveUpKind) == 1
      && Count(r.trace, AttemptKind) == 0
      && Count(r.trace, WarningKind) == 0
      && Count(r.trace, SleepKind) == 0
      && TrialsLeft(r.trace) == [] && Pauses(r.trace) == []
      && (r.raised.None? <==> ReportKeysPresent(HostOf(conf)) && (MailConfigured(conf) ==> "RECIPIENTS" in conf.emailNotification))
      && Count(r.trace, NotificationKind) == (if MailConfigured(conf) && r.raised.None? then 1 else 0)
      && (Count(r.trace, NotificationKind) == 1 ==>
            var h := HostOf(conf);
            r.trace[|r.trace| - 1]
              == Notified(FailureSubject, conf.defaultFromEmail.GetOr(DefaultFromEmail), conf.emailNotification["RECIPIENTS"],
                          Report(MaxRetryAttempts(conf), RetryDelay(conf), h["USER"], h["HOST"], h["PORT"], h["DB"])))
  {
  }

  /** The events of a failed attempt: one attempt, one warning, one pause. */
  lemma FailedAttemptFacts(conf: Conf, cnt: nat)
    ensures var t := FailedAttempt(conf, cnt);
      && Count(t, AttemptKind) == 1 && Count(t, WarningKind) == 1 && Count(t, SleepKind) == 1
      && Count(t, GiveUpKind) == 0 && Count(t, NotificationKind) == 0
      && TrialsLeft(t) == [MaxRetryAttempts(conf) - cnt]
      && Pauses(t) == [RetryDelay(conf)]
  {
    var t := FailedAttempt(conf, cnt);
    assert t[1..] == [t[1], t[2]];
    assert t[1..][1..] == [t[2]];
    assert t[1..][1..][1..] == [];
    forall k ensures Count(t, k) == Count([t[0]], k) + Count([t[1]], k) + Count([t[2]], k) {
      assert Count(t[1..][1..], k) == Count([t[2]], k);
      assert Count(t[1..], k) == Count([t[1]], k) + Count([t[2]], k);
    }
    assert TrialsLeft(t[1..][1..]) == [] && Pauses(t[1..][1..]) == [RetryDelay(conf)];
    assert TrialsLeft(t[1..]) == [MaxRetryAttempts(conf) - cnt] && Pauses(t[1..]) == [RetryDelay(conf)];
  }

  /** A failed attempt followed by `rest` adds one attempt, one warning and one pause to `rest`. */
  lemma ThenFailed(conf: Conf, cnt: nat, rest: Run)
    ensures var r := Then(FailedAttempt(conf, cnt), rest);
      && Count(r.trace, AttemptKind) == Count(rest.trace, AttemptKind) + 1
      && Count(r.trace, WarningKind) == Count(rest.trace, WarningKind) + 1
      && Count(r.trace, SleepKind) == Count(rest.trace, SleepKind) + 1
      && Count(r.trace, GiveUpKind) == Count(rest.trace, GiveUpKind)
      && Count(r.trace, NotificationKind) == Count(rest.trace, NotificationKind)
      && TrialsLeft(r.trace) == [MaxRetryAttempts(conf) - cnt] + TrialsLeft(rest.trace)
      && Pauses(r.trace) == [RetryDelay(conf)] + Pauses(rest.trace)
      && r.client == rest.client && r.raised == rest.raised
  {
    FailedAttemptFacts(conf, cnt);
    AllCountsAppend(FailedAttempt(conf, cnt), rest.trace);
  }

  /** Prepending the first element of a descending run of figures. */
  lemma PrependDescending(top: int, cnt: nat, n: nat)
    ensures [top - cnt] + seq(n, i => top - (cnt + 1 + i)) == seq(n + 1, i => top - (cnt + i))
  {
  }

  lemma PrependConstant(x: real, n: nat)
    ensures [x] + seq(n, i => x) == seq(n + 1, i => x)
  {
  }

  /** A failed attempt with a non-negative delay pauses, then retries or reports. */
  lemma FailedStep(conf: Conf, ok: seq<bool>, cnt: nat)
    requires !Succeeds(conf, ok, cnt) && RetryDelay(conf) >= 0.0
    ensures ConnectFrom(conf, ok, cnt)
         == Then(FailedAttempt(conf, cnt), if cnt < MaxRetryAttempts(conf) then ConnectFrom(conf, ok, cnt + 1) else FailureReport(conf))
  {
  }

  /** The exhaustion branch makes no attempt, no pause and no warning, logs one error and sets no client. */
  lemma ReportCounts(conf: Conf)
    ensures var r := FailureReport(conf);
      && r.client == None && |r.trace| > 0
      && Count(r.trace, AttemptKind) == 0 && Count(r.trace, SleepKind) == 0
      && Count(r.trace, WarningKind) == 0 && Count(r.trace, GiveUpKind) == 1
      && TrialsLeft(r.trace) == [] && Pauses(r.trace) == []
  {
    FailureReportFacts(conf);
  }

  /**
   * A non-negative delay and a server that never accepts: `_connect(cnt)` makes one attempt for every
   * counter from `cnt` to the bound, sleeps after every one of them
   * (the last included), warns with `max_retry_attempts - retry_cnt` trials
   * left each time, sets no client, and ends in the exhaustion branch.
   */
  lemma {:induction false} ExhaustedFrom(conf: Conf, ok: seq<bool>, cnt: nat)
    requires cnt <= LastRetry(conf)
    requires RetryDelay(conf) >= 0.0
    requires forall i :: cnt <= i <= LastRetry(conf) ==> !Succeeds(conf, ok, i)
    ensures var r := ConnectFrom(conf, ok, cnt);
      var n := LastRetry(conf) - cnt + 1;
      && r.client == None
      && r.raised == FailureReport(conf).raised
      && Count(r.trace, AttemptKind) == n
      && Count(r.trace, SleepKind) == n
      && Count(r.trace, GiveUpKind) == 1
      && Count(r.trace, NotificationKind) == Count(FailureReport(conf).trace, NotificationKind)
    decreases LastRetry(conf) - cnt
  {
    var rest := if cnt < MaxRetryAttempts(conf) then ConnectFrom(conf, ok, cnt + 1) else FailureReport(conf);
    FailedStep(conf, ok, cnt);
    ThenFailed(conf, cnt, rest);
    if cnt < MaxRetryAttempts(conf) {
      ExhaustedFrom(conf, ok, cnt + 1);
    } else {
      ReportCounts(conf);
    }
  }

  /**
   * In the same run, the warnings report `max_retry_attempts - retry_cnt`
   * trials left for every counter from `cnt` to the bound, descending, and
   * every pause lasts the retry delay.
   */
  lemma {:induction false} ExhaustedFigures(conf: Conf, ok: seq<bool>, cnt: nat)
    requires cnt <= LastRetry(conf)
    requires RetryDelay(conf) >= 0.0
    requires forall i :: cnt <= i <= LastRetry(conf) ==> !Succeeds(conf, ok, i)
    ensures var r := ConnectFrom(conf, ok, cnt);
      var n := LastRetry(conf) - cnt + 1;
      && |TrialsLeft(r.trace)| == n && |Pauses(r.trace)| == n
      && (forall i :: 0 <= i < n ==> TrialsLeft(r.trace)[i] == MaxRetryAttempts(conf) - (cnt + i))
      && (forall i :: 0 <= i < n ==> Pauses(r.trace)[i] == RetryDelay(conf))
    decreases LastRetry(conf) - cnt
  {
    FailedStep(conf, ok, cnt);
    if cnt < MaxRetryAttempts(conf) {
      ExhaustedFigures(conf, ok, cnt + 1);
      PrependFigures(conf, cnt, ConnectFrom(conf, ok, cnt + 1), LastRetry(conf) - cnt);
    } else {
      ReportCounts(conf);
      PrependFigures(conf, cnt, FailureReport(conf), 0);
    }
  }

  /** A failed attempt put before a run whose figures continue its own. */
  lemma PrependFigures(conf: Conf, cnt: nat, rest: Run, m: nat)
    requires |TrialsLeft(rest.trace)| == m && |Pauses(rest.trace)| == m
    requires forall i :: 0 <= i < m ==> TrialsLeft(rest.trace)[i] == MaxRetryAttempts(conf) - (cnt + 1 + i)
    requires forall i :: 0 <= i < m ==> Pauses(rest.trace)[i] == RetryDelay(conf)
    ensures var r := Then(FailedAttempt(conf, cnt), rest);
      && |TrialsLeft(r.trace)| == m + 1 && |Pauses(r.trace)| == m + 1
      && (forall i :: 0 <= i < m + 1 ==> TrialsLeft(r.trace)[i] == MaxRetryAttempts(conf) - (cnt + i))
      && (forall i :: 0 <= i < m + 1 ==> Pauses(r.trace)[i] == RetryDelay(conf))
  {
    ThenFailed(conf, cnt, rest);
    var r := Then(FailedAttempt(conf, cnt), rest);
    forall i | 0 < i < m + 1 ensures TrialsLeft(r.trace)[i] == MaxRetryAttempts(conf) - (cnt + i) {
      assert TrialsLeft(r.trace)[i] == TrialsLeft(rest.trace)[i - 1];
    }
    forall i | 0 < i < m + 1 ensures Pauses(r.trace)[i] == RetryDelay(conf) {
      assert Pauses(r.trace)[i] == Pauses(rest.trace)[i - 1];
    }
  }

  /**
   * A non-negative delay and a server that never accepts: the last event of
   * `_connect(cnt)` is the last event of the exhaustion branch.
   */
  lemma {:induction false} ExhaustedEndsInReport(conf: Conf, ok: seq<bool>, cnt: nat)
    requires cnt <= LastRetry(conf)
    requires RetryDelay(conf) >= 0.0
    requires forall i :: cnt <= i <= LastRetry(conf) ==> !Succeeds(conf, ok, i)
    ensures var t := ConnectFrom(conf, ok, cnt).trace;
      var last := FailureReport(conf).trace;
      |t| > 0 && |last| > 0 && t[|t| - 1] == last[|last| - 1]
    decreases LastRetry(conf) - cnt
  {
    if cnt < MaxRetryAttempts(conf) {
      ExhaustedEndsInReport(conf, ok, cnt + 1);
    }
  }

  /**
   * A server that first accepts the attempt with counter `k` (and a
   * non-negative delay when that is not the first attempt): `_connect(cnt)`
   * makes the attempts `cnt..k`, sleeps after each failed one, sets the
   * client, sends nothing and raises nothing.
   */
  lemma {:induction false} ConnectsAt(conf: Conf, ok: seq<bool>, cnt: nat, k: nat)
    requires cnt <= k <= LastRetry(conf)
    requires Succeeds(conf, ok, k)
    requires cnt < k ==> RetryDelay(conf) >= 0.0
    requires forall i :: cnt <= i < k ==> !Succeeds(conf, ok, i)
    ensures var r := ConnectFrom(conf, ok, cnt);
      && r.client == Some(NewClient(conf))
      && r.raised == None
      && Count(r.trace, AttemptKind) == k - cnt + 1
      && Count(r.trace, SleepKind) == k - cnt
      && Count(r.trace, GiveUpKind) == 0
      && Count(r.trace, NotificationKind) == 0
      && TrialsLeft(r.trace) == seq(k - cnt, i => MaxRetryAttempts(conf) - (cnt + i))
      && Pauses(r.trace) == seq(k - cnt, i => RetryDelay(conf))
    decreases k - cnt
  {
    if cnt < k {
      ThenFailed(conf, cnt, ConnectFrom(conf, ok, cnt + 1));
      ConnectsAt(conf, ok, cnt + 1, k);
      PrependDescending(MaxRetryAttempts(conf), cnt, k - cnt - 1);
      PrependConstant(RetryDelay(conf), k - cnt - 1);
    }
  }

  /**
   * `_connect(cnt)` sets the client exactly when some attempt it gets to make
   * succeeds: any attempt up to the bound when the delay is non-negative,
   * only the first one otherwise (its failure ends in the raising `sleep`).
   */
  lemma {:induction false} ConnectsIff(conf: Conf, ok: seq<bool>, cnt: nat)
    requires cnt <= LastRetry(conf)
    ensures ConnectFrom(conf, ok, cnt).client.Some?
        <==> exists k :: cnt <= k <= LastRetry(conf) && Succeeds(conf, ok, k) && (k == cnt || RetryDelay(conf) >= 0.0)
    ensures ConnectFrom(conf, ok, cnt).client.Some? ==> ConnectFrom(conf, ok, cnt).raised.None?
    decreases LastRetry(conf) - cnt
  {
    if !Succeeds(conf, ok, cnt) && RetryDelay(conf) >= 0.0 {
      if cnt < MaxRetryAttempts(conf) {
        ConnectsIff(conf, ok, cnt + 1);
        if exists k :: cnt <= k <= LastRetry(conf) && Succeeds(conf, ok, k) && (k == cnt || RetryDelay(conf) >= 0.0) {
          var k :| cnt <= k <= LastRetry(conf) && Succeeds(conf, ok, k) && (k == cnt || RetryDelay(conf) >= 0.0);
          assert cnt + 1 <= k;
        }
      } else {
        FailureReportFacts(conf);
        assert cnt == LastRetry(conf);
      }
    }
  }

  /** A failed attempt whose sleep raises: one attempt, one warning, nothing else, and the exception. */
  lemma SleepFailureFacts(conf: Conf, cnt: nat)
    ensures var r := SleepFailure(conf, cnt);
      && r.client == None && r.raised == Some(InvalidSleep)
      && Count(r.trace, AttemptKind) == 1
      && Count(r.trace, WarningKind) == 1
      && Count(r.trace, SleepKind) == 0
      && Count(r.trace, GiveUpKind) == 0
      && Count(r.trace, NotificationKind) == 0
      && TrialsLeft(r.trace) == [MaxRetryAttempts(conf) - cnt] && Pauses(r.trace) == []
  {
    var t := SleepFailure(conf, cnt).trace;
    assert t[1..][1..] == [];
    forall k ensures Count(t, k) == Count([t[0]], k) + Count([t[1]], k) {
      assert Count(t[1..], k) == Count([t[1]], k);
    }
    assert TrialsLeft(t[1..]) == [MaxRetryAttempts(conf) - cnt] && Pauses(t[1..]) == [];
  }

  /**
   * Whatever the server does, `_connect(cnt)` makes at least one and at most
   * `LastRetry - cnt + 1` attempts and warns once per failed attempt. It
   * sleeps once per warning, except for the sleep that raises; that happens
   * exactly when the delay is negative and the first attempt fails. The error
   * is logged exactly when no client was set and the sleep did not raise.
   */
  lemma {:induction false} AttemptsBounded(conf: Conf, ok: seq<bool>, cnt: nat)
    requires cnt <= LastRetry(conf)
    ensures var r := ConnectFrom(conf, ok, cnt);
      var sleepRaised := r.raised == Some(InvalidSleep);
      && 1 <= Count(r.trace, AttemptKind) <= LastRetry(conf) - cnt + 1
      && Count(r.trace, WarningKind) == Count(r.trace, AttemptKind) - (if r.client.Some? then 1 else 0)
      && Count(r.trace, SleepKind) == Count(r.trace, WarningKind) - (if sleepRaised then 1 else 0)
      && Count(r.trace, GiveUpKind) == (if r.client.Some? || sleepRaised then 0 else 1)
      && (sleepRaised <==> RetryDelay(conf) < 0.0 && !Succeeds(conf, ok, cnt))
      && (sleepRaised ==> Count(r.trace, AttemptKind) == 1 && Count(r.trace, NotificationKind) == 0)
    decreases LastRetry(conf) - cnt
  {
    if !Succeeds(conf, ok, cnt) {
      if RetryDelay(conf) < 0.0 {
        SleepFailureFacts(conf, cnt);
      } else {
        var rest := if cnt < MaxRetryAttempts(conf) then ConnectFrom(conf, ok, cnt + 1) else FailureReport(conf);
        ThenFailed(conf, cnt, rest);
        if cnt < MaxRetryAttempts(conf) {
          AttemptsBounded(conf, ok, cnt + 1);
        } else {
          FailureReportFacts(conf);
        }
      }
    }
  }

  /**
   * A missing or empty ODOO_HOST, or one without a truthy HOST, raises the
   * matching configuration error before any attempt is made; a valid one
   * always leads to the attempt with counter 0.
   */
  lemma BootstrapFailsFast(conf: Conf, ok: seq<bool>)
    ensures var r := Bootstrap(conf, ok);
      && ((conf.odooHost.None? || conf.odooHost.value == map[]) ==> r == Run([], None, Some(MissingOdooHost)))
      && (conf.odooHost.Some? && conf.odooHost.value != map[]
          && ("HOST" !in conf.odooHost.value || !Truthy(conf.odooHost.value["HOST"]))
          ==> r == Run([], None, Some(MissingHostLocation)))
      && (Validate(conf).None? ==> |r.trace| > 0 && r.trace[0] == Attempted(0))
  {
  }

  /**
   * The bootstrap with a non-negative delay and a server that accepts no
   * attempt (with the default bound, four attempts and four pauses of five
   * seconds): no client is set, one error is logged, and one e-mail is sent
   * exactly when the notification is configured and nothing was raised.
   */
  lemma BootstrapExhausted(conf: Conf, ok: seq<bool>)
    requires Validate(conf).None? && RetryDelay(conf) >= 0.0
    requires forall i :: 0 <= i <= LastRetry(conf) ==> !Succeeds(conf, ok, i)
    ensures var r := Bootstrap(conf, ok);
      && r.client == None
      && Count(r.trace, AttemptKind) == LastRetry(conf) + 1
      && Count(r.trace, SleepKind) == LastRetry(conf) + 1
      && Count(r.trace, GiveUpKind) == 1
      && TrialsLeft(r.trace) == seq(LastRetry(conf) + 1, i => MaxRetryAttempts(conf) - i)
      && (r.raised.None? <==> ReportKeysPresent(HostOf(conf)) && (MailConfigured(conf) ==> "RECIPIENTS" in conf.emailNotification))
      && Count(r.trace, NotificationKind) == (if MailConfigured(conf) && r.raised.None? then 1 else 0)
      && (Count(r.trace, NotificationKind) == 1 ==>
            var h := HostOf(conf);
            r.trace[|r.trace| - 1]
              == Notified(FailureSubject, conf.defaultFromEmail.GetOr(DefaultFromEmail), conf.emailNotification["RECIPIENTS"],
                          Report(MaxRetryAttempts(conf), RetryDelay(conf), h["USER"], h["HOST"], h["PORT"], h["DB"])))
  {
    ExhaustedFrom(conf, ok, 0);
    ExhaustedFigures(conf, ok, 0);
    ExhaustedEndsInReport(conf, ok, 0);
    FailureReportFacts(conf);
    var r := Bootstrap(conf, ok);
    assert TrialsLeft(r.trace) == seq(LastRetry(conf) + 1, i => MaxRetryAttempts(conf) - i);
  }

  /**
   * The bootstrap with a server that first accepts attempt `k`: `k + 1`
   * attempts, `k` pauses and `k` warnings, a client built from ODOO_HOST
   * and LANGUAGE_CODE, no e-mail and no exception.
   */
  lemma BootstrapConnects(conf: Conf, ok: seq<bool>, k: nat)
    requires Validate(conf).None?
    requires k <= LastRetry(conf) && Succeeds(conf, ok, k)
    requires 0 < k ==> RetryDelay(conf) >= 0.0
    requires forall i :: 0 <= i < k ==> !Succeeds(conf, ok, i)
    ensures var r := Bootstrap(conf, ok);
      && r.client == Some(NewClient(conf))
      && r.client.value.lang == conf.languageCode
      && r.raised == None
      && Count(r.trace, AttemptKind) == k + 1
      && Count(r.trace, SleepKind) == k
      && Count(r.trace, NotificationKind) == 0
      && TrialsLeft(r.trace) == seq(k, i => MaxRetryAttempts(conf) - i)
  {
    ConnectsAt(conf, ok, 0, k);
    var r := Bootstrap(conf, ok);
    assert TrialsLeft(r.trace) == seq(k, i => MaxRetryAttempts(conf) - i);
  }

  /**
   * The bootstrap with a negative ODOO_RETRY_DELAY: unless the first attempt
   * connects, its `sleep` raises, so exactly one attempt is made, no client is
   * set, no error is logged, no e-mail is sent, and the exception escapes
   * `set_odoo_client`.
   */
  lemma BootstrapNegativeDelay(conf: Conf, ok: seq<bool>)
    requires Validate(conf).None? && RetryDelay(conf) < 0.0
    ensures var r := Bootstrap(conf, ok);
      && Count(r.trace, AttemptKind) == 1
      && Count(r.trace, SleepKind) == 0
      && Count(r.trace, GiveUpKind) == 0
      && Count(r.trace, NotificationKind) == 0
      && (Succeeds(conf, ok, 0) ==> r.client == Some(NewClient(conf)) && r.raised == None)
      && (!Succeeds(conf, ok, 0) ==> r.client == None && r.raised == Some(InvalidSleep)
                                     && TrialsLeft(r.trace) == [MaxRetryAttempts(conf)])
  {
    if Succeeds(conf, ok, 0) {
      ConnectsAt(conf, ok, 0, 0);
    } else {
      SleepFailureFacts(conf, 0);
    }
  }
}
