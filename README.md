# djangodoo core in Dafny

Djangodoo builds Django model fields from the field schema of a remote Odoo
server. This project models the two algorithms of `djangodoo/__init__.py`
that carry its logic, and proves properties of them:

- **The connection bootstrap** (`set_odoo_client` and its self-calling
  `_connect`). It validates `ODOO_HOST`, then attempts to connect, retrying
  after a fixed pause. On success it sets the client and empties the model
  registry and the deferred tables. Once the attempts are used up, it logs
  the failure and, when `ODOO_EMAIL_NOTIFICATION` is set, e-mails a report.
- **The schema bridge** (`add_extra_model_fields` and its helper
  `add_field`). This is the `class_prepared` handler. It registers a bridged
  model class and attaches the fields the translator produces for the
  class's remote fields. It then replays the field descriptors deferred
  under the class's identifier onto their origin models, and empties that
  queue.

Layout:

- `wrappers.dfy`: module `Wrappers`, the `Option` type.
- `types.dfy`: module `Types`. Holds the settings (`Conf`, with the
  defaults 3 and 5), the client, model classes (`Sender`), field
  descriptors, attachments, and `Tables` (the process-wide state on
  `django.conf.settings`).
- `connection.dfy`: module `Connection`. Holds the reference definition
  `ConnectFrom`, which is recursive like `_connect`, and `Bootstrap`, plus
  the lemmas about them. The server's answer to each attempt is an input
  `ok: seq<bool>`. Logging, sleeping and mailing are recorded as a trace of
  `Event`s.
- `bridge.dfy`: module `SchemaBridge`. Holds `AddField`, `OwnFields`,
  `Replay` and `Bridge`, with their lemmas. The field translator and the
  remote `fields(...)` call are function inputs.
- `djangodoo.dfy`: module `Djangodoo`, class `Settings`. It holds the
  process-wide tables as fields. Its methods update those fields in place:
  `SetOdooClient` is a bounded `while` loop that keeps `_connect`'s counting,
  and `AddExtraModelFields` loops over the fetched fields and over the
  deferred queue. Each method's postcondition ties its outputs and new state
  to the pure definition.

Behaviour the code has and the model keeps:

- `_connect(0)` runs with retry counters `0 .. max_retry_attempts`. A server
  that never answers therefore gets `max_retry_attempts + 1` attempts.
- The pause comes after every failure, including the last one. Each failure
  warns with `max_retry_attempts - retry_cnt` trials left, so the last
  warning says 0 (or a negative count when the bound is negative).
- Building the client's arguments can fail with a missing PORT, DB, USER or
  PASSWORD, or a non-numeric PORT (a string, say). That failure is caught by the bare
  `except` and counts as a failed attempt.
- The failure report reads USER, HOST, PORT and DB. A missing one raises a
  `KeyError` that escapes `set_odoo_client`. So does a notification setting
  without `RECIPIENTS`.
- A negative ODOO_RETRY_DELAY makes `sleep` raise inside the `except`
  handler. The first failed attempt's warnings are logged, then the
  exception escapes `set_odoo_client`: no retry, no error log, no e-mail.
- Without a client, the bridge only logs. The log line reads HOST from
  `ODOO_HOST`. When `ODOO_HOST` is absent that read is `False.get(...)`,
  which raises `AttributeError`.
- Replaying a deferred entry raises `KeyError` in three cases: the entry has
  no `model`, its origin is not registered, or a translated entry has no
  `name`. The replay then stops midway. The queue is not emptied, and the
  attachments made so far remain.

Behaviour that is easy to misread:

- **Attempt and pause counts.** With a bound of `N` the code makes `N + 1`
  attempts and `N + 1` pauses: the counter runs from 0 to `N`, and the pause
  comes before the retry decision.
- **Re-registration.** Registering a second class under an identifier
  already in `odoo_models` overwrites the entry; nothing is raised.
- **Where a deferred field lands.** A field deferred under identifier A is
  attached to the entry's origin (`odoo_models[entry['model']]`), the model
  that declared it, not to A. See `DeferredLinkLandsOnOrigin`.
- **Who fills the deferred table.** `add_extra_model_fields` only reads and
  empties `deferred_m2o`; entries are put there by the field translator,
  which is not part of this model.

## Model

| member | source | states |
|---|---|---|
| Types.MaxRetryAttempts | djangodoo/__init__.py:32 | the retry bound is ODOO_MAX_RETRY_ATTEMPTS when set, 3 otherwise |
| Types.RetryDelay | djangodoo/__init__.py:33 | the pause is ODOO_RETRY_DELAY (a real number of seconds) when set, 5 seconds otherwise |
| Connection.Validate | djangodoo/__init__.py:24-29 | no contract; reference definition of the ODOO_HOST check, whose properties are `BootstrapFailsFast` |
| Connection.FailedAttempt | djangodoo/__init__.py:44-47 | no contract; reference definition of a failure's warnings and pause, whose properties are `FailedAttemptFacts` and `ThenFailed` |
| Connection.FailureReport | djangodoo/__init__.py:51-100 | no contract; reference definition of the exhaustion branch, whose properties are `FailureReportFacts` |
| Connection.SleepFailure | djangodoo/__init__.py:44-47 | no contract; reference definition of a failed attempt whose `sleep` raises on a negative delay, whose properties are `SleepFailureFacts` |
| Connection.ConnectFrom | djangodoo/__init__.py:35-101 | no contract; reference definition of `_connect(cnt)`, whose properties are `ExhaustedFrom`, `ExhaustedFigures`, `ExhaustedEndsInReport`, `ConnectsAt`, `ConnectsIff` and `AttemptsBounded` |
| Connection.Bootstrap | djangodoo/__init__.py:23-102 | no contract; reference definition of `set_odoo_client()`, whose properties are `BootstrapFailsFast`, `BootstrapExhausted`, `BootstrapConnects` and `BootstrapNegativeDelay` |
| Connection.BootstrapFailsFast | djangodoo/__init__.py:24-29 | an absent or empty ODOO_HOST raises MissingOdooHost, and one without a truthy HOST raises MissingHostLocation, both with an empty trace (no attempt); a valid one starts with the attempt with counter 0 |
| Connection.FailedAttemptFacts | djangodoo/__init__.py:44-47 | a failed attempt logs one warning reporting `max_retry_attempts - retry_cnt` trials left and sleeps once for the retry delay |
| Connection.FailureReportFacts | djangodoo/__init__.py:51-100 | the exhaustion branch logs one error and sets no client; it raises exactly when USER, HOST, PORT or DB is missing, or the notification is configured without RECIPIENTS; it sends one e-mail exactly when the notification is configured and nothing was raised, with the subject "APPLICATION FAILURE - DJANGODOO", DEFAULT_FROM_EMAIL (or its default), the RECIPIENTS and the reported bound, delay, USER, HOST, PORT and DB |
| Connection.SleepFailureFacts | djangodoo/__init__.py:44-47 | a failed attempt whose sleep raises makes one attempt and one warning reporting `max_retry_attempts - retry_cnt`, no pause, no error log and no e-mail, sets no client and raises the sleep's exception |
| Connection.ExhaustedFrom | djangodoo/__init__.py:35-51 | with a non-negative delay, if no attempt from counter `cnt` to the bound succeeds, `_connect(cnt)` makes `bound - cnt + 1` attempts and as many pauses, logs one error, sets no client and raises what the exhaustion branch raises |
| Connection.ExhaustedFigures | djangodoo/__init__.py:45-47 | in the same run, the warnings report `max_retry_attempts - retry_cnt` trials left for each counter from `cnt` to the bound, in that order, and every pause lasts the retry delay |
| Connection.ExhaustedEndsInReport | djangodoo/__init__.py:48-101 | with a non-negative delay, if no attempt from counter `cnt` to the bound succeeds, the last thing `_connect(cnt)` does is the last thing the exhaustion branch does (the e-mail when one is sent) |
| Connection.ConnectsAt | djangodoo/__init__.py:35-49 | if attempt `k` is the first to succeed (and the delay is non-negative when `k > cnt`), `_connect(cnt)` makes `k - cnt + 1` attempts and `k - cnt` pauses, sets the client built from the settings, sends nothing and raises nothing |
| Connection.ConnectsIff | djangodoo/__init__.py:35-50 | `_connect(cnt)` sets a client exactly when some attempt it gets to make succeeds: one with a counter between `cnt` and the bound when the delay is non-negative, only attempt `cnt` when it is negative; it raises nothing then |
| Connection.AttemptsBounded | djangodoo/__init__.py:35-50 | for any server and delay, between 1 and `bound - cnt + 1` attempts; one warning per failed attempt; one pause per warning except a sleep that raises, which happens exactly when the delay is negative and attempt `cnt` fails, and then after a single attempt with no e-mail; the error is logged exactly when no client was set and no sleep raised |
| Connection.BootstrapExhausted | djangodoo/__init__.py:23-102 | with a valid ODOO_HOST, a non-negative delay and a server that never accepts: `bound + 1` attempts and pauses, trials-left `max, max-1, ..., max-bound`, no client, one logged error; an e-mail exactly when the notification is configured and nothing was raised, carrying the subject "APPLICATION FAILURE - DJANGODOO", DEFAULT_FROM_EMAIL (or its default), the RECIPIENTS and the bound, delay, USER, HOST, PORT and DB; an exception exactly when a report key or RECIPIENTS is missing |
| Connection.BootstrapConnects | djangodoo/__init__.py:23-49 | with a valid ODOO_HOST and first success at attempt `k <= bound` (the delay non-negative when `k > 0`): `k + 1` attempts, `k` pauses and warnings, a client carrying LANGUAGE_CODE, no e-mail, no exception |
| Connection.BootstrapNegativeDelay | djangodoo/__init__.py:23-47 | with a valid ODOO_HOST and a negative delay: exactly one attempt, no pause, no error log and no e-mail; the client when that attempt connects, otherwise no client, the sleep's exception escaping and one warning reporting `max_retry_attempts` trials left |
| SchemaBridge.AddField | djangodoo/__init__.py:112-116 | no contract; reference definition of `add_field`, whose properties are `AddOwnField`, `ReplayRaises` and `ReplayAttachEach` |
| SchemaBridge.Annotated | djangodoo/__init__.py:133-134 | no contract; reference definition of the name and model written into a fetched descriptor, whose properties are `AddOwnField` |
| SchemaBridge.OwnFields | djangodoo/__init__.py:131-135 | no contract; reference definition of the loop over the fetched fields, whose properties are `OwnFieldsAttachEach` and `OwnFieldsAppend` |
| SchemaBridge.OriginOf | djangodoo/__init__.py:139 | no contract; reference definition of the origin lookup `odoo_models[entry['model']]`, whose properties are `ReplayRaises` and `ReplayAttachEach` |
| SchemaBridge.Replay | djangodoo/__init__.py:137-140 | no contract; reference definition of the replay loop, whose properties are `ReplayRaises`, `ReplayAttachEach` and `ReplayAppend` |
| SchemaBridge.Bridge | djangodoo/__init__.py:105-141 | no contract; reference definition of `add_extra_model_fields`, whose properties are `BridgeSkips`, `BridgeConnected` and `DeferredLinkLandsOnOrigin` |
| SchemaBridge.AddOwnField | djangodoo/__init__.py:112-135 | an own fetched field, annotated with its name and model, is attached to the sender under its fetched name when the translator (given the registry with the sender in it) accepts it, nothing otherwise, and never raises |
| SchemaBridge.OwnFieldsAttachEach | djangodoo/__init__.py:131-135 | every own attachment goes to the sender under the name of a fetched field the translator accepted; every accepted field is attached; a declined field attaches nothing |
| SchemaBridge.OwnFieldsAppend | djangodoo/__init__.py:132-135 | own fields are attached in fetch order |
| SchemaBridge.ReplayRaises | djangodoo/__init__.py:137-140 | the replay raises exactly when some entry lacks a resolvable origin or, once translated, a name, and then raises the first such entry's KeyError |
| SchemaBridge.ReplayAttachEach | djangodoo/__init__.py:137-140 | every replayed attachment goes to `registry[entry['model']]` under `entry['name']` with the translated field; with no exception, every accepted entry is attached |
| SchemaBridge.ReplayAppend | djangodoo/__init__.py:138-140 | deferred entries are replayed in queue order and the replay stops at the first exception |
| SchemaBridge.BridgeSkips | djangodoo/__init__.py:110-128 | a class without `_odoo_model`, or any class while there is no client, leaves every table and field set unchanged; it raises only for a bridged class when ODOO_HOST is absent |
| SchemaBridge.BridgeConnected | djangodoo/__init__.py:130-141 | with a client, the sender is registered under its identifier; other registry entries, other queues, the client and the one-to-many table are unchanged; the sender's queue keeps its key and is emptied exactly when the replay raised nothing; the new attachments are the own fields followed by the replayed ones |
| SchemaBridge.DeferredLinkLandsOnOrigin | djangodoo/__init__.py:137-141 | a field that model B deferred under A is attached to B when A is prepared, after A's own fields, with the translator seeing A registered; the queue under A is left empty and every other queue is kept |
| Djangodoo.Settings.constructor | djangodoo/__init__.py:110 | the settings before `set_odoo_client` ran: no client (so `getattr(settings, "odoo", None)` is None) and empty tables |
| Djangodoo.Settings.SetOdooClient | djangodoo/__init__.py:23-102 | the loop yields the trace and exception of `Bootstrap`, including the stop at a raising sleep; the client is set and the registry and deferred tables are emptied exactly when it connects; otherwise no table changes |
| Djangodoo.Settings.AddField | djangodoo/__init__.py:112-116 | appends the translated field under `details['name']`, nothing when declined, KeyError when the name is missing |
| Djangodoo.Settings.AttachOwnFields | djangodoo/__init__.py:131-135 | the attached fields grow by exactly `OwnFields` of the fetched items |
| Djangodoo.Settings.ReplayDeferred | djangodoo/__init__.py:137-140 | the attached fields grow by exactly the replay's attachments and the exception is the replay's |
| Djangodoo.Settings.AddExtraModelFields | djangodoo/__init__.py:105-141 | the new tables and the exception are those of `Bridge` on the old tables |

## Left out

- `set_auth_cache` (djangodoo/__init__.py:17-20) only writes constant cache settings.
- Module import effects and the `class_prepared` registration (lines 143-146) are not modelled. Neither is the fact that a fatal ODOO_HOST error at import stops the handler from being registered at all.
- The erppeek protocol, authentication and the `context` language setting are not modelled. Each attempt's outcome is the input `ok`, and the client is a record of the values it was built from.
- Errors of the remote `fields(...)` call are not modelled; it is a total function input. The dictionary it returns is given as the sequence of its items in iteration order.
- The sleep itself (its duration only is recorded), the log texts, `traceback.format_exc()` and the e-mail bodies are not modelled. The trace records one event per failure's warnings, each pause's duration, the final error, and the e-mail's sender, recipients and reported host settings.
- Delivery errors of `send_mail` (`fail_silently=False`) are not modelled.
- The degraded-mode error log (line 127) is not recorded in any trace.
- `convert_field`, `to_django` and `contribute_to_class` live in a file that is not part of this model. The translator is modelled as a pure function of the registry as it stands and the descriptor, so a translator that itself adds entries to `deferred_m2o`, possibly to the queue being replayed, is not captured; the frame facts of `SchemaBridge.BridgeConnected` rely on that. An attachment is recorded as an event, not as a change to a Django class.
- Model classes are values, so two classes with the same name, identifier and field list are not told apart.
- Settings values are text or integers. Floats, booleans and None inside ODOO_HOST or the descriptors are not modelled; nor are a truthy non-dictionary ODOO_EMAIL_NOTIFICATION and a non-string `_odoo_model`.
- Concurrency is not modelled: the host framework prepares model classes one at a time, and each method here runs to completion.
- Connection.ConnectFrom: the source retries by a nested self-call from inside the `except` handler, one stack frame per attempt; with a bound near Python's default recursion limit (1000 frames) it raises `RecursionError` instead of finishing its retries. The model (and the loop of `Djangodoo.Settings.SetOdooClient`) has no stack depth.
- Connection.BootstrapExhausted: holds for every bound, including those for which the source would end with `RecursionError`, for the reason given on the line above.
- Types.MaxRetryAttempts: the bound is an integer. A non-integer ODOO_MAX_RETRY_ATTEMPTS such as 2.5 is legal in the source, where the counter then stops at the least integer not below it and the trials-left figures are fractional; that case is not modelled.
- The exception of `sleep` on a negative delay is one error case, `InvalidSleep`; the model does not tell Python 3's ValueError from Python 2's IOError (EINVAL), and a NaN delay is not modelled.
