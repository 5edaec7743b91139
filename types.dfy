/**
 * The data shared by the connection bootstrap and the schema bridge of
 * `djangodoo/__init__.py`: the values read from Django's settings, the
 * remote client, the model classes that opt into the bridge, the field
 * descriptors fetched from Odoo, and the process-wide tables kept on
 * `django.conf.settings`.
 */
module Types {
  import opened Wrappers

  /** A value read from a settings dictionary or a field descriptor dictionary. */
  datatype Value = Text(s: string) | Number(n: int)

  /** Python truthiness of a value: the empty string and zero are false. */
  predicate Truthy(v: Value) {
    match v
    case Text(s) => s != ""
    case Number(n) => n != 0
  }

  /** The `ODOO_HOST` dictionary: HOST, PORT, DB, USER, PASSWORD. */
  type HostConfig = map<string, Value>

  /**
   * The settings the core reads. A setting that `getattr` does not find is
   * `None`; `ODOO_EMAIL_NOTIFICATION` is a dictionary whose absence reads as
   * the empty (falsy) one.
   */
  datatype Conf = Conf(
    odooHost: Option<HostConfig>,                  // ODOO_HOST
    maxRetryAttempts: Option<int>,                 // ODOO_MAX_RETRY_ATTEMPTS
    retryDelay: Option<real>,                      // ODOO_RETRY_DELAY, in seconds
    emailNotification: map<string, seq<string>>,   // ODOO_EMAIL_NOTIFICATION
    defaultFromEmail: Option<string>,              // DEFAULT_FROM_EMAIL
    languageCode: string)                          // LANGUAGE_CODE

  const DefaultMaxRetryAttempts: int := 3
  const DefaultRetryDelay: real := 5.0
  const DefaultFromEmail: string := "djangodoo@example.com"

  /** The bound on the retry counter. */
  function MaxRetryAttempts(conf: Conf): (n: int)
    ensures conf.maxRetryAttempts.None? ==> n == 3
    ensures conf.maxRetryAttempts.Some? ==> n == conf.maxRetryAttempts.value
  {
    conf.maxRetryAttempts.GetOr(DefaultMaxRetryAttempts)
  }

  /** The pause after each failed attempt. */
  function RetryDelay(conf: Conf): (seconds: real)
    ensures conf.retryDelay.None? ==> seconds == 5.0
    ensures conf.retryDelay.Some? ==> seconds == conf.retryDelay.value
  {
    conf.retryDelay.GetOr(DefaultRetryDelay)
  }

  /** The `ODOO_HOST` dictionary, or the empty one when the setting is absent. */
  function HostOf(conf: Conf): HostConfig {
    conf.odooHost.GetOr(map[])
  }

  /** An authenticated erppeek client, with the language set in its context. */
  datatype Client = Client(host: Value, port: int, db: Value, user: Value, password: Value, lang: string)

  /** The exceptions that can escape the core. */
  datatype Error =
    | MissingOdooHost            // RuntimeError: ODOO_HOST not defined
    | MissingHostLocation        // RuntimeError: no HOST in ODOO_HOST
    | KeyError(key: Value)       // a dictionary lookup on a missing key
    | AttributeError(attr: string)
    | InvalidSleep               // `sleep` of a negative length (ValueError, or IOError EINVAL on Python 2)

  /**
   * A Django model class, as the bridge sees it: its name, its `_odoo_model`
   * attribute (the empty string when the class has none) and the field names
   * its `_get_odoo_fields()` returns.
   */
  datatype Sender = Sender(className: string, odooModel: string, odooFields: seq<string>)

  /** A model class takes part in the bridge when its `_odoo_model` is truthy. */
  predicate Bridged(sender: Sender) {
    sender.odooModel != ""
  }

  /** A field descriptor as Odoo returns it: a dictionary of attributes. */
  type FieldDetails = map<string, Value>

  /** The Django field that the field translator produces: an opaque handle. */
  datatype LocalField = LocalField(handle: nat)

  /** One `contribute_to_class` call: `field` attached to `model` under `name`. */
  datatype Attachment = Attachment(model: Sender, name: Value, field: LocalField)

  /**
   * The process-wide state on `django.conf.settings`: the client
   * (`settings.odoo`), the registry (`settings.odoo_models`), the deferred
   * many-to-one and one-to-many queues, and the fields attached to model
   * classes so far, in the order they were attached.
   */
  datatype Tables = Tables(
    odoo: Option<Client>,
    odooModels: map<string, Sender>,
    deferredM2o: map<string, seq<FieldDetails>>,
    deferredO2m: map<string, seq<FieldDetails>>,
    attached: seq<Attachment>)
}
