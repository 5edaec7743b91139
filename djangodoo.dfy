/**
 * The process-wide settings object of djangodoo/__init__.py and the two
 * operations that update it in place: `set_odoo_client` (with its retrying
 * `_connect`, written as a bounded loop that keeps the recursion's counting)
 * and `add_extra_model_fields` (with `add_field`). Each method is proved
 * against the pure definition in `Connection` or `SchemaBridge`.
 */
module Djangodoo {
  import opened Wrappers
  import opened Types
  import Connection
  import SchemaBridge

  class Settings {
    /** The configuration entries the core reads. */
    const conf: Conf
    /** `settings.odoo`: the erppeek client, absent until a connect succeeds. */
    var odoo: Option<Client>
    /** `settings.odoo_models`: remote model identifier to model class. */
    var odooModels: map<string, Sender>
    /** `settings.deferred_m2o`: target model identifier to the descriptors waiting for it. */
    var deferredM2o: map<string, seq<FieldDetails>>
    /** `settings.deferred_o2m`: reset on connect, otherwise unused here. */
    var deferredO2m: map<string, seq<FieldDetails>>
    /** The `contribute_to_class` calls made on model classes so far, in order. */
    var attached: seq<Attachment>

    /** The tables as one value. */
    function State(): Tables
      reads this
    {
      Tables(odoo, odooModels, deferredM2o, deferredO2m, attached)
    }

    constructor (conf: Conf)
      ensures this.conf == conf
      ensures State() == Tables(None, map[], map[], map[], [])
    {
      this.conf := conf;
      odoo := None;
      odooModels := map[];
      deferredM2o := map[];
      deferredO2m := map[];
      attached := [];
    }

    /**
     * `set_odoo_client()`. `ok[i]` is the server's answer to the attempt
     * with retry counter `i`. The trace returned lists the attempts,
     * warnings, pauses, the final error and the e-mail, in order; `raised`
     * is the exception that escapes (with a negative delay, the first failed
     * attempt's `sleep` raises and ends the loop). On success the client is set and the
     * registry and both deferred tables are emptied; otherwise no table
     * changes.
     */
    method SetOdooClient(ok: seq<bool>) returns (raised: Option<Error>, trace: seq<Connection.Event>)
      modifies this
      ensures var r := Connection.Bootstrap(conf, ok);
        && trace == r.trace && raised == r.raised
        && State() == (if r.client.Some? then Tables(r.client, map[], map[], map[], old(attached)) else old(State()))
    {
      trace := [];
      raised := Connection.Validate(conf);
      if raised.Some? {
        return;
      }
      ghost var whole := Connection.ConnectFrom(conf, ok, 0);
      var cnt: nat := 0;
      var stop := false;
      while !stop
        invariant !stop ==> whole == Connection.Then(trace, Connection.ConnectFrom(conf, ok, cnt))
        invariant !stop ==> State() == old(State()) && raised == None
        invariant stop ==> whole.trace == trace && whole.raised == raised
        invariant stop ==> State() == (if whole.client.Some? then Tables(whole.client, map[], map[], map[], old(attached)) else old(State()))
        decreases !stop, Types.MaxRetryAttempts(conf) - cnt
      {
        if Connection.Succeeds(conf, ok, cnt) {
          trace := trace + [Connection.Attempted(cnt)];
          odoo := Some(Connection.NewClient(conf));
          odooModels := map[];
          deferredM2o := map[];
          deferredO2m := map[];
          stop := true;
        } else if Types.RetryDelay(conf) < 0.0 {
          var failure := Connection.SleepFailure(conf, cnt);
          trace := trace + failure.trace;
          raised := failure.raised;
          stop := true;
        } else {
          var failed := Connection.FailedAttempt(conf, cnt);
          if cnt < Types.MaxRetryAttempts(conf) {
            Connection.ThenThen(trace, failed, Connection.ConnectFrom(conf, ok, cnt + 1));
            trace := trace + failed;
            cnt := cnt + 1;
          } else {
            var report := Connection.FailureReport(conf);
            Connection.ThenThen(trace, failed, report);
            trace := trace + failed + report.trace;
            raised := report.raised;
            stop := true;
          }
        }
      }
    }

    /** `add_field(model, details)`: attach the translated field under `details['name']`. */
    method AddField(model: Sender, details: FieldDetails, translate: SchemaBridge.Translator) returns (raised: Option<Error>)
      modifies this`attached
      ensures var st := SchemaBridge.AddField(model, details, odooModels, translate);
        attached == old(attached) + st.added && raised == st.raised
    {
      raised := None;
      var odooField := translate(odooModels, details);
      if odooField.Some? {
        if "name" !in details {
          raised := Some(KeyError(Text("name")));
          return;
        }
        attached := attached + [Attachment(model, details["name"], odooField.value)];
      }
    }

    /** The loop over the fetched fields (lines 132-135): annotate each and attach it to the sender. */
    method AttachOwnFields(sender: Sender, allFields: seq<(string, FieldDetails)>, translate: SchemaBridge.Translator)
      modifies this`attached
      ensures attached == old(attached) + SchemaBridge.OwnFields(sender, odooModels, allFields, translate)
    {
      var i := 0;
      while i < |allFields|
        invariant 0 <= i <= |allFields|
        invariant attached + SchemaBridge.OwnFields(sender, odooModels, allFields[i..], translate)
               == old(attached) + SchemaBridge.OwnFields(sender, odooModels, allFields, translate)
      {
        var (fname, fdetails) := allFields[i];
        var details := fdetails["name" := Text(fname)]["model" := Text(sender.odooModel)];
        assert details == SchemaBridge.Annotated(sender, allFields[i]);
        assert allFields[i..][1..] == allFields[i + 1..];
        ghost var head := SchemaBridge.AddField(sender, details, odooModels, translate).added;
        assert SchemaBridge.OwnFields(sender, odooModels, allFields[i..], translate)
            == head + SchemaBridge.OwnFields(sender, odooModels, allFields[i + 1..], translate);
        var r := AddField(sender, details, translate);
        i := i + 1;
      }
      assert allFields[|allFields|..] == [];
    }

    /**
     * The loop over a deferred queue (lines 138-140): attach each entry to
     * the model registered under its 'model', in queue order; a missing key
     * stops the loop with a KeyError.
     */
    method ReplayDeferred(queue: seq<FieldDetails>, translate: SchemaBridge.Translator) returns (raised: Option<Error>)
      modifies this`attached
      ensures var r := SchemaBridge.Replay(odooModels, queue, translate);
        attached == old(attached) + r.added && raised == r.raised
    {
      ghost var done: seq<Attachment> := [];
      var j := 0;
      while j < |queue|
        invariant 0 <= j <= |queue|
        invariant attached == old(attached) + done
        invariant var rest := SchemaBridge.Replay(odooModels, queue[j..], translate);
          SchemaBridge.Replay(odooModels, queue, translate) == SchemaBridge.Step(done + rest.added, rest.raised)
      {
        var entry := queue[j];
        SchemaBridge.ReplayFrom(odooModels, queue, j, translate);
        ghost var rest := SchemaBridge.Replay(odooModels, queue[j + 1..], translate);
        if "model" !in entry {
          assert SchemaBridge.Replay(odooModels, queue[j..], translate) == SchemaBridge.Step([], Some(KeyError(Text("model"))));
          return Some(KeyError(Text("model")));
        }
        var key := entry["model"];
        if !key.Text? || key.s !in odooModels {
          assert SchemaBridge.Replay(odooModels, queue[j..], translate) == SchemaBridge.Step([], Some(KeyError(key)));
          return Some(KeyError(key));
        }
        var origin := odooModels[key.s];
        assert SchemaBridge.OriginOf(odooModels, entry) == SchemaBridge.Found(origin);
        ghost var step := SchemaBridge.AddField(origin, entry, odooModels, translate);
        raised := AddField(origin, entry, translate);
        if raised.Some? {
          assert SchemaBridge.Replay(odooModels, queue[j..], translate) == step;
          return;
        }
        assert SchemaBridge.Replay(odooModels, queue[j..], translate) == SchemaBridge.Step(step.added + rest.added, rest.raised);
        assert (done + step.added) + rest.added == done + (step.added + rest.added);
        done := done + step.added;
        j := j + 1;
      }
      assert queue[|queue|..] == [];
      return None;
    }

    /**
     * `add_extra_model_fields(sender)`, the `class_prepared` handler.
     * `fetch` answers the remote `fields(...)` call and `translate` is the
     * field translator.
     */
    method AddExtraModelFields(sender: Sender, fetch: SchemaBridge.Fetcher, translate: SchemaBridge.Translator)
      returns (raised: Option<Error>)
      modifies this
      ensures SchemaBridge.Bridge(old(State()), conf, sender, fetch, translate) == SchemaBridge.BridgeResult(State(), raised)
    {
      var client := odoo;
      if !Bridged(sender) {
        return None;
      }
      if client.None? {
        // The error is only logged; reading HOST fails when ODOO_HOST is absent.
        if conf.odooHost.None? {
          return Some(AttributeError("get"));
        }
        return None;
      }
      var id := sender.odooModel;
      odooModels := odooModels[id := sender];
      var allFields := fetch(client.value, id, sender.odooFields);
      AttachOwnFields(sender, allFields, translate);
      if id in deferredM2o {
        raised := ReplayDeferred(deferredM2o[id], translate);
        if raised.Some? {
          return;
        }
        deferredM2o := deferredM2o[id := []];
      }
      return None;
    }
  }
}
