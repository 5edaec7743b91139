/**
 * The schema bridge `add_extra_model_fields` and its helper `add_field`
 * (djangodoo/__init__.py:105-141), as pure functions of the process-wide
 * tables and of the model class being prepared.
 *
 * The field translator (`convert_field` followed by `to_django`) and the
 * remote `fields(...)` call are inputs: total functions the bridge applies.
 * The dictionary the remote call returns is given as the sequence of its
 * items, in iteration order.
 */
module SchemaBridge {
  import opened Wrappers
  import opened Types

  /**
   * `convert_field(details)` then `.to_django()`, given the registry as it
   * stands (a relational field can only be built once its target is
   * registered); `None` when the translator declines the field.
   */
  type Translator = (map<string, Sender>, FieldDetails) -> Option<LocalField>

  /** `odoo.model(id).fields(names).items()`. */
  type Fetcher = (Client, string, seq<string>) -> seq<(string, FieldDetails)>

  /** The attachments a step makes, and the exception that stops it (if any). */
  datatype Step = Step(added: seq<Attachment>, raised: Option<Error>)

  /** The outcome of handling one `class_prepared` signal. */
  datatype BridgeResult = BridgeResult(tables: Tables, raised: Option<Error>)

  /** `add_field(model, details)`: translate, and attach under `details['name']` unless declined. */
  function AddField(model: Sender, details: FieldDetails, registry: map<string, Sender>, translate: Translator): Step {
    if translate(registry, details).None? then Step([], None)
    else if "name" in details then Step([Attachment(model, details["name"], translate(registry, details).value)], None)
    else Step([], Some(KeyError(Text("name"))))
  }

  /** A fetched descriptor with its field name and its model's identifier written into it. */
  function Annotated(sender: Sender, item: (string, FieldDetails)): FieldDetails {
    item.1["name" := Text(item.0)]["model" := Text(sender.odooModel)]
  }

  /** The attachments made for the sender's own fetched fields, in fetch order. */
  function OwnFields(sender: Sender, registry: map<string, Sender>, fetched: seq<(string, FieldDetails)>, translate: Translator): seq<Attachment> {
    if fetched == [] then []
    else AddField(sender, Annotated(sender, fetched[0]), registry, translate).added + OwnFields(sender, registry, fetched[1..], translate)
  }

  /** Where a deferred entry must be attached: `odoo_models[entry['model']]`. */
  datatype Origin = Found(model: Sender) | NotFound(error: Error)

  function OriginOf(registry: map<string, Sender>, entry: FieldDetails): Origin {
    if "model" !in entry then NotFound(KeyError(Text("model")))
    else
      var key := entry["model"];
      if key.Text? && key.s in registry then Found(registry[key.s]) else NotFound(KeyError(key))
  }

  /** Replaying `entry` raises this, or nothing. */
  function EntryError(registry: map<string, Sender>, entry: FieldDetails, translate: Translator): Option<Error> {
    match OriginOf(registry, entry)
    case NotFound(e) => Some(e)
    case Found(m) => AddField(m, entry, registry, translate).raised
  }

  /** The replay of a deferred queue, in queue order, stopping at the first exception. */
  function Replay(registry: map<string, Sender>, queue: seq<FieldDetails>, translate: Translator): Step {
    if queue == [] then Step([], None)
    else
      match OriginOf(registry, queue[0])
      case NotFound(e) => Step([], Some(e))
      case Found(m) =>
        var first := AddField(m, queue[0], registry, translate);
        if first.raised.Some? then first
        else
          var rest := Replay(registry, queue[1..], translate);
          Step(first.added + rest.added, rest.raised)
  }

  /**
   * `add_extra_model_fields(sender)`: ignore a class without `_odoo_model`;
   * without a client, log and return (the lookup of HOST on an absent
   * ODOO_HOST raises); otherwise register the sender, attach its own
   * fields, replay the queue deferred under its identifier onto the origin
   * models, and empty that queue.
   */
  function Bridge(s: Tables, conf: Conf, sender: Sender, fetch: Fetcher, translate: Translator): BridgeResult {
    if !Bridged(sender) then BridgeResult(s, None)
    else if s.odoo.None? then
      BridgeResult(s, if conf.odooHost.None? then Some(AttributeError("get")) else None)
    else
      var id := sender.odooModel;
      var registry := s.odooModels[id := sender];
      var own := OwnFields(sender, registry, fetch(s.odoo.value, id, sender.odooFields), translate);
      var registered := s.(odooModels := registry, attached := s.attached + own);
      if id !in s.deferredM2o then BridgeResult(registered, None)
      else
        var replay := Replay(registry, s.deferredM2o[id], translate);
        var replayed := registered.(attached := registered.attached + replay.added);
        if replay.raised.Some? then BridgeResult(replayed, replay.raised)
        else BridgeResult(replayed.(deferredM2o := s.deferredM2o[id := []]), None)
  }

  // ---------------------------------------------------------------------
  // The sender's own fields

  /** An own field is always attached under the name it was fetched under; it never raises. */
  lemma AddOwnField(sender: Sender, registry: map<string, Sender>, item: (string, FieldDetails), translate: Translator)
    ensures var st := AddField(sender, Annotated(sender, item), registry, translate);
      && st.raised == None
      && st.added == (if translate(registry, Annotated(sender, item)).Some?
                      then [Attachment(sender, Text(item.0), translate(registry, Annotated(sender, item)).value)]
                      else [])
  {
    assert Annotated(sender, item)["name"] == Text(item.0);
  }

  /**
   * Every own attachment goes to the sender, under the name of a fetched
   * field whose annotated descriptor the translator accepted; every such
   * field is attached; a declined field attaches nothing.
   */
  lemma {:induction false} OwnFieldsAttachEach(sender: Sender, registry: map<string, Sender>, fetched: seq<(string, FieldDetails)>, translate: Translator)
    ensures forall a :: a in OwnFields(sender, registry, fetched, translate) ==>
      && a.model == sender
      && exists i :: 0 <= i < |fetched| && a.name == Text(fetched[i].0)
                     && translate(registry, Annotated(sender, fetched[i])) == Some(a.field)
    ensures forall i :: 0 <= i < |fetched| && translate(registry, Annotated(sender, fetched[i])).Some? ==>
      Attachment(sender, Text(fetched[i].0), translate(registry, Annotated(sender, fetched[i])).value)
        in OwnFields(sender, registry, fetched, translate)
    ensures |OwnFields(sender, registry, fetched, translate)| <= |fetched|
  {
    if fetched != [] {
      var tail := fetched[1..];
      OwnFieldsAttachEach(sender, registry, tail, translate);
      AddOwnField(sender, registry, fetched[0], translate);
      var head := AddField(sender, Annotated(sender, fetched[0]), registry, translate).added;
      var own := OwnFields(sender, registry, fetched, translate);
      assert own == head + OwnFields(sender, registry, tail, translate);
      forall a | a in own
        ensures exists i :: 0 <= i < |fetched| && a.name == Text(fetched[i].0)
                            && translate(registry, Annotated(sender, fetched[i])) == Some(a.field)
      {
        if a in head {
          assert a.name == Text(fetched[0].0) && translate(registry, Annotated(sender, fetched[0])) == Some(a.field);
        } else {
          var j :| 0 <= j < |tail| && a.name == Text(tail[j].0) && translate(registry, Annotated(sender, tail[j])) == Some(a.field);
          assert tail[j] == fetched[j + 1];
        }
      }
      forall i | 0 <= i < |fetched| && translate(registry, Annotated(sender, fetched[i])).Some?
        ensures Attachment(sender, Text(fetched[i].0), translate(registry, Annotated(sender, fetched[i])).value) in own
      {
        if i > 0 {
          assert fetched[i] == tail[i - 1];
        }
      }
    }
  }

  /** Own fields are attached in fetch order: the attachments of a split fetch are the concatenation. */
  lemma {:induction false} OwnFieldsAppend(sender: Sender, registry: map<string, Sender>, f1: seq<(string, FieldDetails)>, f2: seq<(string, FieldDetails)>, translate: Translator)
    ensures OwnFields(sender, registry, f1 + f2, translate) == OwnFields(sender, registry, f1, translate) + OwnFields(sender, registry, f2, translate)
  {
    if f1 == [] {
      assert f1 + f2 == f2;
    } else {
      assert (f1 + f2)[1..] == f1[1..] + f2;
      OwnFieldsAppend(sender, registry, f1[1..], f2, translate);
    }
  }

  // ---------------------------------------------------------------------
  // Replaying a deferred queue

  /**
   * The replay raises exactly when some entry cannot be replayed, and then
   * raises that entry's exception for the first such entry.
   */
  lemma {:induction false} ReplayRaises(registry: map<string, Sender>, queue: seq<FieldDetails>, translate: Translator)
    ensures Replay(registry, queue, translate).raised.None?
        <==> forall i :: 0 <= i < |queue| ==> EntryError(registry, queue[i], translate).None?
    ensures Replay(registry, queue, translate).raised.Some? ==>
      exists j :: 0 <= j < |queue|
        && (forall i :: 0 <= i < j ==> EntryError(registry, queue[i], translate).None?)
        && Replay(registry, queue, translate).raised == EntryError(registry, queue[j], translate)
  {
    if queue != [] {
      var tail := queue[1..];
      ReplayRaises(registry, tail, translate);
      if EntryError(registry, queue[0], translate).None? {
        assert Replay(registry, queue, translate).raised == Replay(registry, tail, translate).raised;
        if Replay(registry, tail, translate).raised.None? {
          forall i | 0 <= i < |queue| ensures EntryError(registry, queue[i], translate).None? {
            if i > 0 { assert queue[i] == tail[i - 1]; }
          }
        } else {
          var j :| 0 <= j < |tail|
            && (forall i :: 0 <= i < j ==> EntryError(registry, tail[i], translate).None?)
            && Replay(registry, tail, translate).raised == EntryError(registry, tail[j], translate);
          assert queue[j + 1] == tail[j];
          forall i | 0 <= i < j + 1 ensures EntryError(registry, queue[i], translate).None? {
            if i > 0 { assert queue[i] == tail[i - 1]; }
          }
          assert !EntryError(registry, queue[j + 1], translate).None?;
        }
      } else {
        assert Replay(registry, queue, translate).raised == EntryError(registry, queue[0], translate);
      }
    }
  }

  /**
   * Every replayed attachment goes to the origin model its entry names,
   * under the entry's name, with the translator's field; when the replay
   * raises nothing, every entry the translator accepts is attached.
   */
  lemma {:induction false} ReplayAttachEach(registry: map<string, Sender>, queue: seq<FieldDetails>, translate: Translator)
    ensures forall a :: a in Replay(registry, queue, translate).added ==>
      exists i :: 0 <= i < |queue| && OriginOf(registry, queue[i]) == Found(a.model)
                  && translate(registry, queue[i]) == Some(a.field) && "name" in queue[i] && a.name == queue[i]["name"]
    ensures Replay(registry, queue, translate).raised.None? ==>
      forall i :: 0 <= i < |queue| && translate(registry, queue[i]).Some? ==>
        && OriginOf(registry, queue[i]).Found? && "name" in queue[i]
        && Attachment(OriginOf(registry, queue[i]).model, queue[i]["name"], translate(registry, queue[i]).value)
             in Replay(registry, queue, translate).added
    ensures |Replay(registry, queue, translate).added| <= |queue|
  {
    if queue != [] {
      var tail := queue[1..];
      ReplayAttachEach(registry, tail, translate);
      var r := Replay(registry, queue, translate);
      match OriginOf(registry, queue[0])
      case NotFound(e) =>
      case Found(m) =>
        var first := AddField(m, queue[0], registry, translate);
        if first.raised.None? {
          var rest := Replay(registry, tail, translate);
          assert r.added == first.added + rest.added;
          forall a | a in r.added
            ensures exists i :: 0 <= i < |queue| && OriginOf(registry, queue[i]) == Found(a.model)
                                && translate(registry, queue[i]) == Some(a.field) && "name" in queue[i] && a.name == queue[i]["name"]
          {
            if a in first.added {
              assert OriginOf(registry, queue[0]) == Found(a.model);
            } else {
              var j :| 0 <= j < |tail| && OriginOf(registry, tail[j]) == Found(a.model)
                       && translate(registry, tail[j]) == Some(a.field) && "name" in tail[j] && a.name == tail[j]["name"];
              assert queue[j + 1] == tail[j];
            }
          }
          if r.raised.None? {
            forall i | 0 <= i < |queue| && translate(registry, queue[i]).Some?
              ensures && OriginOf(registry, queue[i]).Found? && "name" in queue[i]
                      && Attachment(OriginOf(registry, queue[i]).model, queue[i]["name"], translate(registry, queue[i]).value) in r.added
            {
              if i > 0 { assert queue[i] == tail[i - 1]; }
            }
          }
        }
    }
  }

  /** The replay of the queue from position `j` on, unfolded once. */
  lemma ReplayFrom(registry: map<string, Sender>, queue: seq<FieldDetails>, j: nat, translate: Translator)
    requires j < |queue|
    ensures var rest := Replay(registry, queue[j + 1..], translate);
      Replay(registry, queue[j..], translate) ==
        if OriginOf(registry, queue[j]).NotFound? then Step([], Some(OriginOf(registry, queue[j]).error))
        else
          var first := AddField(OriginOf(registry, queue[j]).model, queue[j], registry, translate);
          if first.raised.Some? then first else Step(first.added + rest.added, rest.raised)
  {
    assert queue[j..][0] == queue[j] && queue[j..][1..] == queue[j + 1..];
  }

  /** Deferred entries are replayed in queue order: a split queue replays as its two halves in turn. */
  lemma {:induction false} ReplayAppend(registry: map<string, Sender>, q1: seq<FieldDetails>, q2: seq<FieldDetails>, translate: Translator)
    ensures var r1 := Replay(registry, q1, translate);
      var r2 := Replay(registry, q2, translate);
      Replay(registry, q1 + q2, translate) == if r1.raised.Some? then r1 else Step(r1.added + r2.added, r2.raised)
  {
    if q1 == [] {
      assert q1 + q2 == q2;
    } else {
      assert (q1 + q2)[0] == q1[0];
      assert (q1 + q2)[1..] == q1[1..] + q2;
      ReplayAppend(registry, q1[1..], q2, translate);
      var r1 := Replay(registry, q1, translate);
      var t1 := Replay(registry, q1[1..], translate);
      var r2 := Replay(registry, q2, translate);
      if OriginOf(registry, q1[0]).Found? {
        var first := AddField(OriginOf(registry, q1[0]).model, q1[0], registry, translate);
        if first.raised.None? && t1.raised.None? {
          assert first.added + (t1.added + r2.added) == (first.added + t1.added) + r2.added;
        }
      }
    }
  }

  // ---------------------------------------------------------------------
  // One signal

  /**
   * A class without `_odoo_model` changes nothing; a bridged class seen
   * while there is no client changes nothing either, and raises only when
   * ODOO_HOST itself is absent.
   */
  lemma BridgeSkips(s: Tables, conf: Conf, sender: Sender, fetch: Fetcher, translate: Translator)
    requires !Bridged(sender) || s.odoo.None?
    ensures var r := Bridge(s, conf, sender, fetch, translate);
      && r.tables == s
      && (r.raised.Some? <==> Bridged(sender) && conf.odooHost.None?)
  {
  }

  /**
   * With a client, the sender is registered under its identifier whatever
   * else happens; no other registry entry, no deferred queue under another
   * identifier, the client and the one-to-many queues change; the queue under
   * the sender's identifier is kept as a key and emptied exactly when the
   * replay raised nothing; and the attached fields grow by the sender's own
   * fields followed by the replayed ones.
   */
  lemma BridgeConnected(s: Tables, conf: Conf, sender: Sender, fetch: Fetcher, translate: Translator)
    requires Bridged(sender) && s.odoo.Some?
    ensures var r := Bridge(s, conf, sender, fetch, translate);
      var id := sender.odooModel;
      var registry := s.odooModels[id := sender];
      var own := OwnFields(sender, registry, fetch(s.odoo.value, id, sender.odooFields), translate);
      var replay := if id in s.deferredM2o then Replay(registry, s.deferredM2o[id], translate) else Step([], None);
      && id in r.tables.odooModels && r.tables.odooModels[id] == sender
      && (forall k :: k != id ==> (k in r.tables.odooModels <==> k in s.odooModels))
      && (forall k :: k != id && k in s.odooModels ==> r.tables.odooModels[k] == s.odooModels[k])
      && r.tables.deferredM2o.Keys == s.deferredM2o.Keys
      && (forall k :: k != id && k in s.deferredM2o ==> r.tables.deferredM2o[k] == s.deferredM2o[k])
      && (id in s.deferredM2o ==> r.tables.deferredM2o[id] == (if r.raised.None? then [] else s.deferredM2o[id]))
      && r.tables.odoo == s.odoo && r.tables.deferredO2m == s.deferredO2m
      && r.tables.attached == s.attached + own + replay.added
      && r.raised == replay.raised
  {
  }

  /**
   * A model B that declared a field whose target A was not yet registered:
   * once A is prepared, the translator sees A registered, the field lands on
   * B (the entry's origin) after A's own fields, the queue under A is left
   * empty and every other queue is kept.
   */
  lemma DeferredLinkLandsOnOrigin(s: Tables, conf: Conf, a: Sender, b: Sender, entry: FieldDetails,
                                  fetch: Fetcher, translate: Translator)
    requires Bridged(a) && s.odoo.Some? && b.odooModel != a.odooModel
    requires b.odooModel in s.odooModels && s.odooModels[b.odooModel] == b
    requires a.odooModel in s.deferredM2o && s.deferredM2o[a.odooModel] == [entry]
    requires "model" in entry && entry["model"] == Text(b.odooModel) && "name" in entry
    requires translate(s.odooModels[a.odooModel := a], entry).Some?
    ensures var r := Bridge(s, conf, a, fetch, translate);
      && r.raised == None
      && r.tables.deferredM2o == s.deferredM2o[a.odooModel := []]
      && r.tables.attached[|r.tables.attached| - 1]
         == Attachment(b, entry["name"], translate(s.odooModels[a.odooModel := a], entry).value)
  {
    var registry := s.odooModels[a.odooModel := a];
    assert OriginOf(registry, entry) == Found(b);
    assert [entry][1..] == [];
    assert Replay(registry, [entry], translate) == Step([Attachment(b, entry["name"], translate(registry, entry).value)], None);
  }
}
