/**
  Editing a room and saving it (EditRoom.tsx): the room and its radiators are saved by several requests,
  any of which can fail, and what the device has stored is observed after each.
  */
module RoomSave {
  import opened Options

  type Id = nat
  type Key = nat

  datatype Details = Details(name: string, mqttName: string, kind: nat, output: string,
                             flowSensor: string, returnSensor: string)

  datatype Emitter = Emitter(key: Key, radiatorId: Option<Id>, details: Details)

  // -------------------------------------------------------------------------
  // The device
  // -------------------------------------------------------------------------

  // The radiators stored, and those the stored room refers to.
  datatype Device = Device(radiators: map<Id, Details>, room: seq<Id>)

  datatype Request =
    | PutRadiator(id: Id, details: Details)
    | PostRadiator(details: Details)
    | PutRoom(radiatorIds: seq<Id>)
    | DeleteRadiator(id: Id)

  datatype Reply = Accepted | Refused | Thrown

  // What becomes of a request. An accepted request was carried out; one that was refused, or whose
  // reply was lost, may have been carried out or not. `newId` is what the device calls a new radiator.
  datatype Fate = Fate(carriedOut: bool, reply: Reply, newId: Id)

  predicate CanApply(d: Device, q: Request, newId: Id) {
    match q
    case PutRadiator(id, _) => id in d.radiators
    case PostRadiator(_) => newId !in d.radiators
    case PutRoom(_) => true
    case DeleteRadiator(id) => id in d.radiators
  }

  function Apply(d: Device, q: Request, newId: Id): Device {
    match q
    case PutRadiator(id, details) => d.(radiators := d.radiators[id := details])
    case PostRadiator(details) => d.(radiators := d.radiators[newId := details])
    case PutRoom(radiatorIds) => d.(room := radiatorIds)
    case DeleteRadiator(id) => d.(radiators := d.radiators - {id})
  }

  function ReplyTo(d: Device, q: Request, f: Fate): Reply {
    if f.reply.Accepted? && !CanApply(d, q, f.newId) then Refused else f.reply
  }

  function After(d: Device, q: Request, f: Fate): Device {
    if CanApply(d, q, f.newId) && (f.carriedOut || f.reply.Accepted?) then Apply(d, q, f.newId) else d
  }

  // The requests sent so far and the device after each.
  datatype Log = Log(device: Device, requests: seq<Request>, states: seq<Device>)

  type Fates = nat -> Fate

  function Send(l: Log, q: Request, fates: Fates): Log {
    var d := After(l.device, q, fates(|l.requests|));
    Log(d, l.requests + [q], l.states + [d])
  }

  function ReplyOf(l: Log, q: Request, fates: Fates): Reply {
    ReplyTo(l.device, q, fates(|l.requests|))
  }

  // -------------------------------------------------------------------------
  // Saving
  // -------------------------------------------------------------------------

  datatype Saved = Saved(log: Log, radiatorIds: seq<Id>, ok: bool)

  function RequestFor(e: Emitter): Request {
    if e.radiatorId.Some? then PutRadiator(e.radiatorId.value, e.details) else PostRadiator(e.details)
  }

  function IdOf(l: Log, e: Emitter, fates: Fates): Id {
    if e.radiatorId.Some? then e.radiatorId.value else fates(|l.requests|).newId
  }

  function SaveEmitters(l: Log, emitters: seq<Emitter>, radiatorIds: seq<Id>, fates: Fates): Saved
    decreases |emitters|
  {
    if emitters == [] then Saved(l, radiatorIds, true)
    else
      var q := RequestFor(emitters[0]);
      if !ReplyOf(l, q, fates).Accepted? then Saved(Send(l, q, fates), radiatorIds, false)
      else SaveEmitters(Send(l, q, fates), emitters[1..], radiatorIds + [IdOf(l, emitters[0], fates)], fates)
  }

  function Missing(original: seq<Id>, radiatorIds: seq<Id>): seq<Id> {
    if original == [] then []
    else (if original[0] !in radiatorIds then [original[0]] else []) + Missing(original[1..], radiatorIds)
  }

  // A refused deletion is passed over; a lost reply ends the save.
  function DeleteAll(l: Log, ids: seq<Id>, fates: Fates): Saved
    decreases |ids|
  {
    if ids == [] then Saved(l, [], true)
    else
      var q := DeleteRadiator(ids[0]);
      if ReplyOf(l, q, fates).Thrown? then Saved(Send(l, q, fates), [], false)
      else DeleteAll(Send(l, q, fates), ids[1..], fates)
  }

  // `ok` when the save ends on the room's page.
  function Save(l: Log, emitters: seq<Emitter>, original: seq<Id>, fates: Fates): Saved {
    var s := SaveEmitters(l, emitters, [], fates);
    if !s.ok then s
    else
      var q := PutRoom(s.radiatorIds);
      if !ReplyOf(s.log, q, fates).Accepted? then Saved(Send(s.log, q, fates), s.radiatorIds, false)
      else
        var t := DeleteAll(Send(s.log, q, fates), Missing(original, s.radiatorIds), fates);
        t.(radiatorIds := s.radiatorIds)
  }

  // -------------------------------------------------------------------------
  // The form
  // -------------------------------------------------------------------------

  datatype Form = Form(emitters: seq<Emitter>, original: seq<Id>, nextKey: Key)

  // What a card can change: neither the key nor the radiator.
  datatype Changes = Changes(name: Option<string>, mqttName: Option<string>, kind: Option<nat>,
                             output: Option<string>, flowSensor: Option<string>, returnSensor: Option<string>)

  datatype Edit = Add | Update(key: Key, changes: Changes) | Remove(key: Key)

  function Or<T>(change: Option<T>, value: T): T {
    if change.Some? then change.value else value
  }

  function Changed(d: Details, c: Changes): Details {
    Details(Or(c.name, d.name), Or(c.mqttName, d.mqttName), Or(c.kind, d.kind), Or(c.output, d.output),
            Or(c.flowSensor, d.flowSensor), Or(c.returnSensor, d.returnSensor))
  }

  const NEW_DETAILS := Details("", "", 10, "", "", "")

  function Updated(emitters: seq<Emitter>, key: Key, changes: Changes): seq<Emitter> {
    seq(|emitters|, i requires 0 <= i < |emitters| =>
      if emitters[i].key == key then emitters[i].(details := Changed(emitters[i].details, changes))
      else emitters[i])
  }

  function Kept(emitters: seq<Emitter>, key: Key): seq<Emitter> {
    if emitters == [] then []
    else (if emitters[0].key != key then [emitters[0]] else []) + Kept(emitters[1..], key)
  }

  function Edited(f: Form, e: Edit): Form {
    match e
    case Add => f.(emitters := f.emitters + [Emitter(f.nextKey, None, NEW_DETAILS)], nextKey := f.nextKey + 1)
    case Update(key, changes) => f.(emitters := Updated(f.emitters, key, changes))
    case Remove(key) => f.(emitters := Kept(f.emitters, key))
  }

  // The radiators of the room that can be fetched, in order.
  function Load(ids: seq<Id>, fetched: Id -> Option<Details>): Form {
    if ids == [] then Form([], [], 1)
    else
      var f, id := Load(ids[..|ids| - 1], fetched), ids[|ids| - 1];
      match fetched(id)
      case None => f
      case Some(details) =>
        Form(f.emitters + [Emitter(f.nextKey, Some(id), details)], f.original + [id], f.nextKey + 1)
  }

  // -------------------------------------------------------------------------
  // A sitting: edits and attempts to save
  // -------------------------------------------------------------------------

  datatype Act = Change(edit: Edit) | Submit

  datatype Sitting = Sitting(form: Form, log: Log, left: bool)

  function Do(s: Sitting, a: Act, fates: Fates): Sitting {
    if s.left then s
    else
      match a
      case Change(edit) => s.(form := Edited(s.form, edit))
      case Submit =>
        var r := Save(s.log, s.form.emitters, s.form.original, fates);
        s.(log := r.log, left := r.ok)
  }

  function Sit(f: Form, d: Device, acts: seq<Act>, fates: Fates): Sitting {
    if acts == [] then Sitting(f, Log(d, [], []), false)
    else Do(Sit(f, d, acts[..|acts| - 1], fates), acts[|acts| - 1], fates)
  }

  // -------------------------------------------------------------------------
  // What the device has stored
  // -------------------------------------------------------------------------

  // Every radiator that the stored room refers to exists.
  predicate Intact(d: Device) {
    forall id :: id in d.room ==> id in d.radiators
  }

  // Nothing that the log's device had at first is gone but what was asked to be deleted.
  predicate Keeps(l: Log, first: Device, d: Device) {
    forall id :: id in first.radiators && DeleteRadiator(id) !in l.requests ==> id in d.radiators
  }

  ghost predicate Sound(l: Log, first: Device) {
    && Intact(l.device) && Keeps(l, first, l.device)
    && (forall d :: d in l.states ==> Intact(d) && Keeps(l, first, d))
  }

  lemma SendSound(l: Log, q: Request, fates: Fates, first: Device)
    requires Sound(l, first)
    requires q.PutRoom? ==> forall id :: id in q.radiatorIds ==> id in l.device.radiators
    requires q.DeleteRadiator? ==> q.id !in l.device.room
    ensures Sound(Send(l, q, fates), first)
    ensures !q.PutRoom? ==> Send(l, q, fates).device.room == l.device.room
  {
    var m := Send(l, q, fates);
    assert forall r :: r in l.requests ==> r in m.requests;
    assert q in m.requests;
    assert Intact(m.device) && Keeps(m, first, m.device);
  }

  // While radiators are saved none goes away, so those already saved are there to be referred to.
  lemma {:induction false} SaveEmittersSound(l: Log, emitters: seq<Emitter>, ids: seq<Id>, fates: Fates, first: Device)
    requires Sound(l, first)
    requires forall id :: id in ids ==> id in l.device.radiators
    ensures var s := SaveEmitters(l, emitters, ids, fates);
            && Sound(s.log, first)
            && (forall id :: id in s.radiatorIds ==> id in s.log.device.radiators)
    decreases |emitters|
  {
    if emitters != [] {
      var q := RequestFor(emitters[0]);
      SendSound(l, q, fates, first);
      if ReplyOf(l, q, fates).Accepted? {
        SaveEmittersSound(Send(l, q, fates), emitters[1..], ids + [IdOf(l, emitters[0], fates)], fates, first);
      }
    }
  }

  lemma {:induction false} MissingIds(original: seq<Id>, radiatorIds: seq<Id>)
    ensures forall id :: id in Missing(original, radiatorIds) <==> id in original && id !in radiatorIds
  {
    if original != [] {
      MissingIds(original[1..], radiatorIds);
    }
  }

  lemma {:induction false} DeleteAllSound(l: Log, ids: seq<Id>, fates: Fates, first: Device)
    requires Sound(l, first)
    requires forall id :: id in ids ==> id !in l.device.room
    ensures Sound(DeleteAll(l, ids, fates).log, first)
    decreases |ids|
  {
    if ids != [] {
      var q := DeleteRadiator(ids[0]);
      SendSound(l, q, fates, first);
      if !ReplyOf(l, q, fates).Thrown? {
        DeleteAllSound(Send(l, q, fates), ids[1..], fates, first);
      }
    }
  }

  lemma SaveSound(l: Log, emitters: seq<Emitter>, original: seq<Id>, fates: Fates, first: Device)
    requires Sound(l, first)
    ensures Sound(Save(l, emitters, original, fates).log, first)
  {
    var s := SaveEmitters(l, emitters, [], fates);
    SaveEmittersSound(l, emitters, [], fates, first);
    if s.ok {
      var q := PutRoom(s.radiatorIds);
      SendSound(s.log, q, fates, first);
      if ReplyOf(s.log, q, fates).Accepted? {
        MissingIds(original, s.radiatorIds);
        DeleteAllSound(Send(s.log, q, fates), Missing(original, s.radiatorIds), fates, first);
      }
    }
  }

  // -------------------------------------------------------------------------
  // What is deleted
  // -------------------------------------------------------------------------

  ghost predicate DeletesOnly(l: Log, ids: set<Id>) {
    forall q :: q in l.requests && q.DeleteRadiator? ==> q.id in ids
  }

  function Refers(emitters: seq<Emitter>): set<Id> {
    set e | e in emitters && e.radiatorId.Some? :: e.radiatorId.value
  }

  lemma {:induction false} SaveEmittersIds(l: Log, emitters: seq<Emitter>, ids: seq<Id>, fates: Fates, only: set<Id>)
    requires DeletesOnly(l, only)
    ensures var s := SaveEmitters(l, emitters, ids, fates);
            && DeletesOnly(s.log, only) && ids <= s.radiatorIds
            && (s.ok ==> forall id :: id in Refers(emitters) ==> id in s.radiatorIds)
    decreases |emitters|
  {
    if emitters != [] {
      var q := RequestFor(emitters[0]);
      var l1 := Send(l, q, fates);
      assert DeletesOnly(l1, only);
      if ReplyOf(l, q, fates).Accepted? {
        var more := ids + [IdOf(l, emitters[0], fates)];
        SaveEmittersIds(l1, emitters[1..], more, fates, only);
        assert more[|ids|] in more;
        assert forall e :: e in emitters ==> e == emitters[0] || e in emitters[1..];
      }
    }
  }

  lemma {:induction false} DeleteAllOnly(l: Log, ids: seq<Id>, fates: Fates, only: set<Id>)
    requires DeletesOnly(l, only) && forall id :: id in ids ==> id in only
    ensures DeletesOnly(DeleteAll(l, ids, fates).log, only)
    decreases |ids|
  {
    if ids != [] {
      var q := DeleteRadiator(ids[0]);
      assert DeletesOnly(Send(l, q, fates), only);
      DeleteAllOnly(Send(l, q, fates), ids[1..], fates, only);
    }
  }

  lemma SaveDeletes(l: Log, emitters: seq<Emitter>, original: seq<Id>, fates: Fates, only: set<Id>)
    requires DeletesOnly(l, only)
    requires forall id :: id in original && id !in Refers(emitters) ==> id in only
    ensures DeletesOnly(Save(l, emitters, original, fates).log, only)
  {
    var s := SaveEmitters(l, emitters, [], fates);
    SaveEmittersIds(l, emitters, [], fates, only);
    if s.ok {
      var q := PutRoom(s.radiatorIds);
      assert DeletesOnly(Send(s.log, q, fates), only);
      MissingIds(original, s.radiatorIds);
      DeleteAllOnly(Send(s.log, q, fates), Missing(original, s.radiatorIds), fates, only);
    }
  }

  // -------------------------------------------------------------------------
  // What the form refers to
  // -------------------------------------------------------------------------

  predicate HoldsRadiator(emitters: seq<Emitter>, key: Key, id: Id) {
    exists e :: e in emitters && e.key == key && e.radiatorId == Some(id)
  }

  predicate Numbered(f: Form) {
    forall e :: e in f.emitters ==> e.key < f.nextKey
  }

  lemma {:induction false} KeptAre(emitters: seq<Emitter>, key: Key)
    ensures forall e :: e in Kept(emitters, key) <==> e in emitters && e.key != key
  {
    if emitters != [] {
      KeptAre(emitters[1..], key);
    }
  }

  // An edit takes a radiator off the form only by removing its emitter, and never puts one on.
  lemma EditedHolds(f: Form, e: Edit, key: Key, id: Id)
    requires Numbered(f)
    ensures Numbered(Edited(f, e)) && Edited(f, e).original == f.original
    ensures HoldsRadiator(Edited(f, e).emitters, key, id) <==>
            HoldsRadiator(f.emitters, key, id) && e != Remove(key)
  {
    var g := Edited(f, e);
    if e.Add? {
      assert forall x :: x in f.emitters ==> x in g.emitters;
    } else if e.Update? {
      assert forall i :: 0 <= i < |f.emitters| ==>
          g.emitters[i].key == f.emitters[i].key && g.emitters[i].radiatorId == f.emitters[i].radiatorId;
      assert forall i :: 0 <= i < |f.emitters| ==> g.emitters[i] in g.emitters;
    } else {
      KeptAre(f.emitters, e.key);
    }
  }

  lemma {:induction false} LoadHolds(ids: seq<Id>, fetched: Id -> Option<Details>)
    ensures var f := Load(ids, fetched);
            && Numbered(f)
            && (forall id :: id in f.original <==> id in ids && fetched(id).Some?)
            && (forall id :: id in f.original ==> id in Refers(f.emitters))
  {
    if ids != [] {
      var rest, id := ids[..|ids| - 1], ids[|ids| - 1];
      LoadHolds(rest, fetched);
      var f, g := Load(ids, fetched), Load(rest, fetched);
      assert forall e :: e in g.emitters ==> e in f.emitters;
      if fetched(id).Some? {
        assert f.emitters[|g.emitters|] in f.emitters;
      }
    }
  }

  // -------------------------------------------------------------------------
  // Every sitting
  // -------------------------------------------------------------------------

  lemma {:induction false} SitHolds(f: Form, d: Device, acts: seq<Act>, fates: Fates, key: Key, id: Id)
    requires Numbered(f)
    ensures var s := Sit(f, d, acts, fates);
            && Numbered(s.form) && s.form.original == f.original
            && (HoldsRadiator(s.form.emitters, key, id) ==> HoldsRadiator(f.emitters, key, id))
            && (HoldsRadiator(f.emitters, key, id) && !HoldsRadiator(s.form.emitters, key, id) ==>
                  Change(Remove(key)) in acts)
  {
    if acts != [] {
      var rest, last := acts[..|acts| - 1], acts[|acts| - 1];
      SitHolds(f, d, rest, fates, key, id);
      if last.Change? {
        EditedHolds(Sit(f, d, rest, fates).form, last.edit, key, id);
      }
    }
  }

  // The radiators of which every emitter on the loaded form was removed by the user.
  ghost predicate AllRemoved(f: Form, id: Id, acts: seq<Act>) {
    forall e :: e in f.emitters && e.radiatorId == Some(id) ==> Change(Remove(e.key)) in acts
  }

  lemma OffTheForm(f: Form, d: Device, acts: seq<Act>, fates: Fates, id: Id)
    requires Numbered(f) && id !in Refers(Sit(f, d, acts, fates).form.emitters)
    ensures AllRemoved(f, id, acts)
  {
    forall e | e in f.emitters && e.radiatorId == Some(id) ensures Change(Remove(e.key)) in acts {
      SitHolds(f, d, acts, fates, e.key, id);
      assert HoldsRadiator(f.emitters, e.key, id);
    }
  }

  // Over every sitting, whichever requests fail or are lost: after each request the radiators that the
  // stored room refers to exist, and none is gone that was not asked to be deleted.
  lemma {:induction false} SittingIsSound(f: Form, d: Device, acts: seq<Act>, fates: Fates)
    requires Intact(d)
    ensures Sound(Sit(f, d, acts, fates).log, d)
  {
    if acts != [] {
      var rest := acts[..|acts| - 1];
      SittingIsSound(f, d, rest, fates);
      var s := Sit(f, d, rest, fates);
      SaveSound(s.log, s.form.emitters, s.form.original, fates, d);
    }
  }

  // A radiator that is asked to be deleted was loaded on the form, and every emitter that stood for it
  // was removed by the user. One that could not be fetched is never deleted.
  lemma {:induction false} DeletedWereRemoved(ids: seq<Id>, fetched: Id -> Option<Details>, d: Device,
                                              acts: seq<Act>, fates: Fates, id: Id)
    requires DeleteRadiator(id) in Sit(Load(ids, fetched), d, acts, fates).log.requests
    ensures id in ids && fetched(id).Some? && AllRemoved(Load(ids, fetched), id, acts)
    decreases |acts|
  {
    var f := Load(ids, fetched);
    LoadHolds(ids, fetched);
    var rest, last := acts[..|acts| - 1], acts[|acts| - 1];
    var s := Sit(f, d, rest, fates);
    if DeleteRadiator(id) in s.log.requests {
      DeletedWereRemoved(ids, fetched, d, rest, fates, id);
    } else {
      SitHolds(f, d, rest, fates, 0, id);
      var only := (set q | q in s.log.requests && q.DeleteRadiator? :: q.id)
                  + (set x | x in s.form.original && x !in Refers(s.form.emitters));
      SaveDeletes(s.log, s.form.emitters, s.form.original, fates, only);
      OffTheForm(f, d, rest, fates, id);
    }
  }

  // -------------------------------------------------------------------------
  // A save that succeeds
  // -------------------------------------------------------------------------

  // No later emitter stands for the same radiator.
  predicate LastFor(ids: seq<Id>, i: nat)
    requires i < |ids|
  {
    forall j :: i < j < |ids| ==> ids[j] != ids[i]
  }

  // The ids stand for the emitters in order, and each radiator is stored as the last emitter for it is on
  // the form.
  ghost predicate Stands(d: Device, emitters: seq<Emitter>, ids: seq<Id>) {
    && |ids| == |emitters|
    && (forall i :: 0 <= i < |ids| ==> ids[i] in d.radiators)
    && (forall i :: 0 <= i < |ids| && LastFor(ids, i) ==> d.radiators[ids[i]] == emitters[i].details)
    && (forall i :: 0 <= i < |ids| && emitters[i].radiatorId.Some? ==> ids[i] == emitters[i].radiatorId.value)
  }

  // Apart from the radiators of `ids`, the device has stored what it had.
  ghost predicate SameBut(d: Device, m: Device, ids: seq<Id>) {
    forall id :: id !in ids ==>
      if id in d.radiators then id in m.radiators && m.radiators[id] == d.radiators[id] else id !in m.radiators
  }

  lemma StandsOneMore(d: Device, emitters: seq<Emitter>, ids: seq<Id>, e: Emitter, id: Id)
    requires Stands(d, emitters, ids) && (e.radiatorId.Some? ==> id == e.radiatorId.value)
    ensures Stands(d.(radiators := d.radiators[id := e.details]), emitters + [e], ids + [id])
  {
    var more := ids + [id];
    forall i | 0 <= i < |ids| && LastFor(more, i) ensures LastFor(ids, i) && ids[i] != id {
      assert more[|ids|] != more[i];
      assert forall j :: i < j < |ids| ==> more[j] == ids[j];
    }
  }

  lemma SameButOneMore(first: Device, d: Device, ids: seq<Id>, id: Id, details: Details)
    requires SameBut(first, d, ids)
    ensures SameBut(first, d.(radiators := d.radiators[id := details]), ids + [id])
  {
    assert id in ids + [id] && forall x :: x in ids ==> x in ids + [id];
  }

  lemma {:induction false} SaveEmittersStores(l: Log, emitters: seq<Emitter>, k: nat, ids: seq<Id>, fates: Fates,
                                              first: Device)
    requires k <= |emitters|
    requires Stands(l.device, emitters[..k], ids) && SameBut(first, l.device, ids)
    ensures var s := SaveEmitters(l, emitters[k..], ids, fates);
            s.ok ==> && Stands(s.log.device, emitters, s.radiatorIds) && SameBut(first, s.log.device, s.radiatorIds)
    decreases |emitters| - k
  {
    if k == |emitters| {
      assert emitters[..k] == emitters;
    } else {
      var e, id := emitters[k], IdOf(l, emitters[k], fates);
      assert emitters[k..][1..] == emitters[k + 1..];
      assert emitters[..k + 1] == emitters[..k] + [e];
      if ReplyOf(l, RequestFor(e), fates).Accepted? {
        StandsOneMore(l.device, emitters[..k], ids, e, id);
        SameButOneMore(first, l.device, ids, id, e.details);
        SaveEmittersStores(Send(l, RequestFor(e), fates), emitters, k + 1, ids + [id], fates, first);
      }
    }
  }

  lemma {:induction false} DeleteAllKeeps(l: Log, ids: seq<Id>, fates: Fates)
    ensures var m := DeleteAll(l, ids, fates).log.device;
            && m.room == l.device.room && SameBut(l.device, m, ids)
            && (forall id :: id in m.radiators ==>
                  id in l.device.radiators && m.radiators[id] == l.device.radiators[id])
            && ((forall n :: fates(n).reply.Accepted?) ==> forall id :: id in ids ==> id !in m.radiators)
    decreases |ids|
  {
    if ids != [] {
      DeleteAllKeeps(Send(l, DeleteRadiator(ids[0]), fates), ids[1..], fates);
    }
  }

  // A save that ends on the room's page has stored every emitter as it is on the form and made the room
  // refer to exactly those, in order; of the other radiators only the removed ones can be gone, and are if
  // no request failed, and none has changed.
  lemma SaveStores(l: Log, emitters: seq<Emitter>, original: seq<Id>, fates: Fates)
    ensures var s := Save(l, emitters, original, fates);
            var m := s.log.device;
            s.ok ==>
              && m.room == s.radiatorIds && Stands(m, emitters, s.radiatorIds)
              && SameBut(l.device, m, s.radiatorIds + Missing(original, s.radiatorIds))
              && (forall id :: id in m.radiators && id !in s.radiatorIds ==>
                    id in l.device.radiators && m.radiators[id] == l.device.radiators[id])
              && ((forall n :: fates(n).reply.Accepted?) ==>
                    forall id :: id in Missing(original, s.radiatorIds) ==> id !in m.radiators)
  {
    var s := SaveEmitters(l, emitters, [], fates);
    assert emitters[0..] == emitters && emitters[..0] == [];
    SaveEmittersStores(l, emitters, 0, [], fates, l.device);
    var q := PutRoom(s.radiatorIds);
    if s.ok && ReplyOf(s.log, q, fates).Accepted? {
      var l1, gone := Send(s.log, q, fates), Missing(original, s.radiatorIds);
      MissingIds(original, s.radiatorIds);
      DeleteAllKeeps(l1, gone, fates);
      assert forall id :: id !in s.radiatorIds + gone ==> id !in s.radiatorIds && id !in gone;
      assert forall i :: 0 <= i < |s.radiatorIds| ==> s.radiatorIds[i] in s.radiatorIds;
    }
  }
}
