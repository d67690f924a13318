/** The Edit Room form (EditRoom.tsx), whose fields are set by the load, the edits and the save. */
module RoomForm {
  import opened Options
  import opened RoomSave

  // The device at the other end of the connection: `log` is what it has stored and been asked so far, and
  // `fates` what becomes of each request.
  class Connection {
    var log: Log
    const fates: Fates

    constructor (device: Device, fates: Fates)
      ensures log == Log(device, [], []) && this.fates == fates
    {
      log, this.fates := Log(device, [], []), fates;
    }

    // The reply, and the id of a radiator that was added.
    method Fetch(q: Request) returns (reply: Reply, newId: Id)
      modifies this
      ensures log == Send(old(log), q, fates) && reply == ReplyOf(old(log), q, fates)
      ensures newId == fates(|old(log).requests|).newId
    {
      var f := fates(|log.requests|);
      reply, newId := ReplyTo(log.device, q, f), f.newId;
      log := Send(log, q, fates);
    }
  }

  class EditRoom {
    var emitters: seq<Emitter>
    var originalRadiatorIds: seq<Id>
    var nextEmitterKey: Key
    var saving: bool

    function View(): Form
      reads this
    {
      Form(emitters, originalRadiatorIds, nextEmitterKey)
    }

    constructor ()
      ensures View() == Form([], [], 1) && !saving
    {
      emitters, originalRadiatorIds, nextEmitterKey, saving := [], [], 1, false;
    }

    // The room's radiators as fetched one by one; those that cannot be are left off the form.
    method FetchRoom(radiatorIds: seq<Id>, fetched: Id -> Option<Details>)
      requires nextEmitterKey == 1
      modifies this
      ensures View() == Load(radiatorIds, fetched) && saving == old(saving)
    {
      var loaded: seq<Emitter> := [];
      ghost var ids: seq<Id> := [];
      assert radiatorIds[..0] == [];
      for i := 0 to |radiatorIds|
        invariant Form(loaded, ids, nextEmitterKey) == Load(radiatorIds[..i], fetched)
        invariant |ids| == |loaded| && saving == old(saving)
        invariant forall j :: 0 <= j < |loaded| ==> loaded[j].radiatorId == Some(ids[j])
      {
        assert radiatorIds[..i + 1][..i] == radiatorIds[..i];
        var radiator := fetched(radiatorIds[i]);
        if radiator.None? {
          continue;
        }
        loaded := loaded + [Emitter(nextEmitterKey, Some(radiatorIds[i]), radiator.value)];
        nextEmitterKey := nextEmitterKey + 1;
        ids := ids + [radiatorIds[i]];
      }
      assert radiatorIds[..|radiatorIds|] == radiatorIds;
      originalRadiatorIds := seq(|loaded|, i requires 0 <= i < |loaded| && loaded[i].radiatorId.Some? =>
        loaded[i].radiatorId.value);
      emitters := loaded;
    }

    method AddEmitter()
      modifies this
      ensures View() == Edited(old(View()), Add) && saving == old(saving)
    {
      emitters := emitters + [Emitter(nextEmitterKey, None, NEW_DETAILS)];
      nextEmitterKey := nextEmitterKey + 1;
    }

    method UpdateEmitter(key: Key, changes: Changes)
      modifies this`emitters
      ensures View() == Edited(old(View()), Update(key, changes))
    {
      emitters := Updated(emitters, key, changes);
    }

    method RemoveEmitter(key: Key)
      modifies this`emitters
      ensures View() == Edited(old(View()), Remove(key))
    {
      emitters := Kept(emitters, key);
    }

    // Saves the radiators on the form; stops at the first that fails.
    method SaveEmitterList(c: Connection) returns (radiatorIds: seq<Id>, ok: bool)
      modifies c
      ensures Saved(c.log, radiatorIds, ok) == SaveEmitters(old(c.log), emitters, [], c.fates)
    {
      radiatorIds := [];
      var i := 0;
      assert emitters[0..] == emitters;
      while i < |emitters|
        invariant i <= |emitters|
        invariant SaveEmitters(old(c.log), emitters, [], c.fates)
               == SaveEmitters(c.log, emitters[i..], radiatorIds, c.fates)
      {
        var emitter := emitters[i];
        assert emitters[i..][1..] == emitters[i + 1..];
        var reply, newId := c.Fetch(RequestFor(emitter));
        if !reply.Accepted? {
          return radiatorIds, false;
        }
        if emitter.radiatorId.Some? {
          radiatorIds := radiatorIds + [emitter.radiatorId.value];
        } else {
          radiatorIds := radiatorIds + [newId];
        }
        i := i + 1;
      }
      return radiatorIds, true;
    }

    method DeleteRemoved(c: Connection, radiatorIds: seq<Id>) returns (ok: bool)
      modifies c
      ensures Saved(c.log, [], ok) == DeleteAll(old(c.log), Missing(originalRadiatorIds, radiatorIds), c.fates)
    {
      var removed := Missing(originalRadiatorIds, radiatorIds);
      var i := 0;
      assert removed[0..] == removed;
      while i < |removed|
        invariant i <= |removed|
        invariant DeleteAll(old(c.log), removed, c.fates) == DeleteAll(c.log, removed[i..], c.fates)
      {
        assert removed[i..][1..] == removed[i + 1..];
        var reply, _ := c.Fetch(DeleteRadiator(removed[i]));
        if reply.Thrown? {
          return false;
        }
        i := i + 1;
      }
      return true;
    }

    // `ok` when the form goes on to the room's page.
    method SaveRoom(c: Connection) returns (ok: bool)
      modifies this`saving, c
      ensures !saving && View() == old(View())
      ensures var s := Save(old(c.log), emitters, originalRadiatorIds, c.fates); c.log == s.log && ok == s.ok
    {
      saving := true;
      var radiatorIds;
      radiatorIds, ok := SaveEmitterList(c);
      if ok {
        var reply, _ := c.Fetch(PutRoom(radiatorIds));
        if reply.Accepted? {
          ok := DeleteRemoved(c, radiatorIds);
        } else {
          ok := false;
        }
      }
      saving := false;
    }
  }
}
