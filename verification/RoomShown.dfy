/** What the form shows of a room, what each edit changes of it, and a save with nothing edited. */
module RoomShown {
  import opened Options
  import opened RoomSave

  // -------------------------------------------------------------------------
  // Loading
  // -------------------------------------------------------------------------

  // The radiators of the room that can be fetched, in order.
  function Fetchable(ids: seq<Id>, fetched: Id -> Option<Details>): seq<Id> {
    if ids == [] then []
    else
      Fetchable(ids[..|ids| - 1], fetched) + (if fetched(ids[|ids| - 1]).Some? then [ids[|ids| - 1]] else [])
  }

  predicate UniqueKeys(emitters: seq<Emitter>) {
    forall i, j :: 0 <= i < j < |emitters| ==> emitters[i].key != emitters[j].key
  }

  predicate DistinctKeys(f: Form) {
    UniqueKeys(f.emitters) && Numbered(f)
  }

  // The form shows each radiator that can be fetched, in order, with every field as it was fetched, and
  // remembers exactly those; each emitter has a key of its own.
  lemma {:induction false} LoadShows(ids: seq<Id>, fetched: Id -> Option<Details>)
    ensures var f, shown := Load(ids, fetched), Fetchable(ids, fetched);
            && f.original == shown && |f.emitters| == |shown| && f.nextKey == |shown| + 1
            && (forall i :: 0 <= i < |shown| ==>
                  && f.emitters[i].radiatorId == Some(shown[i])
                  && fetched(shown[i]) == Some(f.emitters[i].details)
                  && f.emitters[i].key == i + 1)
            && DistinctKeys(f)
  {
    if ids != [] {
      LoadShows(ids[..|ids| - 1], fetched);
    }
  }

  // -------------------------------------------------------------------------
  // Editing
  // -------------------------------------------------------------------------

  // An update changes the fields it names, of the emitter it names, and nothing else.
  lemma UpdateMeans(f: Form, key: Key, c: Changes, i: nat)
    requires i < |f.emitters|
    ensures var g := Edited(f, Update(key, c));
            && |g.emitters| == |f.emitters| && g.original == f.original && g.nextKey == f.nextKey
            && var was, now := f.emitters[i], g.emitters[i];
            && now.key == was.key && now.radiatorId == was.radiatorId
            && (was.key != key ==> now.details == was.details)
            && (was.key == key ==>
                  && (now.details.name == if c.name.Some? then c.name.value else was.details.name)
                  && (now.details.mqttName == if c.mqttName.Some? then c.mqttName.value else was.details.mqttName)
                  && (now.details.kind == if c.kind.Some? then c.kind.value else was.details.kind)
                  && (now.details.output == if c.output.Some? then c.output.value else was.details.output)
                  && (now.details.flowSensor ==
                        if c.flowSensor.Some? then c.flowSensor.value else was.details.flowSensor)
                  && (now.details.returnSensor ==
                        if c.returnSensor.Some? then c.returnSensor.value else was.details.returnSensor))
  {
  }

  lemma {:induction false} KeptAll(emitters: seq<Emitter>, key: Key)
    requires forall e :: e in emitters ==> e.key != key
    ensures Kept(emitters, key) == emitters
  {
    if emitters != [] {
      KeptAll(emitters[1..], key);
    }
  }

  lemma {:induction false} KeptButOne(emitters: seq<Emitter>, k: nat)
    requires k < |emitters|
    requires forall i :: 0 <= i < |emitters| && i != k ==> emitters[i].key != emitters[k].key
    ensures Kept(emitters, emitters[k].key) == emitters[..k] + emitters[k + 1..]
  {
    if k == 0 {
      KeptAll(emitters[1..], emitters[0].key);
    } else {
      assert emitters[1..][..k - 1] == emitters[1..k] && emitters[1..][k..] == emitters[k + 1..];
      KeptButOne(emitters[1..], k - 1);
    }
  }

  // A removal takes out the one emitter it names and leaves the others in order.
  lemma RemoveMeans(f: Form, k: nat)
    requires DistinctKeys(f) && k < |f.emitters|
    ensures Edited(f, Remove(f.emitters[k].key)) == f.(emitters := f.emitters[..k] + f.emitters[k + 1..])
  {
    KeptButOne(f.emitters, k);
  }

  // An addition puts a blank emitter, of type 10 and for no radiator yet, at the end.
  lemma AddMeans(f: Form)
    ensures var g := Edited(f, Add);
            && |g.emitters| == |f.emitters| + 1 && g.emitters[..|f.emitters|] == f.emitters
            && g.original == f.original && g.nextKey == f.nextKey + 1
            && var e := g.emitters[|f.emitters|];
               e.key == f.nextKey && e.radiatorId == None && e.details == Details("", "", 10, "", "", "")
  {
  }

  lemma {:induction false} KeptUnique(emitters: seq<Emitter>, key: Key)
    requires UniqueKeys(emitters)
    ensures UniqueKeys(Kept(emitters, key))
  {
    if emitters != [] {
      var rest := Kept(emitters[1..], key);
      assert forall i :: 0 <= i < |emitters| - 1 ==> emitters[1..][i] == emitters[i + 1];
      KeptUnique(emitters[1..], key);
      KeptAre(emitters[1..], key);
      forall j | 0 <= j < |rest| ensures rest[j].key != emitters[0].key {
        assert rest[j] in emitters[1..];
      }
    }
  }

  // So every edit concerns one emitter at most.
  lemma EditKeepsKeys(f: Form, e: Edit)
    requires DistinctKeys(f)
    ensures DistinctKeys(Edited(f, e))
  {
    EditedHolds(f, e, 0, 0);
    if e.Remove? {
      KeptUnique(f.emitters, e.key);
    } else if e.Add? {
      assert forall i :: 0 <= i < |f.emitters| ==> f.emitters[i] in f.emitters;
    }
  }

  // -------------------------------------------------------------------------
  // Loading and saving
  // -------------------------------------------------------------------------

  function FetchedFrom(d: Device): Id -> Option<Details> {
    (id: Id) => if id in d.radiators then Some(d.radiators[id]) else None
  }

  // Saving emitters that are as the device has them changes nothing on it.
  lemma {:induction false} SaveUntouched(l: Log, emitters: seq<Emitter>, shown: seq<Id>, ids: seq<Id>, fates: Fates)
    requires forall n :: fates(n).reply.Accepted?
    requires |emitters| == |shown|
    requires forall i :: 0 <= i < |shown| ==>
               emitters[i].radiatorId == Some(shown[i]) && shown[i] in l.device.radiators
               && l.device.radiators[shown[i]] == emitters[i].details
    ensures var s := SaveEmitters(l, emitters, ids, fates);
            s.ok && s.radiatorIds == ids + shown && s.log.device == l.device
    decreases |emitters|
  {
    if emitters == [] {
      assert ids + shown == ids;
    } else {
      var q := RequestFor(emitters[0]);
      assert After(l.device, q, fates(|l.requests|)).radiators == l.device.radiators;
      SaveUntouched(Send(l, q, fates), emitters[1..], shown[1..], ids + [shown[0]], fates);
      assert ids + [shown[0]] + shown[1..] == ids + shown;
    }
  }

  lemma {:induction false} AllFetched(ids: seq<Id>, d: Device)
    ensures forall id :: id in Fetchable(ids, FetchedFrom(d)) ==> id in d.radiators
    ensures (forall id :: id in ids ==> id in d.radiators) ==> Fetchable(ids, FetchedFrom(d)) == ids
  {
    if ids != [] {
      var init := ids[..|ids| - 1];
      assert ids == init + [ids[|ids| - 1]];
      AllFetched(init, d);
    }
  }

  lemma SaveAsLoaded(l: Log, f: Form, shown: seq<Id>, fates: Fates)
    requires forall n :: fates(n).reply.Accepted?
    requires f.original == shown && |f.emitters| == |shown|
    requires forall i :: 0 <= i < |shown| ==>
               f.emitters[i].radiatorId == Some(shown[i]) && shown[i] in l.device.radiators
               && l.device.radiators[shown[i]] == f.emitters[i].details
    ensures var s := Save(l, f.emitters, f.original, fates); s.ok && s.log.device == l.device.(room := shown)
  {
    SaveUntouched(l, f.emitters, shown, [], fates);
    assert [] + shown == shown;
    NothingMissing(shown);
    RoomIsPut(l, f.emitters, f.original, fates);
  }

  // A room that is loaded and saved untouched, with every request accepted, leaves every radiator as it was
  // and the room referring to those that could be fetched: nothing at all changes if all could.
  lemma UntouchedSaveChangesNothing(d: Device, requests: seq<Request>, states: seq<Device>, fates: Fates)
    requires forall n :: fates(n).reply.Accepted?
    ensures var f := Load(d.room, FetchedFrom(d));
            var s := Save(Log(d, requests, states), f.emitters, f.original, fates);
            && s.ok && s.log.device == d.(room := Fetchable(d.room, FetchedFrom(d)))
            && (Intact(d) ==> s.log.device == d)
  {
    var f, shown := Load(d.room, FetchedFrom(d)), Fetchable(d.room, FetchedFrom(d));
    LoadShows(d.room, FetchedFrom(d));
    AllFetched(d.room, d);
    SaveAsLoaded(Log(d, requests, states), f, shown, fates);
  }

  // With nothing missing, what is left of the save is the room itself.
  lemma RoomIsPut(l: Log, emitters: seq<Emitter>, original: seq<Id>, fates: Fates)
    requires forall n :: fates(n).reply.Accepted?
    requires var s := SaveEmitters(l, emitters, [], fates); s.ok && Missing(original, s.radiatorIds) == []
    ensures var s, t := SaveEmitters(l, emitters, [], fates), Save(l, emitters, original, fates);
            t.ok && t.log.device == s.log.device.(room := s.radiatorIds)
  {
  }

  lemma NothingMissing(ids: seq<Id>)
    ensures Missing(ids, ids) == []
  {
    MissingIds(ids, ids);
    assert Missing(ids, ids) != [] ==> Missing(ids, ids)[0] in Missing(ids, ids);
  }
}
