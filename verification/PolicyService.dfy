// The Policy Service: the table of policies, the record of rollouts, and the events it announces.
// Requests are served one at a time, over one connection to the database. Nothing is ever rolled back there:
// what a failing request has executed stays open, is seen by later requests and kept by the next commit,
// and is gone if the service restarts before that.
module PolicyService {
  import opened Wrappers
  import opened Events

  datatype Policy = Policy(content: Content, description: string, version: nat, published: bool, deleted: bool)

  datatype Rollout = Rollout(policyId: string, version: nat, targetGroup: string, eventId: string)

  datatype Source = Source(policies: map<string, Policy>, rollouts: seq<Rollout>)

  // The fields of an edit that the caller sent.
  datatype Edit = Edit(name: Option<string>, description: Option<string>, targetGroup: Option<string>,
                       settings: Option<Json>)

  datatype Request =
    | CreatePolicy(id: string, content: Content, description: string)
    | UpdatePolicy(id: string, edit: Edit)
    | PublishPolicy(id: string, eventId: string)
    | DeletePolicy(id: string)

  datatype Error = NotFound | Failed

  // What the event bus makes of an announcement: it takes it, does not, or takes it but its reply is lost.
  datatype Bus = Taken | Refused | ReplyLost

  // What the database makes of a request's writes. They are committed; or the first statement raises and
  // nothing is written; or the second statement of a publication raises (other requests have only one, and
  // end as if the commit raised); or the commit raises, without effect or after it.
  datatype Db = Committed | NotWritten | HalfWritten | NotKept | Unconfirmed

  function Pick<T>(sent: Option<T>, current: T): T {
    if sent.Some? then sent.value else current
  }

  function Edited(p: Policy, e: Edit): Policy {
    p.(content := Content(Pick(e.name, p.content.name), Pick(e.targetGroup, p.content.targetGroup),
                          Pick(e.settings, p.content.settings)),
       description := Pick(e.description, p.description),
       version := p.version + 1)
  }

  predicate Live(src: Source, id: string) {
    id in src.policies && !src.policies[id].deleted
  }

  // Ids are freshly generated identifiers, and so never empty.
  predicate Fresh(src: Source, req: Request) {
    req.CreatePolicy? ==> req.id !in src.policies && req.id != ""
  }

  // What the rollout record names: the announced event, or "unpublished" when no reply came.
  function EventId(eventId: string, bus: Bus): string {
    if bus.Taken? then eventId else "unpublished"
  }

  predicate Accepted(src: Source, req: Request) {
    req.CreatePolicy? || Live(src, req.id)
  }

  // What is committed after a request, if it was `kept` before.
  function KeptAfter(src: Source, kept: Source, req: Request, bus: Bus, db: Db): Source {
    if Accepted(src, req) && (db.Committed? || db.Unconfirmed?) then After(src, req, bus, db) else kept
  }

  // The tables, as the connection sees them, after a request. The rollout is recorded by the second
  // statement of a publication.
  function After(src: Source, req: Request, bus: Bus, db: Db): Source {
    if db.NotWritten? || !Accepted(src, req) then src
    else match req
      case CreatePolicy(id, content, description) =>
        src.(policies := src.policies[id := Policy(content, description, 1, false, false)])
      case UpdatePolicy(id, edit) =>
        src.(policies := src.policies[id := Edited(src.policies[id], edit)])
      case PublishPolicy(id, eventId) =>
        var p := src.policies[id];
        Source(src.policies[id := p.(published := true)],
               if db.HalfWritten? then src.rollouts
               else src.rollouts + [Rollout(id, p.version, p.content.targetGroup, EventId(eventId, bus))])
      case DeletePolicy(id) =>
        src.(policies := src.policies[id := src.policies[id].(deleted := true)])
  }

  // The service's own database takes texts that the consumer's refuses.
  function Sendable(text: string): Field<string> {
    if Storable(text) then Given(text) else Unusable
  }

  function PolicyEvent(kind: Kind, id: string, p: Policy): Entry {
    Message(Event(kind, Given(Payload(Given(id), Sendable(p.content.name), Sendable(p.content.targetGroup),
                                      Given(p.version), Sendable(p.content.settings)))))
  }

  // The event a request gives rise to, if any.
  function Announcement(src: Source, req: Request): Option<Entry> {
    if req.CreatePolicy? || !Live(src, req.id) then None
    else match req
      case UpdatePolicy(id, edit) =>
        if src.policies[id].published
        then Some(PolicyEvent(PolicyUpdated, id, Edited(src.policies[id], edit))) else None
      case PublishPolicy(id, _) => Some(PolicyEvent(PolicyPublished, id, src.policies[id]))
      case DeletePolicy(id) =>
        if src.policies[id].published then Some(PolicyEvent(PolicyDeleted, id, src.policies[id])) else None
  }

  // What a request appends to the stream. A publication is announced before it is written; an edit or a
  // deletion is announced only after the database has confirmed it.
  function Sent(src: Source, req: Request, bus: Bus, db: Db): seq<Entry> {
    if Announcement(src, req).Some? && !bus.Refused? && (req.PublishPolicy? || db.Committed?)
    then [Announcement(src, req).value] else []
  }

  // The request took effect in the table but not on the stream.
  predicate Loses(src: Source, req: Request, bus: Bus, db: Db) {
    Announcement(src, req).Some? && Sent(src, req, bus, db) == [] && !db.NotWritten?
  }

  datatype Expected = Expected(content: Content, version: int)

  // What a device of the group is told to run.
  function ForGroup(src: Source, g: string): map<string, Expected> {
    map id | id in src.policies && !src.policies[id].deleted && src.policies[id].published
             && src.policies[id].content.targetGroup == g
      :: Expected(src.policies[id].content, src.policies[id].version)
  }

  class EventBus {
    var log: seq<Entry>

    constructor ()
      ensures log == []
    {
      log := [];
    }
  }

  class Service {
    const bus: EventBus
    var policies: map<string, Policy>
    var rollouts: seq<Rollout>
    var kept: Source

    ghost function View(): Source
      reads this
    {
      Source(policies, rollouts)
    }

    constructor (bus: EventBus)
      ensures View() == kept == Source(map[], []) && this.bus == bus
    {
      this.bus, policies, rollouts, kept := bus, map[], [], Source(map[], []);
    }

    // Ends a request's writes. Returns whether the service hears that they are committed.
    method Commit(db: Db) returns (ok: bool)
      modifies this`kept
      ensures ok <==> db.Committed?
      ensures kept == if db.Committed? || db.Unconfirmed? then View() else old(kept)
    {
      if db.Committed? || db.Unconfirmed? {
        kept := Source(policies, rollouts);
      }
      return db.Committed?;
    }

    // The service stops and starts again; what was left open is gone.
    method Restart()
      modifies this
      ensures View() == old(kept) && kept == old(kept)
    {
      policies, rollouts := kept.policies, kept.rollouts;
    }

    // Best effort: an unavailable bus is tolerated, and only the returned event id tells.
    method Announce(entry: Entry, eventId: string, outcome: Bus) returns (published: string)
      modifies bus
      ensures bus.log == old(bus.log) + (if outcome.Refused? then [] else [entry])
      ensures published == EventId(eventId, outcome)
    {
      if outcome.Refused? {
        return "unpublished";
      }
      bus.log := bus.log + [entry];
      return if outcome.Taken? then eventId else "unpublished";
    }

    method Create(id: string, content: Content, description: string, db: Db) returns (r: Result<Policy, Error>)
      requires Fresh(View(), CreatePolicy(id, content, description))
      modifies this
      ensures View() == After(old(View()), CreatePolicy(id, content, description), Taken, db)
      ensures kept == KeptAfter(old(View()), old(kept), CreatePolicy(id, content, description), Taken, db)
      ensures policies == if db.NotWritten? then old(policies)
                          else old(policies)[id := Policy(content, description, 1, false, false)]
      ensures rollouts == old(rollouts)
      ensures kept == if db.Committed? || db.Unconfirmed? then View() else old(kept)
      ensures if db.Committed? then id in policies && r == Ok(policies[id]) else r == Err(Failed)
    {
      if db.NotWritten? {
        return Err(Failed);
      }
      var p := Policy(content, description, 1, false, false);
      policies := policies[id := p];
      var ok := Commit(db);
      return if ok then Ok(p) else Err(Failed);
    }

    method Update(id: string, edit: Edit, outcome: Bus, db: Db) returns (r: Result<Policy, Error>)
      modifies this, bus
      ensures View() == After(old(View()), UpdatePolicy(id, edit), outcome, db)
      ensures kept == KeptAfter(old(View()), old(kept), UpdatePolicy(id, edit), outcome, db)
      ensures bus.log == old(bus.log) + Sent(old(View()), UpdatePolicy(id, edit), outcome, db)
      ensures rollouts == old(rollouts)
      ensures !old(Live(View(), id)) || db.NotWritten? ==>
                policies == old(policies) && kept == old(kept) && bus.log == old(bus.log)
      ensures old(Live(View(), id)) && !db.NotWritten? ==>
                var was, row := old(policies)[id], policies[id];
                && policies.Keys == old(policies).Keys
                && (forall other :: other in policies && other != id ==> policies[other] == old(policies)[other])
                && row.content.name == (if edit.name.Some? then edit.name.value else was.content.name)
                && row.description == (if edit.description.Some? then edit.description.value else was.description)
                && row.content.targetGroup ==
                     (if edit.targetGroup.Some? then edit.targetGroup.value else was.content.targetGroup)
                && row.content.settings == (if edit.settings.Some? then edit.settings.value else was.content.settings)
                && row.version == was.version + 1 && row.published == was.published && row.deleted == was.deleted
                && kept == (if db.Committed? || db.Unconfirmed? then View() else old(kept))
                && bus.log == old(bus.log) + (if was.published && db.Committed? && !outcome.Refused?
                                              then [PolicyEvent(PolicyUpdated, id, row)] else [])
      ensures if !old(Live(View(), id)) then r == Err(NotFound)
              else if db.Committed? then id in policies && r == Ok(policies[id])
              else r == Err(Failed)
    {
      if id !in policies || policies[id].deleted {
        return Err(NotFound);
      }
      var current := policies[id];
      var p := Merge(current, edit);
      if db.NotWritten? {
        return Err(Failed);
      }
      policies := policies[id := p];
      var ok := Commit(db);
      if !ok {
        return Err(Failed);
      }
      if current.published {
        var _ := Announce(PolicyEvent(PolicyUpdated, id, p), "", outcome);
      }
      return Ok(p);
    }

    // The row with the fields that the caller sent, and the next version.
    method Merge(current: Policy, edit: Edit) returns (p: Policy)
      ensures p == Edited(current, edit)
    {
      var name := if edit.name.Some? then edit.name.value else current.content.name;
      var description := if edit.description.Some? then edit.description.value else current.description;
      var targetGroup := if edit.targetGroup.Some? then edit.targetGroup.value else current.content.targetGroup;
      var settings := if edit.settings.Some? then edit.settings.value else current.content.settings;
      p := Policy(Content(name, targetGroup, settings), description, current.version + 1,
                  current.published, current.deleted);
    }

    method Publish(id: string, eventId: string, outcome: Bus, db: Db) returns (r: Result<Rollout, Error>)
      modifies this, bus
      ensures View() == After(old(View()), PublishPolicy(id, eventId), outcome, db)
      ensures kept == KeptAfter(old(View()), old(kept), PublishPolicy(id, eventId), outcome, db)
      ensures bus.log == old(bus.log) + Sent(old(View()), PublishPolicy(id, eventId), outcome, db)
      ensures !old(Live(View(), id)) ==>
                policies == old(policies) && rollouts == old(rollouts) && kept == old(kept) && bus.log == old(bus.log)
      ensures old(Live(View(), id)) ==>
                var was := old(policies)[id];
                && policies.Keys == old(policies).Keys
                && (forall other :: other in policies && other != id ==> policies[other] == old(policies)[other])
                && policies[id].content == was.content && policies[id].description == was.description
                && policies[id].version == was.version && policies[id].deleted == was.deleted
                && (policies[id].published <==> was.published || !db.NotWritten?)
                && rollouts == old(rollouts)
                     + (if db.NotWritten? || db.HalfWritten? then []
                        else [Rollout(id, was.version, was.content.targetGroup,
                                      if outcome.Taken? then eventId else "unpublished")])
                && kept == (if db.Committed? || db.Unconfirmed? then View() else old(kept))
                && bus.log == old(bus.log) + (if outcome.Refused? then [] else [PolicyEvent(PolicyPublished, id, was)])
      ensures r.Ok? ==>
                old(Live(View(), id)) &&
                var was := old(policies)[id];
                r.value == Rollout(id, was.version, was.content.targetGroup,
                                   if outcome.Taken? then eventId else "unpublished")
      ensures if !old(Live(View(), id)) then r == Err(NotFound)
              else if db.Committed? then r.Ok? && rollouts == old(rollouts) + [r.value]
              else r == Err(Failed)
    {
      if id !in policies || policies[id].deleted {
        return Err(NotFound);
      }
      var row := policies[id];
      var announced := Announce(PolicyEvent(PolicyPublished, id, row), eventId, outcome);
      if db.NotWritten? {
        return Err(Failed);
      }
      policies := policies[id := row.(published := true)];
      if db.HalfWritten? {
        return Err(Failed);
      }
      var rollout := Rollout(id, row.version, row.content.targetGroup, announced);
      rollouts := rollouts + [rollout];
      var ok := Commit(db);
      return if ok then Ok(rollout) else Err(Failed);
    }

    method Delete(id: string, outcome: Bus, db: Db) returns (r: Result<(), Error>)
      modifies this, bus
      ensures View() == After(old(View()), DeletePolicy(id), outcome, db)
      ensures kept == KeptAfter(old(View()), old(kept), DeletePolicy(id), outcome, db)
      ensures bus.log == old(bus.log) + Sent(old(View()), DeletePolicy(id), outcome, db)
      ensures rollouts == old(rollouts)
      ensures !old(Live(View(), id)) || db.NotWritten? ==>
                policies == old(policies) && kept == old(kept) && bus.log == old(bus.log)
      ensures old(Live(View(), id)) && !db.NotWritten? ==>
                var was := old(policies)[id];
                && policies == old(policies)[id := was.(deleted := true)]
                && kept == (if db.Committed? || db.Unconfirmed? then View() else old(kept))
                && bus.log == old(bus.log) + (if was.published && db.Committed? && !outcome.Refused?
                                              then [PolicyEvent(PolicyDeleted, id, was)] else [])
      ensures if !old(Live(View(), id)) then r == Err(NotFound)
              else r == if db.Committed? then Ok(()) else Err(Failed)
    {
      if id !in policies || policies[id].deleted {
        return Err(NotFound);
      }
      if db.NotWritten? {
        return Err(Failed);
      }
      var row := policies[id];
      policies := policies[id := row.(deleted := true)];
      var ok := Commit(db);
      if !ok {
        return Err(Failed);
      }
      if row.published {
        var _ := Announce(PolicyEvent(PolicyDeleted, id, row), "", outcome);
      }
      return Ok(());
    }
  }
}
