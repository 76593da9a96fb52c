// What the policies are, said of the requests alone: every field is what was last said about it, the version
// is the number of writes, and a policy is published or deleted if it was ever told to be.
module PolicyHistory {
  import opened Wrappers
  import opened Events
  import opened Expectations
  import opened Redelivery
  import opened ConsumerGroup
  import opened GroupSafety
  import opened PS = PolicyService
  import opened RolloutPipeline

  datatype Column = Name | Description | TargetGroup | Settings

  function Cell(p: Policy, c: Column): string {
    match c
    case Name => p.content.name
    case Description => p.description
    case TargetGroup => p.content.targetGroup
    case Settings => p.content.settings
  }

  // The request executes its first statement on an existing policy that is not deleted.
  predicate Affects(s: System, a: Action, id: string) {
    && a.Serve? && !a.req.CreatePolicy? && a.req.id == id && !a.db.NotWritten?
    && id in s.source.policies && !s.source.policies[id].deleted
  }

  predicate Creates(a: Action, id: string) {
    a.Serve? && a.req.CreatePolicy? && a.req.id == id && !a.db.NotWritten?
  }

  // What an action says about a column of the policy, if anything.
  function Said(s: System, a: Action, id: string, c: Column): Option<string> {
    if Creates(a, id) then
      Some(match c
           case Name => a.req.content.name
           case Description => a.req.description
           case TargetGroup => a.req.content.targetGroup
           case Settings => a.req.content.settings)
    else if Affects(s, a, id) && a.req.UpdatePolicy? then
      match c
      case Name => a.req.edit.name
      case Description => a.req.edit.description
      case TargetGroup => a.req.edit.targetGroup
      case Settings => a.req.edit.settings
    else None
  }

  // What was said last.
  ghost function LastSaid(s: System, actions: seq<Action>, t: System, id: string, c: Column): Option<string>
    requires History(s, actions, t)
    decreases |actions|
  {
    if actions == [] then None
    else
      var later := LastSaid(Act(s, actions[0]), actions[1..], t, id, c);
      if later.Some? then later else Said(s, actions[0], id, c)
  }

  // How often the policy was written: created or edited.
  ghost function Writes(s: System, actions: seq<Action>, t: System, id: string): nat
    requires History(s, actions, t)
    decreases |actions|
  {
    if actions == [] then 0
    else
      var a := actions[0];
      (if Creates(a, id) || (Affects(s, a, id) && a.req.UpdatePolicy?) then 1 else 0)
      + Writes(Act(s, a), actions[1..], t, id)
  }

  // A publication, or a deletion, of the policy was written.
  ghost predicate EverPublished(s: System, actions: seq<Action>, t: System, id: string)
    requires History(s, actions, t)
    decreases |actions|
  {
    actions != [] &&
    ((Affects(s, actions[0], id) && actions[0].req.PublishPolicy?)
     || EverPublished(Act(s, actions[0]), actions[1..], t, id))
  }

  ghost predicate EverDeleted(s: System, actions: seq<Action>, t: System, id: string)
    requires History(s, actions, t)
    decreases |actions|
  {
    actions != [] &&
    ((Affects(s, actions[0], id) && actions[0].req.DeletePolicy?)
     || EverDeleted(Act(s, actions[0]), actions[1..], t, id))
  }

  predicate NoRestarts(actions: seq<Action>) {
    forall i :: 0 <= i < |actions| ==> !actions[i].Restart?
  }

  // ----- One action -----

  lemma ActionWrites(s: System, a: Action, id: string)
    requires Possible(s, a) && !a.Restart?
    ensures var ps, qs := s.source.policies, Act(s, a).source.policies;
      && (id in qs <==> id in ps || Creates(a, id))
      && (id in ps ==> !Creates(a, id))
      && (id in qs ==>
            && (qs[id].published <==>
                  (id in ps && ps[id].published) || (Affects(s, a, id) && a.req.PublishPolicy?))
            && (qs[id].deleted <==> (id in ps && ps[id].deleted) || (Affects(s, a, id) && a.req.DeletePolicy?))
            && qs[id].version == (if id in ps then ps[id].version else 0)
                 + (if Creates(a, id) || (Affects(s, a, id) && a.req.UpdatePolicy?) then 1 else 0))
  {
  }

  lemma ActionSays(s: System, a: Action, id: string, c: Column)
    requires Possible(s, a) && !a.Restart? && id in Act(s, a).source.policies
    ensures id in s.source.policies || Said(s, a, id, c).Some?
    ensures Cell(Act(s, a).source.policies[id], c) ==
      if Said(s, a, id, c).Some? then Said(s, a, id, c).value else Cell(s.source.policies[id], c)
  {
  }

  lemma ActionKeeps(s: System, a: Action, id: string)
    requires Possible(s, a) && !a.Restart? && id in s.source.policies
    ensures id in Act(s, a).source.policies
  {
  }

  // ----- Whole histories -----

  // Between restarts, each column is what was last said about it, and otherwise what it was at first.
  lemma {:induction false} ColumnsAreLastSaid(s: System, actions: seq<Action>, t: System, id: string, c: Column)
    requires History(s, actions, t) && NoRestarts(actions) && id in t.source.policies
    ensures id in s.source.policies || LastSaid(s, actions, t, id, c).Some?
    ensures Cell(t.source.policies[id], c) ==
      if LastSaid(s, actions, t, id, c).Some? then LastSaid(s, actions, t, id, c).value
      else Cell(s.source.policies[id], c)
    decreases |actions|
  {
    if actions != [] {
      var m := Act(s, actions[0]);
      assert !actions[0].Restart?;
      ColumnsAreLastSaid(m, actions[1..], t, id, c);
      if id in m.source.policies { ActionSays(s, actions[0], id, c); }
    }
  }

  // Between restarts, a policy is published exactly if it was, or a publication of it has been written; the
  // same of deletion; and its version has grown by the number of writes.
  lemma {:induction false} FlagsAreHistory(s: System, actions: seq<Action>, t: System, id: string)
    requires History(s, actions, t) && NoRestarts(actions) && id in t.source.policies
    ensures var ps, p := s.source.policies, t.source.policies[id];
      && (p.published <==> (id in ps && ps[id].published) || EverPublished(s, actions, t, id))
      && (p.deleted <==> (id in ps && ps[id].deleted) || EverDeleted(s, actions, t, id))
      && p.version == (if id in ps then ps[id].version else 0) + Writes(s, actions, t, id)
    decreases |actions|
  {
    if actions != [] {
      var m := Act(s, actions[0]);
      assert !actions[0].Restart?;
      FlagsAreHistory(m, actions[1..], t, id);
      ActionWrites(s, actions[0], id);
      if id !in m.source.policies { NotAffected(s, actions[0], id); }
    }
  }

  lemma NotAffected(s: System, a: Action, id: string)
    requires Possible(s, a) && !a.Restart? && id !in Act(s, a).source.policies
    ensures id !in s.source.policies && !Affects(s, a, id) && !Creates(a, id)
  {
  }

  // ----- What devices are told, and expected to run -----

  // Once a publication of a live policy has executed its first statement, its group is told of the policy's
  // content and version, and every other group, and all else that this group is told, is as before.
  lemma PublishedIsTold(s: System, id: string, eventId: string, bus: Bus, db: Db, g: string)
    requires id in s.source.policies && !s.source.policies[id].deleted && !db.NotWritten?
    ensures
      var p, told := s.source.policies[id], ForGroup(Act(s, Serve(PublishPolicy(id, eventId), bus, db)).source, g);
      && (id in told <==> g == p.content.targetGroup)
      && (id in told ==> told[id] == Expected(p.content, p.version))
      && (forall other :: other != id ==>
            (other in told <==> other in ForGroup(s.source, g))
            && (other in told ==> told[other] == ForGroup(s.source, g)[other]))
  {
  }

  // What counts as lost: a publication that the bus does not take, or an edit or deletion of a published
  // policy that it does not take or that is not announced because the service does not hear of its commit.
  lemma LostIff(s: System, a: Action)
    requires Possible(s, a)
    ensures Act(s, a).lost == s.lost + (
      if a.Serve? && !a.req.CreatePolicy? && Affects(s, a, a.req.id)
         && (if a.req.PublishPolicy? then a.bus.Refused?
             else s.source.policies[a.req.id].published && (a.bus.Refused? || !a.db.Committed?))
      then 1 else 0)
  {
  }

  lemma {:induction false} NeverGoneBack(s: System, actions: seq<Action>, t: System)
    requires History(s, actions, t) && NoRestarts(actions) && !s.goneBack
    ensures !t.goneBack
    decreases |actions|
  {
    if actions != [] {
      assert !actions[0].Restart?;
      NeverGoneBack(Act(s, actions[0]), actions[1..], t);
    }
  }

  ghost predicate SaysLast(s: System, actions: seq<Action>, t: System, id: string, c: Column, value: string)
    requires History(s, actions, t)
  {
    LastSaid(s, actions, t, id, c) == Some(value)
  }

  // From requests to expectations: with no restart, nothing lost, and the stream handled in order with any
  // replays, the expectation of every published policy has the name, group and settings that were last sent
  // for it, the number of its writes as its version, and is active unless the policy was ever deleted.
  lemma ExpectationsAreHistory(batch: nat, replicas: nat, actions: seq<Action>, t: System, id: string)
    requires batch > 0 && History(Start(batch, replicas), actions, t) && NoRestarts(actions)
    requires t.lost == 0 && ForwardWithReplays(t.group.done, |t.group.log|)
    requires EverPublished(Start(batch, replicas), actions, t, id) && id in t.source.policies
    ensures id in t.group.table
    ensures var s, row := Start(batch, replicas), t.group.table[id];
      && SaysLast(s, actions, t, id, Name, row.content.name)
      && SaysLast(s, actions, t, id, TargetGroup, row.content.targetGroup)
      && SaysLast(s, actions, t, id, Settings, row.content.settings)
      && row.version == Writes(s, actions, t, id)
      && (row.active <==> !EverDeleted(s, actions, t, id))
  {
    var s := Start(batch, replicas);
    StartInv(batch, replicas);
    RolloutPipeline.HistoryInv(s, actions, t);
    NeverGoneBack(s, actions, t);
    FlagsAreHistory(s, actions, t, id);
    ColumnsAreLastSaid(s, actions, t, id, Name);
    ColumnsAreLastSaid(s, actions, t, id, TargetGroup);
    ColumnsAreLastSaid(s, actions, t, id, Settings);
    InOrderRow(t, id);
  }

  lemma InOrderRow(t: System, id: string)
    requires SystemInv(t) && !t.goneBack && t.lost == 0 && ForwardWithReplays(t.group.done, |t.group.log|)
    requires id in t.source.policies && t.source.policies[id].published
    ensures var p := t.source.policies[id];
      id in t.group.table && t.group.table[id] == Row(p.content, p.version, !p.deleted)
  {
    ForwardCovers(t.group);
    HandledWholesome(t);
    ReplaysAreInvisible(Changes(t.group.log), t.group.done);
    assert InStep(ApplyAll(Changes(t.group.log)), t.source.policies, id);
  }

  // ----- Versions start at 1 -----

  predicate VersionsFrom1(policies: map<string, Policy>) {
    forall id :: id in policies ==> policies[id].version >= 1
  }

  predicate AnnouncedFrom1(log: seq<Entry>) {
    forall i :: 0 <= i < |log| ==> ChangeOf(log[i]).Upsert? ==> ChangeOf(log[i]).version >= 1
  }

  ghost predicate From1(s: System) {
    && VersionsFrom1(s.source.policies) && VersionsFrom1(s.kept.policies) && AnnouncedFrom1(s.group.log)
    && "" !in s.source.policies && "" !in s.kept.policies
  }

  lemma ServeFrom1(s: System, req: Request, bus: Bus, db: Db)
    requires From1(s) && Fresh(s.source, req)
    ensures From1(Act(s, Serve(req, bus, db)))
  {
    LogAfter(s, req, bus, db);
    SentFrom1(s.source, req, bus, db);
    PoliciesFrom1(s.source, req, bus, db);
    hide Sent, After, Loses, ChangeOf, VersionsFrom1;
  }

  lemma PoliciesFrom1(src: Source, req: Request, bus: Bus, db: Db)
    requires VersionsFrom1(src.policies) && "" !in src.policies && Fresh(src, req)
    ensures VersionsFrom1(After(src, req, bus, db).policies) && "" !in After(src, req, bus, db).policies
  {
  }

  lemma SentFrom1(src: Source, req: Request, bus: Bus, db: Db)
    requires VersionsFrom1(src.policies) && "" !in src.policies && Fresh(src, req)
    ensures forall i :: 0 <= i < |Sent(src, req, bus, db)| ==>
      ChangeOf(Sent(src, req, bus, db)[i]).Upsert? ==> ChangeOf(Sent(src, req, bus, db)[i]).version >= 1
  {
    if Sent(src, req, bus, db) != [] {
      var p := src.policies[req.id];
      match req
      case UpdatePolicy(id, edit) => EventChange(PolicyUpdated, id, Edited(p, edit));
      case PublishPolicy(id, _) => EventChange(PolicyPublished, id, p);
      case DeletePolicy(id) => EventChange(PolicyDeleted, id, p);
    }
  }

  lemma {:induction false} AlwaysFrom1(s: System, actions: seq<Action>, t: System)
    requires History(s, actions, t) && From1(s)
    ensures From1(t)
    decreases |actions|
  {
    if actions != [] {
      match actions[0] {
        case Serve(req, bus, db) => ServeFrom1(s, req, bus, db);
        case Restart =>
        case Consume(l) => assert Next(s.group, l).log == s.group.log;
      }
      AlwaysFrom1(Act(s, actions[0]), actions[1..], t);
    }
  }

  // Whatever was lost, reordered, repeated or forgotten, no expectation has a version below 1.
  lemma ExpectedFrom1(s: System, id: string)
    requires Arises(s) && id in s.group.table
    ensures s.group.table[id].version >= 1
  {
    var batch: nat, replicas: nat, actions :| batch > 0 && History(Start(batch, replicas), actions, s);
    AlwaysFrom1(Start(batch, replicas), actions, s);
    ArisesInv(s);
    VersionsAreAnnounced(s.group, id);
  }
}
