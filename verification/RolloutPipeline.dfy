// The whole pipeline: the Policy Service announces onto the stream, the consumer group maintains the
// Compliance Service's expectations. A system step is a request or a step of the group.
module RolloutPipeline {
  import opened Wrappers
  import opened Events
  import opened Expectations
  import opened Redelivery
  import opened ConsumerGroup
  import opened GroupSafety
  import opened PS = PolicyService

  // `lost` counts the changes that were due on the stream and never reached it; `kept` is what the Policy
  // Service has committed; `goneBack` says that a restart has forgotten what had been announced.
  datatype System = System(source: Source, group: State, lost: nat, kept: Source, goneBack: bool)

  datatype Action = Serve(req: Request, bus: Bus, db: Db) | Restart | Consume(l: Label)

  predicate Possible(s: System, a: Action) {
    match a
    case Serve(req, _, _) => Fresh(s.source, req)
    case Restart => true
    case Consume(l) => !l.Announce? && Enabled(s.group, l)
  }

  function Act(s: System, a: Action): System
    requires Possible(s, a)
  {
    match a
    case Serve(req, bus, db) =>
      var sent := Sent(s.source, req, bus, db);
      System(After(s.source, req, bus, db),
             if sent == [] then s.group else Next(s.group, Announce(sent[0])),
             if Loses(s.source, req, bus, db) then s.lost + 1 else s.lost,
             KeptAfter(s.source, s.kept, req, bus, db),
             s.goneBack)
    case Restart => s.(source := s.kept, goneBack := s.goneBack || Exposed(s))
    case Consume(l) => s.(group := Next(s.group, l))
  }

  function Start(batch: nat, replicas: nat): System {
    System(Source(map[], []), Init(batch, replicas), 0, Source(map[], []), false)
  }

  ghost predicate History(s: System, actions: seq<Action>, t: System)
    decreases |actions|
  {
    if actions == [] then s == t
    else Possible(s, actions[0]) && History(Act(s, actions[0]), actions[1..], t)
  }

  ghost predicate Arises(s: System) {
    exists batch: nat, replicas: nat, actions :: batch > 0 && History(Start(batch, replicas), actions, s)
  }

  // ----- What the log says about the policies, whatever was lost -----

  // An announced version is at most the policy's, and the version determines the content. A retired
  // policy is a published one that was deleted.
  predicate Faithful(policies: map<string, Policy>, c: Change) {
    match c
    case Upsert(id, content, version) =>
      && id in policies && version <= policies[id].version
      && (version == policies[id].version ==> content == policies[id].content)
    case Retire(id) => id in policies && policies[id].deleted && policies[id].published
    case Nothing => true
  }

  predicate FaithfulTo(log: seq<Entry>, policies: map<string, Policy>) {
    forall i :: 0 <= i < |log| ==> Faithful(policies, ChangeOf(log[i]))
  }

  predicate LogFaithful(s: System) {
    FaithfulTo(s.group.log, s.source.policies)
  }

  // Something was announced that is not committed, so that a restart would forget it.
  predicate Exposed(s: System) {
    !FaithfulTo(s.group.log, s.kept.policies)
  }

  // What is committed is an earlier stage of what the connection sees.
  predicate EarlierRow(p: Policy, q: Policy) {
    && p.version <= q.version && (p.version == q.version ==> p.content == q.content)
    && (p.published ==> q.published) && (p.deleted ==> q.deleted)
  }

  ghost predicate Earlier(kept: map<string, Policy>, policies: map<string, Policy>) {
    forall id :: id in kept ==> id in policies && EarlierRow(kept[id], policies[id])
  }

  // What keeps a change from being faithful to what is committed can only be that it is ahead of it.
  predicate NotContrary(kept: map<string, Policy>, c: Change) {
    match c
    case Upsert(id, content, version) => id in kept && version == kept[id].version ==> content == kept[id].content
    case Retire(id) => id in kept && kept[id].deleted && kept[id].published
    case Nothing => true
  }

  ghost predicate KeptInv(s: System) {
    && Earlier(s.kept.policies, s.source.policies)
    && forall i :: 0 <= i < |s.group.log| ==> NotContrary(s.kept.policies, ChangeOf(s.group.log[i]))
  }

  // ----- What the log says when nothing was lost -----

  // For a published policy the in-order table holds what the policy says now, active unless deleted. For
  // any other it can hold no more than what a publication announced that was then not recorded.
  predicate InStep(t: Table, policies: map<string, Policy>, id: string) {
    if id in policies && policies[id].published then
      id in t && t[id] == Row(policies[id].content, policies[id].version, !policies[id].deleted)
    else
      id in t ==> id in policies && t[id].active && t[id].version <= policies[id].version
  }

  ghost predicate CompleteFor(log: seq<Entry>, policies: map<string, Policy>) {
    forall id :: InStep(ApplyAll(Changes(log)), policies, id)
  }

  ghost predicate Complete(s: System) {
    CompleteFor(s.group.log, s.source.policies)
  }

  predicate Wholesome(log: seq<Entry>) {
    forall i :: 0 <= i < |log| ==> Handleable(log[i])
  }

  predicate OnlyMessages(log: seq<Entry>) {
    forall i :: 0 <= i < |log| ==> log[i].Message?
  }

  ghost predicate SystemInv(s: System) {
    && Reachable(s.group)
    && OnlyMessages(s.group.log)
    && "" !in s.source.policies && "" !in s.kept.policies
    && (!s.goneBack ==> LogFaithful(s) && KeptInv(s) && InStepInv(s))
  }

  ghost predicate InStepInv(s: System) {
    s.lost == 0 && Wholesome(s.group.log) ==>
      Complete(s) && (!Exposed(s) ==> CompleteFor(s.group.log, s.kept.policies))
  }

  lemma ReachableNext(s: State, l: Label)
    requires Reachable(s) && Enabled(s, l)
    ensures Reachable(Next(s, l))
  {
    var batch: nat, replicas: nat, ls :| batch > 0 && Run(Init(batch, replicas), ls, s);
    assert Run(s, [l], Next(s, l));
    RunConcat(Init(batch, replicas), ls, s, [l], Next(s, l));
  }

  predicate StorableContent(c: Content) {
    Storable(c.name) && Storable(c.targetGroup) && Storable(c.settings)
  }

  // The event of a publication or an edit says what the policy says, or is beyond its handler; exactly the
  // latter if the consumer's database cannot hold the content or the version.
  lemma EventChange(kind: Kind, id: string, p: Policy)
    requires id != "" && !kind.Unrecognised?
    ensures kind.PolicyDeleted? ==> ChangeOf(PolicyEvent(kind, id, p)) == Retire(id)
    ensures !kind.PolicyDeleted? && StorableContent(p.content) && FitsInteger(p.version) ==>
              && Handleable(PolicyEvent(kind, id, p))
              && ChangeOf(PolicyEvent(kind, id, p)) == Upsert(id, p.content, p.version)
    ensures !kind.PolicyDeleted? && !(StorableContent(p.content) && FitsInteger(p.version)) ==>
              Poison(PolicyEvent(kind, id, p)) && ChangeOf(PolicyEvent(kind, id, p)) == Nothing
  {
  }

  // An edit raises the version, so what earlier announcements say stays true.
  lemma FaithfulKept(src: Source, req: Request, bus: Bus, db: Db, c: Change)
    requires Fresh(src, req) && Faithful(src.policies, c)
    ensures Faithful(After(src, req, bus, db).policies, c)
  {
  }

  lemma SentFaithful(src: Source, req: Request, bus: Bus, db: Db)
    requires Fresh(src, req) && "" !in src.policies && Sent(src, req, bus, db) != []
    ensures Faithful(After(src, req, bus, db).policies, ChangeOf(Sent(src, req, bus, db)[0]))
  {
    var p := src.policies[req.id];
    match req
    case UpdatePolicy(id, edit) => EventChange(PolicyUpdated, id, Edited(p, edit));
    case PublishPolicy(id, _) => EventChange(PolicyPublished, id, p);
    case DeletePolicy(id) => EventChange(PolicyDeleted, id, p);
  }

  lemma InStepKept(t: Table, src: Source, req: Request, bus: Bus, db: Db, id: string)
    requires Fresh(src, req) && "" !in src.policies && !Loses(src, req, bus, db)
    requires InStep(t, src.policies, id) && InStep(t, src.policies, req.id)
    requires Sent(src, req, bus, db) != [] ==> Handleable(Sent(src, req, bus, db)[0])
    ensures InStep(if Sent(src, req, bus, db) != [] then Apply(t, ChangeOf(Sent(src, req, bus, db)[0])) else t,
                   After(src, req, bus, db).policies, id)
  {
    if Sent(src, req, bus, db) != [] {
      var p := src.policies[req.id];
      match req
      case UpdatePolicy(id, edit) => EventChange(PolicyUpdated, id, Edited(p, edit));
      case PublishPolicy(id, _) => EventChange(PolicyPublished, id, p);
      case DeletePolicy(id) => EventChange(PolicyDeleted, id, p);
    }
  }

  // Extending the log by what was sent.
  lemma LogAfter(s: System, req: Request, bus: Bus, db: Db)
    requires Fresh(s.source, req)
    ensures var log, sent := Act(s, Serve(req, bus, db)).group.log, Sent(s.source, req, bus, db);
      && |sent| <= 1 && log == s.group.log + sent
      && ApplyAll(Changes(log)) ==
           (if sent == [] then ApplyAll(Changes(s.group.log))
            else Apply(ApplyAll(Changes(s.group.log)), ChangeOf(sent[0])))
      && (Wholesome(log) ==> Wholesome(s.group.log) && forall i :: 0 <= i < |sent| ==> Handleable(sent[i]))
  {
    var log, sent := Act(s, Serve(req, bus, db)).group.log, Sent(s.source, req, bus, db);
    if sent != [] {
      assert Changes(log) == Changes(s.group.log) + [ChangeOf(sent[0])];
      ApplyAllSnoc(Changes(s.group.log), ChangeOf(sent[0]));
      if Wholesome(log) {
        assert Handleable(log[|s.group.log|]);
        forall i | 0 <= i < |s.group.log| ensures Handleable(s.group.log[i]) {
          assert Handleable(log[i]);
        }
      }
    }
  }

  lemma ServeComplete(s: System, req: Request, bus: Bus, db: Db)
    requires SystemInv(s) && !s.goneBack && Fresh(s.source, req) && Act(s, Serve(req, bus, db)).lost == 0
    requires Wholesome(Act(s, Serve(req, bus, db)).group.log)
    ensures Complete(Act(s, Serve(req, bus, db)))
  {
    var t := Act(s, Serve(req, bus, db));
    LogAfter(s, req, bus, db);
    forall id ensures InStep(ApplyAll(Changes(t.group.log)), t.source.policies, id) {
      assert InStep(ApplyAll(Changes(s.group.log)), s.source.policies, req.id);
      InStepKept(ApplyAll(Changes(s.group.log)), s.source, req, bus, db, id);
    }
  }

  lemma ServeFaithful(s: System, req: Request, bus: Bus, db: Db)
    requires SystemInv(s) && !s.goneBack && Fresh(s.source, req)
    ensures LogFaithful(Act(s, Serve(req, bus, db)))
  {
    var t := Act(s, Serve(req, bus, db));
    if Sent(s.source, req, bus, db) != [] { SentFaithful(s.source, req, bus, db); }
    forall i | 0 <= i < |t.group.log| ensures Faithful(t.source.policies, ChangeOf(t.group.log[i])) {
      if i < |s.group.log| {
        assert t.group.log[i] == s.group.log[i];
        FaithfulKept(s.source, req, bus, db, ChangeOf(s.group.log[i]));
      }
    }
  }

  // ----- What is committed -----

  predicate Commits(src: Source, req: Request, db: Db) {
    Accepted(src, req) && (db.Committed? || db.Unconfirmed?)
  }

  // What is committed falls behind, or catches up.
  lemma KeptBehind(src: Source, kept: Source, req: Request, bus: Bus, db: Db)
    requires Fresh(src, req) && Earlier(kept.policies, src.policies)
    ensures Earlier(KeptAfter(src, kept, req, bus, db).policies, After(src, req, bus, db).policies)
  {
  }

  lemma FaithfulNotContrary(policies: map<string, Policy>, c: Change)
    requires Faithful(policies, c)
    ensures NotContrary(policies, c)
  {
  }

  // What a request announces without committing anything is a publication.
  lemma SentUncommitted(src: Source, req: Request, bus: Bus, db: Db)
    requires "" !in src.policies && Sent(src, req, bus, db) != [] && !Commits(src, req, db)
    ensures req.PublishPolicy? && req.id in src.policies && !src.policies[req.id].deleted
    ensures ChangeOf(Sent(src, req, bus, db)[0])
            in {Upsert(req.id, src.policies[req.id].content, src.policies[req.id].version), Nothing}
    ensures Handleable(Sent(src, req, bus, db)[0]) <==> !ChangeOf(Sent(src, req, bus, db)[0]).Nothing?
  {
    EventChange(PolicyPublished, req.id, src.policies[req.id]);
  }

  lemma ServeKept(s: System, req: Request, bus: Bus, db: Db)
    requires SystemInv(s) && !s.goneBack && Fresh(s.source, req)
    ensures KeptInv(Act(s, Serve(req, bus, db)))
  {
    var t, sent := Act(s, Serve(req, bus, db)), Sent(s.source, req, bus, db);
    LogAfter(s, req, bus, db);
    KeptBehind(s.source, s.kept, req, bus, db);
    ServeFaithful(s, req, bus, db);
    forall i | 0 <= i < |t.group.log| ensures NotContrary(t.kept.policies, ChangeOf(t.group.log[i])) {
      assert Faithful(t.source.policies, ChangeOf(t.group.log[i]));
      if Commits(s.source, req, db) {
        FaithfulNotContrary(t.source.policies, ChangeOf(t.group.log[i]));
      } else if i == |s.group.log| {
        SentUncommitted(s.source, req, bus, db);
      }
    }
  }

  // The committed rows stay in step with a publication that they already have.
  lemma InStepUncommitted(t: Table, kept: map<string, Policy>, src: Source, req: Request, bus: Bus, db: Db, id: string)
    requires "" !in src.policies && Sent(src, req, bus, db) != [] && !Commits(src, req, db)
    requires Handleable(Sent(src, req, bus, db)[0]) && Earlier(kept, src.policies)
    requires Faithful(kept, ChangeOf(Sent(src, req, bus, db)[0]))
    requires InStep(t, kept, id)
    ensures InStep(Apply(t, ChangeOf(Sent(src, req, bus, db)[0])), kept, id)
  {
    SentUncommitted(src, req, bus, db);
  }

  lemma ServeKeptComplete(s: System, req: Request, bus: Bus, db: Db)
    requires SystemInv(s) && !s.goneBack && Fresh(s.source, req) && Act(s, Serve(req, bus, db)).lost == 0
    requires Wholesome(Act(s, Serve(req, bus, db)).group.log) && !Exposed(Act(s, Serve(req, bus, db)))
    ensures CompleteFor(Act(s, Serve(req, bus, db)).group.log, Act(s, Serve(req, bus, db)).kept.policies)
  {
    var t, sent := Act(s, Serve(req, bus, db)), Sent(s.source, req, bus, db);
    LogAfter(s, req, bus, db);
    if Commits(s.source, req, db) {
      ServeComplete(s, req, bus, db);
    } else {
      assert t.kept == s.kept;
      forall i | 0 <= i < |s.group.log| ensures Faithful(s.kept.policies, ChangeOf(s.group.log[i])) {
        assert t.group.log[i] == s.group.log[i];
      }
      var before := ApplyAll(Changes(s.group.log));
      forall id ensures InStep(ApplyAll(Changes(t.group.log)), s.kept.policies, id) {
        assert InStep(before, s.kept.policies, id);
        if sent != [] {
          assert t.group.log[|s.group.log|] == sent[0];
          InStepUncommitted(before, s.kept.policies, s.source, req, bus, db, id);
        }
      }
    }
  }

  lemma ConsumeInv(s: System, l: Label)
    requires SystemInv(s) && Possible(s, Consume(l))
    ensures SystemInv(Act(s, Consume(l)))
  {
    ReachableNext(s.group, l);
    assert Next(s.group, l).log == s.group.log;
  }

  lemma ServeInv(s: System, req: Request, bus: Bus, db: Db)
    requires SystemInv(s) && Fresh(s.source, req)
    ensures SystemInv(Act(s, Serve(req, bus, db)))
  {
    var t := Act(s, Serve(req, bus, db));
    var sent := Sent(s.source, req, bus, db);
    if sent != [] { ReachableNext(s.group, Announce(sent[0])); }
    if !s.goneBack {
      ServeFaithful(s, req, bus, db);
      ServeKept(s, req, bus, db);
      if t.lost == 0 && Wholesome(t.group.log) {
        ServeComplete(s, req, bus, db);
        if !Exposed(t) { ServeKeptComplete(s, req, bus, db); }
      }
    }
  }

  lemma RestartInv(s: System)
    requires SystemInv(s)
    ensures SystemInv(Act(s, Restart))
  {
    var t := Act(s, Restart);
    if !t.goneBack {
      forall i | 0 <= i < |t.group.log| ensures NotContrary(t.kept.policies, ChangeOf(t.group.log[i])) {
        FaithfulNotContrary(t.kept.policies, ChangeOf(t.group.log[i]));
      }
    }
  }

  lemma {:induction false} HistoryInv(s: System, actions: seq<Action>, t: System)
    requires SystemInv(s) && History(s, actions, t)
    ensures SystemInv(t)
    decreases |actions|
  {
    if actions != [] {
      match actions[0] {
        case Serve(req, bus, db) => ServeInv(s, req, bus, db);
        case Restart => RestartInv(s);
        case Consume(l) => ConsumeInv(s, l);
      }
      HistoryInv(Act(s, actions[0]), actions[1..], t);
    }
  }

  lemma StartInv(batch: nat, replicas: nat)
    requires batch > 0
    ensures SystemInv(Start(batch, replicas))
  {
    var group := Init(batch, replicas);
    assert Run(group, [], group);
    assert Changes(group.log) == [];
  }

  lemma ArisesInv(s: System)
    requires Arises(s)
    ensures SystemInv(s)
  {
    var batch: nat, replicas: nat, actions :| batch > 0 && History(Start(batch, replicas), actions, s);
    StartInv(batch, replicas);
    HistoryInv(Start(batch, replicas), actions, s);
  }

  // ----- The projection -----

  // What the Compliance Service expects of a group's devices.
  function Active(t: Table, g: string): map<string, Expected> {
    map id | id in t && t[id].active && t[id].content.targetGroup == g :: Expected(t[id].content, t[id].version)
  }

  function Shown(t: Table, id: string): Option<Expected> {
    if id in t && t[id].active then Some(Expected(t[id].content, t[id].version)) else None
  }

  function Told(src: Source, id: string): Option<Expected> {
    if Live(src, id) && src.policies[id].published
    then Some(Expected(src.policies[id].content, src.policies[id].version)) else None
  }

  lemma AgreeById(t: Table, src: Source)
    ensures (forall g :: Active(t, g) == ForGroup(src, g)) <==> (forall id :: Shown(t, id) == Told(src, id))
  {
    if forall g :: Active(t, g) == ForGroup(src, g) {
      forall id ensures Shown(t, id) == Told(src, id) {
        if id in t {
          var g := t[id].content.targetGroup;
          assert Active(t, g) == ForGroup(src, g);
          assert id in Active(t, g) <==> id in ForGroup(src, g);
        }
        if id in src.policies {
          var g := src.policies[id].content.targetGroup;
          assert Active(t, g) == ForGroup(src, g);
          assert id in Active(t, g) <==> id in ForGroup(src, g);
        }
      }
    }
    if forall id :: Shown(t, id) == Told(src, id) {
      forall g ensures Active(t, g) == ForGroup(src, g) {
        forall id ensures id in Active(t, g) <==> id in ForGroup(src, g)
                  ensures id in Active(t, g) ==> Active(t, g)[id] == ForGroup(src, g)[id]
        {
          assert Shown(t, id) == Told(src, id);
        }
      }
    }
  }

  // Every entry of the stream has taken effect; acknowledgements may still be outstanding.
  ghost predicate AllHandled(s: State) {
    forall i :: 0 <= i < |s.log| ==> i in s.done
  }

  lemma DrainedHandled(s: System)
    requires SystemInv(s) && Drained(s.group)
    ensures AllHandled(s.group)
  {
    ReachableInv(s.group);
    forall i | 0 <= i < |s.group.log| ensures i in s.group.done {
      assert i in s.group.acked;
      AcknowledgedWasHandled(s.group, i);
    }
  }

  lemma HandledWholesome(s: System)
    requires SystemInv(s) && AllHandled(s.group)
    ensures Wholesome(s.group.log) && Within(s.group.done, |s.group.log|)
    ensures Covers(Changes(s.group.log), s.group.done)
    ensures s.group.table == ApplyAll(Redelivery.Pick(Changes(s.group.log), s.group.done))
  {
    ReachableInv(s.group);
    forall i | 0 <= i < |s.group.log| ensures Handleable(s.group.log[i]) {
      assert i in s.group.done;
    }
  }

  // A publication was announced, its write then failed, and it has not been repeated.
  ghost predicate Unrecorded(s: System, id: string) {
    Announced(Changes(s.group.log), id) && !(id in s.source.policies && s.source.policies[id].published)
  }

  // The in-order table shows what the Policy Service tells devices, except of unrecorded publications.
  lemma InOrderShows(s: System, id: string)
    requires SystemInv(s) && s.lost == 0 && !s.goneBack && AllHandled(s.group)
    ensures Shown(ApplyAll(Changes(s.group.log)), id) == Told(s.source, id) <==> !Unrecorded(s, id)
  {
    HandledWholesome(s);
    assert InStep(ApplyAll(Changes(s.group.log)), s.source.policies, id);
    TableMeaning(Changes(s.group.log), id);
  }

  // An unrecorded publication is expected of devices that are told nothing of it, in whatever order.
  lemma UnrecordedShows(s: System, id: string)
    requires SystemInv(s) && !s.goneBack && AllHandled(s.group) && Unrecorded(s, id)
    ensures Shown(s.group.table, id).Some? && Told(s.source, id).None?
  {
    HandledWholesome(s);
    var log, order := Changes(s.group.log), s.group.done;
    var cs := Redelivery.Pick(log, order);
    AnnouncedInOrder(log, order, id);
    TableMeaning(cs, id);
    var k: nat :| Describes(cs, id, k, s.group.table[id]);
    forall j | 0 <= j < |cs| ensures cs[j] != Retire(id) {
      assert Faithful(s.source.policies, ChangeOf(s.group.log[order[j]]));
    }
  }

  // The upsert handled last and the last upsert in the log agree on whether the policy was retired
  // since, and if not, on its content.
  ghost predicate EndsAlike(log: seq<Change>, order: seq<nat>, id: string)
    requires Within(order, |log|)
  {
    forall k: nat, j: nat :: LastUpsertAt(log, id, k) && LastUpsertAt(Redelivery.Pick(log, order), id, j) ==>
      && (RetiredAfter(Redelivery.Pick(log, order), id, j) <==> RetiredAfter(log, id, k))
      && (!RetiredAfter(log, id, k) ==> log[order[j]].content == log[k].content)
  }

  lemma ShownIff(log: seq<Change>, order: seq<nat>, id: string)
    requires Within(order, |log|) && Covers(log, order)
    ensures Shown(ApplyAll(Redelivery.Pick(log, order)), id) == Shown(ApplyAll(log), id) <==> EndsAlike(log, order, id)
  {
    var cs := Redelivery.Pick(log, order);
    AnnouncedInOrder(log, order, id);
    TableMeaning(cs, id);
    TableMeaning(log, id);
    if id in ApplyAll(log) {
      var row, row' := ApplyAll(log)[id], ApplyAll(cs)[id];
      var k: nat :| Describes(log, id, k, row);
      var j: nat :| Describes(cs, id, j, row');
      MaxVersionInOrder(log, order, id, row'.version);
      MaxVersionUnique(log, id, row.version, row'.version);
      EndsAlikeAt(log, order, id, k, j);
    }
  }

  lemma EndsAlikeAt(log: seq<Change>, order: seq<nat>, id: string, k: nat, j: nat)
    requires Within(order, |log|)
    requires LastUpsertAt(log, id, k) && LastUpsertAt(Redelivery.Pick(log, order), id, j)
    ensures EndsAlike(log, order, id) <==>
      && (RetiredAfter(Redelivery.Pick(log, order), id, j) <==> RetiredAfter(log, id, k))
      && (!RetiredAfter(log, id, k) ==> log[order[j]].content == log[k].content)
  {
    var cs := Redelivery.Pick(log, order);
    forall k': nat, j': nat | LastUpsertAt(log, id, k') && LastUpsertAt(cs, id, j') ensures k' == k && j' == j {
      LastUpsertUnique(log, id, k, k');
      LastUpsertUnique(cs, id, j, j');
    }
  }

  // With no change lost and everything handled, the expectations of every group are what the Policy
  // Service tells its devices, exactly when every announced publication was also recorded and each
  // policy's handling ended as its log does.
  lemma ProjectionIff(s: System)
    requires Arises(s) && s.lost == 0 && !s.goneBack && AllHandled(s.group)
    ensures Within(s.group.done, |s.group.log|)
    ensures (forall g :: Active(s.group.table, g) == ForGroup(s.source, g))
            <==> (forall id :: !Unrecorded(s, id) && EndsAlike(Changes(s.group.log), s.group.done, id))
  {
    ArisesInv(s);
    HandledWholesome(s);
    AgreeById(s.group.table, s.source);
    forall id ensures Shown(s.group.table, id) == Told(s.source, id)
                      <==> !Unrecorded(s, id) && EndsAlike(Changes(s.group.log), s.group.done, id)
    {
      if Unrecorded(s, id) {
        UnrecordedShows(s, id);
      } else {
        InOrderShows(s, id);
        ShownIff(Changes(s.group.log), s.group.done, id);
      }
    }
  }

  lemma ForwardCovers(s: State)
    requires ForwardWithReplays(s.done, |s.log|)
    ensures AllHandled(s)
  {
    forall i | 0 <= i < |s.log| ensures i in s.done {
      var j := Passes(s.done, |s.log|, 0, i);
    }
  }

  // When the log was handled in stream order, with any replays along the way, that leaves one condition.
  lemma ProjectionInOrder(s: System)
    requires Arises(s) && s.lost == 0 && !s.goneBack
    requires ForwardWithReplays(s.group.done, |s.group.log|)
    ensures (forall g :: Active(s.group.table, g) == ForGroup(s.source, g)) <==> (forall id :: !Unrecorded(s, id))
  {
    var log, order := Changes(s.group.log), s.group.done;
    ForwardCovers(s.group);
    ProjectionIff(s);
    forall id ensures EndsAlike(log, order, id) {
      ReplayedEnding(log, order, id);
    }
  }

  lemma {:induction false} HistorySnoc(s: System, actions: seq<Action>, m: System, action: Action)
    requires History(s, actions, m) && Possible(m, action)
    ensures History(s, actions + [action], Act(m, action))
    decreases |actions|
  {
    if actions == [] {
      assert [action][1..] == [];
    } else {
      HistorySnoc(Act(s, actions[0]), actions[1..], m, action);
      assert (actions + [action])[1..] == actions[1..] + [action];
    }
  }

  lemma ArisesNext(s: System, action: Action)
    requires Arises(s) && Possible(s, action)
    ensures Arises(Act(s, action))
  {
    var batch: nat, replicas: nat, actions :| batch > 0 && History(Start(batch, replicas), actions, s);
    HistorySnoc(Start(batch, replicas), actions, s, action);
  }

  // A publication whose write fails after it was announced: the policy stays a draft that no device is told
  // of, and devices are held to it.
  lemma DraftIsExpected(content: Content) returns (s: System)
    requires content.targetGroup == "g" && StorableContent(content)
    ensures Arises(s) && s.lost == 0 && !s.goneBack && Drained(s.group) && Unrecorded(s, "p")
    ensures s.source.policies == map["p" := Policy(content, "", 1, false, false)] && ForGroup(s.source, "g") == map[]
    ensures Active(s.group.table, "g") == map["p" := Expected(content, 1)]
  {
    var draft := AnnouncedDraft(content);
    s := DraftHandled(draft, content);
  }

  function DraftEntry(content: Content): Entry {
    PolicyEvent(PolicyPublished, "p", Policy(content, "", 1, false, false))
  }

  ghost predicate DraftAnnounced(s: System, content: Content) {
    && Arises(s) && s.lost == 0 && !s.goneBack && StorableContent(content)
    && s.source.policies == map["p" := Policy(content, "", 1, false, false)]
    && s.group == Init(50, 1).(log := [DraftEntry(content)], created := true)
  }

  lemma AnnouncedDraft(content: Content) returns (s: System)
    requires StorableContent(content)
    ensures DraftAnnounced(s, content)
  {
    assert History(Start(50, 1), [], Start(50, 1));
    var create := Serve(CreatePolicy("p", content, ""), Taken, Committed);
    var publish := Serve(PublishPolicy("p", "e"), Taken, NotWritten);
    ArisesNext(Start(50, 1), create);
    ArisesNext(Act(Start(50, 1), create), publish);
    ArisesNext(Act(Act(Start(50, 1), create), publish), Consume(EnsureGroup));
    s := Act(Act(Act(Start(50, 1), create), publish), Consume(EnsureGroup));
  }

  lemma DraftHandled(draft: System, content: Content) returns (s: System)
    requires DraftAnnounced(draft, content) && content.targetGroup == "g"
    ensures Arises(s) && s.lost == 0 && !s.goneBack && Drained(s.group) && Unrecorded(s, "p")
    ensures s.source == draft.source
    ensures Active(s.group.table, "g") == map["p" := Expected(content, 1)]
  {
    hide Arises, Next, Enabled;
    var read, handled, acked := OneEntry(draft.group, DraftEntry(content));
    ArisesNext(draft, Consume(ReadNew(0)));
    ArisesNext(draft.(group := read), Consume(Handle(0)));
    ArisesNext(draft.(group := handled), Consume(Ack(0)));
    s := draft.(group := acked);
    EventChange(PolicyPublished, "p", Policy(content, "", 1, false, false));
    assert UpsertOf(Changes(s.group.log)[0], "p");
  }

  // One replica reads, handles and acknowledges the only entry.
  lemma OneEntry(g: State, e: Entry) returns (read: State, handled: State, acked: State)
    requires Handleable(e) && g == Init(50, 1).(log := [e], created := true)
    ensures Enabled(g, ReadNew(0)) && read == Next(g, ReadNew(0))
    ensures Enabled(read, Handle(0)) && handled == Next(read, Handle(0))
    ensures Enabled(handled, Ack(0)) && acked == Next(handled, Ack(0))
    ensures Drained(acked) && acked.log == [e] && acked.table == Apply(map[], ChangeOf(e))
  {
    read := Next(g, ReadNew(0));
    assert NewIds(g) == [0] && read.workers[0] == Worker([0], None) && read.pending.Keys == {0};
    handled := Next(read, Handle(0));
    assert handled.workers[0] == Worker([], Some(0)) && handled.pending.Keys == {0};
    acked := Next(handled, Ack(0));
    assert acked.pending.Keys == {};
  }

  // A policy with text that the consumer's database cannot hold: once it is announced, nothing drains the
  // group any more.
  lemma UnstorableBlocks(s: System, req: Request, bus: Bus, db: Db, actions: seq<Action>, t: System)
    requires Arises(s) && Fresh(s.source, req) && req.PublishPolicy? && Sent(s.source, req, bus, db) != []
    requires !StorableContent(s.source.policies[req.id].content)
    requires History(Act(s, Serve(req, bus, db)), actions, t)
    ensures !Drained(t.group)
  {
    ArisesInv(s);
    ServeInv(s, req, bus, db);
    var m, n := Act(s, Serve(req, bus, db)), |s.group.log|;
    EventChange(PolicyPublished, req.id, s.source.policies[req.id]);
    assert Poison(m.group.log[n]);
    HistoryInv(m, actions, t);
    LogKept(m, actions, t);
    PoisonBlocks(t.group, n);
  }

  lemma {:induction false} LogKept(s: System, actions: seq<Action>, t: System)
    requires History(s, actions, t)
    ensures s.group.log <= t.group.log
    decreases |actions|
  {
    if actions != [] {
      LogKept(Act(s, actions[0]), actions[1..], t);
    }
  }

  // ----- Outages -----

  // The changes that were handled, in the order of handling.
  function Handled(s: State): seq<Change>
    requires Within(s.done, |s.log|)
  {
    Redelivery.Pick(Changes(s.log), s.done)
  }

  lemma HandledFaithful(s: System, j: nat)
    requires SystemInv(s) && !s.goneBack && j < |s.group.done|
    ensures Within(s.group.done, |s.group.log|)
    ensures Faithful(s.source.policies, Handled(s.group)[j])
  {
    ReachableInv(s.group);
    assert Faithful(s.source.policies, ChangeOf(s.group.log[s.group.done[j]]));
  }

  // Whatever was lost, reordered or repeated, an expectation is never ahead of its policy, and a live
  // policy is never retired.
  lemma NeverAhead(s: System, id: string)
    requires Arises(s) && !s.goneBack && id in s.group.table
    ensures id in s.source.policies && s.group.table[id].version <= s.source.policies[id].version
    ensures !s.source.policies[id].deleted ==> s.group.table[id].active
  {
    ArisesInv(s);
    ReachableInv(s.group);
    var cs := Handled(s.group);
    TableMeaning(cs, id);
    var k: nat :| Describes(cs, id, k, s.group.table[id]);
    var i :| 0 <= i < |cs| && UpsertOf(cs[i], id) && cs[i].version == s.group.table[id].version;
    HandledFaithful(s, i);
    if RetiredAfter(cs, id, k) {
      var j :| k < j < |cs| && cs[j] == Retire(id);
      HandledFaithful(s, j);
    }
  }

  // The last upsert that was handled for the policy carries its current version.
  ghost predicate CurrentHandledLast(s: System, id: string) {
    && Within(s.group.done, |s.group.log|)
    && id in s.source.policies
    && exists m: nat :: HandledLast(Handled(s.group), id, m, s.source.policies[id].version)
  }

  ghost predicate HandledLast(cs: seq<Change>, id: string, m: nat, version: int) {
    LastUpsertAt(cs, id, m) && cs[m].version == version
  }

  // One announcement that gets through repairs everything that was lost or disordered before: once the
  // current version of a live policy is what was handled last, the expectation equals the policy.
  lemma Repair(s: System, id: string)
    requires Arises(s) && !s.goneBack && Live(s.source, id) && CurrentHandledLast(s, id)
    ensures id in s.group.table
    ensures s.group.table[id] == Row(s.source.policies[id].content, s.source.policies[id].version, true)
  {
    ArisesInv(s);
    ReachableInv(s.group);
    var cs := Handled(s.group);
    var m: nat :| HandledLast(cs, id, m, s.source.policies[id].version);
    HandledFaithful(s, m);
    assert Announced(cs, id);
    TableMeaning(cs, id);
    var k: nat :| Describes(cs, id, k, s.group.table[id]);
    LastUpsertUnique(cs, id, m, k);
    assert UpsertOf(cs[m], id);
    NeverAhead(s, id);
  }

  // ----- Restarts of the Policy Service -----

  // Only a publication can announce what is not committed: it does so exactly if its own commit does not
  // succeed, its event can be handled, and the version that it announces is not committed from before.
  lemma ServeExposes(s: System, req: Request, bus: Bus, db: Db)
    requires SystemInv(s) && !s.goneBack && !Exposed(s) && Fresh(s.source, req)
    ensures var sent := Sent(s.source, req, bus, db);
      Exposed(Act(s, Serve(req, bus, db))) <==>
      && sent != [] && !Commits(s.source, req, db) && Handleable(sent[0])
      && !(req.id in s.kept.policies && s.kept.policies[req.id].version == s.source.policies[req.id].version)
  {
    var t, sent := Act(s, Serve(req, bus, db)), Sent(s.source, req, bus, db);
    LogAfter(s, req, bus, db);
    if Commits(s.source, req, db) {
      ServeFaithful(s, req, bus, db);
    } else {
      assert forall i :: 0 <= i < |s.group.log| ==> t.group.log[i] == s.group.log[i];
      if sent != [] {
        assert t.group.log[|s.group.log|] == sent[0];
        SentUncommitted(s.source, req, bus, db);
      }
    }
  }

  // No expectation is ahead of its policy.
  ghost predicate NothingAhead(s: System) {
    forall id :: id in s.group.table ==>
      id in s.source.policies && s.group.table[id].version <= s.source.policies[id].version
  }

  // When everything was handled, a restart leaves no expectation ahead of its policy exactly if nothing had
  // been announced without being committed.
  lemma RestartIff(s: System)
    requires Arises(s) && !s.goneBack && AllHandled(s.group)
    ensures NothingAhead(Act(s, Restart)) <==> !Exposed(s)
  {
    var t := Act(s, Restart);
    ArisesNext(s, Restart);
    if Exposed(s) {
      ExposedIsAhead(s);
    } else {
      forall id | id in t.group.table
        ensures id in t.source.policies && t.group.table[id].version <= t.source.policies[id].version
      {
        NeverAhead(t, id);
      }
    }
  }

  lemma ExposedIsAhead(s: System)
    requires Arises(s) && !s.goneBack && AllHandled(s.group) && Exposed(s)
    ensures !NothingAhead(Act(s, Restart))
  {
    ArisesInv(s);
    HandledWholesome(s);
    var log, order := Changes(s.group.log), s.group.done;
    var i :| 0 <= i < |log| && !Faithful(s.kept.policies, log[i]);
    assert NotContrary(s.kept.policies, ChangeOf(s.group.log[i]));
    var id := log[i].id;
    assert UpsertOf(log[i], id);
    VersionsIgnoreOrder(log, order, id);
    assert id in s.group.table && log[i].version <= s.group.table[id].version;
  }

  // An edit whose commit fails, a publication that announces it and whose write fails, and a restart: the
  // expectation is at version 2, and the policy back at version 1.
  lemma RestartGoesBack(content: Content) returns (s: System)
    requires StorableContent(content)
    ensures Arises(s) && s.lost == 0 && Drained(s.group)
    ensures s.source.policies == map["p" := Policy(content, "", 1, false, false)]
    ensures s.group.table == map["p" := Row(content, 2, true)]
  {
    var e := PolicyEvent(PolicyPublished, "p", Policy(content, "", 2, false, false));
    var m := EditForgotten(content);
    EventChange(PolicyPublished, "p", Policy(content, "", 2, false, false));
    hide Arises, Next, Enabled;
    var read, handled, acked := OneEntry(m.group, e);
    ArisesNext(m, Consume(ReadNew(0)));
    ArisesNext(m.(group := read), Consume(Handle(0)));
    ArisesNext(m.(group := handled), Consume(Ack(0)));
    s := m.(group := acked);
  }

  // The edit is seen, but not committed.
  lemma EditLeftOpen(content: Content) returns (s: System)
    ensures Arises(s) && s.lost == 0 && s.group == Init(50, 1)
    ensures s.kept == Source(map["p" := Policy(content, "", 1, false, false)], [])
    ensures s.source == Source(map["p" := Policy(content, "", 2, false, false)], [])
  {
    assert History(Start(50, 1), [], Start(50, 1));
    var create := Serve(CreatePolicy("p", content, ""), Taken, Committed);
    var edit := Serve(UpdatePolicy("p", Edit(None, None, None, None)), Taken, NotKept);
    ArisesNext(Start(50, 1), create);
    ArisesNext(Act(Start(50, 1), create), edit);
    s := Act(Act(Start(50, 1), create), edit);
  }

  lemma EditForgotten(content: Content) returns (s: System)
    ensures Arises(s) && s.lost == 0 && s.source.policies == map["p" := Policy(content, "", 1, false, false)]
    ensures s.group == Init(50, 1).(
      log := [PolicyEvent(PolicyPublished, "p", Policy(content, "", 2, false, false))], created := true)
  {
    var open := EditLeftOpen(content);
    var announced := Act(open, Serve(PublishPolicy("p", "e"), Taken, NotWritten));
    ArisesNext(open, Serve(PublishPolicy("p", "e"), Taken, NotWritten));
    ArisesNext(announced, Restart);
    ArisesNext(Act(announced, Restart), Consume(EnsureGroup));
    s := Act(Act(announced, Restart), Consume(EnsureGroup));
  }
}
