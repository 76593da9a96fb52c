// The Compliance Service's own view of the policies: the table `policy_expectations`, and the event
// handler that maintains it.
module Expectations {
  import opened Wrappers
  import opened Events

  datatype Row = Row(content: Content, version: int, active: bool)

  type Table = map<string, Row>

  // What handling one event asks of the table.
  datatype Change = Upsert(id: string, content: Content, version: int) | Retire(id: string) | Nothing

  // The version column is a 32-bit INTEGER.
  predicate FitsInteger(n: int) {
    -0x8000_0000 <= n < 0x8000_0000
  }

  // What the conversion or the column refuses. A default stands in only for a key that is absent.
  predicate Rejected<T>(f: Field<T>) {
    f.Null? || f.Unusable?
  }

  function OrDefault<T>(f: Field<T>, default: T): T
    requires !Rejected(f)
  {
    if f.Given? then f.value else default
  }

  // Null is a JSON value like any other here.
  function SettingsOf(f: Field<Json>): Json
    requires !f.Unusable?
  {
    match f
    case Absent => "{}"
    case Null => "null"
    case Given(value) => value
  }

  // Reading an event: the change it asks for, or None when the handler raises.
  function Interpret(e: Event): Option<Change> {
    match e.payload
    case Absent => Some(Nothing)
    case Null => Some(Nothing)
    case Unusable => None
    case Given(p) =>
      if p.policyId.Absent? || p.policyId.Null? || p.policyId == Given("") then Some(Nothing)
      else match e.kind
        case Unrecognised => Some(Nothing)
        case PolicyDeleted => if p.policyId.Given? then Some(Retire(p.policyId.value)) else None
        case _ =>
          if p.policyId.Unusable? || Rejected(p.name) || Rejected(p.targetGroup) || Rejected(p.version)
             || p.settings.Unusable? || !FitsInteger(OrDefault(p.version, 1)) then
            None
          else
            Some(Upsert(p.policyId.value,
                        Content(OrDefault(p.name, "unnamed"), OrDefault(p.targetGroup, "default"),
                                SettingsOf(p.settings)),
                        OrDefault(p.version, 1)))
  }

  function Max(a: int, b: int): int {
    if a < b then b else a
  }

  function Apply(t: Table, c: Change): Table {
    match c
    case Upsert(id, content, version) =>
      t[id := Row(content, if id in t then Max(t[id].version, version) else version, true)]
    case Retire(id) => if id in t then t[id := t[id].(active := false)] else t
    case Nothing => t
  }

  // The table after a whole history of changes, starting empty.
  function ApplyAll(cs: seq<Change>): Table {
    if cs == [] then map[] else Apply(ApplyAll(cs[..|cs| - 1]), cs[|cs| - 1])
  }

  lemma ApplyAllSnoc(cs: seq<Change>, c: Change)
    ensures ApplyAll(cs + [c]) == Apply(ApplyAll(cs), c)
  {
    assert (cs + [c])[..|cs|] == cs;
  }

  // What can go wrong with the one statement the handler executes: the database refuses it, or the
  // statement commits but its confirmation is lost.
  datatype Fault = NoFault | BeforeCommit | AfterCommit

  // The event is not about a policy, or of a kind that the handler does not know.
  predicate AsksNothing(e: Event) {
    || e.payload.Absent? || e.payload.Null?
    || (e.payload.Given? && (var id := e.payload.value.policyId;
                             id.Absent? || id.Null? || id == Given("")
                             || e.kind.Unrecognised?))
  }

  // The event names a policy, and a publication or an edit carries nothing that the conversion or a column
  // refuses. Versions have 32 bits.
  predicate Acceptable(e: Event) {
    && e.payload.Given? && e.payload.value.policyId.Given?
    && (e.kind.PolicyDeleted? ||
        var p := e.payload.value;
        && (p.name.Absent? || p.name.Given?) && (p.targetGroup.Absent? || p.targetGroup.Given?)
        && (p.version.Absent? || (p.version.Given? && -0x8000_0000 <= p.version.value < 0x8000_0000))
        && !p.settings.Unusable?)
  }

  // The row after the upsert, from the payload and the row before: every column is what was sent, or the
  // default for what was not, except that the version never decreases.
  predicate UpsertedFrom(p: Payload, before: Option<Row>, after: Option<Row>) {
    && after.Some? && after.value.active
    && after.value.content.name == (if p.name.Given? then p.name.value else "unnamed")
    && after.value.content.targetGroup == (if p.targetGroup.Given? then p.targetGroup.value else "default")
    && after.value.content.settings ==
         (if p.settings.Given? then p.settings.value else if p.settings.Null? then "null" else "{}")
    && var sent := if p.version.Given? then p.version.value else 1;
       after.value.version == if before.Some? && before.value.version > sent then before.value.version else sent
  }

  // What acting on an event does to the table: a deletion deactivates the row if there is one, anything else
  // upserts it, and no other row is touched.
  ghost predicate ActedOn(e: Event, before: Table, after: Table)
    requires Acceptable(e)
  {
    var id := e.payload.value.policyId.value;
    && (forall other :: other != id ==>
          (other in after <==> other in before) && (other in after ==> after[other] == before[other]))
    && if e.kind.PolicyDeleted? then
         (id in after <==> id in before) && (id in after ==> after[id] == before[id].(active := false))
       else
         UpsertedFrom(e.payload.value, if id in before then Some(before[id]) else None,
                      if id in after then Some(after[id]) else None)
  }

  // The reading of events and the change to the table, said without them.
  lemma HandlingMeans(e: Event, t: Table)
    ensures Interpret(e).Some? <==> AsksNothing(e) || Acceptable(e)
    ensures Interpret(e) == Some(Nothing) <==> AsksNothing(e)
    ensures Acceptable(e) && !AsksNothing(e) ==> ActedOn(e, t, Apply(t, Interpret(e).value))
  {
  }

  // The service side of the handler: `events` counts the events that were acted on.
  class ExpectationStore {
    var table: Table
    var events: nat

    constructor ()
      ensures table == map[] && events == 0
    {
      table, events := map[], 0;
    }

    // Handles one event. An event that asks for nothing never reaches the database.
    method HandleEvent(event: Event, fault: Fault) returns (ok: bool)
      modifies this
      ensures ok <==> Interpret(event).Some? && (fault.NoFault? || Interpret(event).value.Nothing?)
      ensures table == if ok || (Interpret(event).Some? && fault.AfterCommit?)
                       then Apply(old(table), Interpret(event).value) else old(table)
      ensures events == old(events) + (if ok && !Interpret(event).value.Nothing? then 1 else 0)
      ensures ok <==> AsksNothing(event) || (Acceptable(event) && fault.NoFault?)
      ensures AsksNothing(event) ==> ok && table == old(table) && events == old(events)
      ensures ok && !AsksNothing(event) ==> events == old(events) + 1
      ensures Acceptable(event) && !AsksNothing(event) && !fault.BeforeCommit? ==> ActedOn(event, old(table), table)
      ensures !ok && !fault.AfterCommit? ==> table == old(table)
    {
      HandlingMeans(event, table);
      hide ActedOn, AsksNothing, Acceptable;
      if event.payload.Unusable? {
        return false;
      }
      if event.payload.Absent? || event.payload.Null? {
        return true;
      }
      var p := event.payload.value;
      if p.policyId.Absent? || p.policyId.Null? || p.policyId == Given("") {
        return true;
      }
      match event.kind {
        case PolicyPublished | PolicyUpdated =>
          if p.policyId.Unusable? || Rejected(p.name) || Rejected(p.targetGroup) || Rejected(p.version)
             || p.settings.Unusable? {
            return false;
          }
          var version := OrDefault(p.version, 1);
          if !FitsInteger(version) || fault.BeforeCommit? {
            return false;
          }
          var id := p.policyId.value;
          var content := Content(OrDefault(p.name, "unnamed"), OrDefault(p.targetGroup, "default"),
                                 SettingsOf(p.settings));
          if id in table && version < table[id].version {
            version := table[id].version;
          }
          table := table[id := Row(content, version, true)];
        case PolicyDeleted =>
          if p.policyId.Unusable? || fault.BeforeCommit? {
            return false;
          }
          if p.policyId.value in table {
            table := table[p.policyId.value := table[p.policyId.value].(active := false)];
          }
        case Unrecognised =>
          return true;
      }
      if fault.AfterCommit? {
        return false;
      }
      events := events + 1;
      return true;
    }
  }

  // ----- What the table means, said without the handler -----

  predicate UpsertOf(c: Change, id: string) {
    c.Upsert? && c.id == id
  }

  ghost predicate Announced(cs: seq<Change>, id: string) {
    exists k :: 0 <= k < |cs| && UpsertOf(cs[k], id)
  }

  // Position k holds the last upsert of `id` in the history.
  ghost predicate LastUpsertAt(cs: seq<Change>, id: string, k: nat) {
    && k < |cs|
    && UpsertOf(cs[k], id)
    && forall j :: k < j < |cs| ==> !UpsertOf(cs[j], id)
  }

  ghost predicate RetiredAfter(cs: seq<Change>, id: string, k: nat) {
    exists j :: k < j < |cs| && cs[j] == Retire(id)
  }

  // `v` is the largest version that any upsert of `id` carries.
  ghost predicate MaxVersion(cs: seq<Change>, id: string, v: int) {
    && (forall j :: 0 <= j < |cs| && UpsertOf(cs[j], id) ==> cs[j].version <= v)
    && (exists j :: 0 <= j < |cs| && UpsertOf(cs[j], id) && cs[j].version == v)
  }

  ghost predicate Describes(cs: seq<Change>, id: string, k: nat, row: Row) {
    && LastUpsertAt(cs, id, k)
    && row.content == cs[k].content
    && MaxVersion(cs, id, row.version)
    && (row.active <==> !RetiredAfter(cs, id, k))
  }

  lemma AnnouncedSnoc(cs: seq<Change>, c: Change, id: string)
    ensures Announced(cs + [c], id) <==> Announced(cs, id) || UpsertOf(c, id)
  {
    var ds := cs + [c];
    if Announced(ds, id) {
      var k :| 0 <= k < |ds| && UpsertOf(ds[k], id);
      assert k < |cs| ==> UpsertOf(cs[k], id);
    }
    if Announced(cs, id) {
      var k :| 0 <= k < |cs| && UpsertOf(cs[k], id);
      assert UpsertOf(ds[k], id);
    }
    assert ds[|cs|] == c;
  }

  lemma RetiredSnoc(cs: seq<Change>, c: Change, id: string, k: nat)
    requires k < |cs|
    ensures RetiredAfter(cs + [c], id, k) <==> RetiredAfter(cs, id, k) || c == Retire(id)
  {
    var ds := cs + [c];
    if RetiredAfter(ds, id, k) {
      var j :| k < j < |ds| && ds[j] == Retire(id);
      assert j < |cs| ==> cs[j] == Retire(id);
    }
    if RetiredAfter(cs, id, k) {
      var j :| k < j < |cs| && cs[j] == Retire(id);
      assert ds[j] == Retire(id);
    }
    assert ds[|cs|] == c;
  }

  lemma MaxVersionSnoc(cs: seq<Change>, c: Change, id: string, v: int)
    requires MaxVersion(cs, id, v)
    ensures MaxVersion(cs + [c], id, if UpsertOf(c, id) then Max(v, c.version) else v)
  {
    var ds := cs + [c];
    var j :| 0 <= j < |cs| && UpsertOf(cs[j], id) && cs[j].version == v;
    assert UpsertOf(ds[j], id) && ds[j].version == v;
    assert ds[|cs|] == c;
    forall i | 0 <= i < |ds| && UpsertOf(ds[i], id) ensures i < |cs| ==> ds[i].version <= v {
      assert i < |cs| ==> UpsertOf(cs[i], id);
    }
  }

  lemma DescribesSnoc(cs: seq<Change>, c: Change, id: string, k: nat, row: Row)
    requires Describes(cs, id, k, row)
    ensures id in Apply(map[id := row], c)
    ensures Describes(cs + [c], id, if UpsertOf(c, id) then |cs| else k, Apply(map[id := row], c)[id])
  {
    MaxVersionSnoc(cs, c, id, row.version);
    RetiredSnoc(cs, c, id, k);
  }

  // A row exists exactly when the policy was announced; its content is that of the last upsert, its
  // version the maximum over all upserts, and it is active unless retired since the last upsert.
  lemma {:induction false} TableMeaning(cs: seq<Change>, id: string)
    ensures id in ApplyAll(cs) <==> Announced(cs, id)
    ensures id in ApplyAll(cs) ==> exists k: nat :: Describes(cs, id, k, ApplyAll(cs)[id])
  {
    if cs != [] {
      var front, c := cs[..|cs| - 1], cs[|cs| - 1];
      assert cs == front + [c];
      TableMeaning(front, id);
      AnnouncedSnoc(front, c, id);
      var before := ApplyAll(front);
      if id in before {
        var k: nat :| Describes(front, id, k, before[id]);
        DescribesSnoc(front, c, id, k, before[id]);
      } else if UpsertOf(c, id) {
        assert forall j :: 0 <= j < |front| ==> !UpsertOf(front[j], id);
        assert UpsertOf(cs[|front|], id);
        assert Describes(cs, id, |front|, ApplyAll(cs)[id]);
      }
    }
  }

  lemma LastUpsertUnique(cs: seq<Change>, id: string, k: nat, k': nat)
    requires LastUpsertAt(cs, id, k) && LastUpsertAt(cs, id, k')
    ensures k == k'
  {
  }

  lemma MaxVersionUnique(cs: seq<Change>, id: string, v: int, v': int)
    requires MaxVersion(cs, id, v) && MaxVersion(cs, id, v')
    ensures v == v'
  {
    var j :| 0 <= j < |cs| && UpsertOf(cs[j], id) && cs[j].version == v;
    var j' :| 0 <= j' < |cs| && UpsertOf(cs[j'], id) && cs[j'].version == v';
  }

  // The description determines the row, so two histories with the same description agree.
  lemma DescriptionIsExact(cs: seq<Change>, id: string, k: nat, row: Row)
    requires Describes(cs, id, k, row)
    ensures id in ApplyAll(cs) && ApplyAll(cs)[id] == row
  {
    assert Announced(cs, id);
    TableMeaning(cs, id);
    var k1: nat :| Describes(cs, id, k1, ApplyAll(cs)[id]);
    LastUpsertUnique(cs, id, k, k1);
    MaxVersionUnique(cs, id, row.version, ApplyAll(cs)[id].version);
  }

  // ----- Redelivery -----

  lemma ReplayAnnounced(cs: seq<Change>, m: nat, id: string)
    requires m <= |cs|
    ensures Announced(cs + cs[m..], id) ==> Announced(cs, id)
  {
    SourceIs(cs, m);
    var rs := cs + cs[m..];
    if Announced(rs, id) {
      var j :| 0 <= j < |rs| && UpsertOf(rs[j], id);
      assert UpsertOf(cs[Source(cs, m, j)], id);
    }
  }

  lemma SuffixReplayAt(cs: seq<Change>, m: nat, id: string)
    requires m <= |cs|
    ensures id in ApplyAll(cs + cs[m..]) <==> id in ApplyAll(cs)
    ensures id in ApplyAll(cs) ==> ApplyAll(cs + cs[m..])[id] == ApplyAll(cs)[id]
  {
    TableMeaning(cs, id);
    TableMeaning(cs + cs[m..], id);
    hide ApplyAll, Announced, Describes;
    ReplayAnnounced(cs, m, id);
    if id in ApplyAll(cs) {
      var row := ApplyAll(cs)[id];
      var k: nat :| Describes(cs, id, k, row);
      SuffixReplayRow(cs, m, id, k, row);
    }
  }

  // Handling a whole history and then any suffix of it again changes nothing.
  lemma SuffixReplay(cs: seq<Change>, m: nat)
    requires m <= |cs|
    ensures ApplyAll(cs + cs[m..]) == ApplyAll(cs)
  {
    hide ApplyAll;
    forall id ensures id in ApplyAll(cs + cs[m..]) <==> id in ApplyAll(cs)
              ensures id in ApplyAll(cs) ==> ApplyAll(cs + cs[m..])[id] == ApplyAll(cs)[id]
    {
      SuffixReplayAt(cs, m, id);
    }
  }

  // Where position j of `cs + cs[m..]` comes from.
  function Source(cs: seq<Change>, m: nat, j: int): int {
    if j < |cs| then j else j - |cs| + m
  }

  lemma SourceIs(cs: seq<Change>, m: nat)
    requires m <= |cs|
    ensures forall j :: 0 <= j < |cs + cs[m..]| ==>
                          0 <= Source(cs, m, j) < |cs| && (cs + cs[m..])[j] == cs[Source(cs, m, j)]
  {
  }

  lemma ReplayMaxVersion(cs: seq<Change>, m: nat, id: string, v: int)
    requires m <= |cs| && MaxVersion(cs, id, v)
    ensures MaxVersion(cs + cs[m..], id, v)
  {
    SourceIs(cs, m);
    var j :| 0 <= j < |cs| && UpsertOf(cs[j], id) && cs[j].version == v;
    assert UpsertOf((cs + cs[m..])[j], id) && (cs + cs[m..])[j].version == v;
  }

  lemma ReplayRetired(cs: seq<Change>, m: nat, id: string, k: nat)
    requires m <= |cs| && k < |cs|
    ensures RetiredAfter(cs + cs[m..], id, if k < m then k else k + |cs| - m) <==> RetiredAfter(cs, id, k)
  {
    SourceIs(cs, m);
    var rs, k' := cs + cs[m..], if k < m then k else k + |cs| - m;
    if RetiredAfter(cs, id, k) {
      var j :| k < j < |cs| && cs[j] == Retire(id);
      assert rs[if k < m then j else j + |cs| - m] == Retire(id);
    }
    if RetiredAfter(rs, id, k') {
      var j :| k' < j < |rs| && rs[j] == Retire(id);
      assert cs[Source(cs, m, j)] == Retire(id);
    }
  }

  lemma SuffixReplayRow(cs: seq<Change>, m: nat, id: string, k: nat, row: Row)
    requires m <= |cs| && Describes(cs, id, k, row)
    ensures id in ApplyAll(cs + cs[m..]) && ApplyAll(cs + cs[m..])[id] == row
  {
    var k' := if k < m then k else k + |cs| - m;
    SourceIs(cs, m);
    ReplayMaxVersion(cs, m, id, row.version);
    ReplayRetired(cs, m, id, k);
    assert LastUpsertAt(cs + cs[m..], id, k');
    DescriptionIsExact(cs + cs[m..], id, k', row);
  }

  // When a single change that was already handled can be handled again without effect.
  ghost predicate Current(cs: seq<Change>, c: Change) {
    match c
    case Nothing => true
    case Retire(id) => forall k: nat :: LastUpsertAt(cs, id, k) ==> RetiredAfter(cs, id, k)
    case Upsert(id, content, _) =>
      forall k: nat :: LastUpsertAt(cs, id, k) ==> cs[k].content == content && !RetiredAfter(cs, id, k)
  }

  // The handler is documented as safe under redelivery. It is so exactly when the redelivered event
  // is still the current word on its policy; otherwise it undoes what was handled since.
  lemma RedeliveryHarmlessIff(cs: seq<Change>, i: nat)
    requires i < |cs|
    ensures ApplyAll(cs + [cs[i]]) == ApplyAll(cs) <==> Current(cs, cs[i])
  {
    var c := cs[i];
    ApplyAllSnoc(cs, c);
    var t := ApplyAll(cs);
    if !c.Nothing? {
      var id := c.id;
      TableMeaning(cs, id);
      if id in t {
        var k: nat :| Describes(cs, id, k, t[id]);
        assert forall k1: nat :: LastUpsertAt(cs, id, k1) ==> k1 == k;
        var t' := Apply(t, c);
        assert t'[id] == t[id] ==> t' == t;
        if c.Upsert? { assert UpsertOf(cs[i], id); }
      }
    }
  }

  // A late redelivery of an older event: the version stays at 2, but the settings go back to those of
  // version 1, and a deleted policy comes back to life.
  lemma RedeliveryCanUndo(one: Change, two: Change)
    requires one == Upsert("p", Content("n", "g", "1"), 1)
    requires two == Upsert("p", Content("n", "g", "2"), 2)
    ensures ApplyAll([one, two]) == map["p" := Row(two.content, 2, true)]
    ensures ApplyAll([one, two, one]) == map["p" := Row(one.content, 2, true)]
    ensures ApplyAll([one, Retire("p")]) == map["p" := Row(one.content, 1, false)]
    ensures ApplyAll([one, Retire("p"), one]) == map["p" := Row(one.content, 1, true)]
  {
    TableOfTwo(one, two);
    TableOfTwo(one, Retire("p"));
    ApplyAllSnoc([one, two], one);
    ApplyAllSnoc([one, Retire("p")], one);
    assert [one, two] + [one] == [one, two, one];
    assert [one, Retire("p")] + [one] == [one, Retire("p"), one];
  }

  lemma TableOfTwo(a: Change, b: Change)
    ensures ApplyAll([a, b]) == Apply(Apply(map[], a), b)
  {
    assert [a, b] == [a] + [b] && [a] == [] + [a];
    ApplyAllSnoc([a], b);
    ApplyAllSnoc([], a);
  }
}
