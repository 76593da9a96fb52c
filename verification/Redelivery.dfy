// The log of changes against the order in which a consumer group really handles it: entries may be
// handled late, again, or out of order.
module Redelivery {
  import opened Expectations

  // A processing order names log positions, one per completed handling.
  predicate Within(order: seq<nat>, n: nat) {
    forall j :: 0 <= j < |order| ==> order[j] < n
  }

  function Pick(log: seq<Change>, order: seq<nat>): (cs: seq<Change>)
    requires Within(order, |log|)
    ensures |cs| == |order|
    ensures forall j :: 0 <= j < |order| ==> cs[j] == log[order[j]]
  {
    seq(|order|, j requires 0 <= j < |order| => log[order[j]])
  }

  lemma PickSnoc(log: seq<Change>, order: seq<nat>, i: nat)
    requires Within(order, |log|) && i < |log|
    ensures Within(order + [i], |log|)
    ensures Pick(log, order + [i]) == Pick(log, order) + [log[i]]
  {
  }

  // Every entry that asks for something has been handled at least once.
  ghost predicate Covers(log: seq<Change>, order: seq<nat>) {
    forall i :: 0 <= i < |log| && !log[i].Nothing? ==> i in order
  }

  lemma AnnouncedInOrder(log: seq<Change>, order: seq<nat>, id: string)
    requires Within(order, |log|) && Covers(log, order)
    ensures Announced(Pick(log, order), id) <==> Announced(log, id)
  {
    var cs := Pick(log, order);
    if Announced(cs, id) {
      var j :| 0 <= j < |cs| && UpsertOf(cs[j], id);
      assert UpsertOf(log[order[j]], id);
    }
    if Announced(log, id) {
      var i :| 0 <= i < |log| && UpsertOf(log[i], id);
      var j :| 0 <= j < |order| && order[j] == i;
      assert UpsertOf(cs[j], id);
    }
  }

  lemma MaxVersionInOrder(log: seq<Change>, order: seq<nat>, id: string, v: int)
    requires Within(order, |log|) && Covers(log, order)
    ensures MaxVersion(Pick(log, order), id, v) <==> MaxVersion(log, id, v)
  {
    var cs := Pick(log, order);
    if MaxVersion(cs, id, v) {
      forall i | 0 <= i < |log| && UpsertOf(log[i], id) ensures log[i].version <= v {
        var j :| 0 <= j < |order| && order[j] == i;
        assert UpsertOf(cs[j], id);
      }
      var j :| 0 <= j < |cs| && UpsertOf(cs[j], id) && cs[j].version == v;
      assert UpsertOf(log[order[j]], id) && log[order[j]].version == v;
    }
    if MaxVersion(log, id, v) {
      forall j | 0 <= j < |cs| && UpsertOf(cs[j], id) ensures cs[j].version <= v {
        assert UpsertOf(log[order[j]], id);
      }
      var i :| 0 <= i < |log| && UpsertOf(log[i], id) && log[i].version == v;
      var j :| 0 <= j < |order| && order[j] == i;
      assert UpsertOf(cs[j], id) && cs[j].version == v;
    }
  }

  // Once everything has been handled, which rows exist and which versions they carry depend neither on
  // order nor on duplication: the version is the maximum in the log.
  lemma VersionsIgnoreOrder(log: seq<Change>, order: seq<nat>, id: string)
    requires Within(order, |log|) && Covers(log, order)
    ensures id in ApplyAll(Pick(log, order)) <==> Announced(log, id)
    ensures id in ApplyAll(Pick(log, order)) ==> MaxVersion(log, id, ApplyAll(Pick(log, order))[id].version)
  {
    var cs := Pick(log, order);
    AnnouncedInOrder(log, order, id);
    TableMeaning(cs, id);
    if id in ApplyAll(cs) {
      var k: nat :| Describes(cs, id, k, ApplyAll(cs)[id]);
      MaxVersionInOrder(log, order, id, ApplyAll(cs)[id].version);
    }
  }

  // The rest of the row follows processing order. `SameEnding` says that the upsert handled last
  // carries what the last upsert of the log carries, and that both agree on what came after it.
  ghost predicate SameEnding(log: seq<Change>, order: seq<nat>, id: string)
    requires Within(order, |log|)
  {
    forall k: nat, j: nat :: LastUpsertAt(log, id, k) && LastUpsertAt(Pick(log, order), id, j) ==>
      && log[order[j]].content == log[k].content
      && (RetiredAfter(Pick(log, order), id, j) <==> RetiredAfter(log, id, k))
  }

  // The whole row is what in-order handling would have produced exactly when the ending is the same.
  lemma RowIsExactIff(log: seq<Change>, order: seq<nat>, id: string)
    requires Within(order, |log|) && Covers(log, order)
    ensures id in ApplyAll(Pick(log, order)) <==> id in ApplyAll(log)
    ensures id in ApplyAll(log) ==>
      (ApplyAll(Pick(log, order))[id] == ApplyAll(log)[id] <==> SameEnding(log, order, id))
  {
    var cs := Pick(log, order);
    AnnouncedInOrder(log, order, id);
    TableMeaning(cs, id);
    TableMeaning(log, id);
    if id in ApplyAll(log) {
      var row, row' := ApplyAll(log)[id], ApplyAll(cs)[id];
      var k: nat :| Describes(log, id, k, row);
      var j: nat :| Describes(cs, id, j, row');
      MaxVersionInOrder(log, order, id, row'.version);
      MaxVersionUnique(log, id, row.version, row'.version);
      SameEndingAt(log, order, id, k, j);
    }
  }

  lemma SameEndingAt(log: seq<Change>, order: seq<nat>, id: string, k: nat, j: nat)
    requires Within(order, |log|)
    requires LastUpsertAt(log, id, k) && LastUpsertAt(Pick(log, order), id, j)
    ensures SameEnding(log, order, id) <==>
      && log[order[j]].content == log[k].content
      && (RetiredAfter(Pick(log, order), id, j) <==> RetiredAfter(log, id, k))
  {
    var cs := Pick(log, order);
    forall k': nat, j': nat | LastUpsertAt(log, id, k') && LastUpsertAt(cs, id, j') ensures k' == k && j' == j {
      LastUpsertUnique(log, id, k, k');
      LastUpsertUnique(cs, id, j, j');
    }
  }

  // ----- Processing in stream order, with replays -----

  // The consumer moves forward one entry at a time, and may fall back to any earlier entry, as often
  // as it likes, before it reaches the end.
  ghost predicate ForwardWithReplays(order: seq<nat>, n: nat) {
    && Within(order, n)
    && (n > 0 ==> |order| > 0 && order[0] == 0 && order[|order| - 1] == n - 1)
    && forall j :: 0 < j < |order| ==> NoLeap(order, j)
  }

  predicate NoLeap(order: seq<nat>, j: int)
    requires 0 < j < |order|
  {
    order[j] <= order[j - 1] + 1
  }

  // Moving forward one at a time passes through everything in between.
  lemma {:induction false} Passes(order: seq<nat>, n: nat, from: nat, i: nat) returns (j: nat)
    requires ForwardWithReplays(order, n)
    requires from < |order| && order[from] <= i < n
    ensures from <= j < |order| && order[j] == i
    decreases |order| - from
  {
    if order[from] == i {
      j := from;
    } else {
      assert NoLeap(order, from + 1);
      j := Passes(order, n, from + 1, i);
    }
  }

  // After the last handling of position k only later positions are handled.
  lemma OnlyLaterAfter(order: seq<nat>, n: nat, m: nat, j: nat)
    requires ForwardWithReplays(order, n)
    requires m < j < |order|
    requires forall j1 :: m < j1 < |order| ==> order[j1] != order[m]
    ensures order[m] < order[j]
  {
    if order[j] <= order[m] {
      var j1 := Passes(order, n, j, order[m]);
    }
  }

  lemma {:induction false} LastOccurrence(order: seq<nat>, i: nat) returns (m: nat)
    requires i in order
    ensures m < |order| && order[m] == i
    ensures forall j :: m < j < |order| ==> order[j] != i
  {
    m := |order| - 1;
    if order[m] != i {
      assert order[..m] + [order[m]] == order;
      m := LastOccurrence(order[..m], i);
    }
  }

  // The upsert handled last is the log's last one, and handling it was the last time.
  lemma LastIsLast(log: seq<Change>, order: seq<nat>, id: string, k: nat, j: nat)
    requires ForwardWithReplays(order, |log|)
    requires LastUpsertAt(log, id, k) && LastUpsertAt(Pick(log, order), id, j)
    ensures order[j] == k && forall x :: j < x < |order| ==> order[x] != k
  {
    var cs := Pick(log, order);
    var first := Passes(order, |log|, 0, k);
    var m := LastOccurrence(order, k);
    assert UpsertOf(cs[m], id) && UpsertOf(log[order[j]], id);
    if m < j {
      OnlyLaterAfter(order, |log|, m, j);
      assert false;
    }
  }

  lemma RetiredAlike(log: seq<Change>, order: seq<nat>, id: string, k: nat, j: nat)
    requires ForwardWithReplays(order, |log|) && k < |log|
    requires j < |order| && order[j] == k && forall x :: j < x < |order| ==> order[x] != k
    ensures RetiredAfter(Pick(log, order), id, j) <==> RetiredAfter(log, id, k)
  {
    var cs := Pick(log, order);
    if RetiredAfter(cs, id, j) {
      var x :| j < x < |cs| && cs[x] == Retire(id);
      OnlyLaterAfter(order, |log|, j, x);
      assert log[order[x]] == Retire(id);
    }
    if RetiredAfter(log, id, k) {
      var i :| k < i < |log| && log[i] == Retire(id);
      var x := Passes(order, |log|, j, i);
      assert cs[x] == Retire(id);
    }
  }

  lemma ReplayedEnding(log: seq<Change>, order: seq<nat>, id: string)
    requires ForwardWithReplays(order, |log|)
    ensures SameEnding(log, order, id)
  {
    if k: nat, j: nat :| LastUpsertAt(log, id, k) && LastUpsertAt(Pick(log, order), id, j) {
      LastIsLast(log, order, id, k, j);
      RetiredAlike(log, order, id, k, j);
      SameEndingAt(log, order, id, k, j);
    }
  }

  // Replaying stretches of already handled entries along the way does not show in the final table.
  lemma ReplaysAreInvisible(log: seq<Change>, order: seq<nat>)
    requires ForwardWithReplays(order, |log|)
    ensures ApplyAll(Pick(log, order)) == ApplyAll(log)
  {
    forall i | 0 <= i < |log| ensures i in order {
      var j := Passes(order, |log|, 0, i);
    }
    forall id ensures id in ApplyAll(Pick(log, order)) <==> id in ApplyAll(log)
              ensures id in ApplyAll(log) ==> ApplyAll(Pick(log, order))[id] == ApplyAll(log)[id]
    {
      RowIsExactIff(log, order, id);
      ReplayedEnding(log, order, id);
    }
  }
}
