/** The batches a computer's polls hand over: the requests above an offset, in id
    order, twenty at a time. */
module PollBatches {

  const POLL_LIMIT: nat := 20

  lemma {:induction false} SmallestOf(ids: set<nat>) returns (smallest: nat)
    requires ids != {}
    ensures smallest in ids && forall id :: id in ids ==> smallest <= id
    decreases ids
  {
    var one :| one in ids;
    var rest := ids - {one};
    smallest := one;
    if rest != {} {
      var least := SmallestOf(rest);
      smallest := if one < least then one else least;
    }
    assert forall id :: id in ids ==> id == one || id in rest;
  }

  function Smallest(ids: set<nat>): (smallest: nat)
    requires ids != {}
    ensures smallest in ids && forall id :: id in ids ==> smallest <= id
  {
    assert exists id :: id in ids && forall other :: other in ids ==> id <= other by {
      var least := SmallestOf(ids);
    }
    var id :| id in ids && forall other :: other in ids ==> id <= other;
    id
  }

  function Sorted(ids: set<nat>): seq<nat> {
    if ids == {} then [] else [Smallest(ids)] + Sorted(ids - {Smallest(ids)})
  }

  function Past(ids: set<nat>, after: nat): set<nat> {
    set id | id in ids && after < id
  }

  /** What one poll hands over. */
  function Batch(ids: set<nat>, after: nat): seq<nat> {
    var pending := Sorted(Past(ids, after));
    if |pending| <= POLL_LIMIT then pending else pending[..POLL_LIMIT]
  }

  predicate Ascending(s: seq<nat>) {
    forall i, j :: 0 <= i < j < |s| ==> s[i] < s[j]
  }

  lemma {:induction false} SortedSorts(ids: set<nat>)
    ensures Ascending(Sorted(ids))
    ensures forall id :: id in Sorted(ids) <==> id in ids
    decreases ids
  {
    if ids != {} {
      var first := Smallest(ids);
      var rest := Sorted(ids - {first});
      SortedSorts(ids - {first});
      forall j | 0 <= j < |rest|
        ensures first < rest[j]
      {
        assert rest[j] in rest;
      }
    }
  }

  lemma SomeMember(s: seq<nat>)
    ensures s != [] ==> exists id :: id in s
  {
    if s != [] { assert s[0] in s; }
  }

  /** An ascending list is told by its members. */
  lemma {:induction false} OneAscending(a: seq<nat>, b: seq<nat>)
    requires Ascending(a) && Ascending(b)
    requires forall id :: id in a <==> id in b
    ensures a == b
    decreases |a|
  {
    SomeMember(a);
    SomeMember(b);
    if a != [] && b != [] {
      assert a[0] in b && b[0] in a;
      assert a[0] == b[0];
      forall id
        ensures id in a[1..] <==> id in b[1..]
      {
        assert id in a[1..] <==> id in a && id != a[0];
        assert id in b[1..] <==> id in b && id != b[0];
      }
      OneAscending(a[1..], b[1..]);
      assert a == [a[0]] + a[1..] && b == [b[0]] + b[1..];
    }
  }

  /** A batch holds only requests past the offset, in id order, and skips none:
      every one up to its last, and with room to spare every one there is. */
  lemma BatchIsPrefix(ids: set<nat>, after: nat)
    ensures var batch := Batch(ids, after);
            && |batch| <= POLL_LIMIT && Ascending(batch)
            && (forall id :: id in batch ==> id in ids && after < id)
            && (forall id :: id in ids && after < id && batch != [] && id <= batch[|batch| - 1] ==> id in batch)
            && (|batch| < POLL_LIMIT ==> forall id :: id in ids && after < id ==> id in batch)
  {
    var pending := Sorted(Past(ids, after));
    SortedSorts(Past(ids, after));
    var batch := Batch(ids, after);
    assert forall id :: id in batch ==> id in pending;
    forall id | id in ids && after < id && batch != [] && id <= batch[|batch| - 1]
      ensures id in batch
    {
      assert id in pending;
      var k :| 0 <= k < |pending| && pending[k] == id;
      assert k < |batch|;
    }
  }

  /** With one request past the offset, a batch is that request. */
  lemma OnlyOnePast(ids: set<nat>, after: nat, one: nat)
    requires forall id :: id in ids && after < id ==> id == one
    requires one in ids
    ensures Batch(ids, after) == if after < one then [one] else []
  {
    BatchIsPrefix(ids, after);
    hide Batch;
    var batch := Batch(ids, after);
    SomeMember(batch);
    if after < one {
      OneAscending(batch, [one]);
    }
  }

  lemma Joined(a: seq<nat>, b: seq<nat>)
    requires Ascending(a) && Ascending(b)
    requires forall id :: id in b && a != [] ==> a[|a| - 1] < id
    ensures Ascending(a + b)
  {
    assert forall i :: 0 <= i < |b| ==> b[i] in b;
  }

  /** Polling on from the last id each time, while nothing comes or goes. */
  function Drain(ids: set<nat>, after: nat): seq<nat>
    decreases Past(ids, after)
  {
    var batch := Batch(ids, after);
    if batch == [] then []
    else
      BatchIsPrefix(ids, after);
      assert batch[0] in Past(ids, after) && batch[0] !in Past(ids, batch[|batch| - 1]);
      batch + Drain(ids, batch[|batch| - 1])
  }

  /** The batches together are the requests past the offset, each once, in order. */
  lemma {:induction false} DrainIsAll(ids: set<nat>, after: nat)
    ensures Drain(ids, after) == Sorted(Past(ids, after))
    decreases Past(ids, after)
  {
    var batch := Batch(ids, after);
    BatchIsPrefix(ids, after);
    SortedSorts(Past(ids, after));
    if batch != [] {
      var last := batch[|batch| - 1];
      assert batch[0] in Past(ids, after) && batch[0] !in Past(ids, last);
      DrainIsAll(ids, last);
      var rest := Sorted(Past(ids, last));
      SortedSorts(Past(ids, last));
      Joined(batch, rest);
      forall id
        ensures id in batch + rest <==> id in Sorted(Past(ids, after))
      {
        assert batch[|batch| - 1] in batch;
      }
      OneAscending(batch + rest, Sorted(Past(ids, after)));
    }
  }

  // ---- what has been handed over ----

  /** The requests on a computer's list, an id that new ones will be past, the offset
      the computer polls from, and what its polls have handed over so far. */
  datatype Desk = Desk(live: set<nat>, newest: nat, offset: nat, handed: seq<nat>)

  /** A poll from the offset; the last id received is the next offset. */
  function HandOver(d: Desk): Desk {
    var batch := Batch(d.live, d.offset);
    if batch == [] then d else d.(offset := batch[|batch| - 1], handed := d.handed + batch)
  }

  /** Nothing live is behind the offset unless it was handed over, and nothing was
      handed over twice or out of order. */
  ghost predicate Kept(d: Desk) {
    && d.offset <= d.newest
    && (forall id :: id in d.live ==> id <= d.newest)
    && (forall id :: id in d.live && id <= d.offset ==> id in d.handed)
    && (forall id :: id in d.handed ==> id <= d.offset)
    && Ascending(d.handed)
  }

  lemma HandOverKeeps(d: Desk)
    requires Kept(d)
    ensures Kept(HandOver(d))
  {
    var batch := Batch(d.live, d.offset);
    BatchIsPrefix(d.live, d.offset);
    hide Batch, Past, Sorted;
    if batch != [] {
      assert batch[|batch| - 1] in batch;
      assert d.handed != [] ==> d.handed[|d.handed| - 1] in d.handed;
      Joined(d.handed, batch);
    }
  }
}
