/**
 GET /api/stats: the total, the counts of two workflow states, and the two GROUP BY
 breakdowns. A breakdown is a list of `{key, count}` rows, as the query returns it.
 */
module Stats {
  import opened Schema
  import opened Queries

  /** One row of `SELECT column, COUNT(*) ... GROUP BY column`. */
  datatype Group = Group(key: string, count: nat)

  datatype Summary = Summary(
    total: nat,
    scheduled: nat,
    published: nat,
    byPlatform: seq<Group>,
    byStatus: seq<Group>)

  function SumCounts(gs: seq<Group>): nat {
    if gs == [] then 0 else gs[0].count + SumCounts(gs[1..])
  }

  /** The count of `key`'s group, 0 when there is none. */
  function Lookup(gs: seq<Group>, key: string): nat {
    if gs == [] then 0
    else if gs[0].key == key then gs[0].count
    else Lookup(gs[1..], key)
  }

  /** What any GROUP BY result satisfies: one row per key, no empty group. */
  ghost predicate WellGrouped(gs: seq<Group>) {
    && (forall i, j :: 0 <= i < j < |gs| ==> gs[i].key != gs[j].key)
    && (forall i :: 0 <= i < |gs| ==> gs[i].count >= 1)
  }

  lemma {:induction false} LookupAt(gs: seq<Group>, i: nat)
    requires WellGrouped(gs) && i < |gs|
    ensures Lookup(gs, gs[i].key) == gs[i].count
  {
    if i > 0 {
      assert gs[1..][i - 1] == gs[i];
      LookupAt(gs[1..], i - 1);
    }
  }

  /** Counts one more row with column value `key`. */
  function Bump(gs: seq<Group>, key: string): (r: seq<Group>)
    requires WellGrouped(gs)
    ensures WellGrouped(r)
    ensures |r| >= 1
    ensures forall i :: 0 <= i < |r| ==> r[i].key == key || exists j :: 0 <= j < |gs| && gs[j].key == r[i].key
    ensures Lookup(r, key) == Lookup(gs, key) + 1
    ensures forall other :: other != key ==> Lookup(r, other) == Lookup(gs, other)
    ensures SumCounts(r) == SumCounts(gs) + 1
  {
    if gs == [] then [Group(key, 1)]
    else if gs[0].key == key then [Group(key, gs[0].count + 1)] + gs[1..]
    else
      var tail := Bump(gs[1..], key);
      var r := [gs[0]] + tail;
      assert r[1..] == tail;
      forall i | 1 <= i < |r| ensures r[i].key != gs[0].key {
        assert r[i] == tail[i - 1];
        if r[i].key != key {
          var j :| 0 <= j < |gs[1..]| && gs[1..][j].key == r[i].key;
          assert gs[j + 1] == gs[1..][j];
        }
      }
      forall i | 0 <= i < |r| ensures r[i].key == key || exists j :: 0 <= j < |gs| && gs[j].key == r[i].key {
        if i > 0 && r[i].key != key {
          assert r[i] == tail[i - 1];
          var j :| 0 <= j < |gs[1..]| && gs[1..][j].key == r[i].key;
          assert gs[j + 1].key == r[i].key;
        } else if i == 0 {
          assert gs[0].key == r[i].key;
        }
      }
      r
  }

  /** `SELECT column, COUNT(*) FROM cards GROUP BY column` over the result rows. */
  function GroupBy(rows: seq<Card>, col: Column): (gs: seq<Group>)
    ensures WellGrouped(gs)
    ensures forall key :: Lookup(gs, key) == CountRows(rows, Eq(col, key))
    ensures SumCounts(gs) == |rows|
  {
    if rows == [] then []
    else
      var gs := Bump(GroupBy(rows[1..], col), Field(rows[0], col));
      assert forall key ::
        CountRows(rows, Eq(col, key)) == (if Field(rows[0], col) == key then 1 else 0) + CountRows(rows[1..], Eq(col, key));
      gs
  }

  /** The statistics of a well-keyed cards table. */
  ghost function Compute(m: Table): (s: Summary)
    requires WellKeyed(m)
    ensures s.total == |m|
    ensures s.scheduled == |KeysWhere(m, Eq(StatusCol, "scheduled"))|
    ensures s.published == |KeysWhere(m, Eq(StatusCol, "published"))|
    ensures s.scheduled + s.published <= s.total
    ensures SumCounts(s.byPlatform) == s.total && SumCounts(s.byStatus) == s.total
    ensures WellGrouped(s.byPlatform) && WellGrouped(s.byStatus)
    ensures forall p :: Lookup(s.byPlatform, p) == |KeysWhere(m, Eq(PlatformCol, p))|
    ensures forall st :: Lookup(s.byStatus, st) == |KeysWhere(m, Eq(StatusCol, st))|
  {
    var rows := Listing(m);
    var scheduled := KeysWhere(m, Eq(StatusCol, "scheduled"));
    var published := KeysWhere(m, Eq(StatusCol, "published"));
    assert scheduled !! published;
    assert |scheduled + published| <= |m.Keys| by {
      SubsetCard(scheduled + published, m.Keys);
    }
    forall p ensures CountRows(rows, Eq(PlatformCol, p)) == |KeysWhere(m, Eq(PlatformCol, p))| {
      ListingCount(m, Eq(PlatformCol, p));
    }
    forall st ensures CountRows(rows, Eq(StatusCol, st)) == |KeysWhere(m, Eq(StatusCol, st))| {
      ListingCount(m, Eq(StatusCol, st));
    }
    Summary(|m|, |scheduled|, |published|, GroupBy(rows, PlatformCol), GroupBy(rows, StatusCol))
  }

  lemma {:induction false} SubsetCard(a: set<string>, b: set<string>)
    requires a <= b
    ensures |a| <= |b|
    decreases |a|
  {
    if a != {} {
      var x :| x in a;
      SubsetCard(a - {x}, b - {x});
    }
  }

  /** Some card of `m` has `value` in column `col`. */
  ghost predicate SomeCardHas(m: Table, col: Column, value: string) {
    exists k :: k in m && Field(m[k], col) == value
  }

  /** A breakdown that counts, for every value, the cards carrying it has one group per
      value some card carries, and each group counts exactly the cards of its value. */
  lemma {:induction false} BreakdownMatchesCards(m: Table, col: Column, gs: seq<Group>)
    requires WellGrouped(gs)
    requires forall key :: Lookup(gs, key) == |KeysWhere(m, Eq(col, key))|
    ensures forall i :: 0 <= i < |gs| ==> gs[i].count == |KeysWhere(m, Eq(col, gs[i].key))|
    ensures forall i :: 0 <= i < |gs| ==> SomeCardHas(m, col, gs[i].key)
    ensures forall k :: k in m ==> Lookup(gs, Field(m[k], col)) >= 1
  {
    forall i | 0 <= i < |gs| ensures gs[i].count == |KeysWhere(m, Eq(col, gs[i].key))| {
      LookupAt(gs, i);
    }
    forall i | 0 <= i < |gs| ensures SomeCardHas(m, col, gs[i].key) {
      var keys := KeysWhere(m, Eq(col, gs[i].key));
      assert |keys| >= 1;
      var k :| k in keys;
      assert k in m && Matches(m[k], Eq(col, gs[i].key));
    }
    forall k | k in m ensures Lookup(gs, Field(m[k], col)) >= 1 {
      assert k in KeysWhere(m, Eq(col, Field(m[k], col)));
    }
  }
}
