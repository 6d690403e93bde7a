/**
 The read-only card queries: `SELECT * FROM cards [WHERE column = ?] ORDER BY created_at
 DESC`, and the counting that the statistics route is built on. SQL leaves the order of
 rows with equal `created_at` open, so the listing picks any newest row first.
 */
module Queries {
  import opened Schema

  /** `k` is a row of `m` that no other row of `m` is newer than. */
  ghost predicate IsNewest(m: Table, k: string) {
    k in m && forall j :: j in m ==> m[j].createdAt <= m[k].createdAt
  }

  lemma {:induction false} NewestExists(m: Table)
    requires m != map[]
    ensures exists k :: IsNewest(m, k)
    decreases |m|
  {
    var k0 :| k0 in m;
    var rest := m - {k0};
    assert |rest| < |m| by { assert rest.Keys == m.Keys - {k0}; }
    if rest == map[] {
      assert m.Keys == rest.Keys + {k0};
      assert IsNewest(m, k0);
    } else {
      NewestExists(rest);
      var k1 :| IsNewest(rest, k1);
      forall j | j in m && j != k0 ensures m[j].createdAt <= m[k1].createdAt {
        assert j in rest;
      }
      if m[k1].createdAt <= m[k0].createdAt {
        assert IsNewest(m, k0);
      } else {
        assert IsNewest(m, k1);
      }
    }
  }

  ghost function Newest(m: Table): (k: string)
    requires m != map[]
    ensures IsNewest(m, k)
  {
    NewestExists(m);
    var k :| IsNewest(m, k); k
  }

  /** Newest first: `created_at` never increases along the list. */
  ghost predicate NewestFirst(r: seq<Card>) {
    forall i, j :: 0 <= i < j < |r| ==> r[i].createdAt >= r[j].createdAt
  }

  /** `r` lists exactly the rows of `m` that satisfy `f`, each once, newest first. */
  ghost predicate ListsExactly(r: seq<Card>, m: Table, f: Filter) {
    && (forall i :: 0 <= i < |r| ==> r[i].id in m && m[r[i].id] == r[i] && Matches(r[i], f))
    && (forall k :: k in m && Matches(m[k], f) ==> m[k] in r)
    && (forall i, j :: 0 <= i < j < |r| ==> r[i].id != r[j].id)
    && NewestFirst(r)
  }

  /** Putting a newest row of `m` in front of a listing of the other rows lists `m`. */
  lemma ListingCons(m: Table, k: string, tail: seq<Card>)
    requires WellKeyed(m) && IsNewest(m, k)
    requires ListsExactly(tail, m - {k}, Any)
    ensures ListsExactly([m[k]] + tail, m, Any)
  {
    var rest := m - {k};
    var r := [m[k]] + tail;
    forall i | 1 <= i < |r| ensures r[i] == tail[i - 1] && r[i].id in rest && r[i].id != k {
    }
    forall j | j in m && Matches(m[j], Any) ensures m[j] in r {
      if j != k {
        assert j in rest && rest[j] == m[j];
        assert m[j] in tail;
      }
    }
    assert NewestFirst(r) by {
      forall i, j | 0 <= i < j < |r| ensures r[i].createdAt >= r[j].createdAt {
        if i == 0 {
          assert r[j].id in m && m[r[j].id] == r[j];
        } else {
          assert r[i] == tail[i - 1] && r[j] == tail[j - 1];
        }
      }
    }
  }

  /** Every row of a well-keyed table, newest first. */
  ghost function Listing(m: Table): (r: seq<Card>)
    requires WellKeyed(m)
    ensures |r| == |m|
    ensures ListsExactly(r, m, Any)
    decreases |m|
  {
    if m == map[] then []
    else
      var k := Newest(m);
      var rest := m - {k};
      assert |rest| == |m| - 1 by { assert rest.Keys == m.Keys - {k}; }
      var tail := Listing(rest);
      ListingCons(m, k, tail);
      [m[k]] + tail
  }

  /** The rows of `m` that satisfy `f`. */
  ghost function Where(m: Table, f: Filter): (w: Table)
    ensures WellKeyed(m) ==> WellKeyed(w)
  {
    map k | k in m && Matches(m[k], f) :: m[k]
  }

  /** `r` lists `Where(m, f)` exactly and newest first, so it lists `m` filtered by `f`. */
  lemma ListingWhere(m: Table, f: Filter, r: seq<Card>)
    requires WellKeyed(m)
    requires ListsExactly(r, Where(m, f), Any)
    ensures ListsExactly(r, m, f)
  {
    var w := Where(m, f);
    forall i | 0 <= i < |r| ensures r[i].id in m && m[r[i].id] == r[i] && Matches(r[i], f) {
      assert r[i].id in w;
    }
    forall k | k in m && Matches(m[k], f) ensures m[k] in r {
      assert k in w;
    }
  }

  /** GET /api/cards. */
  ghost function ListAll(m: Table): (r: seq<Card>)
    requires WellKeyed(m)
    ensures |r| == |m|
    ensures ListsExactly(r, m, Any)
  {
    Listing(m)
  }

  /** GET /api/cards/platform/:platform. */
  ghost function ListByPlatform(m: Table, platform: string): (r: seq<Card>)
    requires WellKeyed(m)
    ensures ListsExactly(r, m, Eq(PlatformCol, platform))
  {
    var r := Listing(Where(m, Eq(PlatformCol, platform)));
    ListingWhere(m, Eq(PlatformCol, platform), r);
    r
  }

  /** GET /api/cards/status/:status. */
  ghost function ListByStatus(m: Table, status: string): (r: seq<Card>)
    requires WellKeyed(m)
    ensures ListsExactly(r, m, Eq(StatusCol, status))
  {
    var r := Listing(Where(m, Eq(StatusCol, status)));
    ListingWhere(m, Eq(StatusCol, status), r);
    r
  }

  /** The keys of the rows of `m` that satisfy `f`: what `SELECT COUNT(*) ... WHERE` counts. */
  ghost function KeysWhere(m: Table, f: Filter): set<string> {
    set k | k in m && Matches(m[k], f)
  }

  /** The number of rows of a result list that satisfy `f`. */
  function CountRows(rows: seq<Card>, f: Filter): (n: nat)
    ensures n <= |rows|
    ensures f == Any ==> n == |rows|
  {
    if rows == [] then 0
    else (if Matches(rows[0], f) then 1 else 0) + CountRows(rows[1..], f)
  }

  /** Counting from the back: a row appended to a list adds its own match. */
  lemma {:induction false} CountRowsSnoc(init: seq<Card>, x: Card, f: Filter)
    ensures CountRows(init + [x], f) == CountRows(init, f) + (if Matches(x, f) then 1 else 0)
  {
    if init == [] {
      assert init + [x] == [x];
    } else {
      assert (init + [x])[0] == init[0] && (init + [x])[1..] == init[1..] + [x];
      CountRowsSnoc(init[1..], x, f);
    }
  }

  /** The positions of a result list whose row satisfies `f`. */
  ghost function Positions(rows: seq<Card>, f: Filter): set<int> {
    set i | 0 <= i < |rows| && Matches(rows[i], f)
  }

  /** The positions of `init + [x]` are those of `init`, and the last one when `x` matches. */
  lemma PositionsSnoc(init: seq<Card>, x: Card, f: Filter)
    ensures Positions(init + [x], f) == Positions(init, f) + (if Matches(x, f) then {|init|} else {})
    ensures |init| !in Positions(init, f)
  {
    var rows := init + [x];
    forall i | 0 <= i < |init| ensures rows[i] == init[i] {
    }
  }

  /** `CountRows` is the number of positions of the list whose row satisfies `f`. */
  lemma {:induction false} CountRowsPositions(rows: seq<Card>, f: Filter)
    ensures CountRows(rows, f) == |Positions(rows, f)|
    decreases |rows|
  {
    if rows != [] {
      var init := rows[..|rows| - 1];
      var x := rows[|rows| - 1];
      assert rows == init + [x];
      CountRowsSnoc(init, x, f);
      CountRowsPositions(init, f);
      PositionsSnoc(init, x, f);
    }
  }

  lemma CountRowsCons(x: Card, tail: seq<Card>, f: Filter)
    ensures CountRows([x] + tail, f) == (if Matches(x, f) then 1 else 0) + CountRows(tail, f)
  {
  }

  /** Taking one key out of `m` takes it out of every `KeysWhere`. */
  lemma KeysWhereRemove(m: Table, k: string, f: Filter)
    requires k in m
    ensures KeysWhere(m, f) == KeysWhere(m - {k}, f) + (if Matches(m[k], f) then {k} else {})
    ensures k !in KeysWhere(m - {k}, f)
  {
  }

  /** The listing of a non-empty table is its chosen newest row followed by the listing of the rest. */
  lemma ListingUnfold(m: Table)
    requires WellKeyed(m) && m != map[]
    ensures WellKeyed(m - {Newest(m)})
    ensures Listing(m) == [m[Newest(m)]] + Listing(m - {Newest(m)})
  {
  }

  /** Counting a filter over the listing is counting it over the table. */
  lemma {:induction false} ListingCount(m: Table, f: Filter)
    requires WellKeyed(m)
    ensures CountRows(Listing(m), f) == |KeysWhere(m, f)|
    decreases |m|
  {
    if m != map[] {
      var k := Newest(m);
      var rest := m - {k};
      assert |rest| == |m| - 1 by { assert rest.Keys == m.Keys - {k}; }
      ListingUnfold(m);
      ListingCount(rest, f);
      CountRowsCons(m[k], Listing(rest), f);
      KeysWhereRemove(m, k, f);
    }
  }
}
