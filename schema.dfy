/**
 The two tables of the kanban database and the facts every stored state keeps.
 A row of `cards` is a value; the whole table is a map from primary key to row.
 */
module Schema {

  /** A request-body field or a nullable column: `None` is JSON null or an absent key. */
  datatype Option<T> = None | Some(value: T)

  /** A row of the `cards` table. `cardType` is the column named `type`; `date` is the
      only column the routes can leave NULL; timestamps are ticks of an abstract clock. */
  datatype Card = Card(
    id: string,
    platform: string,
    status: string,
    title: string,
    description: string,
    cardType: string,
    date: Option<string>,
    priority: string,
    createdAt: nat,
    updatedAt: nat)

  /** A row of the `platforms` table; `enabled` is an SQL INTEGER (1 means enabled). */
  datatype Platform = Platform(id: string, name: string, icon: string, color: string, enabled: int)

  /** The `cards` table, indexed by its primary key. */
  type Table = map<string, Card>

  /** The primary key of every row is the row's own `id`. */
  ghost predicate WellKeyed(m: Table) {
    forall k :: k in m ==> m[k].id == k
  }

  /** No row was last updated before it was created. */
  ghost predicate Chronological(m: Table) {
    forall k :: k in m ==> m[k].createdAt <= m[k].updatedAt
  }

  /** The clock reading `now` is not earlier than any timestamp in the table. */
  ghost predicate ClockNotBehind(m: Table, now: nat) {
    forall k :: k in m ==> m[k].updatedAt <= now
  }

  /** Primary key of `platforms`: no two rows share an id. */
  ghost predicate DistinctPlatformIds(ps: seq<Platform>) {
    forall i, j :: 0 <= i < j < |ps| ==> ps[i].id != ps[j].id
  }

  /** The indexed text columns that queries filter and group on. */
  datatype Column = PlatformCol | StatusCol

  function Field(c: Card, col: Column): string {
    match col
    case PlatformCol => c.platform
    case StatusCol => c.status
  }

  /** A WHERE clause of the card queries: none, or `column = value`. */
  datatype Filter = Any | Eq(col: Column, value: string)

  predicate Matches(c: Card, f: Filter) {
    match f
    case Any => true
    case Eq(col, v) => Field(c, col) == v
  }
}
