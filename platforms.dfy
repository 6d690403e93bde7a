/**
 The `platforms` table: the seven rows seeded into an empty table at startup, and
 GET /api/platforms, which lists the enabled ones in table order.
 */
module Platforms {
  import opened Schema

  /** The (id, name, icon, color) values the startup block inserts. */
  const SEED_ROWS: seq<(string, string, string, string)> := [
    ("x", "X / Twitter", "\U{1D54F}", "#1da1f2"),
    ("instagram", "Instagram", "\U{1F4F8}", "#e1306c"),
    ("youtube", "YouTube", "\U{25B6}\U{FE0F}", "#ff0000"),
    ("tiktok", "TikTok", "\U{1F3B5}", "#00f2ea"),
    ("substack-ai", "SubStack AInsights", "\U{1F4F0}", "#ff6719"),
    ("substack-rtl", "SubStack RyanTechLabs", "\U{1F4F0}", "#ff6719"),
    ("medium", "Medium", "\U{1F4DD}", "#00ab6c")
  ]

  /** `INSERT INTO platforms (id, name, icon, color)`: `enabled` takes its column default. */
  function Inserted(row: (string, string, string, string)): (p: Platform)
    ensures p.id == row.0 && p.name == row.1 && p.icon == row.2 && p.color == row.3
    ensures p.enabled == 1
  {
    Platform(row.0, row.1, row.2, row.3, 1)
  }

  /** The table after seeding an empty one. */
  function Seeded(): (ps: seq<Platform>)
    ensures |ps| == 7
    ensures ps[0].id == "x" && ps[1].id == "instagram" && ps[2].id == "youtube" && ps[3].id == "tiktok"
    ensures ps[4].id == "substack-ai" && ps[5].id == "substack-rtl" && ps[6].id == "medium"
    ensures forall i :: 0 <= i < |ps| ==> ps[i].enabled == 1
    ensures DistinctPlatformIds(ps)
  {
    seq(|SEED_ROWS|, i requires 0 <= i < |SEED_ROWS| => Inserted(SEED_ROWS[i]))
  }

  /** Rows drawn from the tail of a table with distinct ids, kept distinct, can follow
      the table's first row without repeating its id. */
  lemma DistinctCons(ps: seq<Platform>, tail: seq<Platform>)
    requires ps != []
    requires forall i :: 0 <= i < |tail| ==> tail[i] in ps[1..]
    ensures DistinctPlatformIds(ps) && DistinctPlatformIds(tail) ==> DistinctPlatformIds([ps[0]] + tail)
  {
  }

  /** GET /api/platforms: the rows with `enabled = 1`, in table order. */
  function Enabled(ps: seq<Platform>): (r: seq<Platform>)
    ensures |r| <= |ps|
    ensures forall i :: 0 <= i < |r| ==> r[i] in ps && r[i].enabled == 1
    ensures forall i :: 0 <= i < |ps| && ps[i].enabled == 1 ==> ps[i] in r
    ensures (forall i :: 0 <= i < |ps| ==> ps[i].enabled == 1) ==> r == ps
    ensures DistinctPlatformIds(ps) ==> DistinctPlatformIds(r)
  {
    if ps == [] then []
    else
      var tail := Enabled(ps[1..]);
      assert forall i :: 1 <= i < |ps| ==> ps[i] == ps[1..][i - 1];
      if ps[0].enabled == 1 then
        DistinctCons(ps, tail);
        [ps[0]] + tail
      else tail
  }

  /** Filtering keeps table order: the enabled rows of a concatenation are the enabled
      rows of the first part followed by those of the second. */
  lemma {:induction false} EnabledAppend(a: seq<Platform>, b: seq<Platform>)
    ensures Enabled(a + b) == Enabled(a) + Enabled(b)
  {
    if a == [] {
      assert a + b == b;
    } else {
      assert (a + b)[0] == a[0] && (a + b)[1..] == a[1..] + b;
      EnabledAppend(a[1..], b);
      if a[0].enabled == 1 {
        assert [a[0]] + (Enabled(a[1..]) + Enabled(b)) == ([a[0]] + Enabled(a[1..])) + Enabled(b);
      }
    }
  }

  /** Right after seeding, every platform is listed. */
  lemma SeededAllEnabled()
    ensures Enabled(Seeded()) == Seeded()
  {
  }
}
