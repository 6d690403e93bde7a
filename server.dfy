/**
 The server's database handle: the two tables, opened at startup, seeded, and changed
 in place by the write routes. Each route runs as one atomic step; the read-only
 routes are the functions of `CardOps.Get`, `Queries`, `Stats` and `Platforms.Enabled`
 applied to `cards` and `platforms`.
 */
module Server {
  import opened Schema
  import opened Http
  import opened CardOps
  import opened Platforms

  class Kanban {
    var cards: Table
    var platforms: seq<Platform>

    /** The primary keys of both tables. */
    ghost predicate Valid()
      reads this
    {
      WellKeyed(cards) && DistinctPlatformIds(platforms)
    }

    /** Opens the database file; CREATE TABLE IF NOT EXISTS keeps whatever rows it holds. */
    constructor Open(storedCards: Table, storedPlatforms: seq<Platform>)
      requires WellKeyed(storedCards) && DistinctPlatformIds(storedPlatforms)
      ensures Valid()
      ensures cards == storedCards && platforms == storedPlatforms
    {
      cards := storedCards;
      platforms := storedPlatforms;
    }

    /** The startup block: when the platforms table is empty, insert the seven defaults. */
    method SeedPlatforms()
      requires Valid()
      modifies this
      ensures Valid()
      ensures cards == old(cards)
      ensures old(platforms) == [] ==> platforms == Seeded()
      ensures old(platforms) != [] ==> platforms == old(platforms)
    {
      if |platforms| == 0 {
        for i := 0 to |SEED_ROWS|
          invariant platforms == Seeded()[..i]
          invariant cards == old(cards)
        {
          platforms := platforms + [Inserted(SEED_ROWS[i])];
        }
        assert Seeded()[..|SEED_ROWS|] == Seeded();
      }
    }

    /** POST /api/cards, with `generatedId` standing for `Date.now().toString()` and
        `now` for CURRENT_TIMESTAMP. */
    method Create(input: CardInput, generatedId: string, now: nat) returns (r: Reply<Card>)
      requires Valid()
      modifies this
      ensures Valid() && platforms == old(platforms)
      ensures Step(r, cards) == CreateStep(old(cards), input, generatedId, now)
    {
      if InsertFails(cards, input, generatedId) {
        return ServerError;
      }
      var cardId := CreateId(input, generatedId);
      cards := cards[cardId := NewRow(input, cardId, now)];
      r := Created(cards[cardId]);
    }

    /** PUT /api/cards/:id. */
    method Update(id: string, patch: CardPatch, now: nat) returns (r: Reply<Card>)
      requires Valid()
      modifies this
      ensures Valid() && platforms == old(platforms)
      ensures Step(r, cards) == UpdateStep(old(cards), id, patch, now)
    {
      if id !in cards {
        return NotFound;
      }
      cards := cards[id := ApplyPatch(cards[id], patch, now)];
      r := Ok(cards[id]);
    }

    /** PATCH /api/cards/:id/move. */
    method Move(id: string, platform: Option<string>, status: Option<string>, now: nat) returns (r: Reply<Ack>)
      requires Valid()
      modifies this
      ensures Valid() && platforms == old(platforms)
      ensures Step(r, cards) == MoveStep(old(cards), id, platform, status, now)
    {
      if id !in cards {
        return NotFound;
      }
      if platform.None? || status.None? {
        return ServerError;
      }
      cards := cards[id := cards[id].(platform := platform.value, status := status.value, updatedAt := now)];
      r := Ok(Success);
    }

    /** DELETE /api/cards/:id. */
    method Delete(id: string) returns (r: Reply<Ack>)
      requires Valid()
      modifies this
      ensures Valid() && platforms == old(platforms)
      ensures Step(r, cards) == DeleteStep(old(cards), id)
    {
      if id !in cards {
        return NotFound;
      }
      cards := cards - {id};
      r := Ok(Success);
    }
  }

  /** A fresh database seeded at startup, a card created with only the required fields,
      then moved to another column of the board. */
  method BoardScenario(generatedId: string, t0: nat, t1: nat)
  {
    var db := new Kanban.Open(map[], []);
    db.SeedPlatforms();
    assert |db.platforms| == 7 && db.platforms[1].id == "instagram";

    var draft := CardInput(None, Some("x"), Some("idea"), Some("Draft tweet"), None, None, None, None);
    var created := db.Create(draft, generatedId, t0);
    assert created == Created(Card(generatedId, "x", "idea", "Draft tweet", "", "post", None, "medium", t0, t0));

    var moved := db.Move(generatedId, Some("instagram"), Some("scheduled"), t1);
    assert moved == Ok(Success);
    var fetched := Get(db.cards, generatedId);
    assert fetched.Ok? && fetched.body.platform == "instagram" && fetched.body.status == "scheduled";
    assert fetched.body.title == "Draft tweet";

    var gone := db.Delete(generatedId);
    assert gone == Ok(Success) && Get(db.cards, generatedId) == NotFound;
    var again := db.Delete(generatedId);
    assert again == NotFound;
  }
}
