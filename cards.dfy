/**
 The card routes that write the `cards` table, each as one atomic step from the table
 before to a reply and the table after. The methods of `Server.Kanban` perform these
 steps in place; the functions here are what they are proved against.
 */
module CardOps {
  import opened Schema
  import opened Http

  /** The body of POST /api/cards. */
  datatype CardInput = CardInput(
    id: Option<string>,
    platform: Option<string>,
    status: Option<string>,
    title: Option<string>,
    description: Option<string>,
    cardType: Option<string>,
    date: Option<string>,
    priority: Option<string>)

  /** The body of PUT /api/cards/:id: any subset of the mutable columns. */
  datatype CardPatch = CardPatch(
    platform: Option<string>,
    status: Option<string>,
    title: Option<string>,
    description: Option<string>,
    cardType: Option<string>,
    date: Option<string>,
    priority: Option<string>)

  /** A route's reply together with the table it leaves behind. */
  datatype Step<T> = Step(reply: Reply<T>, table: Table)

  /** JavaScript truthiness of a string field: present and not empty. */
  predicate Truthy(v: Option<string>) {
    v.Some? && v.value != ""
  }

  /** JavaScript `v || fallback` on a string field. */
  function Or(v: Option<string>, fallback: string): string {
    if Truthy(v) then v.value else fallback
  }

  /** SQL `COALESCE(v, current)`: only NULL falls through. */
  function Coalesce<T>(v: Option<T>, current: T): T {
    if v.Some? then v.value else current
  }

  /** The key a create uses: the body's id unless it is falsy, else the generated one. */
  function CreateId(input: CardInput, generatedId: string): string {
    Or(input.id, generatedId)
  }

  /** The INSERT violates the primary key or a NOT NULL column. */
  predicate InsertFails(m: Table, input: CardInput, generatedId: string) {
    CreateId(input, generatedId) in m
    || input.platform.None? || input.status.None? || input.title.None?
  }

  /** The row the INSERT writes: the given values with the `||` defaults, both
      timestamps set by the column default at the same instant. */
  function NewRow(input: CardInput, cardId: string, now: nat): (c: Card)
    requires input.platform.Some? && input.status.Some? && input.title.Some?
    ensures c.id == cardId
    ensures c.platform == input.platform.value && c.status == input.status.value
    ensures c.title == input.title.value
    ensures c.description == "" <==> !Truthy(input.description)
    ensures Truthy(input.description) ==> c.description == input.description.value
    ensures !Truthy(input.cardType) ==> c.cardType == "post"
    ensures Truthy(input.cardType) ==> c.cardType == input.cardType.value
    ensures c.date.None? <==> !Truthy(input.date)
    ensures Truthy(input.date) ==> c.date == input.date
    ensures !Truthy(input.priority) ==> c.priority == "medium"
    ensures Truthy(input.priority) ==> c.priority == input.priority.value
    ensures c.createdAt == now && c.updatedAt == now
  {
    Card(cardId, input.platform.value, input.status.value, input.title.value,
         Or(input.description, ""), Or(input.cardType, "post"),
         if Truthy(input.date) then input.date else None,
         Or(input.priority, "medium"), now, now)
  }

  /** GET /api/cards/:id. */
  function Get(m: Table, id: string): (r: Reply<Card>)
    ensures r.NotFound? <==> id !in m
    ensures r.Ok? || r.NotFound?
    ensures r.Ok? ==> r.body == m[id] && (WellKeyed(m) ==> r.body.id == id)
  {
    if id in m then Ok(m[id]) else NotFound
  }

  /** POST /api/cards. */
  function CreateStep(m: Table, input: CardInput, generatedId: string, now: nat): (s: Step<Card>)
    ensures s.reply.Created? || s.reply.ServerError?
    ensures s.reply.ServerError? <==> InsertFails(m, input, generatedId)
    ensures s.reply.ServerError? ==> s.table == m
    ensures s.reply.Created? ==>
      var c := s.reply.body;
      && c.id == CreateId(input, generatedId) && c.id !in m
      && !InsertFails(m, input, generatedId) && c == NewRow(input, c.id, now)
      && s.table.Keys == m.Keys + {c.id}
      && |s.table| == |m| + 1
      && (forall k :: k in m ==> s.table[k] == m[k])
      && Get(s.table, c.id) == Ok(c)
      && c.createdAt == c.updatedAt == now
    ensures WellKeyed(m) ==> WellKeyed(s.table)
    ensures Chronological(m) ==> Chronological(s.table)
    ensures ClockNotBehind(m, now) ==> ClockNotBehind(s.table, now)
  {
    var cardId := CreateId(input, generatedId);
    if InsertFails(m, input, generatedId) then Step(ServerError, m)
    else
      var c := NewRow(input, cardId, now);
      Step(Created(c), m[cardId := c])
  }

  /** The SET list of the update: COALESCE on every mutable column, refreshed `updated_at`. */
  function ApplyPatch(c: Card, patch: CardPatch, now: nat): (d: Card)
    ensures d.id == c.id && d.createdAt == c.createdAt && d.updatedAt == now
    ensures patch.platform.Some? ==> d.platform == patch.platform.value
    ensures patch.platform.None? ==> d.platform == c.platform
    ensures patch.status.Some? ==> d.status == patch.status.value
    ensures patch.status.None? ==> d.status == c.status
    ensures patch.title.Some? ==> d.title == patch.title.value
    ensures patch.title.None? ==> d.title == c.title
    ensures patch.description.Some? ==> d.description == patch.description.value
    ensures patch.description.None? ==> d.description == c.description
    ensures patch.cardType.Some? ==> d.cardType == patch.cardType.value
    ensures patch.cardType.None? ==> d.cardType == c.cardType
    ensures patch.date.Some? ==> d.date == patch.date
    ensures patch.date.None? ==> d.date == c.date
    ensures patch.priority.Some? ==> d.priority == patch.priority.value
    ensures patch.priority.None? ==> d.priority == c.priority
  {
    c.(platform := Coalesce(patch.platform, c.platform),
       status := Coalesce(patch.status, c.status),
       title := Coalesce(patch.title, c.title),
       description := Coalesce(patch.description, c.description),
       cardType := Coalesce(patch.cardType, c.cardType),
       date := if patch.date.Some? then patch.date else c.date,
       priority := Coalesce(patch.priority, c.priority),
       updatedAt := now)
  }

  /** PUT /api/cards/:id: zero changed rows is 404, else the re-selected row. */
  function UpdateStep(m: Table, id: string, patch: CardPatch, now: nat): (s: Step<Card>)
    ensures s.reply.Ok? || s.reply.NotFound?
    ensures s.reply.NotFound? <==> id !in m
    ensures s.reply.NotFound? ==> s.table == m
    ensures s.reply.Ok? ==>
      && s.table.Keys == m.Keys
      && (forall k :: k in m && k != id ==> s.table[k] == m[k])
      && s.table[id] == ApplyPatch(m[id], patch, now)
      && s.reply.body == s.table[id]
    ensures WellKeyed(m) ==> WellKeyed(s.table)
    ensures Chronological(m) && ClockNotBehind(m, now) ==> Chronological(s.table)
    ensures ClockNotBehind(m, now) ==> ClockNotBehind(s.table, now)
    ensures s.reply.Ok? && ClockNotBehind(m, now) ==> s.table[id].updatedAt >= m[id].updatedAt
  {
    if id !in m then Step(NotFound, m)
    else
      var d := ApplyPatch(m[id], patch, now);
      Step(Ok(d), m[id := d])
  }

  /** Every column of `d` other than platform, status and updated_at equals that of `c`. */
  predicate OnlyPlacementDiffers(c: Card, d: Card) {
    && d.id == c.id && d.title == c.title && d.description == c.description
    && d.cardType == c.cardType && d.date == c.date && d.priority == c.priority
    && d.createdAt == c.createdAt
  }

  /** PATCH /api/cards/:id/move: no COALESCE, so a NULL platform or status violates
      NOT NULL on a matched row; an unmatched id changes nothing and is 404. */
  function MoveStep(m: Table, id: string, platform: Option<string>, status: Option<string>, now: nat)
    : (s: Step<Ack>)
    ensures s.reply.NotFound? <==> id !in m
    ensures s.reply.ServerError? <==> id in m && (platform.None? || status.None?)
    ensures s.reply.Ok? || s.reply.NotFound? || s.reply.ServerError?
    ensures !s.reply.Ok? ==> s.table == m
    ensures s.reply.Ok? ==>
      && s.table.Keys == m.Keys
      && (forall k :: k in m && k != id ==> s.table[k] == m[k])
      && OnlyPlacementDiffers(m[id], s.table[id])
      && s.table[id].platform == platform.value && s.table[id].status == status.value
      && s.table[id].updatedAt == now
      && (ClockNotBehind(m, now) ==> s.table[id].updatedAt >= m[id].updatedAt)
    ensures WellKeyed(m) ==> WellKeyed(s.table)
    ensures Chronological(m) && ClockNotBehind(m, now) ==> Chronological(s.table)
    ensures ClockNotBehind(m, now) ==> ClockNotBehind(s.table, now)
  {
    if id !in m then Step(NotFound, m)
    else if platform.None? || status.None? then Step(ServerError, m)
    else Step(Ok(Success), m[id := m[id].(platform := platform.value, status := status.value, updatedAt := now)])
  }

  /** DELETE /api/cards/:id. */
  function DeleteStep(m: Table, id: string): (s: Step<Ack>)
    ensures s.reply.Ok? || s.reply.NotFound?
    ensures s.reply.NotFound? <==> id !in m
    ensures s.reply.NotFound? ==> s.table == m
    ensures s.table.Keys == m.Keys - {id}
    ensures id in m ==> |s.table| == |m| - 1
    ensures forall k :: k in s.table ==> s.table[k] == m[k]
    ensures Get(s.table, id) == NotFound
    ensures WellKeyed(m) ==> WellKeyed(s.table)
    ensures Chronological(m) ==> Chronological(s.table)
  {
    if id !in m then Step(NotFound, m) else Step(Ok(Success), m - {id})
  }

  /** A successful move is the update whose body names only platform and status. */
  lemma MoveIsNarrowUpdate(m: Table, id: string, platform: string, status: string, now: nat)
    requires id in m
    ensures var moved := MoveStep(m, id, Some(platform), Some(status), now);
            var updated := UpdateStep(m, id, CardPatch(Some(platform), Some(status), None, None, None, None, None), now);
            moved.reply == Ok(Success) && moved.table == updated.table
  {
  }

  /** Applying the same patch twice is applying it once at the later time. */
  lemma PatchIdempotent(c: Card, patch: CardPatch, earlier: nat, later: nat)
    ensures ApplyPatch(ApplyPatch(c, patch, earlier), patch, later) == ApplyPatch(c, patch, later)
  {
  }
}
