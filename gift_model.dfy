/**
 * The gift table and the operations of the `Gift` model: the guarded reservation
 * (one atomic transaction holding the row lock), the administrative status and
 * name overrides, insert, update, delete, the two lookups, and `validate`.
 *
 * Each operation that writes the table is specified twice over: a pure step
 * function on `Table` carries the properties, and a method of `GiftTable`
 * performs the change in place and is proved to agree with the step function.
 */
module GiftModel {
  import opened Wrappers
  import opened Js

  /** An abstract clock value: what `NOW()` returned at that moment. */
  type Timestamp = int

  datatype Status = Available | Reserved

  /** One row of the `gifts` table. */
  datatype Gift = Gift(
    id: int,
    name: string,
    category: string,
    description: string,
    productLink: Option<string>,
    imageUrl: Option<string>,
    status: Status,
    reservedBy: Option<string>,
    reservedAt: Option<Timestamp>,
    createdAt: Option<Timestamp>)

  /** The editable columns, as `create` and `update` receive them. */
  datatype GiftData = GiftData(
    name: string,
    category: string,
    description: string,
    productLink: Option<string>,
    imageUrl: Option<string>)

  /** The table: rows by id. */
  type Table = map<int, Gift>

  const NotFoundMessage := "Presente não encontrado"
  const AlreadyReservedMessage := "Este presente já foi reservado"

  /** `value || null` for a nullable text column: the empty string is stored as NULL. */
  function OrNull(v: Option<string>): (r: Option<string>)
    ensures r.Some? <==> v.Some? && v.value != ""
    ensures r.Some? ==> r == v
  {
    if v == Some("") then None else v
  }

  /** Every row is stored under its own id. */
  ghost predicate IdsMatch(t: Table)
  {
    forall k :: k in t ==> t[k].id == k
  }

  /** A gift that is available carries no reservation; a reserved one carries its reservation time. */
  predicate Consistent(g: Gift)
  {
    && (g.status == Available ==> g.reservedBy.None? && g.reservedAt.None?)
    && (g.status == Reserved ==> g.reservedAt.Some?)
  }

  ghost predicate ReservationsConsistent(t: Table)
  {
    forall k :: k in t ==> Consistent(t[k])
  }

  /** Rows other than `id` are the same in both tables, and no row appeared or vanished. */
  ghost predicate OnlyRowChanged(t: Table, t': Table, id: int)
  {
    t'.Keys == t.Keys && forall k :: k in t && k != id ==> t'[k] == t[k]
  }

  // ------------------------------------------------------------- reserve

  /** What a reserve transaction returns and the table it leaves behind. */
  datatype Reservation = Reservation(result: Result<Gift, Error>, table: Table)

  /**
   * One reserve transaction, run while it holds the row lock on `id`, so that no
   * other transaction touches the row in between. `fault` is a failure of the
   * database itself (connection, statement); the transaction then rolls back.
   * Only an existing, available gift is claimed, and a reservation that exists
   * is never overwritten.
   */
  function ReserveRow(t: Table, id: int, guest: string, now: Timestamp, fault: Option<Error>): (o: Reservation)
    ensures o.result.Ok? <==> fault.None? && id in t && t[id].status != Reserved
    ensures o.result.Err? ==> o.table == t
    ensures fault.Some? ==> o.result == Err(fault.value)
    ensures fault.None? && id !in t ==> o.result == Err(Thrown(NotFoundMessage))
    ensures fault.None? && id in t && t[id].status == Reserved ==> o.result == Err(Thrown(AlreadyReservedMessage))
    ensures o.result.Ok? ==>
      && OnlyRowChanged(t, o.table, id)
      && o.table[id] == t[id].(status := Reserved, reservedBy := Some(guest), reservedAt := Some(now))
      && o.result.value == o.table[id]
    ensures ReservationsConsistent(t) ==> ReservationsConsistent(o.table)
  {
    if fault.Some? then Reservation(Err(fault.value), t)
    else if id !in t then Reservation(Err(Thrown(NotFoundMessage)), t)
    else if t[id].status == Reserved then Reservation(Err(Thrown(AlreadyReservedMessage)), t)
    else
      var claimed := t[id].(status := Reserved, reservedBy := Some(guest), reservedAt := Some(now));
      Reservation(Ok(claimed), t[id := claimed])
  }

  /** One guest's reserve request: the name sent and the time its transaction runs. */
  datatype Attempt = Attempt(guest: string, at: Timestamp)

  /** What a run of reserve transactions returns, each in turn, and the final table. */
  datatype Run = Run(results: seq<Result<Gift, Error>>, table: Table)

  /**
   * Concurrent reserve requests for one gift, in the order the database grants
   * them the row lock: each transaction sees the table its predecessor committed.
   */
  function ReserveInTurn(t: Table, id: int, attempts: seq<Attempt>): (o: Run)
    ensures |o.results| == |attempts|
    decreases |attempts|
  {
    if attempts == [] then Run([], t)
    else
      var first := ReserveRow(t, id, attempts[0].guest, attempts[0].at, None);
      var rest := ReserveInTurn(first.table, id, attempts[1..]);
      Run([first.result] + rest.results, rest.table)
  }

  /** Once a gift is reserved, every later attempt fails with the conflict error and nothing changes. */
  lemma {:induction false} ReservedGiftRejectsAll(t: Table, id: int, attempts: seq<Attempt>)
    requires id in t && t[id].status == Reserved
    ensures ReserveInTurn(t, id, attempts).table == t
    ensures forall i :: 0 <= i < |attempts| ==>
      ReserveInTurn(t, id, attempts).results[i] == Err(Thrown(AlreadyReservedMessage))
    decreases |attempts|
  {
    if attempts != [] {
      ReservedGiftRejectsAll(t, id, attempts[1..]);
    }
  }

  /** Reserving a gift that does not exist always fails with the not-found error and never changes the table. */
  lemma {:induction false} MissingGiftRejectsAll(t: Table, id: int, attempts: seq<Attempt>)
    requires id !in t
    ensures ReserveInTurn(t, id, attempts).table == t
    ensures forall i :: 0 <= i < |attempts| ==>
      ReserveInTurn(t, id, attempts).results[i] == Err(Thrown(NotFoundMessage))
    decreases |attempts|
  {
    if attempts != [] {
      MissingGiftRejectsAll(t, id, attempts[1..]);
    }
  }

  /**
   * Of concurrent attempts on an available gift exactly one succeeds, the one
   * granted the lock first; all others fail with the conflict error, and the
   * gift ends up reserved under the winner's name, no other row changed.
   */
  lemma {:induction false} FirstGrantedWins(t: Table, id: int, attempts: seq<Attempt>)
    requires id in t && t[id].status == Available && attempts != []
    ensures var o := ReserveInTurn(t, id, attempts);
      && o.results[0].Ok?
      && o.results[0].value.reservedBy == Some(attempts[0].guest)
      && (forall i :: 1 <= i < |attempts| ==> o.results[i] == Err(Thrown(AlreadyReservedMessage)))
      && OnlyRowChanged(t, o.table, id)
      && o.table[id].status == Reserved
      && o.table[id].reservedBy == Some(attempts[0].guest)
      && o.table[id].reservedAt == Some(attempts[0].at)
  {
    var first := ReserveRow(t, id, attempts[0].guest, attempts[0].at, None);
    ReservedGiftRejectsAll(first.table, id, attempts[1..]);
  }

  /** The scenario of two guests asking for the same available gift at once: whoever is second gets the conflict. */
  lemma TwoGuestsOneGift(t: Table, id: int, a: Attempt, b: Attempt)
    requires id in t && t[id].status == Available
    ensures var o := ReserveInTurn(t, id, [a, b]);
      o.results[0].Ok? && o.results[1] == Err(Thrown(AlreadyReservedMessage))
      && id in o.table && o.table[id].reservedBy == Some(a.guest)
    ensures var o := ReserveInTurn(t, id, [b, a]);
      o.results[0].Ok? && o.results[1] == Err(Thrown(AlreadyReservedMessage))
      && id in o.table && o.table[id].reservedBy == Some(b.guest)
  {
    FirstGrantedWins(t, id, [a, b]);
    FirstGrantedWins(t, id, [b, a]);
  }

  // ------------------------------------------------- administrative writes

  /**
   * `updateStatus`: an administrative override with no guard. Releasing clears
   * the reservation; reserving records the given name and the current time,
   * whatever the previous status. An unknown id changes nothing.
   */
  function SetStatus(t: Table, id: int, status: Status, reservedBy: Option<string>, now: Timestamp): (t': Table)
    ensures id !in t ==> t' == t
    ensures OnlyRowChanged(t, t', id)
    ensures id in t && status == Available ==>
      t'[id] == t[id].(status := Available, reservedBy := None, reservedAt := None)
    ensures id in t && status == Reserved ==>
      t'[id] == t[id].(status := Reserved, reservedBy := reservedBy, reservedAt := Some(now))
    ensures ReservationsConsistent(t) ==> ReservationsConsistent(t')
  {
    if id !in t then t
    else if status == Reserved then t[id := t[id].(status := Reserved, reservedBy := reservedBy, reservedAt := Some(now))]
    else t[id := t[id].(status := Available, reservedBy := None, reservedAt := None)]
  }

  /**
   * `updateReservedBy`: replaces only the name on a reserved gift
   * (`WHERE id = ? AND status = 'reserved'`); on an available or unknown gift it
   * changes nothing.
   */
  function SetReservedBy(t: Table, id: int, reservedBy: Option<string>): (t': Table)
    ensures !(id in t && t[id].status == Reserved) ==> t' == t
    ensures OnlyRowChanged(t, t', id)
    ensures id in t && t[id].status == Reserved ==> t'[id] == t[id].(reservedBy := reservedBy)
    ensures ReservationsConsistent(t) ==> ReservationsConsistent(t')
  {
    if id in t && t[id].status == Reserved then t[id := t[id].(reservedBy := reservedBy)] else t
  }

  /**
   * `create`: a fresh row under the next auto-increment id, always available,
   * with no reservation and empty links stored as NULL. `created_at` takes the
   * insertion time.
   */
  function InsertRow(t: Table, id: int, data: GiftData, now: Timestamp): (t': Table)
    requires id !in t
    ensures t'.Keys == t.Keys + {id}
    ensures forall k :: k in t ==> t'[k] == t[k]
    ensures var g := t'[id];
      && g.id == id && g.name == data.name && g.category == data.category && g.description == data.description
      && g.productLink == OrNull(data.productLink) && g.imageUrl == OrNull(data.imageUrl)
      && g.status == Available && g.reservedBy.None? && g.reservedAt.None? && g.createdAt == Some(now)
    ensures IdsMatch(t) ==> IdsMatch(t')
    ensures ReservationsConsistent(t) ==> ReservationsConsistent(t')
  {
    t[id := Gift(id, data.name, data.category, data.description, OrNull(data.productLink), OrNull(data.imageUrl),
                 Available, None, None, Some(now))]
  }

  /**
   * `update`: overwrites exactly the five editable columns of an existing row;
   * status, reservation and creation time are untouched. An unknown id changes nothing.
   */
  function UpdateRow(t: Table, id: int, data: GiftData): (t': Table)
    ensures id !in t ==> t' == t
    ensures OnlyRowChanged(t, t', id)
    ensures id in t ==>
      && t'[id].name == data.name && t'[id].category == data.category && t'[id].description == data.description
      && t'[id].productLink == OrNull(data.productLink) && t'[id].imageUrl == OrNull(data.imageUrl)
      && t'[id].id == t[id].id && t'[id].status == t[id].status && t'[id].reservedBy == t[id].reservedBy
      && t'[id].reservedAt == t[id].reservedAt && t'[id].createdAt == t[id].createdAt
    ensures ReservationsConsistent(t) ==> ReservationsConsistent(t')
  {
    if id !in t then t
    else
      t[id := t[id].(name := data.name, category := data.category, description := data.description,
                     productLink := OrNull(data.productLink), imageUrl := OrNull(data.imageUrl))]
  }

  /** Updating a row with the values it already holds leaves the table as it was. */
  lemma UpdateWithSameValues(t: Table, id: int, data: GiftData)
    requires id in t
    requires data.name == t[id].name && data.category == t[id].category && data.description == t[id].description
    requires OrNull(data.productLink) == t[id].productLink && OrNull(data.imageUrl) == t[id].imageUrl
    ensures UpdateRow(t, id, data) == t
  {
    assert UpdateRow(t, id, data)[id] == t[id];
  }

  /** `delete`: removes the row; every other row stays. */
  function DeleteRow(t: Table, id: int): (t': Table)
    ensures id !in t'
    ensures t'.Keys == t.Keys - {id}
    ensures forall k :: k in t' ==> t'[k] == t[k]
    ensures ReservationsConsistent(t) ==> ReservationsConsistent(t')
  {
    t - {id}
  }

  // --------------------------------------------------------------- findAll

  /** `a` comes no later than `b` under `ORDER BY created_at DESC`, where NULL sorts last. */
  predicate NewerOrSame(a: Gift, b: Gift)
  {
    match (a.createdAt, b.createdAt)
    case (_, None) => true
    case (None, Some(_)) => false
    case (Some(x), Some(y)) => x >= y
  }

  predicate NewestFirst(s: seq<Gift>)
  {
    forall i, j :: 0 <= i < j < |s| ==> NewerOrSame(s[i], s[j])
  }

  predicate IdsDescending(s: seq<Gift>)
  {
    forall i, j :: 0 <= i < j < |s| ==> s[i].id > s[j].id
  }

  /** `s` lists every row of `t` exactly once and nothing else. */
  ghost predicate ListsTable(s: seq<Gift>, t: Table)
  {
    && (forall i :: 0 <= i < |s| ==> s[i].id in t && t[s[i].id] == s[i])
    && (forall k :: k in t ==> t[k] in s)
    && (forall g :: multiset(s)[g] <= 1)
  }

  /** The rows with ids from `k` down to 1, largest id first (`ORDER BY id DESC`). */
  function RowsByIdDesc(t: Table, k: int): (r: seq<Gift>)
    requires IdsMatch(t)
    ensures forall i :: 0 <= i < |r| ==> r[i].id in t && t[r[i].id] == r[i] && r[i].id <= k
    ensures forall j :: j in t && 1 <= j <= k ==> t[j] in r
    ensures IdsDescending(r)
    decreases k
  {
    if k < 1 then []
    else
      var rest := RowsByIdDesc(t, k - 1);
      if k in t then [t[k]] + rest else rest
  }

  /** Distinct ids mean no row is listed twice. */
  lemma {:induction false} DescendingHasNoDuplicates(s: seq<Gift>)
    requires IdsDescending(s)
    ensures forall g :: multiset(s)[g] <= 1
  {
    if s != [] {
      DescendingHasNoDuplicates(s[1..]);
      assert s == [s[0]] + s[1..];
      assert s[0] !in s[1..];
    }
  }

  /** Reordering a listing of the table is still a listing of the table. */
  lemma PermutedListing(a: seq<Gift>, b: seq<Gift>, t: Table)
    requires ListsTable(b, t) && multiset(a) == multiset(b)
    ensures ListsTable(a, t)
  {
    forall i | 0 <= i < |a| ensures a[i].id in t && t[a[i].id] == a[i] {
      assert a[i] in multiset(b);
      var j :| 0 <= j < |b| && b[j] == a[i];
    }
    forall k | k in t ensures t[k] in a {
      assert t[k] in multiset(a);
    }
  }

  lemma NewerTransitive(a: Gift, b: Gift, c: Gift)
    requires NewerOrSame(a, b) && NewerOrSame(b, c)
    ensures NewerOrSame(a, c)
  {
  }

  /** A head that comes no later than every element keeps a newest-first list newest first. */
  lemma ConsNewestFirst(h: Gift, s: seq<Gift>)
    requires NewestFirst(s)
    requires forall i :: 0 <= i < |s| ==> NewerOrSame(h, s[i])
    ensures NewestFirst([h] + s)
  {
    var r := [h] + s;
    forall i, j | 0 <= i < j < |r| ensures NewerOrSame(r[i], r[j]) {
      assert r[j] == s[j - 1];
      if i > 0 {
        assert r[i] == s[i - 1];
      }
    }
  }

  /** Puts `g` into a newest-first list at its place. */
  function InsertByCreation(g: Gift, s: seq<Gift>): (r: seq<Gift>)
    requires NewestFirst(s)
    ensures NewestFirst(r)
    ensures multiset(r) == multiset(s) + multiset{g}
  {
    if s == [] || NewerOrSame(g, s[0]) then
      InsertAtHead(g, s);
      [g] + s
    else
      var rest := InsertByCreation(g, s[1..]);
      InsertBehindHead(g, s, rest);
      [s[0]] + rest
  }

  lemma InsertAtHead(g: Gift, s: seq<Gift>)
    requires NewestFirst(s)
    requires s == [] || NewerOrSame(g, s[0])
    ensures NewestFirst([g] + s)
  {
    forall i | 0 <= i < |s| ensures NewerOrSame(g, s[i]) {
      if i > 0 {
        NewerTransitive(g, s[0], s[i]);
      }
    }
    ConsNewestFirst(g, s);
  }

  lemma InsertBehindHead(g: Gift, s: seq<Gift>, rest: seq<Gift>)
    requires s != [] && NewestFirst(s) && !NewerOrSame(g, s[0])
    requires NewestFirst(rest) && multiset(rest) == multiset(s[1..]) + multiset{g}
    ensures NewestFirst([s[0]] + rest)
    ensures multiset([s[0]] + rest) == multiset(s) + multiset{g}
  {
    assert s == [s[0]] + s[1..];
    forall i | 0 <= i < |rest| ensures NewerOrSame(s[0], rest[i]) {
      assert rest[i] in multiset(rest);
      if rest[i] != g {
        assert rest[i] in multiset(s[1..]);
        var j :| 0 <= j < |s[1..]| && s[1..][j] == rest[i];
        assert s[j + 1] == rest[i];
      }
    }
    ConsNewestFirst(s[0], rest);
  }

  /** Sorts by creation time, newest first, keeping every element. */
  function SortNewestFirst(s: seq<Gift>): (r: seq<Gift>)
    ensures NewestFirst(r)
    ensures multiset(r) == multiset(s)
  {
    if s == [] then []
    else
      assert s == [s[0]] + s[1..];
      InsertByCreation(s[0], SortNewestFirst(s[1..]))
  }

  /** A row as the reduced fallback query returns it: the columns it does not read are NULL. */
  function WithoutReservationColumns(g: Gift): (r: Gift)
    ensures r.reservedBy.None? && r.reservedAt.None? && r.createdAt.None? && r.id == g.id
    ensures r.(reservedBy := g.reservedBy, reservedAt := g.reservedAt, createdAt := g.createdAt) == g
  {
    g.(reservedBy := None, reservedAt := None, createdAt := None)
  }

  /** The full query of `findAll`, over a table whose ids are at most `k`: every row once, newest first. */
  function FullListing(t: Table, k: int): (r: seq<Gift>)
    requires IdsMatch(t) && forall id :: id in t ==> 1 <= id <= k
    ensures ListsTable(r, t) && NewestFirst(r)
  {
    var byId := RowsByIdDesc(t, k);
    DescendingHasNoDuplicates(byId);
    var sorted := SortNewestFirst(byId);
    PermutedListing(sorted, byId, t);
    sorted
  }

  /** The reduced query of `findAll`: every row once by id, largest first, without the optional columns. */
  function ReducedListing(t: Table, k: int): (r: seq<Gift>)
    requires IdsMatch(t) && forall id :: id in t ==> 1 <= id <= k
    ensures IdsDescending(r)
    ensures forall i :: 0 <= i < |r| ==> r[i].id in t && r[i] == WithoutReservationColumns(t[r[i].id])
    ensures forall id :: id in t ==> WithoutReservationColumns(t[id]) in r
  {
    var byId := RowsByIdDesc(t, k);
    var reduced := StripAll(byId);
    forall id | id in t ensures WithoutReservationColumns(t[id]) in reduced {
      var i :| 0 <= i < |byId| && byId[i] == t[id];
      assert reduced[i] == WithoutReservationColumns(t[id]);
    }
    reduced
  }

  /** `results.map(...)` of the fallback: each row without the optional columns, in the same order. */
  function StripAll(s: seq<Gift>): (r: seq<Gift>)
    ensures |r| == |s|
    ensures forall i :: 0 <= i < |s| ==> r[i] == WithoutReservationColumns(s[i])
  {
    if s == [] then [] else [WithoutReservationColumns(s[0])] + StripAll(s[1..])
  }

  const BadFieldCode := "ER_BAD_FIELD_ERROR"

  /**
   * How the two queries of `findAll` fail: `full` is the error the full query
   * raises (ER_BAD_FIELD_ERROR when the optional columns do not exist), `simple`
   * the error the reduced query raises.
   */
  datatype ListFaults = ListFaults(full: Option<Error>, simple: Option<Error>)

  // ---------------------------------------------------------------- validate

  /** The request fields `validate` reads, as the controller hands them over. */
  datatype GiftFields = GiftFields(name: Json, category: Json, description: Json, productLink: Json, imageUrl: Json)

  const NameErrorMessage := "Nome do presente deve ter pelo menos 2 caracteres"
  const CategoryErrorMessage := "Categoria é obrigatória"
  const DescriptionErrorMessage := "Descrição deve ter pelo menos 5 caracteres"
  const ProductLinkErrorMessage := "Link do produto deve ser uma URL válida"
  const ImageUrlErrorMessage := "URL da imagem deve ser uma URL válida"

  /** The position of each message in the fixed order `validate` checks in. */
  function MessageRank(m: string): int
  {
    if m == NameErrorMessage then 0
    else if m == CategoryErrorMessage then 1
    else if m == DescriptionErrorMessage then 2
    else if m == ProductLinkErrorMessage then 3
    else if m == ImageUrlErrorMessage then 4
    else 5
  }

  /** Calling `.trim()` on this value throws: it is truthy and not a string. */
  predicate TrimThrows(v: Json)
  {
    Truthy(v) && !v.Str?
  }

  /** A text field passes when it is a string whose trimmed length is at least `min`. */
  predicate TextOk(v: Json, min: nat)
  {
    v.Str? && |Trim(v.s)| >= min
  }

  /** An optional URL field passes when it is missing, blank, or parses as a URL. */
  predicate UrlOk(v: Json, isUrl: string -> bool)
  {
    !Truthy(v) || (v.Str? && (Trim(v.s) == "" || isUrl(v.s)))
  }

  /** What `validate` accepts, stated field by field. */
  predicate FieldsValid(d: GiftFields, isUrl: string -> bool)
  {
    && TextOk(d.name, 2) && TextOk(d.category, 1) && TextOk(d.description, 5)
    && UrlOk(d.productLink, isUrl) && UrlOk(d.imageUrl, isUrl)
  }

  /** `!v || v.trim().length < min`, pushing `message` when it holds. */
  function CheckText(v: Json, min: nat, message: string): (r: Result<seq<string>, Error>)
    requires min >= 1
    ensures r.Err? <==> TrimThrows(v)
    ensures r.Err? ==> r.error == TrimTypeError
    ensures r.Ok? ==> r.value == Flag(!TextOk(v, min), message)
  {
    if !Truthy(v) then Ok([message])
    else if !v.Str? then Err(TrimTypeError)
    else if |Trim(v.s)| < min then Ok([message])
    else Ok([])
  }

  /** `if (v && v.trim()) { try { new URL(v) } catch { push } }` */
  function CheckUrl(v: Json, isUrl: string -> bool, message: string): (r: Result<seq<string>, Error>)
    ensures r.Err? <==> TrimThrows(v)
    ensures r.Err? ==> r.error == TrimTypeError
    ensures r.Ok? ==> r.value == Flag(!UrlOk(v, isUrl), message)
  {
    if !Truthy(v) then Ok([])
    else if !v.Str? then Err(TrimTypeError)
    else if Trim(v.s) == "" || isUrl(v.s) then Ok([])
    else Ok([message])
  }

  /**
   * `Gift.validate`: every violated rule is reported, in the fixed order name,
   * category, description, product link, image URL; an empty list means the
   * fields are valid. Calling `.trim()` on a truthy non-string throws.
   */
  function Validate(d: GiftFields, isUrl: string -> bool): (r: Result<seq<string>, Error>)
    ensures r.Err? <==>
      TrimThrows(d.name) || TrimThrows(d.category) || TrimThrows(d.description)
      || TrimThrows(d.productLink) || TrimThrows(d.imageUrl)
    ensures r.Err? ==> r.error == TrimTypeError
    ensures r.Ok? ==> (r.value == [] <==> FieldsValid(d, isUrl))
    ensures r.Ok? ==>
              r.value == Flag(!TextOk(d.name, 2), NameErrorMessage) + Flag(!TextOk(d.category, 1), CategoryErrorMessage)
                         + Flag(!TextOk(d.description, 5), DescriptionErrorMessage)
                         + Flag(!UrlOk(d.productLink, isUrl), ProductLinkErrorMessage)
                         + Flag(!UrlOk(d.imageUrl, isUrl), ImageUrlErrorMessage)
  {
    var name := CheckText(d.name, 2, NameErrorMessage);
    var category := CheckText(d.category, 1, CategoryErrorMessage);
    var description := CheckText(d.description, 5, DescriptionErrorMessage);
    var link := CheckUrl(d.productLink, isUrl, ProductLinkErrorMessage);
    var image := CheckUrl(d.imageUrl, isUrl, ImageUrlErrorMessage);
    if name.Err? || category.Err? || description.Err? || link.Err? || image.Err? then Err(TrimTypeError)
    else
      var errors := name.value + category.value + description.value + link.value + image.value;
      MessagesInOrder(errors, !TextOk(d.name, 2), !TextOk(d.category, 1), !TextOk(d.description, 5),
                      !UrlOk(d.productLink, isUrl), !UrlOk(d.imageUrl, isUrl));
      Ok(errors)
  }

  /**
   * Rule by rule: each message is reported exactly when its rule fails, and the
   * messages come in the fixed order of the rules.
   */
  lemma ValidateReportsEachRule(d: GiftFields, isUrl: string -> bool, r: Result<seq<string>, Error>)
    requires r == Validate(d, isUrl)
    ensures r.Ok? ==>
      && (NameErrorMessage in r.value <==> !TextOk(d.name, 2))
      && (CategoryErrorMessage in r.value <==> !TextOk(d.category, 1))
      && (DescriptionErrorMessage in r.value <==> !TextOk(d.description, 5))
      && (ProductLinkErrorMessage in r.value <==> !UrlOk(d.productLink, isUrl))
      && (ImageUrlErrorMessage in r.value <==> !UrlOk(d.imageUrl, isUrl))
    ensures r.Ok? ==> forall i, j :: 0 <= i < j < |r.value| ==> MessageRank(r.value[i]) < MessageRank(r.value[j])
  {
    if r.Ok? {
      MessagesInOrder(r.value, !TextOk(d.name, 2), !TextOk(d.category, 1), !TextOk(d.description, 5),
                      !UrlOk(d.productLink, isUrl), !UrlOk(d.imageUrl, isUrl));
    }
  }

  /** `[m]` when the check failed, nothing otherwise. */
  function Flag(failed: bool, m: string): (r: seq<string>)
    ensures m in r <==> failed
    ensures |r| <= 1 && forall x :: x in r ==> x == m
  {
    if failed then [m] else []
  }

  /** The five possible messages, each present exactly when its check failed, in rank order. */
  lemma MessagesInOrder(errors: seq<string>, a: bool, b: bool, c: bool, d: bool, e: bool)
    requires errors == Flag(a, NameErrorMessage) + Flag(b, CategoryErrorMessage) + Flag(c, DescriptionErrorMessage)
                       + Flag(d, ProductLinkErrorMessage) + Flag(e, ImageUrlErrorMessage)
    ensures errors == [] <==> !a && !b && !c && !d && !e
    ensures NameErrorMessage in errors <==> a
    ensures CategoryErrorMessage in errors <==> b
    ensures DescriptionErrorMessage in errors <==> c
    ensures ProductLinkErrorMessage in errors <==> d
    ensures ImageUrlErrorMessage in errors <==> e
    ensures forall i, j :: 0 <= i < j < |errors| ==> MessageRank(errors[i]) < MessageRank(errors[j])
  {
    MessagesPresent(errors, a, b, c, d, e);
    MessagesRanked(errors, a, b, c, d, e);
  }

  lemma MessagesPresent(errors: seq<string>, a: bool, b: bool, c: bool, d: bool, e: bool)
    requires errors == Flag(a, NameErrorMessage) + Flag(b, CategoryErrorMessage) + Flag(c, DescriptionErrorMessage)
                       + Flag(d, ProductLinkErrorMessage) + Flag(e, ImageUrlErrorMessage)
    ensures errors == [] <==> !a && !b && !c && !d && !e
    ensures NameErrorMessage in errors <==> a
    ensures CategoryErrorMessage in errors <==> b
    ensures DescriptionErrorMessage in errors <==> c
    ensures ProductLinkErrorMessage in errors <==> d
    ensures ImageUrlErrorMessage in errors <==> e
  {
    MessageRanks();
  }

  lemma MessagesRanked(errors: seq<string>, a: bool, b: bool, c: bool, d: bool, e: bool)
    requires errors == Flag(a, NameErrorMessage) + Flag(b, CategoryErrorMessage) + Flag(c, DescriptionErrorMessage)
                       + Flag(d, ProductLinkErrorMessage) + Flag(e, ImageUrlErrorMessage)
    ensures RankOrdered(errors)
  {
    MessageRanks();
    var f0, f1, f2 := Flag(a, NameErrorMessage), Flag(b, CategoryErrorMessage), Flag(c, DescriptionErrorMessage);
    var f3, f4 := Flag(d, ProductLinkErrorMessage), Flag(e, ImageUrlErrorMessage);
    AppendRanked(f0, f1);
    AppendRanked(f0 + f1, f2);
    AppendRanked(f0 + f1 + f2, f3);
    AppendRanked(f0 + f1 + f2 + f3, f4);
  }

  /** The five messages have five different lengths, so each has its own rank. */
  lemma MessageRanks()
    ensures MessageRank(NameErrorMessage) == 0 && MessageRank(CategoryErrorMessage) == 1
    ensures MessageRank(DescriptionErrorMessage) == 2 && MessageRank(ProductLinkErrorMessage) == 3
    ensures MessageRank(ImageUrlErrorMessage) == 4
  {
    assert |NameErrorMessage| == 49 && |CategoryErrorMessage| == 23 && |DescriptionErrorMessage| == 42;
    assert |ProductLinkErrorMessage| == 39 && |ImageUrlErrorMessage| == 37;
  }

  /** Messages in strictly increasing rank. */
  predicate RankOrdered(s: seq<string>)
  {
    forall i, j :: 0 <= i < j < |s| ==> MessageRank(s[i]) < MessageRank(s[j])
  }

  /** Two rank-ordered lists, every rank of the first below every rank of the second, stay ordered when joined. */
  lemma AppendRanked(xs: seq<string>, ys: seq<string>)
    requires RankOrdered(xs) && RankOrdered(ys)
    requires forall x, y :: x in xs && y in ys ==> MessageRank(x) < MessageRank(y)
    ensures RankOrdered(xs + ys)
  {
    var s := xs + ys;
    forall i, j | 0 <= i < j < |s| ensures MessageRank(s[i]) < MessageRank(s[j]) {
      if j < |xs| {
        assert s[i] == xs[i] && s[j] == xs[j];
      } else if i >= |xs| {
        assert s[i] == ys[i - |xs|] && s[j] == ys[j - |xs|];
      } else {
        assert s[i] == xs[i] && s[j] == ys[j - |xs|];
      }
    }
  }

  // ------------------------------------------------------------------ table

  /** The `gifts` table, with its auto-increment counter. */
  class GiftTable {
    var rows: Table
    var nextId: int

    ghost predicate Valid()
      reads this
    {
      && nextId >= 1 && IdsMatch(rows) && ReservationsConsistent(rows)
      && forall k :: k in rows ==> 1 <= k < nextId
    }

    constructor ()
      ensures Valid() && rows == map[] && nextId == 1
    {
      rows := map[];
      nextId := 1;
    }

    /** `findById`: the row with that id, or null. */
    function FindById(id: int): (r: Option<Gift>)
      reads this
      ensures r.Some? <==> id in rows
      ensures r.Some? ==> r.value == rows[id]
    {
      if id in rows then Some(rows[id]) else None
    }

    /**
     * `findAll`: every row, newest first. When the full query fails because the
     * optional columns are missing, the reduced query lists every row by id,
     * largest first, with `reserved_by`, `reserved_at` and `created_at` NULL.
     * Any other error propagates.
     */
    function FindAll(faults: ListFaults): (r: Result<seq<Gift>, Error>)
      reads this
      requires Valid()
      ensures faults.full.None? ==> r.Ok? && ListsTable(r.value, rows) && NewestFirst(r.value)
      ensures faults.full.Some? && faults.full.value.code != Some(BadFieldCode) ==> r == Err(faults.full.value)
      ensures faults.full.Some? && faults.full.value.code == Some(BadFieldCode) && faults.simple.Some? ==>
        r == Err(faults.simple.value)
      ensures faults.full.Some? && faults.full.value.code == Some(BadFieldCode) && faults.simple.None? ==>
        && r.Ok? && IdsDescending(r.value)
        && (forall i :: 0 <= i < |r.value| ==>
              r.value[i].id in rows && r.value[i] == WithoutReservationColumns(rows[r.value[i].id]))
        && (forall k :: k in rows ==> WithoutReservationColumns(rows[k]) in r.value)
    {
      match faults.full
      case None => Ok(FullListing(rows, nextId - 1))
      case Some(e) =>
        if e.code != Some(BadFieldCode) then Err(e)
        else if faults.simple.Some? then Err(faults.simple.value)
        else Ok(ReducedListing(rows, nextId - 1))
    }

    /**
     * `reserve`: the transaction of `ReserveRow`, applied in place; nothing
     * changes unless it commits.
     */
    method Reserve(id: int, guest: string, now: Timestamp, fault: Option<Error>) returns (r: Result<Gift, Error>)
      requires Valid()
      modifies this
      ensures Valid() && nextId == old(nextId)
      ensures Reservation(r, rows) == ReserveRow(old(rows), id, guest, now, fault)
    {
      if fault.Some? {
        return Err(fault.value);
      }
      var locked := FindById(id);
      if locked.None? {
        return Err(Thrown(NotFoundMessage));
      }
      if locked.value.status == Reserved {
        return Err(Thrown(AlreadyReservedMessage));
      }
      rows := rows[id := locked.value.(status := Reserved, reservedBy := Some(guest), reservedAt := Some(now))];
      r := Ok(rows[id]);
    }

    /** `updateStatus`, returning the row as `findById` reads it afterwards. */
    method UpdateStatus(id: int, status: Status, reservedBy: Option<string>, now: Timestamp) returns (r: Option<Gift>)
      requires Valid()
      modifies this
      ensures Valid() && nextId == old(nextId)
      ensures rows == SetStatus(old(rows), id, status, reservedBy, now)
      ensures r == FindById(id)
    {
      if id in rows {
        if status == Reserved {
          rows := rows[id := rows[id].(status := Reserved, reservedBy := reservedBy, reservedAt := Some(now))];
        } else {
          rows := rows[id := rows[id].(status := Available, reservedBy := None, reservedAt := None)];
        }
      }
      r := FindById(id);
    }

    /** `updateReservedBy`, returning the row as `findById` reads it afterwards. */
    method UpdateReservedBy(id: int, reservedBy: Option<string>) returns (r: Option<Gift>)
      requires Valid()
      modifies this
      ensures Valid() && nextId == old(nextId)
      ensures rows == SetReservedBy(old(rows), id, reservedBy)
      ensures r == FindById(id)
    {
      if id in rows && rows[id].status == Reserved {
        rows := rows[id := rows[id].(reservedBy := reservedBy)];
      }
      r := FindById(id);
    }

    /** `create`: inserts under the next id and returns the new row, which `findById` then finds. */
    method Create(data: GiftData, now: Timestamp) returns (g: Gift)
      requires Valid()
      modifies this
      ensures Valid()
      ensures g.id == old(nextId) && nextId == old(nextId) + 1
      ensures rows == InsertRow(old(rows), old(nextId), data, now)
      ensures FindById(g.id) == Some(g)
    {
      var id := nextId;
      rows := rows[id := Gift(id, data.name, data.category, data.description, OrNull(data.productLink),
                              OrNull(data.imageUrl), Available, None, None, Some(now))];
      nextId := nextId + 1;
      g := rows[id];
    }

    /** `update`, returning the row as `findById` reads it afterwards. */
    method Update(id: int, data: GiftData) returns (r: Option<Gift>)
      requires Valid()
      modifies this
      ensures Valid() && nextId == old(nextId)
      ensures rows == UpdateRow(old(rows), id, data)
      ensures r == FindById(id)
    {
      if id in rows {
        rows := rows[id := rows[id].(name := data.name, category := data.category, description := data.description,
                                     productLink := OrNull(data.productLink), imageUrl := OrNull(data.imageUrl))];
      }
      r := FindById(id);
    }

    /** `delete`: after it `findById` finds nothing under that id. */
    method Delete(id: int) returns (ok: bool)
      requires Valid()
      modifies this
      ensures Valid() && nextId == old(nextId)
      ensures rows == DeleteRow(old(rows), id)
      ensures ok && FindById(id).None?
    {
      rows := rows - {id};
      ok := true;
    }
  }
}
