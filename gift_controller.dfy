/** The public endpoints: listing the gifts and a guest's reservation. */
module GiftController {
  import opened Wrappers
  import opened Js
  import opened GiftModel
  import opened Http

  // ---------------------------------------------------------- getAllGifts

  const ListFailedMessage := "Erro ao buscar presentes"
  const NoTableMessage := "Tabela de presentes não encontrada. Verifique se o schema foi importado corretamente."
  const BadFieldMessage := "Erro na estrutura do banco de dados. Verifique se as colunas existem."
  const ConnectionMessage := "Erro de conexão com o banco de dados. Verifique as configurações."
  const AccessDeniedMessage := "Acesso negado ao banco de dados. Verifique usuário e senha."
  const NoDatabaseMessage := "Banco de dados não encontrado. Verifique o nome do banco."

  /** The database error codes the listing explains with a message of their own. */
  predicate KnownCode(code: Option<string>)
  {
    code in {Some("ER_NO_SUCH_TABLE"), Some(BadFieldCode), Some("ECONNREFUSED"), Some("ETIMEDOUT"),
             Some("ER_ACCESS_DENIED_ERROR"), Some("ER_BAD_DB_ERROR")}
  }

  /** The message for a failed listing, chosen by the error's code. */
  function ListErrorMessage(code: Option<string>): (m: string)
    ensures !KnownCode(code) <==> m == ListFailedMessage
  {
    if code == Some("ER_NO_SUCH_TABLE") then NoTableMessage
    else if code == Some(BadFieldCode) then BadFieldMessage
    else if code == Some("ECONNREFUSED") || code == Some("ETIMEDOUT") then ConnectionMessage
    else if code == Some("ER_ACCESS_DENIED_ERROR") then AccessDeniedMessage
    else if code == Some("ER_BAD_DB_ERROR") then NoDatabaseMessage
    else ListFailedMessage
  }

  /** Two known codes share a message only when both are connection failures. */
  lemma KnownCodesHaveTheirOwnMessage(a: Option<string>, b: Option<string>)
    requires KnownCode(a) && KnownCode(b) && a != b
    ensures ListErrorMessage(a) == ListErrorMessage(b) <==>
      a in {Some("ECONNREFUSED"), Some("ETIMEDOUT")} && b in {Some("ECONNREFUSED"), Some("ETIMEDOUT")}
  {
  }

  /**
   * The 500 answer for a failed listing. `details` carries the SQL message of a
   * missing column, or outside production the error message of an unknown
   * error, and only when it is not empty; outside production the code and SQL
   * state are added.
   */
  function ListFailure(e: Error, production: bool): (r: Response)
    ensures r.status == 500 && !r.success && r.payload.Failure?
    ensures r.message == Some(ListErrorMessage(e.code))
    ensures r.payload.details.Some? ==> r.payload.details.value != ""
    ensures e.code == Some(BadFieldCode) ==> r.payload.details == OrNull(e.sqlMessage)
    ensures KnownCode(e.code) && e.code != Some(BadFieldCode) ==> r.payload.details.None?
    ensures !KnownCode(e.code) ==> r.payload.details == (if production then None else OrNull(Some(e.message)))
    ensures production <==> r.payload.debug.None?
    ensures !production ==> r.payload.debug == Some(Debug(e.code, e.sqlState))
  {
    var details :=
      if e.code == Some(BadFieldCode) then e.sqlMessage
      else if KnownCode(e.code) || production then None
      else Some(e.message);
    Response(500, false, Some(ListErrorMessage(e.code)),
             Failure(OrNull(details), if production then None else Some(Debug(e.code, e.sqlState))))
  }

  /**
   * `getAllGifts`: 200 with every gift, newest first, whenever the full query
   * succeeds; otherwise the outcome of the fallback, or a 500 explaining the
   * error that escaped `findAll`.
   */
  function GetAllGifts(gifts: GiftTable, faults: ListFaults, production: bool): (r: Response)
    reads gifts
    requires gifts.Valid()
    ensures faults.full.None? ==>
      r.status == 200 && r.success && r.payload.GiftList?
      && ListsTable(r.payload.gifts, gifts.rows) && NewestFirst(r.payload.gifts)
    ensures r.status == 200 <==> gifts.FindAll(faults).Ok?
    ensures r.status == 200 ==> r == Response(200, true, None, GiftList(gifts.FindAll(faults).value))
    ensures r.status != 200 ==> r == ListFailure(gifts.FindAll(faults).error, production)
  {
    match gifts.FindAll(faults)
    case Ok(list) => Response(200, true, None, GiftList(list))
    case Err(e) => ListFailure(e, production)
  }

  // ---------------------------------------------------------- reserveGift

  const IncompleteMessage := "Dados incompletos"
  const ShortGuestNameMessage := "Nome deve ter pelo menos 3 caracteres"
  const ReservedMessage := "Presente reservado com sucesso"
  const ReserveFailedMessage := "Erro ao reservar presente"

  /** The `giftId` and `guestName` of a reserve request body. */
  datatype ReserveRequest = ReserveRequest(giftId: Json, guestName: Json)

  /** The id and the sanitised guest name a request is reserved with. */
  datatype Claim = Claim(id: int, guest: string)

  /**
   * The checks before any database access: both fields present, a string name
   * of at least 3 characters once trimmed. The name reserved with is the
   * trimmed name cut to its first 100 characters.
   */
  function CheckReserveRequest(req: ReserveRequest): (r: Result<Claim, Response>)
    ensures !Truthy(req.giftId) || !Truthy(req.guestName) ==> r == Err(Fail(400, IncompleteMessage))
    ensures Truthy(req.giftId) && Truthy(req.guestName) && !(req.guestName.Str? && |Trim(req.guestName.s)| >= 3) ==>
      r == Err(Fail(400, ShortGuestNameMessage))
    ensures r.Ok? <==> Truthy(req.giftId) && req.guestName.Str? && |Trim(req.guestName.s)| >= 3
    ensures r.Ok? ==>
      && r.value.id == RowKey(req.giftId)
      && 3 <= |r.value.guest| <= 100
      && r.value.guest == Prefix(Trim(req.guestName.s), 100)
      && StartsWith(Trim(req.guestName.s), r.value.guest)
      && !IsSpace(r.value.guest[0])
  {
    if !Truthy(req.giftId) || !Truthy(req.guestName) then Err(Fail(400, IncompleteMessage))
    else if !req.guestName.Str? || |Trim(req.guestName.s)| < 3 then Err(Fail(400, ShortGuestNameMessage))
    else Ok(Claim(RowKey(req.giftId), Prefix(Trim(req.guestName.s), 100)))
  }

  /** The answer for the outcome of `reserve`: its two domain errors by message, anything else as 500. */
  function ReserveOutcome(result: Result<Gift, Error>): (r: Response)
    ensures r.status == 200 <==> result.Ok?
    ensures result.Ok? ==> r == Succeed(200, ReservedMessage, OneGift(Some(result.value)))
    ensures result.Err? && result.error.message == NotFoundMessage ==> r == Fail(404, NotFoundMessage)
    ensures result.Err? && result.error.message == AlreadyReservedMessage ==> r == Fail(409, AlreadyReservedMessage)
    ensures result.Err? && result.error.message !in {NotFoundMessage, AlreadyReservedMessage} ==>
      r == Fail(500, ReserveFailedMessage)
  {
    match result
    case Ok(g) => Succeed(200, ReservedMessage, OneGift(Some(g)))
    case Err(e) =>
      if e.message == NotFoundMessage then Fail(404, e.message)
      else if e.message == AlreadyReservedMessage then Fail(409, e.message)
      else Fail(500, ReserveFailedMessage)
  }

  /** `reserveGift`: a refused request never reaches the table; an accepted one runs the reserve transaction. */
  method ReserveGift(gifts: GiftTable, req: ReserveRequest, now: Timestamp, fault: Option<Error>) returns (resp: Response)
    requires gifts.Valid()
    modifies gifts
    ensures gifts.Valid() && gifts.nextId == old(gifts.nextId)
    ensures CheckReserveRequest(req).Err? ==> resp == CheckReserveRequest(req).error && gifts.rows == old(gifts.rows)
    ensures CheckReserveRequest(req).Ok? ==>
      var claim := CheckReserveRequest(req).value;
      var o := ReserveRow(old(gifts.rows), claim.id, claim.guest, now, fault);
      resp == ReserveOutcome(o.result) && gifts.rows == o.table
  {
    var check := CheckReserveRequest(req);
    if check.Err? {
      return check.error;
    }
    var result := gifts.Reserve(check.value.id, check.value.guest, now, fault);
    resp := ReserveOutcome(result);
  }

  /**
   * Two accepted requests for the same available gift, one after the other:
   * the first is answered 200, the second 409, and the first guest's name stays.
   */
  lemma {:induction false} SecondRequestConflicts(t: Table, a: ReserveRequest, b: ReserveRequest, at1: Timestamp, at2: Timestamp)
    requires CheckReserveRequest(a).Ok? && CheckReserveRequest(b).Ok?
    requires CheckReserveRequest(a).value.id == CheckReserveRequest(b).value.id
    requires var id := CheckReserveRequest(a).value.id; id in t && t[id].status == Available
    ensures var ca, cb := CheckReserveRequest(a).value, CheckReserveRequest(b).value;
      var first := ReserveRow(t, ca.id, ca.guest, at1, None);
      var second := ReserveRow(first.table, cb.id, cb.guest, at2, None);
      && ReserveOutcome(first.result).status == 200
      && ReserveOutcome(second.result).status == 409
      && second.table == first.table
      && second.table[ca.id].reservedBy == Some(ca.guest)
  {
    var ca, cb := CheckReserveRequest(a).value, CheckReserveRequest(b).value;
    FirstGrantedWins(t, ca.id, [Attempt(ca.guest, at1), Attempt(cb.guest, at2)]);
    assert AlreadyReservedMessage != NotFoundMessage;
  }
}
