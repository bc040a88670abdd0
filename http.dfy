/** The JSON responses the controllers send: a status code and the fields of the body. */
module Http {
  import opened Wrappers
  import opened GiftModel

  /** The `errorCode` and `sqlState` fields added outside production. */
  datatype Debug = Debug(errorCode: Option<string>, sqlState: Option<string>)

  /** The body fields besides `success` and `message`. */
  datatype Payload =
    | NoPayload
    | OneGift(gift: Option<Gift>)
    | GiftList(gifts: seq<Gift>)
    | Token(adminId: int)
    | Failure(details: Option<string>, debug: Option<Debug>)

  datatype Response = Response(status: int, success: bool, message: Option<string>, payload: Payload)

  /** `res.status(status).json({ success: false, message })` */
  function Fail(status: int, message: string): Response
  {
    Response(status, false, Some(message), NoPayload)
  }

  /** A successful answer carrying a message and a payload. */
  function Succeed(status: int, message: string, payload: Payload): Response
  {
    Response(status, true, Some(message), payload)
  }
}
