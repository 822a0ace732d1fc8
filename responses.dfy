/** The two response envelopes of the model package, BankResponse and
    Response, built by their static factories. The clock read inside each
    factory is a parameter here. */
module Responses {
  import opened Common
  import opened Enums

  datatype BankResponse<T> = BankResponse(
    success: bool,
    code: Text,
    message: Text,
    kind: Option<TypeException>,
    data: Option<T>,
    dateTime: Option<DateTime>)

  /** `BankResponse.error`: an unsuccessful envelope without data that keeps
      the code, message and type it was given. */
  function BankError<T>(code: Text, message: Text, kind: Option<TypeException>, now: DateTime): (r: BankResponse<T>)
    ensures !r.success && r.data.None?
    ensures r.code == code && r.message == message && r.kind == kind
    ensures r.dateTime == Some(now)
  {
    BankResponse(false, code, message, kind, None, Some(now))
  }

  /** `BankResponse.ok`: a successful envelope with code "200", no type, and
      the message and data it was given. */
  function BankOk<T>(message: Text, data: Option<T>, now: DateTime): (r: BankResponse<T>)
    ensures r.success && r.code == Some("200") && r.kind.None?
    ensures r.message == message && r.data == data
    ensures r.dateTime == Some(now)
  {
    BankResponse(true, Some("200"), message, None, data, Some(now))
  }

  /** The success flag tells the two factories apart, whatever their
      arguments. */
  lemma BankOkIsNotBankError<T>(message: Text, data: Option<T>, code: Text, message': Text, kind: Option<TypeException>, now: DateTime, now': DateTime)
    ensures BankOk(message, data, now) != BankError(code, message', kind, now')
  {
  }

  datatype Response<T> = Response(success: bool, message: Text, data: Option<T>, date: Option<Date>)

  /** `Response.ok`: a successful envelope keeping message and data. */
  function ResponseOk<T>(message: Text, data: Option<T>, today: Date): (r: Response<T>)
    ensures r.success && r.message == message && r.data == data
    ensures r.date == Some(today)
  {
    Response(true, message, data, Some(today))
  }

  /** `Response.error`: an unsuccessful envelope keeping the message, with no
      data. */
  function ResponseError<T>(message: Text, today: Date): (r: Response<T>)
    ensures !r.success && r.message == message && r.data.None?
    ensures r.date == Some(today)
  {
    Response(false, message, None, Some(today))
  }

  /** Likewise for Response: an ok envelope is never an error envelope. */
  lemma ResponseOkIsNotResponseError<T>(message: Text, data: Option<T>, message': Text, today: Date, today': Date)
    ensures ResponseOk(message, data, today) != ResponseError<T>(message', today')
  {
  }
}
