/** The e-mail one-time-password router: `send_otp` stores a fresh six-digit code
    under the address and mails it; `verify_otp` compares a submitted code with
    the stored one. The random draw and the SMTP outcome are parameters. */
module EmailOtp {
  import opened Common

  const SentMessage: string := "驗證碼已寄出"
  const MailFailurePrefix: string := "Email 發送失敗："
  const WrongCodeDetail: string := "驗證碼錯誤或過期"
  const SuccessStatus: string := "success"

  /** A JSON body, or an `HTTPException` with its status and detail. */
  datatype Response = Ok(body: string) | HttpError(status: int, detail: string)

  /** The smallest and largest codes `random.randint(100000, 999999)` can draw. */
  const MinOtp: int := 100000
  const MaxOtp: int := 999999

  /** The store after sending `otp` to `email`: `otp_store[email] = str(otp)`. */
  function AfterSend(codes: map<string, string>, email: string, otp: nat): (r: map<string, string>)
    ensures email in r && r[email] == DecimalString(otp)
    ensures forall other :: other != email ==> (other in r <==> other in codes)
    ensures forall other :: other != email && other in codes ==> r[other] == codes[other]
  {
    codes[email := DecimalString(otp)]
  }

  /** `verify_otp`'s test: `otp_store.get(email) == code`. */
  predicate Accepts(codes: map<string, string>, email: string, code: string)
  {
    email in codes && codes[email] == code
  }

  /** `otp_store`. */
  class OtpStore {
    var codes: map<string, string>

    constructor ()
      ensures codes == map[]
    {
      codes := map[];
    }

    /** `send_otp`: the code is stored before the mail is attempted, so it stays
        stored when sending fails with a 500. */
    method SendOtp(email: string, otp: int, mailError: Option<string>) returns (response: Response)
      requires MinOtp <= otp <= MaxOtp
      modifies this
      ensures codes == AfterSend(old(codes), email, otp)
      ensures mailError.None? ==> response == Ok(SentMessage)
      ensures mailError.Some? ==> response == HttpError(500, MailFailurePrefix + mailError.value)
    {
      var code := DecimalString(otp);
      codes := codes[email := code];
      if mailError.Some? {
        return HttpError(500, MailFailurePrefix + mailError.value);
      }
      response := Ok(SentMessage);
    }

    /** `verify_otp`: reads the store and never changes it, so a code that was
        accepted once is accepted again. */
    method VerifyOtp(email: string, code: string) returns (response: Response)
      ensures Accepts(codes, email, code) <==> response == Ok(SuccessStatus)
      ensures !Accepts(codes, email, code) ==> response == HttpError(400, WrongCodeDetail)
    {
      var stored := if email in codes then Some(codes[email]) else None;
      if stored != Some(code) {
        return HttpError(400, WrongCodeDetail);
      }
      response := Ok(SuccessStatus);
    }
  }

  /** A stored code is six ASCII digits and reads back as the drawn number. */
  lemma CodeShape(otp: int)
    requires MinOtp <= otp <= MaxOtp
    ensures |DecimalString(otp)| == 6
    ensures forall i :: 0 <= i < 6 ==> IsAsciiDigit(DecimalString(otp)[i])
    ensures ParseInt(DecimalString(otp)) == Some(otp)
  {
    assert Pow10(5) == MinOtp && Pow10(6) == MaxOtp + 1;
    DecimalStringLength(otp, 5);
    ParseIntDecimalString(otp);
  }

  /** Right after a send, exactly the mailed code verifies for that address. */
  lemma SendThenVerify(codes: map<string, string>, email: string, otp: int, code: string)
    requires MinOtp <= otp <= MaxOtp
    ensures Accepts(AfterSend(codes, email, otp), email, code) <==> code == DecimalString(otp)
  {
  }

  /** A second send overwrites the first code, which then fails to verify. */
  lemma ResendInvalidatesOldCode(codes: map<string, string>, email: string, first: int, second: int)
    requires MinOtp <= first <= MaxOtp && MinOtp <= second <= MaxOtp && first != second
    ensures !Accepts(AfterSend(AfterSend(codes, email, first), email, second), email, DecimalString(first))
  {
    DecimalStringInjective(first, second);
  }

  /** Sending to one address leaves verification for every other address as it was. */
  lemma SendLeavesOthers(codes: map<string, string>, email: string, otp: int, other: string, code: string)
    requires MinOtp <= otp <= MaxOtp && other != email
    ensures Accepts(AfterSend(codes, email, otp), other, code) == Accepts(codes, other, code)
  {
  }

  /** An address that never got a code fails every verification. */
  lemma UnknownEmailFails(codes: map<string, string>, email: string, code: string)
    requires email !in codes
    ensures !Accepts(codes, email, code)
  {
  }
}
