/** One-time codes for e-mail sign-up: sending a code
    (app/api/auth/send-otp-sms/route.js, app/api/auth/send-otp/route.js)
    and checking it (app/api/auth/verify-otp/route.js,
    app/api/auth/verify-otp-sms/route.js). Times are milliseconds; `now`
    stands for `Date.now()`, `roll` for `Math.random() * 900000` rounded
    down, `hash` for bcrypt, `mailOk` for whether nodemailer delivered. */
module Otp {
  import opened Wrappers
  import opened Text
  import opened Accounts

  // ---------------------------------------------------------------------
  // The code store
  // ---------------------------------------------------------------------

  /** A JavaScript date field as read back: absent, null, or a time.
      `new Date(undefined)` is an invalid date, which no comparison holds
      for; `new Date(null)` is time 0. */
  datatype JsDate = Undefined | Null | At(t: int)

  /** The fields the sign-up form stores with a code, as `JSON.parse`
      gives them back; an absent field is `None`. */
  datatype Meta = Meta(name: Option<string>, email: Option<string>, password: Option<string>,
                       cnic: Option<string>, phone: Option<string>)

  /** The `metaData` column: null, the text of a `Meta`, or text
      `JSON.parse` rejects. */
  datatype MetaText = NoMeta | Json(meta: Meta) | Unparsable

  /** A row of the code table. `expireat` is the column the senders write
      and verify-otp reads; `expiresAt` is the one verify-otp-sms reads and
      no sender writes. */
  datatype Code = Code(
    id: nat,
    email: Option<string>,
    code: string,
    phoneNumber: Option<string>,
    expireat: Option<int>,
    expiresAt: JsDate,
    verified: bool,
    attempts: int,
    metaData: MetaText,
    createdAt: int)

  const Minute := 60 * 1000
  const RateWindow := 15 * Minute
  const Lifetime := 10 * Minute
  const RateLimit := 3

  /** `deleteMany({ where: { email } })`; an absent email is no condition,
      so every code goes. */
  function DeleteForEmail(store: seq<Code>, email: Option<string>): (r: seq<Code>)
    ensures email.None? ==> r == []
    ensures email.Some? ==> forall c :: c in r <==> c in store && c.email != email
    decreases |store|
  {
    if store == [] then []
    else (if email.None? || store[0].email == email then [] else [store[0]]) + DeleteForEmail(store[1..], email)
  }

  function CountFor(store: seq<Code>, email: string): nat
    decreases |store|
  {
    if store == [] then 0 else (if store[0].email == Some(email) then 1 else 0) + CountFor(store[1..], email)
  }

  /** The codes for the email created at or after `since`. */
  function CountRecent(store: seq<Code>, email: string, since: int): (n: nat)
    ensures n <= CountFor(store, email)
    decreases |store|
  {
    if store == [] then 0
    else (if store[0].email == Some(email) && store[0].createdAt >= since then 1 else 0) + CountRecent(store[1..], email, since)
  }

  lemma {:induction false} DeletedHasNone(store: seq<Code>, email: string)
    ensures CountFor(DeleteForEmail(store, Some(email)), email) == 0
    decreases |store|
  {
    if store != [] {
      DeletedHasNone(store[1..], email);
      var rest := DeleteForEmail(store[1..], Some(email));
      if store[0].email != Some(email) {
        assert DeleteForEmail(store, Some(email)) == [store[0]] + rest;
        assert ([store[0]] + rest)[1..] == rest;
      } else {
        assert DeleteForEmail(store, Some(email)) == [] + rest;
        assert [] + rest == rest;
      }
    }
  }

  lemma {:induction false} CountForAppend(store: seq<Code>, c: Code, email: string)
    ensures CountFor(store + [c], email) == CountFor(store, email) + (if c.email == Some(email) then 1 else 0)
    decreases |store|
  {
    if store == [] {
      assert store + [c] == [c];
    } else {
      assert (store + [c])[1..] == store[1..] + [c];
      CountForAppend(store[1..], c, email);
    }
  }

  // ---------------------------------------------------------------------
  // The code and the e-mail check
  // ---------------------------------------------------------------------

  function Pow10(k: nat): nat {
    if k == 0 then 1 else 10 * Pow10(k - 1)
  }

  lemma {:induction false} DigitCount(n: nat, k: nat)
    requires k >= 1 && Pow10(k - 1) <= n < Pow10(k)
    ensures |NatToString(n)| == k
    decreases k
  {
    if k > 1 {
      DigitCount(n / 10, k - 1);
    }
  }

  /** `Math.floor(100000 + Math.random() * 900000).toString()` */
  function GenerateCode(roll: nat): (code: string)
    requires roll < 900000
    ensures |code| == 6 && AllDigits(code) && code[0] != '0'
    ensures 100000 <= DecimalValue(code) <= 999999
  {
    var code := NatToString(100000 + roll);
    assert Pow10(5) == 100000 && Pow10(6) == 1000000 by {
      assert Pow10(1) == 10 && Pow10(2) == 100 && Pow10(3) == 1000 && Pow10(4) == 10000;
    }
    DigitCount(100000 + roll, 6);
    code
  }

  /** `[^\s@]` */
  predicate EmailChar(c: char) {
    !IsJsSpace(c) && c != '@'
  }

  predicate EmailPart(s: string) {
    |s| > 0 && forall i :: 0 <= i < |s| ==> EmailChar(s[i])
  }

  /** The pattern `^[^\s@]+@[^\s@]+\.[^\s@]+$`, as a split of the text. */
  predicate EmailPattern(s: string) {
    exists i, j :: 0 <= i < j < |s| && s[i] == '@' && s[j] == '.'
      && EmailPart(s[..i]) && EmailPart(s[i + 1..j]) && EmailPart(s[j + 1..])
  }

  /** The route's test: one `@` after a non-empty local part, the rest
      free of `@` and white space with a dot neither first nor last. */
  function ValidEmail(s: string): (ok: bool) {
    var i := Run(s, 0, EmailChar);
    0 < i < |s| && s[i] == '@'
    && Run(s, i + 1, EmailChar) == |s| - (i + 1)
    && InnerDot(s, i + 2, |s| - 1)
  }

  /** A '.' at some position in [from, to). */
  function InnerDot(s: string, from: nat, to: int): (r: bool)
    requires to <= |s|
    ensures r <==> (exists j :: from <= j < to && s[j] == '.')
    decreases if from < to then to - from else 0
  {
    if from >= to then false else s[from] == '.' || InnerDot(s, from + 1, to)
  }

  lemma EmailPartSlice(s: string, a: nat, b: nat)
    requires a <= b <= |s|
    ensures EmailPart(s[a..b]) <==> a < b && forall k :: a <= k < b ==> EmailChar(s[k])
  {
    assert forall k :: a <= k < b ==> s[a..b][k - a] == s[k];
  }

  /** The route's test accepts exactly the texts the pattern matches. */
  lemma ValidEmailMatchesPattern(s: string)
    ensures ValidEmail(s) <==> EmailPattern(s)
  {
    if ValidEmail(s) {
      ValidEmailSplits(s);
    }
    if EmailPattern(s) {
      var a, b :| 0 <= a < b < |s| && s[a] == '@' && s[b] == '.'
        && EmailPart(s[..a]) && EmailPart(s[a + 1..b]) && EmailPart(s[b + 1..]);
      PatternPassesTest(s, a, b);
    }
  }

  lemma ValidEmailSplits(s: string)
    requires ValidEmail(s)
    ensures EmailPattern(s)
  {
    var i := Run(s, 0, EmailChar);
    RunHolds(s, 0, EmailChar);
    RunHolds(s, i + 1, EmailChar);
    var j :| i + 2 <= j < |s| - 1 && s[j] == '.';
    EmailPartSlice(s, 0, i);
    EmailPartSlice(s, i + 1, j);
    EmailPartSlice(s, j + 1, |s|);
    assert s[..i] == s[0..i] && s[j + 1..] == s[j + 1..|s|];
  }

  lemma PatternPassesTest(s: string, a: nat, b: nat)
    requires 0 <= a < b < |s| && s[a] == '@' && s[b] == '.'
    requires EmailPart(s[..a]) && EmailPart(s[a + 1..b]) && EmailPart(s[b + 1..])
    ensures ValidEmail(s)
  {
    assert s[..a] == s[0..a] && s[b + 1..] == s[b + 1..|s|];
    EmailPartSlice(s, 0, a);
    EmailPartSlice(s, a + 1, b);
    EmailPartSlice(s, b + 1, |s|);
    RunIs(s, 0, EmailChar, a);
    assert forall k :: a + 1 <= k < |s| ==> EmailChar(s[k]) by {
      assert EmailChar(s[b]);
    }
    RunIs(s, a + 1, EmailChar, |s| - (a + 1));
    assert a + 2 <= b < |s| - 1;
  }

  // ---------------------------------------------------------------------
  // send-otp-sms
  // ---------------------------------------------------------------------

  datatype Reply =
    | Success(message: string)
    | Failure(status: int, error: string)
    | ToLogin(error: string, redirect: string)
    | Registered(id: nat, name: string, email: string, phone: Option<string>, role: string)

  /** The sign-up form; an absent field is `None`. */
  datatype SignUp = SignUp(email: Option<string>, name: Option<string>, password: Option<string>,
                           cnic: Option<string>, phone: Option<string>)

  predicate Truthy(x: Option<string>) {
    x.Some? && x.value != ""
  }

  function OrNull(x: Option<string>): (r: Option<string>)
    ensures r.Some? <==> Truthy(x)
  {
    if Truthy(x) then x else None
  }

  const SendFieldsRequired := "Email, name, and password are required"
  const InvalidEmailFormat := "Invalid email format"
  const EmailRegistered := "Email already registered"
  const CnicRegistered := "CNIC already registered"
  const TooManyRequests := "Too many OTP requests. Please wait 15 minutes before trying again."
  const MailFailed := "Failed to send email. Please try again."
  const CodeSent := "OTP sent successfully to your email"

  /** `findFirst({ where: { OR: [{ email }, { cnic }] } })`, the CNIC
      condition present only for a truthy CNIC. */
  function FirstConflict(users: seq<User>, email: string, cnic: Option<string>): (r: Option<User>)
    ensures r.Some? ==> r.value in users && (r.value.email == email || (Truthy(cnic) && r.value.cnic == cnic))
    ensures r.None? <==> forall k :: 0 <= k < |users| ==>
              users[k].email != email && !(Truthy(cnic) && users[k].cnic == cnic)
    decreases |users|
  {
    if users == [] then None
    else if users[0].email == email || (Truthy(cnic) && users[0].cnic == cnic) then Some(users[0])
    else FirstConflict(users[1..], email, cnic)
  }

  /** The code row send-otp-sms writes. */
  function SignUpCode(req: SignUp, id: nat, code: string, now: int): Code
    requires req.email.Some?
  {
    Code(id, req.email, code, OrNull(req.phone), Some(now + Lifetime), Undefined, false, 0,
         Json(Meta(req.name, req.email, req.password, req.cnic, req.phone)), now)
  }

  /** `deleteMany({ where: { email, code } })` */
  function DeleteCode(store: seq<Code>, email: string, code: string): (r: seq<Code>)
    ensures forall c :: c in r <==> c in store && !(c.email == Some(email) && c.code == code)
    decreases |store|
  {
    if store == [] then []
    else (if store[0].email == Some(email) && store[0].code == code then [] else [store[0]])
         + DeleteCode(store[1..], email, code)
  }

  /** The sign-up form passes the checks made before any lookup. */
  predicate SendChecked(req: SignUp) {
    Truthy(req.email) && Truthy(req.name) && Truthy(req.password) && EmailPattern(req.email.value)
  }

  /** POST /api/auth/send-otp-sms. `newId` is the id of the inserted row. */
  function SendOtpSms(users: seq<User>, store: seq<Code>, req: SignUp, now: int, roll: nat, newId: nat, mailOk: bool): (r: (Reply, seq<Code>))
    requires roll < 900000
    ensures r.0 == Failure(400, SendFieldsRequired) <==> !Truthy(req.email) || !Truthy(req.name) || !Truthy(req.password)
    ensures r.0 == Failure(400, InvalidEmailFormat) <==>
              Truthy(req.email) && Truthy(req.name) && Truthy(req.password) && !EmailPattern(req.email.value)
    ensures r.0.Failure? && r.0.status != 500 ==> r.1 == store
    ensures r.0 == Failure(429, TooManyRequests) ==> CountRecent(store, req.email.value, now - RateWindow) >= RateLimit
    ensures r.0.Success? ==>
              && FirstConflict(users, req.email.value, req.cnic).None?
              && CountRecent(store, req.email.value, now - RateWindow) < RateLimit
              && r.1 == DeleteForEmail(store, req.email) + [SignUpCode(req, newId, GenerateCode(roll), now)]
    ensures r.0 == Failure(500, MailFailed) ==>
              r.1 == DeleteCode(DeleteForEmail(store, req.email) + [SignUpCode(req, newId, GenerateCode(roll), now)],
                                req.email.value, GenerateCode(roll))
    ensures SendChecked(req) ==>
              match FirstConflict(users, req.email.value, req.cnic)
              case Some(u) =>
                r.0 == Failure(400, if u.email == req.email.value then EmailRegistered else CnicRegistered)
              case None =>
                if CountRecent(store, req.email.value, now - RateWindow) >= RateLimit then r.0 == Failure(429, TooManyRequests)
                else r.0 == (if mailOk then Success(CodeSent) else Failure(500, MailFailed))
  {
    if !Truthy(req.email) || !Truthy(req.name) || !Truthy(req.password) then (Failure(400, SendFieldsRequired), store)
    else
      ValidEmailMatchesPattern(req.email.value);
      if !ValidEmail(req.email.value) then (Failure(400, InvalidEmailFormat), store)
      else
        var email := req.email.value;
        match FirstConflict(users, email, req.cnic)
        case Some(u) =>
          // The row matched one of the two conditions, so one reply fires.
          if u.email == email then (Failure(400, EmailRegistered), store)
          else (Failure(400, CnicRegistered), store)
        case None =>
          if CountRecent(store, email, now - RateWindow) >= RateLimit then (Failure(429, TooManyRequests), store)
          else
            var code := GenerateCode(roll);
            var stored := DeleteForEmail(store, req.email) + [SignUpCode(req, newId, code, now)];
            if mailOk then (Success(CodeSent), stored)
            else (Failure(500, MailFailed), DeleteCode(stored, email, code))
  }

  /** After a send the email has exactly one code, or none when the mail
      could not go out. */
  lemma SendLeavesOneCode(users: seq<User>, store: seq<Code>, req: SignUp, now: int, roll: nat, newId: nat, mailOk: bool)
    requires roll < 900000
    requires SendOtpSms(users, store, req, now, roll, newId, mailOk).0.Success?
    ensures CountFor(SendOtpSms(users, store, req, now, roll, newId, mailOk).1, req.email.value) == 1
  {
    var email := req.email.value;
    DeletedHasNone(store, email);
    CountForAppend(DeleteForEmail(store, req.email), SignUpCode(req, newId, GenerateCode(roll), now), email);
  }

  /** Since each send first clears the email's codes, this route on its
      own never reaches its own limit: a send after a successful one is
      not refused as too many. */
  lemma RepeatedSendNotLimited(users: seq<User>, store: seq<Code>, req: SignUp, now: int, roll: nat, newId: nat,
                               now2: int, roll2: nat, newId2: nat, mailOk2: bool)
    requires roll < 900000 && roll2 < 900000
    requires SendOtpSms(users, store, req, now, roll, newId, true).0.Success?
    ensures var store2 := SendOtpSms(users, store, req, now, roll, newId, true).1;
            SendOtpSms(users, store2, req, now2, roll2, newId2, mailOk2).0 != Failure(429, TooManyRequests)
  {
    var store2 := SendOtpSms(users, store, req, now, roll, newId, true).1;
    SendLeavesOneCode(users, store, req, now, roll, newId, true);
    assert CountRecent(store2, req.email.value, now2 - RateWindow) <= 1;
  }

  /** The first row matching either condition decides the message: a
      user holding the CNIC stored before the one holding the email gets
      the CNIC reply, though the email is taken too. */
  lemma CnicReportedBeforeLaterEmail()
    ensures var a := User(1, "A", "a@x.pk", "h", RoleUser, None, Some("12345"));
            var b := User(2, "B", "b@x.pk", "h", RoleUser, None, None);
            var req := SignUp(Some("b@x.pk"), Some("B"), Some("pw"), Some("12345"), None);
            SendOtpSms([a, b], [], req, 0, 0, 1, true).0 == Failure(400, CnicRegistered)
  {
    var a := User(1, "A", "a@x.pk", "h", RoleUser, None, Some("12345"));
    var b := User(2, "B", "b@x.pk", "h", RoleUser, None, None);
    var req := SignUp(Some("b@x.pk"), Some("B"), Some("pw"), Some("12345"), None);
    SampleEmailValid();
    SampleConflict(a, b);
    ConflictOnCnic([a, b], [], req, 0, 0, 1, true, a);
  }

  lemma SampleEmailValid()
    ensures ValidEmail("b@x.pk")
  {
    var e := "b@x.pk";
    assert e[..1] == "b" && e[2..3] == "x" && e[4..] == "pk";
    PatternPassesTest(e, 1, 3);
  }

  lemma SampleConflict(a: User, b: User)
    requires a == User(1, "A", "a@x.pk", "h", RoleUser, None, Some("12345"))
    requires b == User(2, "B", "b@x.pk", "h", RoleUser, None, None)
    ensures FirstConflict([a, b], "b@x.pk", Some("12345")) == Some(a)
  {
  }

  /** A valid request whose first conflicting row holds only the CNIC is
      refused with the CNIC message. */
  lemma ConflictOnCnic(users: seq<User>, store: seq<Code>, req: SignUp, now: int, roll: nat, newId: nat, mailOk: bool, u: User)
    requires roll < 900000
    requires Truthy(req.email) && Truthy(req.name) && Truthy(req.password) && ValidEmail(req.email.value)
    requires FirstConflict(users, req.email.value, req.cnic) == Some(u) && u.email != req.email.value
    ensures SendOtpSms(users, store, req, now, roll, newId, mailOk).0 == Failure(400, CnicRegistered)
  {
  }

  // ---------------------------------------------------------------------
  // send-otp
  // ---------------------------------------------------------------------

  const AlreadyRegisteredLogin := "This email is already registered. Please login."
  const LoginPage := "/login"

  /** POST /api/auth/send-otp. `mailError` is the message when the mail
      cannot be sent; the row stays then. */
  function SendOtp(users: seq<User>, store: seq<Code>, email: Option<string>, now: int, roll: nat, newId: nat,
                   mailOk: bool, mailError: string): (r: (Reply, seq<Code>))
    requires roll < 900000
    ensures r.0 == ToLogin(AlreadyRegisteredLogin, LoginPage) <==> EmailTaken(users, email)
    ensures r.0.ToLogin? ==> r.1 == store
    ensures !r.0.ToLogin? ==> r.1 == store + [Code(newId, email, GenerateCode(roll), None, None, Undefined, false, 0, NoMeta, now)]
    ensures r.0.Success? <==> !EmailTaken(users, email) && mailOk
  {
    if EmailTaken(users, email) then (ToLogin(AlreadyRegisteredLogin, LoginPage), store)
    else
      var stored := store + [Code(newId, email, GenerateCode(roll), None, None, Undefined, false, 0, NoMeta, now)];
      if mailOk then (Success(""), stored) else (Failure(200, mailError), stored)
  }

  // ---------------------------------------------------------------------
  // verify-otp
  // ---------------------------------------------------------------------

  const InvalidCode := "Invalid OTP code"
  const CodeExpired := "OTP has expired. Please request a new one."
  const BadRegistrationData := "Invalid registration data. Please start over."
  const MissingRegistrationData := "Missing required registration data. Please start over."
  const AlreadyRegisteredInstead := "This email is already registered. Please login instead."

  /** `findFirst({ where: { email, code: otp } })`; an absent value is no
      condition. */
  function FindCode(store: seq<Code>, email: Option<string>, otp: Option<string>): (r: Option<nat>)
    ensures r.Some? ==> (r.value < |store| && CodeMatches(store[r.value], email, otp)
                         && forall k :: 0 <= k < r.value ==> !CodeMatches(store[k], email, otp))
    ensures r.None? ==> forall k :: 0 <= k < |store| ==> !CodeMatches(store[k], email, otp)
  {
    FindCodeFrom(store, email, otp, 0)
  }

  predicate CodeMatches(c: Code, email: Option<string>, otp: Option<string>) {
    (email.None? || c.email == email) && (otp.None? || c.code == otp.value)
  }

  function FindCodeFrom(store: seq<Code>, email: Option<string>, otp: Option<string>, from: nat): (r: Option<nat>)
    requires from <= |store|
    ensures r.Some? ==> (from <= r.value < |store| && CodeMatches(store[r.value], email, otp)
                         && forall k :: from <= k < r.value ==> !CodeMatches(store[k], email, otp))
    ensures r.None? ==> forall k :: from <= k < |store| ==> !CodeMatches(store[k], email, otp)
    decreases |store| - from
  {
    if from == |store| then None
    else if CodeMatches(store[from], email, otp) then Some(from)
    else FindCodeFrom(store, email, otp, from + 1)
  }

  /** POST /api/auth/verify-otp, as written. `dbError` is the message of
      a failed insert (no email). `None` is an email the body leaves out,
      which Prisma drops from the filter; a JSON `null` email, which
      Prisma turns into `email IS NULL`, is not represented. */
  function VerifyOtp(users: seq<User>, store: seq<Code>, email: Option<string>, otp: Option<string>, now: int,
                     hash: string -> string, newId: nat, dbError: string): (r: (Reply, seq<Code>, seq<User>))
    ensures FindCode(store, email, otp).None? ==> r == (Failure(200, InvalidCode), store, users)
    ensures FindCode(store, email, otp).Some? ==>
              var c := store[FindCode(store, email, otp).value];
              if c.expireat.Some? && now > c.expireat.value then
                r == (Failure(200, CodeExpired), DeleteForEmail(store, email), users)
              else if c.metaData.Unparsable? then r == (Failure(200, BadRegistrationData), store, users)
              else if c.metaData.NoMeta? || !Truthy(c.metaData.meta.name) || !Truthy(c.metaData.meta.password) then
                r == (Failure(200, MissingRegistrationData), store, users)
              else if EmailTaken(users, email) then
                r == (Failure(200, AlreadyRegisteredInstead), DeleteForEmail(store, email), users)
              else r.0 == (if email.None? then Failure(200, dbError) else Success(AccountCreated))
    ensures !r.0.Success? ==> r.2 == users
    ensures r.0.Success? ==>
              var c := store[FindCode(store, email, otp).value];
              && email.Some? && !EmailTaken(users, email)
              && (c.expireat.None? || now <= c.expireat.value)
              && c.metaData.Json? && Truthy(c.metaData.meta.name) && Truthy(c.metaData.meta.password)
              && r.2 == users + [User(newId, c.metaData.meta.name.value, email.value, hash(c.metaData.meta.password.value),
                                      RoleUser, OrNull(c.metaData.meta.phone), None)]
              && r.1 == DeleteForEmail(store, email)
  {
    match FindCode(store, email, otp)
    case None => (Failure(200, InvalidCode), store, users)
    case Some(k) =>
      var c := store[k];
      if c.expireat.Some? && now > c.expireat.value then (Failure(200, CodeExpired), DeleteForEmail(store, email), users)
      else
        match c.metaData
        case Unparsable => (Failure(200, BadRegistrationData), store, users)
        case NoMeta => (Failure(200, MissingRegistrationData), store, users)
        case Json(m) =>
          if !Truthy(m.name) || !Truthy(m.password) then (Failure(200, MissingRegistrationData), store, users)
          else if EmailTaken(users, email) then (Failure(200, AlreadyRegisteredInstead), DeleteForEmail(store, email), users)
          else if email.None? then (Failure(200, dbError), store, users)
          else
            var u := User(newId, m.name.value, email.value, hash(m.password.value), RoleUser, OrNull(m.phone), None);
            (Success(AccountCreated), DeleteForEmail(store, email), users + [u])
  }

  /** As written, a request without an email matches any row with the
      code and, once that row has expired, clears the codes of every
      address. */
  lemma MissingEmailClearsAllCodes(hash: string -> string)
    ensures var mine := Code(1, Some("a@x.pk"), "123456", None, Some(0), Undefined, false, 0, NoMeta, 0);
            var theirs := Code(2, Some("b@x.pk"), "654321", None, Some(1000000), Undefined, false, 0, NoMeta, 0);
            VerifyOtp([], [mine, theirs], None, Some("123456"), 1, hash, 1, "").1 == []
  {
  }

  /** verify-otp with a missing email treated as no match, so that only
      the request's own codes can be removed. */
  function VerifyOtpChecked(users: seq<User>, store: seq<Code>, email: Option<string>, otp: Option<string>, now: int,
                            hash: string -> string, newId: nat, dbError: string): (r: (Reply, seq<Code>, seq<User>))
    ensures email.None? ==> r == (Failure(200, InvalidCode), store, users)
    ensures email.Some? ==> r == VerifyOtp(users, store, email, otp, now, hash, newId, dbError)
    ensures forall c :: c in store && c.email != email ==> c in r.1
  {
    if email.None? then (Failure(200, InvalidCode), store, users)
    else VerifyOtp(users, store, email, otp, now, hash, newId, dbError)
  }

  /** A code from send-otp-sms, used within its ten minutes, registers
      the citizen with the name and password given at sign-up. */
  lemma SignUpThenVerify(users: seq<User>, store: seq<Code>, req: SignUp, now: int, roll: nat, newId: nat,
                         now2: int, hash: string -> string, userId: nat, dbError: string)
    requires roll < 900000
    requires SendOtpSms(users, store, req, now, roll, newId, true).0.Success?
    requires now2 <= now + Lifetime
    ensures var store2 := SendOtpSms(users, store, req, now, roll, newId, true).1;
            var r := VerifyOtpChecked(users, store2, req.email, Some(GenerateCode(roll)), now2, hash, userId, dbError);
            r.0.Success?
            && r.2 == users + [User(userId, req.name.value, req.email.value, hash(req.password.value), RoleUser, OrNull(req.phone), None)]
  {
    var store2 := SendOtpSms(users, store, req, now, roll, newId, true).1;
    var email := req.email.value;
    var code := GenerateCode(roll);
    var rest := DeleteForEmail(store, req.email);
    assert store2 == rest + [SignUpCode(req, newId, code, now)];
    assert FindCode(store2, req.email, Some(code)) == Some(|rest|) by {
      forall k | 0 <= k < |rest| ensures !CodeMatches(store2[k], req.email, Some(code)) {
        assert store2[k] == rest[k] && rest[k] in rest;
      }
      assert CodeMatches(store2[|rest|], req.email, Some(code));
    }
    assert !EmailTaken(users, req.email);
  }

  /** A code written by send-otp carries no sign-up data, so verify-otp
      never creates a user from it. */
  lemma SendOtpCodeCannotRegister(users: seq<User>, store: seq<Code>, e: string, now: int, roll: nat, newId: nat,
                                  mailOk: bool, mailError: string, now2: int, hash: string -> string, userId: nat, dbError: string)
    requires roll < 900000
    requires !SendOtp(users, store, Some(e), now, roll, newId, mailOk, mailError).0.ToLogin?
    requires FindCode(store, Some(e), Some(GenerateCode(roll))).None?
    ensures var store2 := SendOtp(users, store, Some(e), now, roll, newId, mailOk, mailError).1;
            VerifyOtp(users, store2, Some(e), Some(GenerateCode(roll)), now2, hash, userId, dbError)
              == (Failure(200, MissingRegistrationData), store2, users)
  {
    var store2 := SendOtp(users, store, Some(e), now, roll, newId, mailOk, mailError).1;
    assert FindCode(store2, Some(e), Some(GenerateCode(roll))) == Some(|store|) by {
      forall k | 0 <= k < |store| ensures !CodeMatches(store2[k], Some(e), Some(GenerateCode(roll))) {
        assert store2[k] == store[k];
      }
      assert CodeMatches(store2[|store|], Some(e), Some(GenerateCode(roll)));
    }
  }

  // ---------------------------------------------------------------------
  // verify-otp-sms
  // ---------------------------------------------------------------------

  const OtpRequired := "Email and OTP are required"
  const InvalidOtp := "Invalid OTP"
  const RegistrationDataInvalid := "Invalid registration data"
  const UserExists := "User with this email or CNIC already exists"
  const VerifyFailed := "Failed to verify OTP"
  const RegistrationDone := "Registration successful"

  /** An unverified code for the email with the given digits. */
  predicate Live(c: Code, email: string, otp: string) {
    c.email == Some(email) && c.code == otp && !c.verified
  }

  /** `findFirst` over the live codes ordered by `createdAt` descending:
      the newest, the earliest stored among equally new ones. */
  function Newest(store: seq<Code>, email: string, otp: string): (r: Option<nat>)
    ensures r.None? <==> forall k :: 0 <= k < |store| ==> !Live(store[k], email, otp)
    ensures r.Some? ==> (r.value < |store| && Live(store[r.value], email, otp)
                         && (forall k :: 0 <= k < |store| && Live(store[k], email, otp) ==> store[k].createdAt <= store[r.value].createdAt)
                         && (forall k :: 0 <= k < r.value && Live(store[k], email, otp) ==> store[k].createdAt < store[r.value].createdAt))
  {
    NewestFrom(store, email, otp, 0, None)
  }

  function NewestFrom(store: seq<Code>, email: string, otp: string, from: nat, best: Option<nat>): (r: Option<nat>)
    requires from <= |store|
    requires best.None? ==> forall k :: 0 <= k < from ==> !Live(store[k], email, otp)
    requires best.Some? ==> (best.value < from && Live(store[best.value], email, otp)
                             && (forall k :: 0 <= k < from && Live(store[k], email, otp) ==> store[k].createdAt <= store[best.value].createdAt)
                             && (forall k :: 0 <= k < best.value && Live(store[k], email, otp) ==> store[k].createdAt < store[best.value].createdAt))
    ensures r.None? <==> forall k :: 0 <= k < |store| ==> !Live(store[k], email, otp)
    ensures r.Some? ==> (r.value < |store| && Live(store[r.value], email, otp)
                         && (forall k :: 0 <= k < |store| && Live(store[k], email, otp) ==> store[k].createdAt <= store[r.value].createdAt)
                         && (forall k :: 0 <= k < r.value && Live(store[k], email, otp) ==> store[k].createdAt < store[r.value].createdAt))
    decreases |store| - from
  {
    if from == |store| then best
    else if Live(store[from], email, otp) && (best.None? || store[from].createdAt > store[best.value].createdAt) then
      NewestFrom(store, email, otp, from + 1, Some(from))
    else NewestFrom(store, email, otp, from + 1, best)
  }

  /** `new Date() > new Date(expiresAt)`: an undefined date is invalid and
      never compares greater; `null` is the epoch. */
  predicate Expired(d: JsDate, now: int) {
    match d
    case Undefined => false
    case Null => now > 0
    case At(t) => now > t
  }

  /** `delete({ where: { id } })` */
  function DeleteId(store: seq<Code>, id: nat): (r: seq<Code>)
    ensures forall c :: c in r <==> c in store && c.id != id
    decreases |store|
  {
    if store == [] then [] else (if store[0].id == id then [] else [store[0]]) + DeleteId(store[1..], id)
  }

  /** `update({ where: { id }, data: { verified: true } })` */
  function MarkVerified(store: seq<Code>, id: nat): (r: seq<Code>)
    ensures |r| == |store|
    ensures forall k :: 0 <= k < |store| ==> r[k] == (if store[k].id == id then store[k].(verified := true) else store[k])
  {
    seq(|store|, k requires 0 <= k < |store| => if store[k].id == id then store[k].(verified := true) else store[k])
  }

  /** `deleteMany({ where: { email, id: { not: id } } })` */
  function DeleteOthers(store: seq<Code>, email: string, id: nat): (r: seq<Code>)
    ensures forall c :: c in r <==> c in store && !(c.email == Some(email) && c.id != id)
    decreases |store|
  {
    if store == [] then []
    else (if store[0].email == Some(email) && store[0].id != id then [] else [store[0]]) + DeleteOthers(store[1..], email, id)
  }

  /** The unique email and CNIC columns reject the new user. */
  predicate Clash(users: seq<User>, m: Meta)
    requires m.email.Some?
  {
    exists u :: u in users && (u.email == m.email.value || (m.cnic.Some? && u.cnic == m.cnic))
  }

  function NewUser(m: Meta, id: nat, hash: string -> string): User
    requires m.name.Some? && m.email.Some? && m.password.Some?
  {
    User(id, m.name.value, m.email.value, hash(m.password.value), RoleUser, OrNull(m.phone), m.cnic)
  }

  /** POST /api/auth/verify-otp-sms. The user's name and email columns
      are taken as required, so a sign-up record without them fails the
      insert. */
  function VerifyOtpSms(users: seq<User>, store: seq<Code>, email: Option<string>, otp: Option<string>, now: int,
                        hash: string -> string, newId: nat): (r: (Reply, seq<Code>, seq<User>))
    ensures r.0 == Failure(400, OtpRequired) <==> !Truthy(email) || !Truthy(otp)
    ensures r.0 == Failure(400, InvalidOtp) <==>
              (Truthy(email) && Truthy(otp) && forall k :: 0 <= k < |store| ==> !Live(store[k], email.value, otp.value))
    ensures !r.0.Registered? ==> r.2 == users
    ensures r.0.Failure? && r.0.error != CodeExpired ==> r.1 == store
    ensures r.0 == Failure(400, CodeExpired) ==>
              var c := store[Newest(store, email.value, otp.value).value];
              Expired(c.expiresAt, now) && r.1 == DeleteId(store, c.id)
    ensures r.0.Registered? ==>
              && Truthy(email) && Truthy(otp)
              && var c := store[Newest(store, email.value, otp.value).value];
              && !Expired(c.expiresAt, now)
              && c.metaData.Json?
              && var m := c.metaData.meta;
              && m.name.Some? && m.email.Some? && m.password.Some? && !Clash(users, m)
              && r.2 == users + [NewUser(m, newId, hash)]
              && r.0 == Registered(newId, m.name.value, m.email.value, OrNull(m.phone), RoleUser)
              && c.(verified := true) in r.1
              && forall d :: d in r.1 && d.email == email ==> d.id == c.id
    ensures Truthy(email) && Truthy(otp) && Newest(store, email.value, otp.value).Some? ==>
              var c := store[Newest(store, email.value, otp.value).value];
              if Expired(c.expiresAt, now) then r == (Failure(400, CodeExpired), DeleteId(store, c.id), users)
              else if c.metaData.Unparsable? then r.0 == Failure(400, RegistrationDataInvalid)
              else if c.metaData.NoMeta? || c.metaData.meta.password.None? || c.metaData.meta.name.None?
                      || c.metaData.meta.email.None? then r.0 == Failure(500, VerifyFailed)
              else if Clash(users, c.metaData.meta) then r.0 == Failure(400, UserExists)
              else r.0.Registered?
  {
    if !Truthy(email) || !Truthy(otp) then (Failure(400, OtpRequired), store, users)
    else
      match Newest(store, email.value, otp.value)
      case None => (Failure(400, InvalidOtp), store, users)
      case Some(k) =>
        var c := store[k];
        if Expired(c.expiresAt, now) then (Failure(400, CodeExpired), DeleteId(store, c.id), users)
        else
          match c.metaData
          case Unparsable => (Failure(400, RegistrationDataInvalid), store, users)
          // JSON.parse(null) is null, whose `password` throws.
          case NoMeta => (Failure(500, VerifyFailed), store, users)
          case Json(m) =>
            if m.password.None? || m.name.None? || m.email.None? then (Failure(500, VerifyFailed), store, users)
            else if Clash(users, m) then (Failure(400, UserExists), store, users)
            else
              var u := NewUser(m, newId, hash);
              assert store[k] in store;
              assert MarkVerified(store, c.id)[k] == c.(verified := true);
              (Registered(newId, u.name, u.email, u.phone, RoleUser),
               DeleteOthers(MarkVerified(store, c.id), email.value, c.id), users + [u])
  }

  /** A code from send-otp-sms always completes the sign-up through
      verify-otp-sms, at any later time since the sender never sets the
      `expiresAt` field this route reads, provided the CNIC was either left
      out or given (an empty CNIC is not checked at sending but is
      inserted). */
  lemma SignUpThenVerifySms(users: seq<User>, store: seq<Code>, req: SignUp, now: int, roll: nat, newId: nat,
                            now2: int, hash: string -> string, userId: nat)
    requires roll < 900000
    requires SendOtpSms(users, store, req, now, roll, newId, true).0.Success?
    requires req.cnic.None? || Truthy(req.cnic)
    ensures var store2 := SendOtpSms(users, store, req, now, roll, newId, true).1;
            var r := VerifyOtpSms(users, store2, req.email, Some(GenerateCode(roll)), now2, hash, userId);
            r.0 == Registered(userId, req.name.value, req.email.value, OrNull(req.phone), RoleUser)
            && r.2 == users + [User(userId, req.name.value, req.email.value, hash(req.password.value), RoleUser, OrNull(req.phone), req.cnic)]
  {
    var store2 := SendOtpSms(users, store, req, now, roll, newId, true).1;
    var email := req.email.value;
    var code := GenerateCode(roll);
    var rest := DeleteForEmail(store, req.email);
    assert store2 == rest + [SignUpCode(req, newId, code, now)];
    NewestIsLast(rest, SignUpCode(req, newId, code, now), email, code);
    var m := Meta(req.name, req.email, req.password, req.cnic, req.phone);
    NoClashWithoutConflict(users, m);
  }

  /** After the email's rows are deleted, the row appended for it is the
      only live one. */
  lemma NewestIsLast(rest: seq<Code>, c: Code, email: string, code: string)
    requires forall x :: x in rest ==> x.email != Some(email)
    requires Live(c, email, code)
    ensures Newest(rest + [c], email, code) == Some(|rest|)
  {
    var s := rest + [c];
    forall k | 0 <= k < |rest| ensures !Live(s[k], email, code) {
      assert s[k] == rest[k] && rest[k] in rest;
    }
    assert s[|rest|] == c;
  }

  /** No row conflicting at sending means no clash at verifying. */
  lemma NoClashWithoutConflict(users: seq<User>, m: Meta)
    requires m.email.Some? && (m.cnic.None? || Truthy(m.cnic))
    requires FirstConflict(users, m.email.value, m.cnic).None?
    ensures !Clash(users, m)
  {
    forall u | u in users ensures !(u.email == m.email.value || (m.cnic.Some? && u.cnic == m.cnic)) {
      var i :| 0 <= i < |users| && users[i] == u;
    }
  }

  /** A verified code is no longer live, so the same code cannot register
      a second user. */
  lemma VerifiedCodeNotReused(users: seq<User>, store: seq<Code>, email: Option<string>, otp: Option<string>, now: int,
                              hash: string -> string, newId: nat, now2: int, newId2: nat)
    requires VerifyOtpSms(users, store, email, otp, now, hash, newId).0.Registered?
    ensures var r := VerifyOtpSms(users, store, email, otp, now, hash, newId);
            VerifyOtpSms(r.2, r.1, email, otp, now2, hash, newId2).0 == Failure(400, InvalidOtp)
  {
    var r := VerifyOtpSms(users, store, email, otp, now, hash, newId);
    var c := store[Newest(store, email.value, otp.value).value];
    forall k | 0 <= k < |r.1| ensures !Live(r.1[k], email.value, otp.value) {
      var d := r.1[k];
      assert d in r.1;
      if d.email == email {
        assert d.id == c.id;
        assert d in MarkVerified(store, c.id);
        var j :| 0 <= j < |store| && MarkVerified(store, c.id)[j] == d;
      }
    }
  }
}
