/** The account routes (backend/routes/authRoutes.js): login, the
    forgot-password request that issues a one-hour reset token, and the
    reset that consumes it. Hashing is an uninterpreted function: `sha` for
    the token digest and `bcrypt`/`compare` for passwords. */
module AuthRoutes {
  import opened Js
  import opened Passwords
  import ResetPasswordPage

  /** A reset token lives one hour. */
  const ResetWindowMs: int := 60 * 60 * 1000

  const LoginFailedMsg: string := "Enter correct email or password"
  const EmailRequiredMsg: string := "Email is required"
  const ResetSentMsg: string := "If the account exists, a reset link was sent."
  const MailNotConfiguredMsg: string := "Email not configured on server"
  const ResetFailedMsg: string := "Password reset failed"
  const ResetFieldsMsg: string := "Token and password are required"
  const WeakPasswordMsg: string := "Password must be at least 8 characters and include upper, lower, number, and symbol."
  const ResetInvalidMsg: string := "Reset link expired or invalid"
  const ResetDoneMsg: string := "Password updated"

  /** A user record; times are milliseconds since the epoch. */
  datatype Account = Account(id: string, email: string, passwordHash: string,
                             resetTokenHash: Option<string>, resetTokenExpires: Option<int>)

  datatype Reply = Reply(status: nat, msg: string)

  /** What sending the reset mail did. */
  datatype MailOutcome = Sent | NotConfigured | MailError

  /** `String(field || "")`. */
  function BodyString(v: WireValue): (s: string)
    ensures !Truthy(v) ==> s == ""
    ensures Truthy(v) && v.Str? ==> s == v.s
    ensures Truthy(v) ==> s != ""
  {
    if Truthy(v) then ToJsString(v) else ""
  }

  /** `User.findOne({ email })` on the cast filter value `email`: the first
      record with that e-mail. */
  function FindByEmail(users: seq<Account>, email: string): (r: Option<nat>)
    ensures r.Some? ==> r.value < |users| && users[r.value].email == email
    ensures r.Some? ==> forall j :: 0 <= j < r.value ==> users[j].email != email
    ensures r.None? ==> forall j :: 0 <= j < |users| ==> users[j].email != email
  {
    if users == [] then None
    else if users[0].email == email then Some(0)
    else
      match FindByEmail(users[1..], email)
      case None => None
      case Some(k) => Some(k + 1)
  }

  /** The value `findOne({ email })` matches: the User schema declares
      `email` with `lowercase` and `trim`, and Mongoose runs those setters on
      a string query filter as well (on ASCII letters the two commute). */
  function QueryEmail(email: string): (q: string)
    ensures |q| <= |email|
    ensures forall k :: 0 <= k < |q| ==> !('A' <= q[k] <= 'Z')
    ensures q == "" <==> IsBlank(email)
  {
    ToLower(Trim(email))
  }

  lemma TrimDropsLeadingSpace()
    ensures Trim(" Bob@X.COM") == "Bob@X.COM"
  {
    var typed, inner := " Bob@X.COM", "Bob@X.COM";
    assert IsJsWhitespace(typed[0]) && !IsJsWhitespace(inner[0]);
    assert typed[1..] == inner;
    assert TrimStart(typed) == inner;
    assert !IsJsWhitespace(inner[|inner| - 1]);
    assert TrimEnd(inner) == inner;
  }

  lemma LowerCasesAddress()
    ensures ToLower("Bob@X.COM") == "bob@x.com"
  {
    var inner, lowered := "Bob@X.COM", ToLower("Bob@X.COM");
    forall k | 0 <= k < |inner| ensures lowered[k] == "bob@x.com"[k] {
      assert lowered[k] == AsciiLowerChar(inner[k]);
    }
  }

  /** A padded, capitalised address finds the same record as the address
      in lower case. */
  lemma QueryNormalizesAddress(users: seq<Account>)
    ensures QueryEmail(" Bob@X.COM") == "bob@x.com"
    ensures FindByEmail(users, QueryEmail(" Bob@X.COM")) == FindByEmail(users, "bob@x.com")
  {
    TrimDropsLeadingSpace();
    LowerCasesAddress();
  }

  /** The record carries this token digest and the deadline is still ahead
      (`resetTokenExpires: { $gt: now }`). */
  predicate TokenValid(u: Account, digest: string, now: int)
  {
    u.resetTokenHash == Some(digest) && u.resetTokenExpires.Some? && u.resetTokenExpires.value > now
  }

  /** `User.findOne({ resetTokenHash, resetTokenExpires: { $gt: now } })`. */
  function FindByToken(users: seq<Account>, digest: string, now: int): (r: Option<nat>)
    ensures r.Some? ==> r.value < |users| && TokenValid(users[r.value], digest, now)
    ensures r.Some? ==> forall j :: 0 <= j < r.value ==> !TokenValid(users[j], digest, now)
    ensures r.None? ==> forall j :: 0 <= j < |users| ==> !TokenValid(users[j], digest, now)
  {
    if users == [] then None
    else if TokenValid(users[0], digest, now) then Some(0)
    else
      match FindByToken(users[1..], digest, now)
      case None => None
      case Some(k) => Some(k + 1)
  }

  /** The record after forgot-password stored a token issued at `now`. */
  function Issued(u: Account, digest: string, now: int): (v: Account)
    ensures v.id == u.id && v.email == u.email && v.passwordHash == u.passwordHash
    ensures v.resetTokenHash == Some(digest) && v.resetTokenExpires == Some(now + ResetWindowMs)
  {
    u.(resetTokenHash := Some(digest), resetTokenExpires := Some(now + ResetWindowMs))
  }

  /** The record after a successful reset: new password, both reset fields
      unset. */
  function Cleared(u: Account, newHash: string): (v: Account)
    ensures v.id == u.id && v.email == u.email && v.passwordHash == newHash
    ensures v.resetTokenHash.None? && v.resetTokenExpires.None?
  {
    u.(passwordHash := newHash, resetTokenHash := None, resetTokenExpires := None)
  }

  /** An issued token opens the record only with its own digest and only
      for an hour after issue. */
  lemma IssuedTokenLifetime(u: Account, digest: string, issuedAt: int, candidate: string, now: int)
    ensures TokenValid(Issued(u, digest, issuedAt), candidate, now) <==>
      candidate == digest && now < issuedAt + ResetWindowMs
  {
  }

  /** A consumed token cannot open the record again, whatever the time. */
  lemma ClearedTokenNeverValid(u: Account, newHash: string, candidate: string, now: int)
    ensures !TokenValid(Cleared(u, newHash), candidate, now)
  {
  }

  /** `POST /login`: an unknown e-mail and a wrong password get the same
      reply; on success the user's id is returned (the signed token itself
      is not modelled). */
  function Login(users: seq<Account>, email: string, password: string, compare: (string, string) -> bool): (r: Result<string, Reply>)
    ensures r.Err? ==> r.error == Reply(400, LoginFailedMsg)
    ensures var found := FindByEmail(users, QueryEmail(email));
      && (found.None? ==> r.Err?)
      && (found.Some? ==> (r.Ok? <==> compare(password, users[found.value].passwordHash)))
      && (r.Ok? ==> found.Some? && r.value == users[found.value].id)
  {
    match FindByEmail(users, QueryEmail(email))
    case None => Err(Reply(400, LoginFailedMsg))
    case Some(i) =>
      if !compare(password, users[i].passwordHash) then Err(Reply(400, LoginFailedMsg))
      else Ok(users[i].id)
  }

  /** Replacing a record by one with the same e-mail leaves every e-mail
      lookup where it was. */
  lemma FindByEmailKeepsIndex(users: seq<Account>, i: nat, v: Account, email: string)
    requires i < |users| && v.email == users[i].email
    ensures FindByEmail(users[i := v], email) == FindByEmail(users, email)
  {
    var after := users[i := v];
    assert forall j :: 0 <= j < |users| ==> after[j].email == users[j].email;
  }

  /** Reset stores the trimmed password while login compares the password as
      typed: after a reset from `typed`, logging in with `typed` succeeds
      exactly when trimming left it unchanged, and the trimmed form always
      works. */
  lemma ResetThenLogin(users: seq<Account>, i: nat, email: string, typed: string, candidate: string,
                       bcrypt: string -> string, compare: (string, string) -> bool)
    requires i < |users| && FindByEmail(users, QueryEmail(email)) == Some(i)
    requires forall x, y :: compare(x, bcrypt(y)) <==> x == y
    ensures var after := users[i := Cleared(users[i], bcrypt(Trim(typed)))];
      (Login(after, email, candidate, compare).Ok? <==> candidate == Trim(typed))
      && (Login(after, email, typed, compare).Ok? <==> typed == Trim(typed))
  {
    var after := users[i := Cleared(users[i], bcrypt(Trim(typed)))];
    FindByEmailKeepsIndex(users, i, Cleared(users[i], bcrypt(Trim(typed))), QueryEmail(email));
    assert after[i].passwordHash == bcrypt(Trim(typed));
  }

  /** What forgot-password does for the trimmed address `email`: refuse an
      empty one; answer an unknown one with the generic message; for a
      known one save the new token digest first and then answer by how the
      mail went. */
  predicate IsForgotOutcome(before: seq<Account>, after: seq<Account>, email: string, digest: string,
                            now: int, mail: MailOutcome, reply: Reply)
  {
    var found := FindByEmail(before, QueryEmail(email));
    && (email == "" ==> reply == Reply(400, EmailRequiredMsg) && after == before)
    && (email != "" && found.None? ==> reply == Reply(200, ResetSentMsg) && after == before)
    && (email != "" && found.Some? ==>
          after == before[found.value := Issued(before[found.value], digest, now)]
          && reply == match mail
                      case Sent => Reply(200, ResetSentMsg)
                      case NotConfigured => Reply(500, MailNotConfiguredMsg)
                      case MailError => Reply(500, ResetFailedMsg))
  }

  /** The generic reply hides whether an address is registered only while
      the mail goes out: when sending fails, a known address gets a 500 and
      an unknown one the generic 200. */
  lemma MailFailureRevealsAccount(before: seq<Account>, known: string, unknown: string, digest: string,
                                  now: int, mail: MailOutcome,
                                  afterKnown: seq<Account>, replyKnown: Reply,
                                  afterUnknown: seq<Account>, replyUnknown: Reply)
    requires known != "" && unknown != ""
    requires FindByEmail(before, QueryEmail(known)).Some? && FindByEmail(before, QueryEmail(unknown)).None?
    requires IsForgotOutcome(before, afterKnown, known, digest, now, mail, replyKnown)
    requires IsForgotOutcome(before, afterUnknown, unknown, digest, now, mail, replyUnknown)
    ensures replyKnown == replyUnknown <==> mail == Sent
    ensures mail != Sent ==> replyKnown.status == 500 && replyUnknown.status == 200
  {
  }

  class AccountStore {
    var users: seq<Account>

    constructor (initial: seq<Account>)
      ensures users == initial
    {
      users := initial;
    }

    /** `POST /forgot-password` with body field `emailField`, a random
        `token`, the clock `now` and the mail outcome `mail`. A known and an
        unknown address get the same reply when the mail goes out; the
        token is saved before the mail is sent, so it stays saved when
        sending fails. */
    method ForgotPassword(emailField: WireValue, token: string, now: int, sha: string -> string, mail: MailOutcome)
      returns (reply: Reply)
      modifies this
      ensures IsForgotOutcome(old(users), users, Trim(BodyString(emailField)), sha(token), now, mail, reply)
    {
      var email := Trim(BodyString(emailField));
      if email == "" {
        return Reply(400, EmailRequiredMsg);
      }
      var found := FindByEmail(users, QueryEmail(email));
      if found.None? {
        return Reply(200, ResetSentMsg);
      }
      var i := found.value;
      users := users[i := Issued(users[i], sha(token), now)];
      match mail
      case Sent => reply := Reply(200, ResetSentMsg);
      case NotConfigured => reply := Reply(500, MailNotConfiguredMsg);
      case MailError => reply := Reply(500, ResetFailedMsg);
    }

    /** `POST /reset-password`: both fields are trimmed; missing fields are
        refused first, then a weak password, then a token that matches no
        live record; on success the password is replaced and both reset
        fields are unset. */
    method ResetPassword(tokenField: WireValue, passwordField: WireValue, now: int,
                         sha: string -> string, bcrypt: string -> string)
      returns (reply: Reply)
      modifies this
      ensures var token := Trim(BodyString(tokenField));
        var password := Trim(BodyString(passwordField));
        var found := FindByToken(old(users), sha(token), now);
        && (token == "" || password == "" ==> reply == Reply(400, ResetFieldsMsg) && users == old(users))
        && (token != "" && password != "" && !IsStrongPasswordValue(Str(password)) ==>
              reply == Reply(400, WeakPasswordMsg) && users == old(users))
        && (token != "" && password != "" && IsStrongPasswordValue(Str(password)) && found.None? ==>
              reply == Reply(400, ResetInvalidMsg) && users == old(users))
        && (token != "" && password != "" && IsStrongPasswordValue(Str(password)) && found.Some? ==>
              reply == Reply(200, ResetDoneMsg)
              && users == old(users)[found.value := Cleared(old(users)[found.value], bcrypt(password))])
    {
      var token := Trim(BodyString(tokenField));
      var password := Trim(BodyString(passwordField));
      if token == "" || password == "" {
        return Reply(400, ResetFieldsMsg);
      }
      if !IsStrongPasswordValue(Str(password)) {
        return Reply(400, WeakPasswordMsg);
      }
      var found := FindByToken(users, sha(token), now);
      if found.None? {
        return Reply(400, ResetInvalidMsg);
      }
      var i := found.value;
      users := users[i := Cleared(users[i], bcrypt(password))];
      reply := Reply(200, ResetDoneMsg);
    }
  }

  /** "Abcdefg1 " meets every rule: its trailing space is the symbol. */
  lemma PaddedPasswordIsStrong()
    ensures IsStrongPassword("Abcdefg1 ")
  {
    var typed := "Abcdefg1 ";
    assert IsAsciiLower(typed[1]) && IsAsciiUpper(typed[0]) && IsAsciiDigit(typed[7]);
    assert !IsAsciiLower(typed[8]) && !IsAsciiUpper(typed[8]) && !IsAsciiDigit(typed[8]);
  }

  lemma TrimDropsPadding()
    ensures Trim("Abcdefg1 ") == "Abcdefg1"
  {
    var typed, trimmed := "Abcdefg1 ", "Abcdefg1";
    assert !IsJsWhitespace(typed[0]) && IsJsWhitespace(typed[8]) && !IsJsWhitespace(trimmed[7]);
    assert TrimStart(typed) == typed;
    assert typed[..|typed| - 1] == trimmed;
    assert TrimEnd(typed) == TrimEnd(trimmed);
    assert TrimEnd(trimmed) == trimmed;
  }

  /** Every character is an ASCII letter or digit. */
  predicate Alphanumeric(s: string)
  {
    s == [] || ((IsAsciiLower(s[0]) || IsAsciiUpper(s[0]) || IsAsciiDigit(s[0])) && Alphanumeric(s[1..]))
  }

  lemma {:induction false} AlphanumericHasNoSymbol(s: string)
    requires Alphanumeric(s)
    ensures !HasSymbol(s)
  {
    if s != [] {
      AlphanumericHasNoSymbol(s[1..]);
      forall k | 1 <= k < |s| ensures s[k] == s[1..][k - 1] {
      }
    }
  }

  lemma TrimmedPasswordIsWeak()
    ensures !IsStrongPassword("Abcdefg1")
  {
    assert Alphanumeric("Abcdefg1");
    AlphanumericHasNoSymbol("Abcdefg1");
  }


  /** The reset page checks the password as typed while the route checks it
      trimmed: a trailing space is the only symbol of "Abcdefg1 ", so the
      page lets it through and the route answers that it is weak. */
  lemma PageAndRouteDisagreeOnPadding()
    ensures ResetPasswordPage.Submit("t", "Abcdefg1 ", "Abcdefg1 ").Ok?
    ensures !IsStrongPasswordValue(Str(Trim(BodyString(Str("Abcdefg1 ")))))
  {
    var typed := "Abcdefg1 ";
    PaddedPasswordIsStrong();
    assert ResetPasswordPage.Submit("t", typed, typed).Ok?;
    assert BodyString(Str(typed)) == typed;
    TrimDropsPadding();
    TrimmedPasswordIsWeak();
    assert !IsStrongPasswordValue(Str("Abcdefg1"));
  }
}
