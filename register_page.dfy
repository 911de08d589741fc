/** The registration form's checks (frontend/src/pages/Register.jsx): the
    e-mail pattern, the order in which `register` rejects a form, and the
    invitation code kept from the query string. */
module RegisterPage {
  import opened Js
  import opened Passwords

  /** `[^\s@]+`: a non-empty run without white space or "@". */
  predicate EmailPart(x: string)
  {
    |x| > 0 && forall k :: 0 <= k < |x| ==> !IsJsWhitespace(x[k]) && x[k] != '@'
  }

  /** `/^[^\s@]+@[^\s@]+\.[^\s@]+$/.test(s)`: `s` splits as
      part "@" part "." part. */
  predicate IsValidEmail(s: string)
  {
    exists i, j :: 0 < i < j < |s| - 1 && s[i] == '@' && s[j] == '.'
      && EmailPart(s[..i]) && EmailPart(s[i + 1..j]) && EmailPart(s[j + 1..])
  }

  predicate NoWhitespace(s: string)
  {
    forall k :: 0 <= k < |s| ==> !IsJsWhitespace(s[k])
  }

  /** The only "@" of `s` is at `i`. */
  predicate OnlyAtSignAt(s: string, i: int)
  {
    forall k :: 0 <= k < |s| && s[k] == '@' ==> k == i
  }

  /** Some "." after the "@" has text on both sides. */
  predicate DotAfter(s: string, i: int)
  {
    exists j :: 0 <= i && i + 2 <= j <= |s| - 2 && s[j] == '.'
  }

  /** No white space, one "@" after a non-empty local part, and a "." after
      the "@" with text on both sides. */
  predicate EmailShape(s: string)
  {
    NoWhitespace(s) && exists i :: 1 <= i < |s| && s[i] == '@' && OnlyAtSignAt(s, i) && DotAfter(s, i)
  }

  lemma ValidEmailHasShape(s: string)
    requires IsValidEmail(s)
    ensures EmailShape(s)
  {
    var i, j :| 0 < i < j < |s| - 1 && s[i] == '@' && s[j] == '.'
      && EmailPart(s[..i]) && EmailPart(s[i + 1..j]) && EmailPart(s[j + 1..]);
    forall k | 0 <= k < |s| ensures !IsJsWhitespace(s[k]) && (s[k] == '@' ==> k == i) {
      if k < i {
        assert s[k] == s[..i][k];
      } else if i < k < j {
        assert s[k] == s[i + 1..j][k - i - 1];
      } else if j < k {
        assert s[k] == s[j + 1..][k - j - 1];
      }
    }
    assert OnlyAtSignAt(s, i) && DotAfter(s, i);
  }

  lemma ShapeIsValidEmail(s: string)
    requires EmailShape(s)
    ensures IsValidEmail(s)
  {
    var i :| 1 <= i < |s| && s[i] == '@' && OnlyAtSignAt(s, i) && DotAfter(s, i);
    var j :| 0 <= i && i + 2 <= j <= |s| - 2 && s[j] == '.';
    var local, domain, top := s[..i], s[i + 1..j], s[j + 1..];
    forall k | 0 <= k < |local| ensures !IsJsWhitespace(local[k]) && local[k] != '@' {
      assert local[k] == s[k];
    }
    forall k | 0 <= k < |domain| ensures !IsJsWhitespace(domain[k]) && domain[k] != '@' {
      assert domain[k] == s[i + 1 + k];
    }
    forall k | 0 <= k < |top| ensures !IsJsWhitespace(top[k]) && top[k] != '@' {
      assert top[k] == s[j + 1 + k];
    }
    assert EmailPart(local) && EmailPart(domain) && EmailPart(top);
  }

  /** The pattern accepts exactly the strings with no white space, one "@"
      after a non-empty local part, and a "." after the "@" with text on
      both sides. */
  lemma ValidEmailShape(s: string)
    ensures IsValidEmail(s) <==>
      NoWhitespace(s) && exists i :: 1 <= i < |s| && s[i] == '@' && OnlyAtSignAt(s, i) && DotAfter(s, i)
  {
    if IsValidEmail(s) {
      ValidEmailHasShape(s);
    }
    if EmailShape(s) {
      ShapeIsValidEmail(s);
    }
  }

  datatype RegisterError = MissingFields | InvalidEmail | WeakPassword

  /** What `register` posts to `/auth/register`. */
  datatype Signup = Signup(name: string, email: string, password: string, role: string)

  /** `register()`: the e-mail is trimmed and lower-cased, the password
      taken as typed; required fields, then the e-mail pattern, then the
      strength rules are checked, and the form is posted only if all
      pass. */
  function Register(name: string, email: string, password: string, role: string): (r: Result<Signup, RegisterError>)
    ensures var clean := ToLower(Trim(email));
      && (r == Err(MissingFields) <==> clean == "" || password == "")
      && (r == Err(InvalidEmail) <==> clean != "" && password != "" && !IsValidEmail(clean))
      && (r == Err(WeakPassword) <==>
            clean != "" && password != "" && IsValidEmail(clean) && !IsStrongPassword(password))
      && (r.Ok? <==> clean != "" && password != "" && IsValidEmail(clean) && IsStrongPassword(password))
      && (r.Ok? ==> r.value == Signup(Trim(name), clean, password, role))
  {
    var cleanEmail := ToLower(Trim(email));
    var cleanName := Trim(name);
    if cleanEmail == "" || password == "" then Err(MissingFields)
    else if !IsValidEmail(cleanEmail) then Err(InvalidEmail)
    else if !IsStrongPassword(password) then Err(WeakPassword)
    else Ok(Signup(cleanName, cleanEmail, password, role))
  }

  /** A posted sign-up carries an e-mail with no white space and no ASCII
      capital, and a password that meets all five rules. */
  lemma RegisterPostsNormalized(name: string, email: string, password: string, role: string)
    requires Register(name, email, password, role).Ok?
    ensures var s := Register(name, email, password, role).value;
      && NoWhitespace(s.email)
      && (forall k :: 0 <= k < |s.email| ==> !('A' <= s.email[k] <= 'Z'))
      && |MetCriteria(s.password)| == 5
      && s.password == password
  {
    var s := Register(name, email, password, role).value;
    ValidEmailShape(s.email);
    CountIsMetCriteria(s.password);
  }

  /** The `code` query parameter (`None` when absent) is kept upper-cased
      when non-empty. */
  function PendingCode(code: Option<string>): (r: Option<string>)
    ensures r.Some? <==> code.Some? && code.value != ""
    ensures r.Some? ==> |r.value| == |code.value|
    ensures r.Some? ==> forall k :: 0 <= k < |r.value| ==> r.value[k] == AsciiUpperChar(code.value[k])
    ensures r.Some? ==> forall k :: 0 <= k < |r.value| ==> !('a' <= r.value[k] <= 'z')
  {
    if code.Some? && code.value != "" then Some(ToUpper(code.value)) else None
  }

  /** Storing an already stored code again changes nothing. */
  lemma PendingCodeStable(code: string)
    requires code != ""
    ensures PendingCode(PendingCode(Some(code))) == PendingCode(Some(code))
  {
    var u := ToUpper(code);
    assert ToUpper(u) == u by {
      forall k | 0 <= k < |u| ensures ToUpper(u)[k] == u[k] {
        assert !('a' <= u[k] <= 'z');
      }
    }
  }
}
