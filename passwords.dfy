/** The password rules shared by the backend (`isStrongPassword` in
    backend/routes/authRoutes.js) and by the register and reset pages
    (their own `isStrongPassword` copies and the `strength` meter). The
    regular expressions have no `u` flag, so they test UTF-16 code units;
    a character outside the Basic Multilingual Plane is two surrogates,
    neither of them a letter or a digit, which is what `HasSymbol` says of
    the character itself. */
module Passwords {
  import opened Js

  predicate IsAsciiLower(c: char) { 'a' <= c <= 'z' }
  predicate IsAsciiUpper(c: char) { 'A' <= c <= 'Z' }
  predicate IsAsciiDigit(c: char) { '0' <= c <= '9' }

  /** `/[a-z]/.test(pw)` */
  predicate HasLower(pw: string) { exists i :: 0 <= i < |pw| && IsAsciiLower(pw[i]) }
  /** `/[A-Z]/.test(pw)` */
  predicate HasUpper(pw: string) { exists i :: 0 <= i < |pw| && IsAsciiUpper(pw[i]) }
  /** `/[0-9]/.test(pw)` */
  predicate HasDigit(pw: string) { exists i :: 0 <= i < |pw| && IsAsciiDigit(pw[i]) }
  /** `/[^A-Za-z0-9]/.test(pw)` */
  predicate HasSymbol(pw: string)
  {
    exists i :: 0 <= i < |pw| && !IsAsciiLower(pw[i]) && !IsAsciiUpper(pw[i]) && !IsAsciiDigit(pw[i])
  }
  /** `pw.length >= 8`, counted in UTF-16 code units. */
  predicate LongEnough(pw: string) { Utf16Length(pw) >= 8 }

  /** The pages' `isStrongPassword(value)`: the checks in source order,
      each failing one returning false. */
  function IsStrongPassword(pw: string): (r: bool)
    ensures r <==> LongEnough(pw) && HasLower(pw) && HasUpper(pw) && HasDigit(pw) && HasSymbol(pw)
    ensures Utf16Length(pw) < 8 ==> !r
  {
    if Utf16Length(pw) < 8 then false
    else if !HasLower(pw) then false
    else if !HasUpper(pw) then false
    else if !HasDigit(pw) then false
    else if !HasSymbol(pw) then false
    else true
  }

  /** The backend's `isStrongPassword(password)`, which first rejects
      anything that is not a string. */
  function IsStrongPasswordValue(v: WireValue): (r: bool)
    ensures !v.Str? ==> !r
    ensures v.Str? ==> (r <==> IsStrongPassword(v.s))
  {
    if !v.Str? then false else IsStrongPassword(v.s)
  }

  datatype Criterion = Length | Lower | Upper | Digit | Symbol

  /** The criteria `pw` meets, in the meter's order. */
  function MetCriteria(pw: string): (r: seq<Criterion>)
    ensures Length in r <==> LongEnough(pw)
    ensures Lower in r <==> HasLower(pw)
    ensures Upper in r <==> HasUpper(pw)
    ensures Digit in r <==> HasDigit(pw)
    ensures Symbol in r <==> HasSymbol(pw)
    ensures |r| <= 5
  {
    (if LongEnough(pw) then [Length] else [])
    + (if HasLower(pw) then [Lower] else [])
    + (if HasUpper(pw) then [Upper] else [])
    + (if HasDigit(pw) then [Digit] else [])
    + (if HasSymbol(pw) then [Symbol] else [])
  }

  /** All five criteria met is the same as a strong password. */
  lemma AllCriteriaIsStrong(pw: string)
    ensures MetCriteria(pw) == [Length, Lower, Upper, Digit, Symbol] <==> IsStrongPassword(pw)
  {
  }

  datatype StrengthLabel = Weak | Okay | Strong

  /** The meter's bands: 0-2 Weak, 3-4 Okay, 5 Strong. */
  function Label(score: nat): (l: StrengthLabel)
    ensures l == Weak <==> score <= 2
    ensures l == Okay <==> 3 <= score <= 4
    ensures l == Strong <==> score >= 5
  {
    if score <= 2 then Weak else if score <= 4 then Okay else Strong
  }

  function Point(b: bool): nat
  {
    if b then 1 else 0
  }

  /** The number of criteria met is the length of the list met. */
  lemma CountIsMetCriteria(pw: string)
    ensures Point(LongEnough(pw)) + Point(HasLower(pw)) + Point(HasUpper(pw)) + Point(HasDigit(pw)) + Point(HasSymbol(pw))
         == |MetCriteria(pw)|
  {
  }

  /** The `strength` memo: one point per criterion met, then the band. */
  method Strength(pw: string) returns (score: nat, band: StrengthLabel)
    ensures score == |MetCriteria(pw)| && score <= 5
    ensures band == Label(score)
    ensures band == Strong <==> IsStrongPassword(pw)
  {
    score := 0;
    if Utf16Length(pw) >= 8 {
      score := score + 1;
    }
    if HasLower(pw) {
      score := score + 1;
    }
    if HasUpper(pw) {
      score := score + 1;
    }
    if HasDigit(pw) {
      score := score + 1;
    }
    if HasSymbol(pw) {
      score := score + 1;
    }
    CountIsMetCriteria(pw);
    band := Label(score);
  }
}
