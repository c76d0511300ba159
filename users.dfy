/** `src/api/users/mod.rs`: the `User` record and its garde rules. The `id`
    must match `^[a-z0-9]+$`, modelled as an explicit scanner; the `email`
    must pass garde's `email` check, a foreign predicate here, and be at most
    100 long under garde's `length`, which counts the bytes of the UTF-8
    text. */
module Users {
  import opened Wrappers
  import opened Text
  import opened Validation

  datatype User = User(id: string, email: string)

  /** `[a-z0-9]` */
  predicate IsIdChar(c: char) {
    ('a' <= c <= 'z') || ('0' <= c <= '9')
  }

  /** The longest run of `[a-z0-9]` from the start. */
  function IdRunLen(s: string): (n: nat)
    ensures n <= |s|
  {
    if s != [] && IsIdChar(s[0]) then 1 + IdRunLen(s[1..]) else 0
  }

  /** `^[a-z0-9]+$`: from the start of the text, at least one character of
      the class, greedily, and then the end of the text (`$` of the regex
      crate, without the multi-line flag, matches only there). */
  predicate MatchesIdPattern(s: string) {
    var n := IdRunLen(s);
    n > 0 && n == |s|
  }

  /** The run covers exactly the leading class characters. */
  lemma {:induction false} IdRunLenSpec(s: string)
    ensures forall i :: 0 <= i < IdRunLen(s) ==> IsIdChar(s[i])
    ensures IdRunLen(s) < |s| ==> !IsIdChar(s[IdRunLen(s)])
  {
    if s != [] && IsIdChar(s[0]) {
      IdRunLenSpec(s[1..]);
      assert forall i :: 1 <= i < |s| ==> s[i] == s[1..][i - 1];
    }
  }

  /** The pattern holds exactly of the non-empty texts made of lower-case
      ASCII letters and digits. */
  lemma IdPatternIff(s: string)
    ensures MatchesIdPattern(s) <==> s != [] && forall i :: 0 <= i < |s| ==> IsIdChar(s[i])
  {
    IdRunLenSpec(s);
  }

  /** The derived validation of `User`: the `id` pattern, then `email` and
      `length(max = 100)` on `email`, each under its field. */
  function UserReport(u: User, isEmail: string -> bool): Report {
    Under(Field("id"), Check(MatchesIdPattern(u.id), Pattern))
    + Under(Field("email"), Check(isEmail(u.email), Email) + Check(Utf8Len(u.email) <= 100, Length))
  }

  /** A user is valid exactly when all three rules hold. */
  lemma UserValidIff(u: User, isEmail: string -> bool)
    ensures UserReport(u, isEmail) == []
        <==> && (u.id != [] && forall i :: 0 <= i < |u.id| ==> IsIdChar(u.id[i]))
             && isEmail(u.email) && Utf8Len(u.email) <= 100
  {
    IdPatternIff(u.id);
  }

  /** A user whose `id` is made of class characters and whose email passes
      the email check and has at most 25 characters (so at most 100 bytes) is
      valid. */
  lemma ShortUserValid(u: User, isEmail: string -> bool)
    requires u.id != [] && forall i :: 0 <= i < |u.id| ==> IsIdChar(u.id[i])
    requires isEmail(u.email) && |u.email| <= 25
    ensures UserReport(u, isEmail) == []
  {
    UserValidIff(u, isEmail);
  }

  /** An empty `id` is reported under `id`. */
  lemma EmptyIdInvalid(email: string, isEmail: string -> bool)
    ensures Violation([Field("id")], Pattern) in UserReport(User("", email), isEmail)
  {
    assert UserReport(User("", email), isEmail)[0] == Violation([Field("id")], Pattern);
  }

  /** So is an `id` with any character outside `[a-z0-9]`, such as an
      upper-case letter or `-`. */
  lemma BadCharIdInvalid(u: User, isEmail: string -> bool, k: nat)
    requires k < |u.id| && !IsIdChar(u.id[k])
    ensures Violation([Field("id")], Pattern) in UserReport(u, isEmail)
  {
    IdPatternIff(u.id);
    assert UserReport(u, isEmail)[0] == Violation([Field("id")], Pattern);
  }

  /** An email longer than 100 bytes is reported under `email`. */
  lemma LongEmailInvalid(u: User, isEmail: string -> bool)
    requires Utf8Len(u.email) > 100
    ensures Violation([Field("email")], Length) in UserReport(u, isEmail)
  {
    var r := UserReport(u, isEmail);
    var a := Under(Field("id"), Check(MatchesIdPattern(u.id), Pattern));
    var inner := Check(isEmail(u.email), Email) + Check(Utf8Len(u.email) <= 100, Length);
    var b := Under(Field("email"), inner);
    var k := |inner| - 1;
    assert inner[k] == Violation([], Length);
    assert [Field("email")] + [] == [Field("email")];
    assert b[k] == Violation([Field("email")], Length);
    assert r == a + b && r[|a| + k] == b[k];
  }

  /** More than 100 characters are more than 100 bytes. */
  lemma LongEmailByChars(u: User, isEmail: string -> bool)
    requires |u.email| > 100
    ensures Violation([Field("email")], Length) in UserReport(u, isEmail)
  {
    LongEmailInvalid(u, isEmail);
  }
}
