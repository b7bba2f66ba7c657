/*******************************************************************************
 *  src/components/RegistrationForm.jsx: the member registration form. Each
 *  field carries the validation rules registered for it; a form with no
 *  failing rule is posted to `/users` and the outcome shown as a message.
 *  The outcome of the POST is a parameter.
 *******************************************************************************/

module RegistrationForm {
  import opened Js
  import opened Effects

  // ---------------------------------------------------------------------------
  // The e-mail pattern /^\S+@\S+$/i
  // ---------------------------------------------------------------------------

  /** A character of the JavaScript `\s` class: the ASCII whitespace
      characters, no-break space, the Unicode space separators, line and
      paragraph separators, and the byte-order mark. */
  predicate IsJsSpace(c: char) {
    var n := c as int;
    (9 <= n <= 13) || n == 0x20 || n == 0xA0 || n == 0x1680 || (0x2000 <= n <= 0x200A)
    || n == 0x2028 || n == 0x2029 || n == 0x202F || n == 0x205F || n == 0x3000 || n == 0xFEFF
  }

  /** Every character matches `\S`. */
  predicate NoSpace(s: string) {
    forall k :: 0 <= k < |s| ==> !IsJsSpace(s[k])
  }

  /** What the regular expression accepts: the text splits at some `@` into
      a non-empty head and a non-empty tail, both free of whitespace (either
      may contain further `@`s; the `i` flag changes nothing for `\S` and
      `@`). */
  predicate EmailPattern(s: string) {
    exists i :: 0 < i < |s| - 1 && s[i] == '@' && NoSpace(s[..i]) && NoSpace(s[i + 1..])
  }

  /** The one-pass reading of the pattern: no whitespace anywhere, and an
      `@` somewhere other than the first or last position. */
  predicate EmailShape(s: string) {
    NoSpace(s) && exists i :: 0 < i < |s| - 1 && s[i] == '@'
  }

  lemma NoSpaceSplit(s: string, i: int)
    requires 0 <= i < |s|
    ensures NoSpace(s) <==> NoSpace(s[..i]) && !IsJsSpace(s[i]) && NoSpace(s[i + 1..])
  {
    if NoSpace(s[..i]) && !IsJsSpace(s[i]) && NoSpace(s[i + 1..]) {
      forall k | 0 <= k < |s| ensures !IsJsSpace(s[k]) {
        if k < i {
          assert s[k] == s[..i][k];
        } else if k > i {
          assert s[k] == s[i + 1..][k - i - 1];
        }
      }
    }
  }

  /** The two readings agree. */
  lemma EmailShapeIsPattern(s: string)
    ensures EmailShape(s) <==> EmailPattern(s)
  {
    if EmailShape(s) {
      var i :| 0 < i < |s| - 1 && s[i] == '@';
      NoSpaceSplit(s, i);
    }
    if EmailPattern(s) {
      var i :| 0 < i < |s| - 1 && s[i] == '@' && NoSpace(s[..i]) && NoSpace(s[i + 1..]);
      NoSpaceSplit(s, i);
    }
  }

  /** Matches `s` against the pattern in one left-to-right scan. */
  method MatchesEmailPattern(s: string) returns (ok: bool)
    ensures ok <==> EmailPattern(s)
  {
    var clean := true;
    var seenAt := false;
    var i := 0;
    while i < |s|
      invariant 0 <= i <= |s|
      invariant clean <==> NoSpace(s[..i])
      invariant seenAt <==> exists k :: 0 < k < i && k < |s| - 1 && s[k] == '@'
    {
      assert s[..i + 1] == s[..i] + [s[i]];
      if IsJsSpace(s[i]) {
        clean := false;
        assert s[..i + 1][i] == s[i];
      } else if clean {
        var grown := s[..i + 1];
        assert NoSpace(grown) by {
          forall k | 0 <= k < |grown| ensures !IsJsSpace(grown[k]) {
            if k < i { assert grown[k] == s[..i][k]; }
          }
        }
      } else {
        assert !NoSpace(s[..i + 1]) by {
          var k :| 0 <= k < i && IsJsSpace(s[..i][k]);
          assert s[..i + 1][k] == s[..i][k];
        }
      }
      if 0 < i < |s| - 1 && s[i] == '@' {
        seenAt := true;
      }
      i := i + 1;
    }
    assert s[..|s|] == s;
    ok := clean && seenAt;
    EmailShapeIsPattern(s);
  }

  // ---------------------------------------------------------------------------
  // The form
  // ---------------------------------------------------------------------------

  /** The field values as typed; an empty date input reads as `""`. */
  datatype FormData = FormData(firstName: string, lastName: string, email: string, dob: string)

  /** The message of the first rule each field fails, if any. */
  datatype Errors = Errors(firstName: Option<string>, lastName: Option<string>,
                           email: Option<string>, dob: Option<string>)

  const FIRST_NAME_REQUIRED: string := "Jméno je povinné"
  const LAST_NAME_REQUIRED: string := "Příjmení je povinné"
  const EMAIL_REQUIRED: string := "Email je povinný"
  const EMAIL_INVALID: string := "Neplatný formát emailu"
  const DOB_REQUIRED: string := "Datum narození je povinné"

  const SUCCESS_MESSAGE: string := "Registrace úspěšná!"
  const FAILURE_MESSAGE: string := "Chyba při registraci."

  function Required(value: string, message: string): Option<string> {
    if value == "" then Some(message) else None
  }

  /** The rules registered per field, `required` checked before `pattern`. */
  function Validate(d: FormData): (e: Errors)
    ensures e.firstName.None? <==> d.firstName != ""
    ensures e.lastName.None? <==> d.lastName != ""
    ensures e.dob.None? <==> d.dob != ""
    ensures e.email.None? <==> EmailPattern(d.email)
    ensures d.email == "" ==> e.email == Some(EMAIL_REQUIRED)
    ensures d.email != "" && !EmailPattern(d.email) ==> e.email == Some(EMAIL_INVALID)
  {
    Errors(Required(d.firstName, FIRST_NAME_REQUIRED),
           Required(d.lastName, LAST_NAME_REQUIRED),
           if d.email == "" then Some(EMAIL_REQUIRED)
           else if !EmailPattern(d.email) then Some(EMAIL_INVALID)
           else None,
           Required(d.dob, DOB_REQUIRED))
  }

  predicate Valid(e: Errors) {
    e.firstName.None? && e.lastName.None? && e.email.None? && e.dob.None?
  }

  function RegisterRequest(d: FormData): Request {
    PostRequest("/users",
                JObj(map["firstName" := JStr(d.firstName), "lastName" := JStr(d.lastName),
                         "email" := JStr(d.email), "dob" := JStr(d.dob)]),
                map[])
  }

  datatype Submission = Submission(errors: Errors, requests: seq<Request>, message: string)

  /** `handleSubmit(onSubmit)` with the message currently shown: the form is
      posted only when every field passes, and the message then tells
      whether the POST succeeded. */
  function Submit(d: FormData, message: string, succeeded: bool): (r: Submission)
    ensures r.errors == Validate(d)
    ensures !Valid(r.errors) ==> r.requests == [] && r.message == message
    ensures Valid(r.errors) ==> r.requests == [RegisterRequest(d)]
    ensures Valid(r.errors) ==> (r.message == SUCCESS_MESSAGE <==> succeeded)
  {
    var e := Validate(d);
    if !Valid(e) then Submission(e, [], message)
    else Submission(e, [RegisterRequest(d)], if succeeded then SUCCESS_MESSAGE else FAILURE_MESSAGE)
  }

  /** The form is posted exactly when both names and the birth date are
      filled in and the e-mail address has the form `x@y` with no
      whitespace; the request carries the four values as typed. */
  lemma PostedIff(d: FormData, message: string, succeeded: bool)
    ensures var r := Submit(d, message, succeeded);
            && (r.requests != [] <==>
                  d.firstName != "" && d.lastName != "" && d.dob != "" && EmailShape(d.email))
            && (r.requests != [] ==>
                  r.requests[0].body.fields["email"] == JStr(d.email)
                  && r.requests[0].body.fields["dob"] == JStr(d.dob))
  {
    EmailShapeIsPattern(d.email);
  }

  /** A few addresses as the pattern sees them. */
  lemma EmailExamples()
    ensures EmailPattern("a@b")
    ensures !EmailPattern("@b") && !EmailPattern("a@") && !EmailPattern("ab")
    ensures EmailPattern("a@b@c")
    ensures !EmailPattern("a @b")
  {
    assert "a@b"[1] == '@' && NoSpace("a@b"[..1]) && NoSpace("a@b"[2..]);
    assert "a@b@c"[1] == '@' && NoSpace("a@b@c"[..1]) && NoSpace("a@b@c"[2..]);
    EmailShapeIsPattern("a @b");
    assert IsJsSpace("a @b"[1]);
  }
}
