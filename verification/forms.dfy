/** The two form submit handlers: the sign-in page's client-side checks
    (script.js:397-422) and the review form's required-field check
    (script.js:323-345). */
module Forms {
  import opened Wrappers
  import Text
  import Modals

  const EmailMessage: string := "Please enter a valid email."
  const PasswordMessage: string := "Password must be at least 8 characters."
  const MinPasswordLength: nat := 8

  /** The two error texts after a submit, and whether the demo sign-in succeeded. */
  datatype SignInResult = SignInResult(emailError: string, passwordError: string, signedIn: bool)

  /** `email.value.includes('@') && email.value.includes('.')`. */
  predicate EmailAccepted(email: string) {
    '@' in email && '.' in email
  }

  /** `password.value.length >= 8`, the length in UTF-16 code units. */
  predicate PasswordAccepted(password: string) {
    Text.Utf16Length(password) >= MinPasswordLength
  }

  /** The sign-in submit handler: both checks run, each sets or clears its own
      message, and the sign-in goes ahead only when neither set one. */
  function SignIn(email: string, password: string): (r: SignInResult)
    ensures r.emailError == EmailMessage <==> '@' !in email || '.' !in email
    ensures r.emailError != EmailMessage ==> r.emailError == ""
    ensures r.passwordError == PasswordMessage <==> Text.Utf16Length(password) < MinPasswordLength
    ensures r.passwordError != PasswordMessage ==> r.passwordError == ""
    ensures r.signedIn <==> r.emailError == "" && r.passwordError == ""
  {
    var emailError := if !EmailAccepted(email) then EmailMessage else "";
    var passwordError := if !PasswordAccepted(password) then PasswordMessage else "";
    var valid := EmailAccepted(email) && PasswordAccepted(password);
    SignInResult(emailError, passwordError, valid)
  }

  /** Sign-in succeeds exactly when the email has both an '@' and a '.' and the
      password is at least eight code units long. */
  lemma SignInSucceedsIff(email: string, password: string)
    ensures SignIn(email, password).signedIn
            <==> '@' in email && '.' in email && Text.Utf16Length(password) >= 8
  {
  }

  /** A failing email check does not stop the password check from running. */
  lemma BothChecksReported(email: string, password: string)
    requires !EmailAccepted(email) && !PasswordAccepted(password)
    ensures SignIn(email, password).emailError == EmailMessage
    ensures SignIn(email, password).passwordError == PasswordMessage
  {
  }

  /** Four characters outside the Basic Multilingual Plane are eight code
      units, so such a password passes the length check. */
  lemma AstralPasswordCountsDouble()
    ensures PasswordAccepted("\U{1F642}\U{1F642}\U{1F642}\U{1F642}")
  {
  }

  /** The review form's fields as `FormData.get` returns them (`null` when absent),
      and whether the photo input holds a file. */
  datatype ReviewForm = ReviewForm(
    where: Option<string>,
    service: Option<string>,
    facility: Option<string>,
    comment: Option<string>,
    photoAlt: Option<string>,
    photoChosen: bool)

  /** A falsy field: `null` or the empty string. */
  predicate Blank(v: Option<string>) {
    v.None? || v.value == ""
  }

  /** The guard of the submit handler. */
  predicate Rejects(f: ReviewForm)
    ensures !Rejects(f) <==>
              && f.where.Some? && |f.where.value| > 0
              && f.service.Some? && |f.service.value| > 0
              && f.facility.Some? && |f.facility.value| > 0
              && (f.photoChosen ==> f.photoAlt.Some? && |f.photoAlt.value| > 0)
  {
    (f.photoChosen && Blank(f.photoAlt)) || Blank(f.where) || Blank(f.service) || Blank(f.facility)
  }

  const MissingFieldsMessage: string := "Please fill all required fields."

  /** The review form's submit handler. */
  function SubmitReview(p: Modals.Page, f: ReviewForm): (q: Modals.Page)
    ensures Rejects(f) ==> q == p.(live := MissingFieldsMessage)
    ensures !Rejects(f) ==> q == Modals.Close(p, Modals.ReviewModal)
    ensures Rejects(f) <==> q.live == MissingFieldsMessage
  {
    if Rejects(f) then
      p.(live := MissingFieldsMessage)
    else
      var thanked := p.(live := "Review submitted for " + f.where.value + ". Thank you!");
      Modals.Close(thanked, Modals.ReviewModal)
  }

  /** An accepted review has a non-empty place, service and facility, and
      alt text whenever a photo is attached; it leaves the review modal closed
      with the close announcement as the last word. */
  lemma AcceptedReview(p: Modals.Page, f: ReviewForm)
    requires !Rejects(f)
    ensures f.where.Some? && f.where.value != ""
    ensures f.service.Some? && f.service.value != ""
    ensures f.facility.Some? && f.facility.value != ""
    ensures f.photoChosen ==> f.photoAlt.Some? && f.photoAlt.value != ""
    ensures var q := SubmitReview(p, f);
            q.review.ariaHidden && !q.scrollLocked && q.live == "Closed review form"
  {
  }

  /** A rejected review leaves the modals, the form and the scroll lock as they were. */
  lemma RejectedReviewKeepsModal(p: Modals.Page, f: ReviewForm)
    requires Rejects(f)
    ensures var q := SubmitReview(p, f);
            q.review == p.review && q.detail == p.detail && q.scrollLocked == p.scrollLocked
            && q.live == "Please fill all required fields."
  {
  }
}
