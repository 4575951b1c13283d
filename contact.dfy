/** POST /api/contact (server.js:174-204): three ordered checks, then the
    submission is saved.  The Contact collection is a store object whose
    list of saved submissions only grows.
 */
module Contact {
  import opened Js
  import opened Models
  import opened Http
  import opened Validators

  const InvalidEmail: Reply := Msg(400, "Invalid email")
  const InvalidPhone: Reply := Msg(400, "Invalid phone")
  const ContactSaved: Reply := Msg(201, "Contact saved")

  /** `fullName && email && phone` */
  predicate HasRequiredFields(f: ContactForm) {
    Truthy(f.fullName) && Truthy(f.email) && Truthy(f.phone)
  }

  /** The reply the handler sends.  Its contract reads the two patterns through
      their direct descriptions (EmailShape, PhoneShape). */
  function ContactReply(f: ContactForm): (r: Reply)
    ensures !HasRequiredFields(f) ==> r == MissingFields
    ensures HasRequiredFields(f) && !EmailShape(f.email.value) ==> r == InvalidEmail
    ensures HasRequiredFields(f) && EmailShape(f.email.value) && !PhoneShape(f.phone.value) ==> r == InvalidPhone
    ensures r == ContactSaved <==> HasRequiredFields(f) && EmailShape(f.email.value) && PhoneShape(f.phone.value)
    ensures r in {MissingFields, InvalidEmail, InvalidPhone, ContactSaved}
  {
    if !HasRequiredFields(f) then MissingFields
    else
      EmailRegexIff(f.email.value);
      PhoneRegexIff(f.phone.value);
      if !EmailRegex(f.email.value) then InvalidEmail
      else if !PhoneRegex(f.phone.value) then InvalidPhone
      else ContactSaved
  }

  /** A submission missing a required field is refused for that reason,
      whatever its email and phone strings are. */
  lemma MissingFieldsBeforePatterns(f: ContactForm, email: Option<string>, phone: Option<string>)
    requires !Truthy(f.fullName) || (!Truthy(f.email) && !Truthy(email)) || (!Truthy(f.phone) && !Truthy(phone))
    ensures ContactReply(f) == ContactReply(f.(email := email, phone := phone)) == MissingFields
  {
  }

  /** The email check comes before the phone check: a bad email is reported
      whatever the phone is. */
  lemma EmailBeforePhone(f: ContactForm, phone: string)
    requires HasRequiredFields(f) && !EmailShape(f.email.value) && phone != ""
    ensures ContactReply(f.(phone := Some(phone))) == InvalidEmail
  {
  }

  /** A saved submission's phone has 10 to 15 characters, and any ten-digit
      phone passes. */
  lemma SavedPhoneLength(f: ContactForm)
    ensures ContactReply(f) == ContactSaved ==> 10 <= |f.phone.value| <= 15
    ensures HasRequiredFields(f) && EmailShape(f.email.value) && |f.phone.value| == 10 && AllDigits(f.phone.value)
            ==> ContactReply(f) == ContactSaved
  {
    if HasRequiredFields(f) {
      PhoneRegexIff(f.phone.value);
      if ContactReply(f) == ContactSaved { PhoneLength(f.phone.value); }
      if |f.phone.value| == 10 && AllDigits(f.phone.value) { TenDigitsAccepted(f.phone.value); }
    }
  }

  /** The Contact collection. */
  class ContactStore {
    var saved: seq<ContactForm>

    constructor ()
      ensures saved == []
    {
      saved := [];
    }

    /** `contact.save()` */
    method Save(f: ContactForm)
      modifies this
      ensures saved == old(saved) + [f]
    {
      saved := saved + [f];
    }
  }

  /** The handler: the early-return chain, then the save. */
  method SubmitContact(store: ContactStore, f: ContactForm) returns (reply: Reply)
    modifies store
    ensures reply == ContactReply(f)
    ensures store.saved == if reply == ContactSaved then old(store.saved) + [f] else old(store.saved)
  {
    if !Truthy(f.fullName) || !Truthy(f.email) || !Truthy(f.phone) {
      return MissingFields;
    }
    if !EmailRegex(f.email.value) {
      return InvalidEmail;
    }
    if !PhoneRegex(f.phone.value) {
      return InvalidPhone;
    }
    store.Save(f);
    reply := ContactSaved;
  }
}
