/** The contact form of script.js: three input values, the `.form-error`
    slots that show each field's message, and the submit and blur handlers
    that run the validators and keep the slots in step with their verdicts. */
module ContactForm {
  import opened Validation

  /** One `.form-error` element: its text and whether it is displayed
      (`style.display` is `'block'` or `'none'`). */
  class ErrorSlot {
    var text: string
    var shown: bool

    /** A slot as the page first shows it: empty and hidden. */
    constructor ()
      ensures text == "" && !shown
    {
      text, shown := "", false;
    }

    /** The slot as a verdict leaves it: showing the message of `Fail`,
        empty and hidden for `Pass`. */
    predicate Reflects(v: Verdict)
      reads this
    {
      match v
      case Pass => text == "" && !shown
      case Fail(m) => text == m && shown
    }

    /** Empty and hidden, as a passing verdict leaves the slot. */
    predicate Cleared()
      reads this
    {
      Reflects(Pass)
    }

    /** `showError`. */
    method Show(message: string)
      modifies this
      ensures Reflects(Fail(message))
    {
      text, shown := message, true;
    }

    /** `clearError`. */
    method Clear()
      modifies this
      ensures Cleared()
    {
      text, shown := "", false;
    }

    /** Shows the message of an `Fail` verdict or clears the slot for
        `Pass`, as each validator does before it returns. */
    method Display(v: Verdict)
      modifies this
      ensures Reflects(v)
    {
      match v
      case Pass => Clear();
      case Fail(m) => Show(m);
    }
  }

  /** All three fields pass: the condition for the simulated submission. */
  predicate AllPass(name: string, email: string, message: string) {
    NameVerdict(name) == Pass && EmailVerdict(email) == Pass && MessageVerdict(message) == Pass
  }

  class Form {
    /** The current values of the `name`, `email` and `message` inputs. */
    var name: string
    var email: string
    var message: string
    const nameError: ErrorSlot
    const emailError: ErrorSlot
    const messageError: ErrorSlot
    /** Every element of the page with the class `form-error`, in document
        order; `clearErrors` visits them all. */
    const errorSlots: seq<ErrorSlot>
    /** How many success banners have been inserted before the form. */
    var banners: nat

    ghost predicate Valid()
      reads this
    {
      && nameError != emailError && nameError != messageError && emailError != messageError
      && nameError in errorSlots && emailError in errorSlots && messageError in errorSlots
    }

    /** A form whose page has the three field slots and possibly further
        `.form-error` elements `others`, all inputs empty. */
    constructor (others: seq<ErrorSlot>)
      ensures Valid()
      ensures fresh(nameError) && fresh(emailError) && fresh(messageError)
      ensures nameError.Cleared() && emailError.Cleared() && messageError.Cleared()
      ensures errorSlots == [nameError, emailError, messageError] + others
      ensures name == "" && email == "" && message == "" && banners == 0
    {
      name, email, message := "", "", "";
      nameError := new ErrorSlot();
      emailError := new ErrorSlot();
      messageError := new ErrorSlot();
      errorSlots := [nameError, emailError, messageError] + others;
      banners := 0;
    }

    /** `validateName`, also the blur handler of the name input. */
    method ValidateName() returns (ok: bool)
      modifies nameError
      ensures ok <==> NameVerdict(name) == Pass
      ensures nameError.Reflects(NameVerdict(name))
    {
      var v := NameVerdict(name);
      nameError.Display(v);
      ok := v == Pass;
    }

    /** `validateEmail`, also the blur handler of the email input. */
    method ValidateEmail() returns (ok: bool)
      modifies emailError
      ensures ok <==> EmailVerdict(email) == Pass
      ensures emailError.Reflects(EmailVerdict(email))
    {
      var v := EmailVerdict(email);
      emailError.Display(v);
      ok := v == Pass;
    }

    /** `validateMessage`, also the blur handler of the message input. */
    method ValidateMessage() returns (ok: bool)
      modifies messageError
      ensures ok <==> MessageVerdict(message) == Pass
      ensures messageError.Reflects(MessageVerdict(message))
    {
      var v := MessageVerdict(message);
      messageError.Display(v);
      ok := v == Pass;
    }

    /** `clearErrors`: hides and empties every `.form-error` slot. */
    method ClearErrors()
      modifies errorSlots
      ensures forall s :: s in errorSlots ==> s.Cleared()
      ensures unchanged(this)
    {
      var i := 0;
      while i < |errorSlots|
        invariant 0 <= i <= |errorSlots|
        invariant forall j :: 0 <= j < i ==> errorSlots[j].Cleared()
      {
        errorSlots[i].Clear();
        i := i + 1;
      }
    }

    /** The three validators in the order the submit handler runs them;
        none is skipped when an earlier one fails. */
    method ValidateAll() returns (ok: bool)
      requires Valid()
      modifies nameError, emailError, messageError
      ensures ok <==> AllPass(name, email, message)
      ensures nameError.Reflects(NameVerdict(name))
      ensures emailError.Reflects(EmailVerdict(email))
      ensures messageError.Reflects(MessageVerdict(message))
    {
      var nameOk := ValidateName();
      var emailOk := ValidateEmail();
      var messageOk := ValidateMessage();
      ok := nameOk && emailOk && messageOk;
    }

    /** What the submit handler does once every field has passed:
        `showSuccessMessage`, `contactForm.reset()` and `clearErrors`. */
    method Succeed()
      requires Valid()
      modifies this, errorSlots
      ensures Valid()
      ensures name == "" && email == "" && message == ""
      ensures banners == old(banners) + 1
      ensures forall s :: s in errorSlots ==> s.Cleared()
    {
      banners := banners + 1;
      name, email, message := "", "", "";
      ClearErrors();
    }

    /** The submit handler.  It runs all three validators, so every field
        slot shows its verdict on the submitted values; `sent` tells whether
        all three passed, in which case (and only then) it inserts a banner,
        resets the inputs to their (empty) defaults and clears every slot.
        Otherwise the inputs and the other slots stay as they were. */
    method Submit() returns (sent: bool)
      requires Valid()
      modifies this, errorSlots
      ensures Valid()
      ensures sent <==> AllPass(old(name), old(email), old(message))
      ensures nameError.Reflects(NameVerdict(old(name)))
      ensures emailError.Reflects(EmailVerdict(old(email)))
      ensures messageError.Reflects(MessageVerdict(old(message)))
      ensures sent ==>
        && name == "" && email == "" && message == ""
        && banners == old(banners) + 1
        && forall s :: s in errorSlots ==> s.Cleared()
      ensures !sent ==>
        && name == old(name) && email == old(email) && message == old(message)
        && banners == old(banners)
        && forall s :: s in errorSlots && s != nameError && s != emailError && s != messageError ==>
             s.text == old(s.text) && s.shown == old(s.shown)
    {
      sent := ValidateAll();
      if sent {
        Succeed();
      }
    }
  }
}
