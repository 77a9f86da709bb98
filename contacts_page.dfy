/** The contact form: four text fields changed one at a time and cleared
    when the form is sent. */
module ContactsPage {
  import opened Toasts

  datatype Field = Name | Email | Subject | Message

  datatype FormData = FormData(name: string, email: string, subject: string, message: string)

  const EmptyForm := FormData("", "", "", "")

  function Get(f: FormData, field: Field): string {
    match field
    case Name => f.name
    case Email => f.email
    case Subject => f.subject
    case Message => f.message
  }

  /** `{ ...prev, [field]: value }`: that field set, the others kept. */
  function With(f: FormData, field: Field, value: string): (r: FormData)
    ensures Get(r, field) == value
    ensures forall other :: other != field ==> Get(r, other) == Get(f, other)
  {
    match field
    case Name => f.(name := value)
    case Email => f.(email := value)
    case Subject => f.(subject := value)
    case Message => f.(message := value)
  }

  /** A form is determined by its four fields. */
  lemma {:induction false} FieldsDetermineForm(f: FormData, g: FormData)
    requires forall field :: Get(f, field) == Get(g, field)
    ensures f == g
  {
    assert Get(f, Name) == Get(g, Name) && Get(f, Email) == Get(g, Email);
    assert Get(f, Subject) == Get(g, Subject) && Get(f, Message) == Get(g, Message);
  }

  /** The last change of a field wins, changes of different fields commute,
      and writing a field its own value changes nothing. */
  lemma {:induction false} ChangeLaws(f: FormData, a: Field, b: Field, v: string, w: string)
    ensures With(With(f, a, v), a, w) == With(f, a, w)
    ensures a != b ==> With(With(f, a, v), b, w) == With(With(f, b, w), a, v)
    ensures With(f, a, Get(f, a)) == f
  {
    FieldsDetermineForm(With(With(f, a, v), a, w), With(f, a, w));
    if a != b {
      FieldsDetermineForm(With(With(f, a, v), b, w), With(With(f, b, w), a, v));
    }
    FieldsDetermineForm(With(f, a, Get(f, a)), f);
  }

  class ContactForm {
    var formData: FormData

    /** The form starts empty. */
    constructor ()
      ensures formData == EmptyForm
    {
      formData := EmptyForm;
    }

    /** `handleChange(field, value)`. */
    method HandleChange(field: Field, value: string)
      modifies this
      ensures formData == With(old(formData), field, value)
    {
      formData := With(formData, field, value);
    }

    /** `handleSubmit`: no check and no request; the success toast, and the
        form cleared. */
    method HandleSubmit() returns (toast: Toast)
      modifies this
      ensures toast == MessageSent
      ensures formData == EmptyForm
    {
      toast := MessageSent;
      formData := EmptyForm;
    }
  }
}
