/** The public contact form: field edits and the idle/loading/success/error status
    around one POST to the contact endpoint. */
module ContactForm {

  datatype Status = Idle | Loading | Success | Error

  datatype Fields = Fields(name: string, email: string, message: string)

  datatype FormState = FormState(fields: Fields, status: Status)

  /** How the POST ends: a response with its `ok` flag, or a rejected `fetch`
      (network failure) that never produces a response. */
  datatype Reply = Responded(ok: bool) | NetworkFailure

  function EmptyFields(): (f: Fields)
    ensures f.name == "" && f.email == "" && f.message == ""
  {
    Fields("", "", "")
  }

  function Initial(): (st: FormState)
    ensures st.status == Idle && st.fields == EmptyFields()
  {
    FormState(EmptyFields(), Idle)
  }

  function EditName(st: FormState, v: string): (r: FormState)
    ensures r.fields.name == v && r.fields.email == st.fields.email && r.fields.message == st.fields.message
    ensures r.status == st.status
  {
    st.(fields := st.fields.(name := v))
  }

  function EditEmail(st: FormState, v: string): (r: FormState)
    ensures r.fields.email == v && r.fields.name == st.fields.name && r.fields.message == st.fields.message
    ensures r.status == st.status
  {
    st.(fields := st.fields.(email := v))
  }

  function EditMessage(st: FormState, v: string): (r: FormState)
    ensures r.fields.message == v && r.fields.name == st.fields.name && r.fields.email == st.fields.email
    ensures r.status == st.status
  {
    st.(fields := st.fields.(message := v))
  }

  /** The submit button is disabled exactly while a request is in flight. */
  function SubmitDisabled(st: FormState): (b: bool)
    ensures b <==> st.status !in {Idle, Success, Error}
  {
    st.status == Loading
  }

  /** Pressing submit: the status is `loading` before any reply, and the fields
      are sent as they are. */
  function Submit(st: FormState): (r: FormState)
    ensures r.status == Loading && r.fields == st.fields
    ensures SubmitDisabled(r)
  {
    st.(status := Loading)
  }

  /** The reply handling as the source writes it: there is no `catch`, so a
      rejected `fetch` leaves the state as it was. */
  function ReceiveAsWritten(st: FormState, reply: Reply): (r: FormState)
    ensures reply == Responded(true) ==> r.status == Success && r.fields == EmptyFields()
    ensures reply == Responded(false) ==> r.status == Error && r.fields == st.fields
    ensures reply == NetworkFailure ==> r == st
  {
    match reply
    case Responded(ok) =>
      if ok then FormState(EmptyFields(), Success) else st.(status := Error)
    case NetworkFailure => st
  }

  /** After a network failure the form stays `loading` with its button disabled
      for good. */
  lemma StuckAfterNetworkFailure(st: FormState)
    ensures SubmitDisabled(ReceiveAsWritten(Submit(st), NetworkFailure))
    ensures ReceiveAsWritten(Submit(st), NetworkFailure).status == Loading
  {
  }

  /** The evidently intended handling: a failure of any kind shows the error
      message and keeps what was typed. */
  function Receive(st: FormState, reply: Reply): (r: FormState)
    ensures reply == Responded(true) ==> r.status == Success && r.fields == EmptyFields()
    ensures reply != Responded(true) ==> r.status == Error && r.fields == st.fields
  {
    match reply
    case Responded(ok) =>
      if ok then FormState(EmptyFields(), Success) else st.(status := Error)
    case NetworkFailure => st.(status := Error)
  }

  /** Every submission ends with the button enabled again, and the two handlings
      agree whenever a response arrives. */
  lemma SubmissionAlwaysSettles(st: FormState, reply: Reply)
    ensures !SubmitDisabled(Receive(Submit(st), reply))
    ensures reply.Responded? ==> Receive(Submit(st), reply) == ReceiveAsWritten(Submit(st), reply)
  {
  }
}
