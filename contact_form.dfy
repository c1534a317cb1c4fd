/**
 * The submit handler of the contact form (initContactForm in script.js):
 * capture the fields, refuse when privacy consent is missing, otherwise
 * disable the submit button, send the mapped payload to the mail relay
 * once, report the outcome with a toast, reset the form only on success,
 * and always restore the button in the `finally` block.
 *
 * The handler is an async function suspended at `await emailjs.send(...)`:
 * Submit is the part before the await and Settle the part after the relay's
 * promise settles; HandleSubmit runs both back to back.
 */
module ContactForm {
  import opened Wrappers
  import Toasts

  /** The values captured from the form: nombre, email, telefono, consulta and the privacy checkbox. */
  datatype FormData = FormData(nombre: string, email: string, telefono: string, consulta: string, privacyAccepted: bool)

  /** The fields after contactForm.reset(): empty text inputs, unchecked checkbox. */
  const EmptyForm := FormData("", "", "", "", false)

  /** The submit button: its `disabled` flag and its label text (innerHTML). */
  datatype Button = Button(disabled: bool, text: string)

  /** How the relay's promise settles. */
  datatype RelayOutcome = Resolved | Rejected

  /** A request awaiting the relay: the captured fields and the label to restore. */
  datatype InFlight = InFlight(data: FormData, originalLabel: string)

  const PendingLabel := "<span style=\"opacity: 0.7;\">Enviando...</span>"

  const ConsentMessage := "Debes aceptar la Política de Privacidad para continuar."
  const ConsentTitle := "Política requerida"
  const ConsentDuration := 4000

  const SuccessDuration := 6000

  const FailureMessage := "Hubo un error al enviar tu consulta. Por favor, intenta nuevamente o contáctanos a contacto@logikadigital.com"
  const FailureTitle := "Error al enviar"
  const FailureDuration := 7000

  /** The relay parameter names, one per text field. */
  const ParamNames: set<string> := {"from_name", "from_email", "phone", "message"}

  /** The payload handed to the relay: the four text fields under the relay's names. */
  function TemplateParams(d: FormData): (p: map<string, string>)
    ensures p.Keys == ParamNames
    ensures p["from_name"] == d.nombre && p["from_email"] == d.email
    ensures p["phone"] == d.telefono && p["message"] == d.consulta
  {
    map["from_name" := d.nombre, "from_email" := d.email, "phone" := d.telefono, "message" := d.consulta]
  }

  /** The payload loses none of the four text fields and carries nothing else. */
  lemma TemplateParamsInjective(a: FormData, b: FormData)
    ensures TemplateParams(a) == TemplateParams(b)
      <==> a.nombre == b.nombre && a.email == b.email && a.telefono == b.telefono && a.consulta == b.consulta
  {
  }

  /** `part` occurs in `text` starting at index `k`. */
  predicate OccursAt(text: string, part: string, k: nat) {
    k + |part| <= |text| && text[k..k + |part|] == part
  }

  /** `part` occurs somewhere in `text`. */
  predicate Mentions(text: string, part: string) {
    exists k: nat :: k <= |text| && OccursAt(text, part, k)
  }


  /** `pre + part + post` mentions `part`. */
  lemma MentionsInside(pre: string, part: string, post: string)
    ensures Mentions(pre + part + post, part)
  {
    var text := pre + part + post;
    assert OccursAt(text, part, |pre|);
  }

  /** The success toast's message: it names the submitted email. */
  function SuccessMessage(email: string): (m: string)
    ensures Mentions(m, email)
  {
    var prefix := "Tu consulta ha sido enviada correctamente. Te contactaremos pronto al correo ";
    MentionsInside(prefix, email, ".");
    prefix + email + "."
  }

  /** The success toast's title: it names the submitter. */
  function SuccessTitle(nombre: string): (t: string)
    ensures Mentions(t, nombre)
  {
    MentionsInside("¡Gracias ", nombre, "!");
    "¡Gracias " + nombre + "!"
  }

  /** The mail relay, seen only through the payloads dispatched to it. */
  class MailRelay {
    var sent: seq<map<string, string>>

    constructor ()
      ensures sent == []
    {
      sent := [];
    }

    /** emailjs.send: one request carrying `params`; its outcome arrives later, at Settle. */
    method Send(params: map<string, string>)
      modifies this
      ensures sent == old(sent) + [params]
    {
      sent := sent + [params];
    }
  }

  /** The contact form, its submit button and the handler's state across the await. */
  class SubmissionController {
    var form: FormData
    var button: Button
    var inFlight: Option<InFlight>
    const toasts: Toasts.ToastContainer
    const relay: MailRelay

    /** The button is disabled exactly while a request is in flight, and shows the pending label then. */
    ghost predicate Valid()
      reads this, toasts, toasts.created
    {
      toasts.Valid()
      && (button.disabled <==> inFlight.Some?)
      && (inFlight.Some? ==> button.text == PendingLabel)
    }

    constructor (toasts: Toasts.ToastContainer, relay: MailRelay, buttonText: string)
      requires toasts.Valid()
      ensures Valid() && this.toasts == toasts && this.relay == relay
      ensures form == EmptyForm && button == Button(false, buttonText) && inFlight == None
    {
      this.toasts := toasts;
      this.relay := relay;
      form := EmptyForm;
      button := Button(false, buttonText);
      inFlight := None;
    }

    /** The user edits the fields; this can happen while a request is in flight. */
    method Edit(data: FormData)
      requires Valid()
      modifies this
      ensures Valid() && form == data
      ensures button == old(button) && inFlight == old(inFlight)
    {
      form := data;
    }

    /**
     * The handler up to the await. Without consent: one error toast and
     * nothing else. With consent: the button is disabled and shows the
     * pending label, and the relay receives the mapped fields once.
     */
    method Submit()
      requires Valid() && !button.disabled
      modifies this, toasts, relay
      ensures Valid() && form == old(form)
      ensures !old(form.privacyAccepted) ==>
        button == old(button) && inFlight == None && relay.sent == old(relay.sent)
        && Toasts.Shown(toasts, ConsentMessage, ConsentTitle, "error", ConsentDuration)
      ensures old(form.privacyAccepted) ==>
        button == Button(true, PendingLabel)
        && inFlight == Some(InFlight(old(form), old(button.text)))
        && relay.sent == old(relay.sent) + [TemplateParams(old(form))]
        && toasts.toasts == old(toasts.toasts) && toasts.pending == old(toasts.pending)
    {
      var data := form;
      if !data.privacyAccepted {
        var _ := toasts.ShowToast(ConsentMessage, ConsentTitle, "error", ConsentDuration);
        return;
      }
      button := button.(disabled := true);
      var originalLabel := button.text;
      button := button.(text := PendingLabel);
      relay.Send(TemplateParams(data));
      inFlight := Some(InFlight(data, originalLabel));
    }

    /**
     * The handler after the relay settles: a success toast naming the
     * captured name and email and a form reset, or an error toast with the
     * fields kept; then, in every case, the button enabled with its label back.
     */
    method Settle(outcome: RelayOutcome)
      requires Valid() && inFlight.Some?
      modifies this, toasts
      ensures Valid() && inFlight == None
      ensures button == Button(false, old(inFlight.value.originalLabel))
      ensures outcome == Resolved ==>
        form == EmptyForm
        && Toasts.Shown(toasts, SuccessMessage(old(inFlight.value.data.email)),
                        SuccessTitle(old(inFlight.value.data.nombre)), "success", SuccessDuration)
      ensures outcome == Rejected ==>
        form == old(form) && Toasts.Shown(toasts, FailureMessage, FailureTitle, "error", FailureDuration)
    {
      var request := inFlight.value;
      if outcome == Resolved {
        var _ := toasts.ShowToast(SuccessMessage(request.data.email), SuccessTitle(request.data.nombre),
                                  "success", SuccessDuration);
        form := EmptyForm;
      } else {
        var _ := toasts.ShowToast(FailureMessage, FailureTitle, "error", FailureDuration);
      }
      // finally
      button := Button(false, request.originalLabel);
      inFlight := None;
    }

    /**
     * One whole submission with no other event during the await: exactly one
     * toast, at most one relay call, and the button left as it was found.
     */
    method HandleSubmit(outcome: RelayOutcome)
      requires Valid() && !button.disabled
      modifies this, toasts, relay
      ensures Valid() && inFlight == None && button == old(button)
      ensures relay.sent == old(relay.sent) + if old(form.privacyAccepted) then [TemplateParams(old(form))] else []
      ensures !old(form.privacyAccepted) ==>
        form == old(form) && Toasts.Shown(toasts, ConsentMessage, ConsentTitle, "error", ConsentDuration)
      ensures old(form.privacyAccepted) && outcome == Resolved ==>
        form == EmptyForm
        && Toasts.Shown(toasts, SuccessMessage(old(form.email)), SuccessTitle(old(form.nombre)), "success", SuccessDuration)
      ensures old(form.privacyAccepted) && outcome == Rejected ==>
        form == old(form) && Toasts.Shown(toasts, FailureMessage, FailureTitle, "error", FailureDuration)
    {
      Submit();
      if inFlight.Some? {
        Settle(outcome);
      }
    }
  }
}
