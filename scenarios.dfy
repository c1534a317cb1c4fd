/**
 * Client walk-throughs that use only the contracts of Toasts and ContactForm:
 * a submission the relay resolves, one it rejects, one without consent, an
 * edit while a request is in flight, and toasts closed by hand before their
 * automatic removal fires.
 */
module Scenarios {
  import opened Toasts
  import opened ContactForm

  method ResolvedSubmission() {
    var container := new ToastContainer();
    var relay := new MailRelay();
    var controller := new SubmissionController(container, relay, "Enviar");
    var ana := FormData("Ana", "ana@x.com", "555", "hola", true);
    controller.Edit(ana);
    controller.HandleSubmit(Resolved);
    assert relay.sent == [TemplateParams(ana)];
    assert |container.toasts| == 1;
    var t := container.toasts[0];
    assert t.content.kind == "success" && t.content.icon == CheckIcon;
    assert Mentions(t.content.message, "ana@x.com");
    assert Mentions(t.content.titleBlock.value, "Ana");
    assert container.pending == [AutoRemove(t, 6000)];
    assert controller.form == EmptyForm;
    assert controller.button == Button(false, "Enviar");
  }

  method RejectedSubmission() {
    var container := new ToastContainer();
    var relay := new MailRelay();
    var controller := new SubmissionController(container, relay, "Enviar");
    var ana := FormData("Ana", "ana@x.com", "555", "hola", true);
    controller.Edit(ana);
    controller.HandleSubmit(Rejected);
    assert |relay.sent| == 1;
    assert |container.toasts| == 1;
    assert container.toasts[0].content.kind == "error";
    assert container.pending == [AutoRemove(container.toasts[0], 7000)];
    assert controller.form.email == "ana@x.com";
    assert controller.button == Button(false, "Enviar");
  }

  method SubmissionWithoutConsent() {
    var container := new ToastContainer();
    var relay := new MailRelay();
    var controller := new SubmissionController(container, relay, "Enviar");
    controller.Edit(FormData("Ana", "ana@x.com", "555", "hola", false));
    controller.HandleSubmit(Resolved);
    assert relay.sent == [];
    assert |container.toasts| == 1;
    assert container.toasts[0].content.kind == "error";
    assert container.toasts[0].content.titleBlock == Wrappers.Some(ConsentTitle);
    assert controller.form.email == "ana@x.com";
  }

  /** The user edits the form during the await; the success toast still names the captured email. */
  method EditWhileInFlight() {
    var container := new ToastContainer();
    var relay := new MailRelay();
    var controller := new SubmissionController(container, relay, "Enviar");
    controller.Edit(FormData("Ana", "ana@x.com", "555", "hola", true));
    controller.Submit();
    assert controller.button == Button(true, PendingLabel);
    controller.Edit(FormData("Bea", "bea@y.com", "", "", true));
    controller.Settle(Resolved);
    assert container.toasts[0].content.message == SuccessMessage("ana@x.com");
    assert controller.form == EmptyForm && controller.button == Button(false, "Enviar");
  }

  /** Close click, detach, then the uncancelled auto-removal timer: the second removal changes nothing. */
  method CloseThenTimeout() {
    var container := new ToastContainer();
    var t := container.ShowToast("uno");
    container.RemoveToast(t);
    var auto, detach := AutoRemove(t, 5000), Detach(t, 300);
    assert container.pending == [auto, detach];
    assert RemoveAt([auto, detach], 1) == [auto];
    assert Detached([t], t) == [] by {
      assert [t][0] == t;
    }
    container.Fire(1);
    assert container.toasts == [] && container.pending == [auto];
    assert RemoveAt([auto], 0) == [];
    container.Fire(0);
    assert container.pending == [detach] && container.toasts == [];
    assert RemoveAt([detach], 0) == [];
    container.Fire(0);
    assert container.toasts == [] && container.pending == [];
  }

  /** Detaching one toast leaves the other one in place. */
  method DetachLeavesOthers() {
    var container := new ToastContainer();
    var t := container.ShowToast("uno");
    var u := container.ShowToast("dos", "Aviso", "info", 3000);
    assert container.toasts == [t, u];
    container.RemoveToast(t);
    assert container.pending[2] == Detach(t, 300);
    container.Fire(2);
    assert Detached([t, u], t) == [u] by {
      assert [t, u][0] == t && [t, u][1..] == [u];
    }
    KnownKindsStartVisible("info");
    assert container.toasts == [u] && !u.hiding;
  }
}
