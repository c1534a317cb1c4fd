# Toast notifications and contact-form submission of the Logika Digital site

This project models the two stateful parts of the site's `script.js`:

- **The toast notification manager** (`initToastContainer`, `showToast`, `removeToast`).
  The container is an ordered child list of toast elements. `showToast` appends one toast and arms a
  timer that calls `removeToast` after `duration` ms. `removeToast` works in two phases. It first adds
  the `hiding` class. Then it arms a 300 ms timer that detaches the toast, but only if the toast still
  has a parent. The close button and the timer both call `removeToast`, and neither timer is ever
  cancelled, so one toast can be removed twice. The parent check makes the second detach a no-op.
- **The contact-form submit handler** (inside `initContactForm`). It captures the four text fields
  and the privacy checkbox. It refuses at once when consent is missing. Otherwise it disables the submit
  button, shows a pending label and sends the mapped payload to the mail relay (EmailJS) once. It then
  reports the outcome with a toast and resets the form only on success. A `finally` block re-enables
  the button and restores its label.

Module `Toasts` (toasts.dfy) holds the container as a class: `toasts: seq<Toast>` is the child list,
each `Toast` object carries its `hiding` flag, and `pending: seq<Timer>` lists the armed timers
(`AutoRemove(toast, delay)` and `Detach(toast, delay)`). Time is an order of events: `Fire(i)` runs any
pending timer, so every order the browser could choose is covered. `RunTimers` is the event loop
draining the timers. Its contract shows that every toast is eventually detached. The container
invariant `Valid` states three things: no toast is attached twice, every pending detach belongs to a
toast already marked `hiding`, and every attached toast still has a timer armed against it. For
framing, it also states that every attached or timed toast was created by this container.

Module `ContactForm` (contact_form.dfy) holds the handler as a class `SubmissionController`. The
handler's `await` splits it in two. `Submit` is the part before the relay call settles. `Settle(outcome)`
is the part after it, with the relay's outcome (`Resolved` or `Rejected`) as a parameter.
`HandleSubmit` runs both back to back. The form is a `FormData` record of four strings and a boolean,
and the button is a `Button(disabled, text)` record. `MailRelay` logs the payloads it receives. While a
request is in flight, the button is disabled and shows the pending label (invariant `Valid`). The controller's contracts describe each showToast call with the two-state
predicate `Toasts.Shown`: exactly one toast appended at the end with the given content, and its
automatic removal armed after the given duration. That
disabled button is the only thing gating a second submission.

Module `Scenarios` (scenarios.dfy) holds six walk-throughs that use only the contracts: a
submission by "Ana" that the relay resolves (`ResolvedSubmission`), the same submission rejected
(`RejectedSubmission`), a submission without consent (`SubmissionWithoutConsent`), an edit made while
the request is in flight (`EditWhileInFlight`), a toast closed by hand and then reached by its
uncancelled timer (`CloseThenTimeout`), and one toast detached while another, of type `info`, stays
in place and visible (`DetachLeavesOthers`).

`initToastContainer` is not idempotent: every call creates and appends a new container. The model's
constructor likewise makes a fresh, empty container each time. The type string of a toast is used
twice. It picks the icon, and it is appended to the class attribute `toast <type>`. So a type whose
class tokens include `hiding` gives a toast that is hidden from the start (`StartsHidden`), and the
model follows this. Double removal is guarded by the parent check (`t in toasts` here), not by a
per-toast flag.

## Model

| member | source | states |
|---|---|---|
| `Toasts.IconFor` | script.js:71-78 | icon selection is total; a type gets no icon exactly when it is not `success`, `error` or `info`, and each of those three gets its own icon |
| `Toasts.IconsDistinct` | script.js:71-78 | the three known types have pairwise different icons |
| `Toasts.Render` | script.js:80-85 | the toast shows the given message, type and icon; the title block is present exactly when the title is non-empty, and then holds the title |
| `Toasts.Toast.constructor` | script.js:67-68 | a new toast element holds its content and carries the `hiding` class exactly when its class attribute `toast <type>` has that token |
| `Toasts.NoHidingToken` | script.js:68 | a class attribute without the letter `h` has no `hiding` token |
| `Toasts.NoLetterHStartsVisible` | script.js:68 | every type without the letter `h` gives a toast that starts without the `hiding` class |
| `Toasts.KnownKindsStartVisible` | script.js:68 | toasts of type `success`, `error` or `info` start without the `hiding` class |
| `Toasts.HidingKindStartsHidden` | script.js:68 | a toast of type `hiding` starts with the `hiding` class already set |
| `Toasts.Without` | script.js:107 | `removeChild`: the result's elements are the input's minus one occurrence of the removed toast, so the length drops by one exactly when it was attached |
| `Toasts.WithoutAt` | script.js:107 | removing the toast at position `i` leaves the toasts before and after it in their places and order |
| `Toasts.WithoutRemoves` | script.js:107 | in a duplicate-free child list the removed toast is no longer attached afterwards |
| `Toasts.WithoutOmits` | script.js:107 | removal adds nothing: a toast that was not attached is still not attached afterwards |
| `Toasts.WithoutDistinct` | script.js:107 | removal keeps the child list duplicate-free |
| `Toasts.Detached` | script.js:106-108 | the parent-guarded `removeChild`: a toast with no parent leaves the child list as it is; otherwise one occurrence of the toast is taken out and nothing else |
| `Toasts.DetachedFacts` | script.js:106-108 | after the detach step the child list is still duplicate-free, no longer holds the toast, and holds nothing that was not attached before |
| `Toasts.DetachedAbsent` | script.js:106-108 | the detach step on a toast with no parent leaves the child list unchanged |
| `Toasts.DetachedTwice` | script.js:97-108 | removal is idempotent: a second detach of the same toast changes nothing |
| `Toasts.DetachedExact` | script.js:106-108 | detaching an attached toast takes out exactly that toast, at its position, and keeps every other toast in order |
| `Toasts.RemoveAt` | script.js:105-109 | a timer that fires leaves the pending timers minus exactly that one |
| `Toasts.RemoveAtWithin` | script.js:105-109 | a timer still pending after another fired was pending before |
| `Toasts.RemoveAtKeeps` | script.js:105-109 | every other pending timer stays pending when one fires |
| `Toasts.WeightRemoveAt` | script.js:100-109 | firing a timer removes its share of the callbacks still to run (two for an auto-removal, one for a detach) |
| `Toasts.ToastContainer.constructor` | script.js:57-62 | `initToastContainer`: an empty container with no armed timers |
| `Toasts.ToastContainer.ShowToast` | script.js:64-101 | appends exactly one fresh toast at the end (hiding only if its type names the `hiding` class), leaves the existing toasts and their order unchanged, and arms its removal after `duration` (defaults: empty title, `success`, 5000) |
| `Toasts.ToastContainer.RemoveToast` | script.js:103-110 | first phase: the toast is marked `hiding`, the child list is unchanged, and one detach timer is armed with a 300 ms delay |
| `Toasts.ToastContainer.Fire` | script.js:97-109 | a firing auto-removal runs `removeToast`; a firing detach removes the toast only if still attached, and only a toast already `hiding`; the invariant is kept |
| `Toasts.ToastContainer.FireAutoRemove` | script.js:100 | the auto-removal timer marks its toast `hiding`, leaves the child list as it is and replaces itself with a detach timer |
| `Toasts.ToastContainer.FireDetach` | script.js:105-109 | the detach timer drops itself and applies the parent-guarded removal to a toast that is `hiding` |
| `Toasts.ToastContainer.RunTimers` | script.js:100-109 | whatever order the timers fire in, they all run out and every toast ends up detached |
| `ContactForm.TemplateParams` | script.js:354-359 | the payload has exactly the keys `from_name`, `from_email`, `phone`, `message`, holding `nombre`, `email`, `telefono`, `consulta` |
| `ContactForm.TemplateParamsInjective` | script.js:354-359 | two submissions give the same payload exactly when their four text fields agree, so no field is lost |
| `ContactForm.SuccessMessage` | script.js:372 | the success toast's message contains the submitted email |
| `ContactForm.SuccessTitle` | script.js:373 | the success toast's title contains the submitter's name |
| `ContactForm.MailRelay.Send` | script.js:362-366 | one relay request carrying the payload is recorded |
| `ContactForm.SubmissionController.constructor` | script.js:316-325 | the handler starts with an enabled button, its label, and nothing in flight |
| `ContactForm.SubmissionController.Edit` | script.js:328-334 | the fields the handler captures are whatever the user typed last, also while a request is in flight |
| `ContactForm.SubmissionController.Submit` | script.js:316-366 | without consent: exactly one `error` toast (4000 ms), no relay call, button unchanged; with consent: the button is disabled with the pending label, the payload is sent exactly once, and the captured fields and label are kept for the outcome |
| `ContactForm.SubmissionController.Settle` | script.js:362-395 | on success: exactly one `success` toast (6000 ms) built from the captured email and name, and the form reset; on failure: exactly one `error` toast (7000 ms) and the fields kept; always: the button is enabled with the captured label |
| `ContactForm.SubmissionController.HandleSubmit` | script.js:316-396 | a whole submission shows exactly one toast, calls the relay once with consent and never without, resets the form only on success, and leaves the button exactly as it found it |

## Left out

- Smooth scrolling, scroll animations, CTA tracking, card hover, lead-magnet handlers, parallax, the scroll progress bar and the hamburger menu (script.js:32-52, 115-293): DOM event wiring with no state worth a contract.
- The HTML and SVG markup of a toast and `innerHTML` rendering: abstracted to an icon, an optional title block and a message.
- Real time: timer delays are recorded on each timer (`AutoRemove` carries `duration`, a detach is 300 ms) but firing order is free. So the model does not show that a toast hides no earlier than `duration` and detaches no earlier than 300 ms after that. It also leaves out the browser's clamping of negative or very large delays.
- EmailJS itself (`emailjs.init`, the inside of `emailjs.send`), the service and template identifiers and the public key: the relay is a log of payloads, and its outcome is a parameter of `Settle`.
- Whether every relay call settles: a promise that never settles leaves the button disabled, and the model shows this only by `Settle` never being called.
- `console.log` and `console.error`, `e.preventDefault()`, the lookups of the form elements by id, and the early return when the page has no contact form.
- Exceptions thrown inside the handler other than the relay's rejection: `showToast` cannot fail in the model, so the `finally` path is shown for the two relay outcomes only.
- `contactForm.reset()`: modelled as restoring empty text fields and an unchecked checkbox. The page's HTML, which could set other defaults, is not part of this model.
- Re-entry while the button is disabled: `Submit` requires an enabled button, as the disabled button is the page's only gate.
- The close-button listener (script.js:96-97): it calls `removeToast`, which is `RemoveToast` here. Its use on a detached toast is covered, because the detach step guards with the parent check anyway.
