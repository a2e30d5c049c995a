/** The two free-text steps of the parcel-delivery form
    (handlers/users/delivery.py): the package description and the receiver's
    name. Each answer is stripped; one that is too long is refused and the
    form stays on the same step. */
module DeliveryForm {
  import opened Text

  const MaxDescription: nat := 200
  const MaxReceiverName: nat := 100

  /** The conversation steps from the description on; `Confirming` is the
      summary shown by `update_delivery_and_confirm`. */
  datatype Step = AwaitDescription | AwaitReceiverName | AwaitReceiverPhone | Confirming

  /** What reaches the form: a typed text, or the step's skip button. */
  datatype Event = Typed(text: string) | SkipPressed

  /** The conversation state: the step it waits on and the answers kept so far. */
  datatype Form = Form(step: Step, description: Option<string>, receiverName: Option<string>)

  /** `process_package_description`. */
  function SubmitDescription(f: Form, text: string): (r: Form)
    requires f.step == AwaitDescription
    ensures |Strip(text)| > MaxDescription <==> r == f
    ensures |Strip(text)| <= MaxDescription ==>
      r == Form(AwaitReceiverName, Some(Strip(text)), f.receiverName)
  {
    var description := Strip(text);
    if |description| > MaxDescription then f
    else f.(step := AwaitReceiverName, description := Some(description))
  }

  /** `process_receiver_name`. */
  function SubmitReceiverName(f: Form, text: string): (r: Form)
    requires f.step == AwaitReceiverName
    ensures |Strip(text)| > MaxReceiverName <==> r == f
    ensures |Strip(text)| <= MaxReceiverName ==>
      r == Form(AwaitReceiverPhone, f.description, Some(Strip(text)))
  {
    var name := Strip(text);
    if |name| > MaxReceiverName then f
    else f.(step := AwaitReceiverPhone, receiverName := Some(name))
  }

  /** An event reaching the form, routed by its current step. Skipping
      the description leaves it unset and asks for the receiver; skipping
      the receiver goes straight to the summary. The receiver-phone step is
      not part of this model. */
  function Submit(f: Form, e: Event): Form {
    match (f.step, e)
    case (AwaitDescription, Typed(text)) => SubmitDescription(f, text)
    case (AwaitDescription, SkipPressed) => f.(step := AwaitReceiverName)
    case (AwaitReceiverName, Typed(text)) => SubmitReceiverName(f, text)
    case (AwaitReceiverName, SkipPressed) => f.(step := Confirming)
    case _ => f
  }

  function Run(f: Form, events: seq<Event>): Form
    decreases |events|
  {
    if events == [] then f else Run(Submit(f, events[0]), events[1..])
  }

  function Rank(s: Step): nat {
    match s
    case AwaitDescription => 0
    case AwaitReceiverName => 1
    case AwaitReceiverPhone => 2
    case Confirming => 3
  }

  /** The kept answers respect the limits. */
  predicate WithinLimits(f: Form) {
    (f.description.Some? ==> |f.description.value| <= MaxDescription)
    && (f.receiverName.Some? ==> |f.receiverName.value| <= MaxReceiverName)
  }

  /** Whatever the user types or skips, the stored description never
      exceeds 200 characters and the stored receiver name never exceeds 100. */
  lemma {:induction false} RunKeepsLimits(f: Form, events: seq<Event>)
    requires WithinLimits(f)
    ensures WithinLimits(Run(f, events))
    decreases |events|
  {
    if events != [] {
      assert WithinLimits(Submit(f, events[0]));
      RunKeepsLimits(Submit(f, events[0]), events[1..]);
    }
  }

  /** The form never moves backwards; a typed answer either is refused and
      keeps the step, or is stored and moves on by one step; a skip stores
      nothing. */
  lemma SubmitAdvancesOnlyOnAcceptance(f: Form, e: Event)
    ensures Rank(Submit(f, e).step) >= Rank(f.step)
    ensures e.Typed? ==> Rank(Submit(f, e).step) <= Rank(f.step) + 1
    ensures e.Typed? && f.step == AwaitDescription && Submit(f, e).step != f.step ==>
      Submit(f, e).description == Some(Strip(e.text))
    ensures e.Typed? && f.step == AwaitReceiverName && Submit(f, e).step != f.step ==>
      Submit(f, e).receiverName == Some(Strip(e.text))
    ensures e.SkipPressed? ==>
      Submit(f, e).description == f.description && Submit(f, e).receiverName == f.receiverName
  {
  }
}
