/**
 * The create/edit deal dialog (components/NewDealModal.tsx): its form
 * fields, the prefill and reset run when it opens, the inline "new
 * partnership" box, and the partial deal it submits.
 */
module NewDealModal {
  import opened Wrappers
  import opened Text
  import opened Numbers

  /** The `Partial<Deal>` the dialog is opened with: any field may be missing. */
  datatype InitialData = InitialData(
    id: Option<string>,
    clientName: Option<string>,
    cnpj: Option<string>,
    contactName: Option<string>,
    phone: Option<string>,
    email: Option<string>,
    tag: Option<string>,
    value: Option<real>,
    recoveredValue: Option<real>,
    assigneeId: Option<string>,
    status: Option<string>,
    pipelineId: Option<string>)

  /** The dialog's form state. `service` is the selected partnership, stored as the deal's tag. */
  datatype Form = Form(
    companyName: string,
    cnpj: string,
    contactName: string,
    phone: string,
    email: string,
    service: string,
    value: Field,
    recoveredValue: Field,
    assigneeId: string,
    addingPartnership: bool,
    newPartnershipName: string)

  /** The partial deal handed to the page on submit. */
  datatype DealPayload = DealPayload(
    id: Option<string>,
    clientName: string,
    cnpj: string,
    contactName: string,
    phone: string,
    email: string,
    tag: string,
    title: string,
    value: real,
    recoveredValue: real,
    assigneeId: Option<string>,
    status: string,
    pipelineId: Option<string>)

  /** `resetForm`: every field empty and the partnership box closed. */
  function BlankForm(): (f: Form)
    ensures f.value == Typed("") && f.recoveredValue == Typed("")
    ensures !f.addingPartnership && f.newPartnershipName == ""
  {
    Form("", "", "", "", "", "", Typed(""), Typed(""), "", false, "")
  }

  /** Opening with data copies each field, `''` for a missing one; the partnership box is left as it was. */
  function Prefill(d: InitialData, current: Form): (f: Form)
    ensures f.companyName == OrEmpty(d.clientName) && f.cnpj == OrEmpty(d.cnpj)
    ensures f.contactName == OrEmpty(d.contactName) && f.phone == OrEmpty(d.phone) && f.email == OrEmpty(d.email)
    ensures f.service == OrEmpty(d.tag) && f.assigneeId == OrEmpty(d.assigneeId)
    ensures f.value == ShowOrEmpty(d.value) && f.recoveredValue == ShowOrEmpty(d.recoveredValue)
    ensures f.addingPartnership == current.addingPartnership
    ensures f.newPartnershipName == current.newPartnershipName
  {
    Form(OrEmpty(d.clientName), OrEmpty(d.cnpj), OrEmpty(d.contactName), OrEmpty(d.phone),
         OrEmpty(d.email), OrEmpty(d.tag), ShowOrEmpty(d.value), ShowOrEmpty(d.recoveredValue),
         OrEmpty(d.assigneeId), current.addingPartnership, current.newPartnershipName)
  }

  /** `handleSubmit`'s payload for the current form and the data the dialog was opened with. */
  function Payload(f: Form, initial: Option<InitialData>): (p: DealPayload)
    ensures p.title == p.clientName == f.companyName
    ensures p.tag == f.service
    ensures p.cnpj == f.cnpj && p.contactName == f.contactName && p.phone == f.phone && p.email == f.email
    ensures p.value == OrZero(ParseField(f.value)) && p.recoveredValue == OrZero(ParseField(f.recoveredValue))
    ensures p.assigneeId == OrNull(f.assigneeId)
    ensures initial.None? ==> p.id.None? && p.pipelineId.None? && p.status == "active"
    ensures initial.Some? ==> p.id == initial.value.id && p.pipelineId == initial.value.pipelineId
    ensures initial.Some? && initial.value.status.Some? && initial.value.status.value != "" ==>
      p.status == initial.value.status.value
    ensures initial.Some? && (initial.value.status.None? || initial.value.status == Some("")) ==> p.status == "active"
    ensures p.status != ""
  {
    var status := if initial.Some? && initial.value.status.Some? && initial.value.status.value != ""
      then initial.value.status.value else "active";
    DealPayload(
      if initial.Some? then initial.value.id else None,
      f.companyName, f.cnpj, f.contactName, f.phone, f.email, f.service, f.companyName,
      OrZero(ParseField(f.value)), OrZero(ParseField(f.recoveredValue)),
      OrNull(f.assigneeId), status,
      if initial.Some? then initial.value.pipelineId else None)
  }

  /**
   * Opening on a deal and submitting unchanged sends back that deal's
   * fields: the same texts, the same amounts (0 for a missing one), the
   * same assignee (`null` for none), the same status and identity.
   */
  lemma SubmitPrefilled(d: InitialData, current: Form)
    ensures var p := Payload(Prefill(d, current), Some(d));
      && p.id == d.id && p.pipelineId == d.pipelineId
      && p.clientName == OrEmpty(d.clientName) && p.tag == OrEmpty(d.tag)
      && p.cnpj == OrEmpty(d.cnpj) && p.contactName == OrEmpty(d.contactName)
      && p.phone == OrEmpty(d.phone) && p.email == OrEmpty(d.email)
      && p.value == OrZero(d.value) && p.recoveredValue == OrZero(d.recoveredValue)
      && p.assigneeId == (if d.assigneeId == Some("") then None else d.assigneeId)
  {
  }

  /** A fresh dialog submits an active, unassigned deal of value 0 with no id and no column. */
  lemma SubmitBlank()
    ensures var p := Payload(BlankForm(), None);
      p.id.None? && p.pipelineId.None? && p.status == "active" && p.assigneeId.None?
      && p.value == 0.0 && p.recoveredValue == 0.0 && p.title == ""
  {
  }

  class DealDialog {
    var form: Form

    constructor ()
      ensures form == BlankForm()
    {
      form := BlankForm();
    }

    /** The opening effect: prefill from the data when there is any, else `resetForm`. */
    method Open(initial: Option<InitialData>)
      modifies this
      ensures form == (if initial.Some? then Prefill(initial.value, old(form)) else BlankForm())
    {
      if initial.Some? {
        form := Prefill(initial.value, form);
      } else {
        form := BlankForm();
      }
    }

    /**
     * `handleCreatePartnership`; `inserted` is whether the database accepted
     * the new name. A blank name changes nothing; an accepted one (as typed,
     * untrimmed) becomes the selected partnership and the box closes.
     */
    method CreatePartnership(inserted: bool) returns (request: Option<string>)
      modifies this
      ensures IsBlank(old(form).newPartnershipName) ==> request.None? && form == old(form)
      ensures !IsBlank(old(form).newPartnershipName) ==> request == Some(old(form).newPartnershipName)
      ensures !IsBlank(old(form).newPartnershipName) && inserted ==>
        form == old(form).(service := old(form).newPartnershipName, addingPartnership := false, newPartnershipName := "")
      ensures !inserted ==> form == old(form)
    {
      TrimEmptyIffBlank(form.newPartnershipName);
      if Trim(form.newPartnershipName) == [] {
        request := None;
        return;
      }
      request := Some(form.newPartnershipName);
      if inserted {
        form := form.(service := form.newPartnershipName, addingPartnership := false, newPartnershipName := "");
      }
    }

    /** `handleSubmit`: the payload of the form as it stands; the form itself is unchanged. */
    method Submit(initial: Option<InitialData>) returns (p: DealPayload)
      ensures p == Payload(form, initial)
    {
      p := Payload(form, initial);
    }
  }
}
