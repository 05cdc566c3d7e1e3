/**
 * The retainer dialog (components/AddRetainerModal.tsx): the office's
 * share of a monthly fee, the prefill or reset on opening, and the choice
 * between updating an existing retainer and inserting a new one.
 */
module AddRetainerModal {
  import opened Wrappers
  import opened Numbers
  import opened Text

  /**
   * `fee * (commission / 100)`: a commission between 0% and 100% leaves a
   * share between nothing and the whole fee.
   */
  function OurShare(fee: real, commission: real): (s: real)
    ensures fee >= 0.0 && 0.0 <= commission <= 100.0 ==> 0.0 <= s <= fee
    ensures commission == 100.0 ==> s == fee
    ensures commission == 0.0 ==> s == 0.0
    ensures s * 100.0 == fee * commission
  {
    var k := commission / 100.0;
    assert fee >= 0.0 && 0.0 <= k ==> 0.0 <= fee * k;
    assert fee >= 0.0 && k <= 1.0 ==> fee * k <= fee * 1.0;
    fee * k
  }

  /**
   * The commission field of a blank form: the text '20'. `Shown(20.0)` is
   * that text (`String(20)`), so it reads back as 20.
   */
  function DefaultCommission(): (f: Field)
    ensures ParseField(f) == Some(20.0)
  {
    Shown(20.0)
  }

  /** `commission?.toString() || '20'`: the stored commission's text, or the default. */
  function CommissionField(c: Option<real>): (f: Field)
    ensures ParseField(f) == Some(if c.Some? then c.value else 20.0)
  {
    if c.Some? then Shown(c.value) else DefaultCommission()
  }

  /** The retainer the dialog is opened on. */
  datatype RetainerData = RetainerData(
    id: Option<string>, clientName: string, monthlyFee: Option<real>,
    commission: Option<real>, startDate: Option<string>)

  /** The fields written on submit. */
  datatype RetainerFields = RetainerFields(
    clientName: string, monthlyFee: real, ourShare: real, commission: real, startDate: string)

  /** An update of an existing retainer leaves `active` alone; an insert sets it. */
  datatype RetainerWrite =
    | Update(id: string, fields: RetainerFields)
    | Insert(fields: RetainerFields, active: bool)

  /** The write `handleSubmit` issues for the form and the retainer being edited, if any. */
  function Write(clientName: string, monthlyFee: Field, commission: Field, startDate: string,
                 initial: Option<RetainerData>): (w: RetainerWrite)
    ensures w.Update? <==> initial.Some? && initial.value.id.Some? && initial.value.id.value != ""
    ensures w.Update? ==> w.id == initial.value.id.value
    ensures w.Insert? ==> w.active
    ensures w.fields.monthlyFee == OrZero(ParseField(monthlyFee))
    ensures w.fields.commission == OrZero(ParseField(commission))
    ensures w.fields.ourShare == OurShare(w.fields.monthlyFee, w.fields.commission)
    ensures w.fields.clientName == clientName && w.fields.startDate == startDate
  {
    var fee := OrZero(ParseField(monthlyFee));
    var comm := OrZero(ParseField(commission));
    var fields := RetainerFields(clientName, fee, OurShare(fee, comm), comm, startDate);
    if initial.Some? && initial.value.id.Some? && initial.value.id.value != "" then Update(initial.value.id.value, fields)
    else Insert(fields, true)
  }

  class RetainerForm {
    var clientName: string
    var monthlyFee: Field
    var commission: Field
    var startDate: string

    predicate IsBlank()
      reads this
    {
      clientName == "" && monthlyFee == Typed("") && commission == DefaultCommission() && startDate == ""
    }

    constructor ()
      ensures IsBlank()
    {
      clientName := "";
      monthlyFee := Typed("");
      commission := DefaultCommission();
      startDate := "";
    }

    /** `resetForm`. */
    method ResetForm()
      modifies this
      ensures IsBlank()
    {
      clientName := "";
      monthlyFee := Typed("");
      commission := DefaultCommission();
      startDate := "";
    }

    /** Prefilling from a stored retainer ('20' for a missing commission). */
    method Prefill(d: RetainerData)
      modifies this
      ensures clientName == d.clientName && startDate == OrEmpty(d.startDate)
      ensures monthlyFee == ShowOrEmpty(d.monthlyFee) && commission == CommissionField(d.commission)
    {
      clientName := d.clientName;
      monthlyFee := ShowOrEmpty(d.monthlyFee);
      commission := CommissionField(d.commission);
      startDate := OrEmpty(d.startDate);
    }

    /** The opening effect: prefill from the retainer being edited, or reset. */
    method Open(initial: Option<RetainerData>)
      modifies this
      ensures initial.None? ==> IsBlank()
      ensures initial.Some? ==> clientName == initial.value.clientName && startDate == OrEmpty(initial.value.startDate)
      ensures initial.Some? ==> monthlyFee == ShowOrEmpty(initial.value.monthlyFee)
      ensures initial.Some? ==> commission == CommissionField(initial.value.commission)
    {
      if initial.Some? {
        Prefill(initial.value);
      } else {
        ResetForm();
      }
    }

    /** The share shown while typing. */
    function Preview(): (s: real)
      reads this
    {
      OurShare(OrZero(ParseField(monthlyFee)), OrZero(ParseField(commission)))
    }

    /** `handleSubmit` when the write succeeds: the write goes out and the form is reset. */
    method Submit(initial: Option<RetainerData>) returns (w: RetainerWrite)
      modifies this
      ensures w == Write(old(clientName), old(monthlyFee), old(commission), old(startDate), initial)
      ensures IsBlank()
    {
      w := Write(clientName, monthlyFee, commission, startDate, initial);
      ResetForm();
    }
  }

  /** Opening on a stored retainer and saving unchanged writes back its fee and commission (20 when missing), and a share consistent with the two. */
  lemma EditUnchanged(d: RetainerData)
    ensures var w := Write(d.clientName, ShowOrEmpty(d.monthlyFee),
                           CommissionField(d.commission),
                           OrEmpty(d.startDate), Some(d));
      w.fields.monthlyFee == (if d.monthlyFee.Some? then d.monthlyFee.value else 0.0)
      && w.fields.commission == (if d.commission.Some? then d.commission.value else 20.0)
  {
    assert OrZero(ParseField(ShowOrEmpty(d.monthlyFee))) == (if d.monthlyFee.Some? then d.monthlyFee.value else 0.0);
  }
}
