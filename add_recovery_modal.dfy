/**
 * The new tax-recovery dialog (components/AddRecoveryModal.tsx): the fee
 * split it derives from the typed amounts and percentages, the row it
 * stores, and its reset.
 */
module AddRecoveryModal {
  import opened Wrappers
  import Text
  import opened Numbers

  /** `parseFloat(s) || 0`. */
  function Parsed(s: string): (x: real)
    ensures Text.ParseFloat(s).Some? ==> x == Text.ParseFloat(s).value
    ensures Text.ParseFloat(s).None? ==> x == 0.0
  {
    OrZero(Text.ParseFloat(s))
  }

  /** The amounts derived from the total and the three percentages. */
  datatype FeeSplit = FeeSplit(fee: real, partner: real, remainder: real, myCompany: real, otherOffice: real)

  /**
   * The fees are a percentage of the total; the partner takes a percentage
   * of the fees; of the remainder the office takes `myPercent` and the other
   * office the rest of 100.
   */
  function Split(total: real, feePercent: real, partnerPercent: real, myPercent: real): (s: FeeSplit)
    ensures s.partner + s.myCompany + s.otherOffice == s.fee
    ensures s.myCompany + s.otherOffice == s.remainder
    ensures s.fee == total * (feePercent / 100.0)
    ensures s.partner * 100.0 == s.fee * partnerPercent
    ensures s.remainder == s.fee - s.partner
    ensures s.myCompany * 100.0 == s.remainder * myPercent
    ensures s.otherOffice * 100.0 == s.remainder * (100.0 - myPercent)
  {
    var fee := total * (feePercent / 100.0);
    var partner := fee * (partnerPercent / 100.0);
    var remainder := fee - partner;
    assert remainder * (myPercent / 100.0) + remainder * ((100.0 - myPercent) / 100.0)
        == remainder * ((myPercent + (100.0 - myPercent)) / 100.0);
    FeeSplit(fee, partner, remainder, remainder * (myPercent / 100.0), remainder * ((100.0 - myPercent) / 100.0))
  }

  /** With percentages between 0 and 100 and a non-negative total, no share is negative or exceeds the fees. */
  lemma SplitBounds(total: real, feePercent: real, partnerPercent: real, myPercent: real)
    requires total >= 0.0 && 0.0 <= feePercent <= 100.0
    requires 0.0 <= partnerPercent <= 100.0 && 0.0 <= myPercent <= 100.0
    ensures var s := Split(total, feePercent, partnerPercent, myPercent);
      0.0 <= s.fee <= total
      && 0.0 <= s.partner <= s.fee && 0.0 <= s.remainder <= s.fee
      && 0.0 <= s.myCompany <= s.remainder && 0.0 <= s.otherOffice <= s.remainder
  {
    var s := Split(total, feePercent, partnerPercent, myPercent);
    ScaleBetween(total, feePercent / 100.0);
    assert 0.0 <= s.fee <= total;
    ScaleBetween(s.fee, partnerPercent / 100.0);
    assert 0.0 <= s.partner <= s.fee;
    assert 0.0 <= s.remainder <= s.fee;
    ScaleBetween(s.remainder, myPercent / 100.0);
    ScaleBetween(s.remainder, (100.0 - myPercent) / 100.0);
  }

  lemma ScaleBetween(x: real, k: real)
    requires x >= 0.0 && 0.0 <= k <= 1.0
    ensures 0.0 <= x * k <= x
  {
    assert x * k <= x * 1.0;
  }

  /** The `financial_recoveries` row: neither the fee percentage nor the fee amount is kept. */
  datatype RecoveryRow = RecoveryRow(
    clientName: string, status: string, totalRecovered: real,
    partnerPercent: real, partnerAmount: real, myCompanyPercent: real,
    myCompanyAmount: real, otherOfficeAmount: real, paymentDate: Option<string>)

  /** The row for the parsed total and percentages and the typed payment date (`paymentDate || null`). */
  function Row(clientName: string, status: string, total: real, feePercent: real,
               partnerPercent: real, myCompanyPercent: real, paymentDate: string): (r: RecoveryRow)
    ensures r.clientName == clientName && r.status == status && r.totalRecovered == total
    ensures r.partnerPercent == partnerPercent && r.myCompanyPercent == myCompanyPercent
    ensures r.paymentDate.None? <==> paymentDate == ""
    ensures r.paymentDate.Some? ==> r.paymentDate.value == paymentDate
    ensures var s := Split(total, feePercent, partnerPercent, myCompanyPercent);
      r.partnerAmount == s.partner && r.myCompanyAmount == s.myCompany && r.otherOfficeAmount == s.otherOffice
  {
    var s := Split(total, feePercent, partnerPercent, myCompanyPercent);
    RecoveryRow(clientName, status, total, partnerPercent, s.partner, myCompanyPercent, s.myCompany, s.otherOffice,
                if paymentDate == "" then None else Some(paymentDate))
  }

  /** The stored shares add up to the fees on the recovered total, though the fees themselves are not stored. */
  lemma RowConserves(clientName: string, status: string, total: real, feePercent: real,
                     partnerPercent: real, myCompanyPercent: real, paymentDate: string)
    ensures var r := Row(clientName, status, total, feePercent, partnerPercent, myCompanyPercent, paymentDate);
      r.partnerAmount + r.myCompanyAmount + r.otherOfficeAmount == total * (feePercent / 100.0)
  {
  }

  /** An empty or unreadable total counts as nothing: the row then records no money at all. */
  lemma UnreadableTotal(clientName: string, status: string, feePercent: real, partnerPercent: real,
                        myCompanyPercent: real, paymentDate: string)
    ensures Parsed("") == 0.0
    ensures var r := Row(clientName, status, Parsed(""), feePercent, partnerPercent, myCompanyPercent, paymentDate);
      r.totalRecovered == 0.0 && r.partnerAmount == 0.0 && r.myCompanyAmount == 0.0 && r.otherOfficeAmount == 0.0
  {
    assert Text.ParseFloat("") == None;
  }

  class RecoveryForm {
    var clientName: string
    var status: string
    var totalRecovered: string
    var feePercent: string
    var partnerPercent: string
    var myCompanyPercent: string
    var paymentDate: string

    constructor ()
      ensures clientName == "" && status == "analysis" && totalRecovered == "" && feePercent == "30"
      ensures partnerPercent == "50" && myCompanyPercent == "40" && paymentDate == ""
    {
      clientName := "";
      status := "analysis";
      totalRecovered := "";
      feePercent := "30";
      partnerPercent := "50";
      myCompanyPercent := "40";
      paymentDate := "";
    }

    /** `resetForm`: the defaults again, except the fee percentage, which keeps its value. */
    method ResetForm()
      modifies this
      ensures clientName == "" && status == "analysis" && totalRecovered == ""
      ensures partnerPercent == "50" && myCompanyPercent == "40" && paymentDate == ""
      ensures feePercent == old(feePercent)
    {
      clientName := "";
      status := "analysis";
      totalRecovered := "";
      partnerPercent := "50";
      myCompanyPercent := "40";
      paymentDate := "";
    }

    /** The split shown while typing. */
    function Preview(): (s: FeeSplit)
      reads this
    {
      Split(Parsed(totalRecovered), Parsed(feePercent), Parsed(partnerPercent), Parsed(myCompanyPercent))
    }

    /** `handleSubmit` when the insert succeeds: the row goes out and the form is reset. */
    method Submit() returns (row: RecoveryRow)
      modifies this
      ensures row == Row(old(clientName), old(status), Parsed(old(totalRecovered)), Parsed(old(feePercent)),
                         Parsed(old(partnerPercent)), Parsed(old(myCompanyPercent)), old(paymentDate))
      ensures clientName == "" && status == "analysis" && totalRecovered == ""
      ensures partnerPercent == "50" && myCompanyPercent == "40" && paymentDate == ""
      ensures feePercent == old(feePercent)
    {
      row := Row(clientName, status, Parsed(totalRecovered), Parsed(feePercent), Parsed(partnerPercent),
                 Parsed(myCompanyPercent), paymentDate);
      ResetForm();
    }
  }
}
