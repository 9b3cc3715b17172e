/**
 * The bulk-payout wizard: a recipient list edited row by row, validated on
 * submit, totalled with a 0.8% fee, and moved through five steps
 * (1 upload, 2 review, 3 confirm, 4 processing, 5 complete).
 */
module BulkPayout {
  import opened JsText
  import opened Seqs

  datatype Recipient = Recipient(
    id: int, name: string, email: string, phone: string, amount: real,
    currency: string, payMethod: string, country: string, status: string)

  datatype Totals = Totals(total: real, fee: real, net: real)

  const FeeRate: real := 0.008

  /** The row `handleManualAdd` appends, and the single row "Start Adding Recipients" puts in place. */
  function Blank(id: int): Recipient {
    Recipient(id, "", "", "", 0.0, "USD", "Bank Account", "US", "pending")
  }

  /** The five demonstration rows loaded by "Upload CSV" and "Parse & Continue". */
  const Sample: seq<Recipient> := [
    Recipient(1, "John Doe", "john@example.com", "+1234567890", 1500.0, "USD", "Bank Account", "US", "pending"),
    Recipient(2, "Maria Garcia", "maria@example.com", "+521234567890", 500.0, "MXN", "SPEI", "MX", "pending"),
    Recipient(3, "Wei Chen", "wei@example.com", "+861234567890", 3200.0, "CNY", "Alipay", "CN", "pending"),
    Recipient(4, "Sarah Johnson", "sarah@example.com", "+442012345678", 2100.0, "GBP", "Bank Transfer", "UK", "pending"),
    Recipient(5, "Raj Patel", "raj@example.com", "+911234567890", 890.0, "INR", "UPI", "IN", "pending")
  ]

  // ---------------------------------------------------------------------------
  // Totals
  // ---------------------------------------------------------------------------

  /** `recipients.reduce((sum, r) => sum + r.amount, 0)`. */
  function AmountSum(rs: seq<Recipient>): real
    decreases |rs|
  {
    if rs == [] then 0.0 else rs[0].amount + AmountSum(rs[1..])
  }

  /** `calculateTotals()`: the fee is 0.8% of the total and is added on top of it. */
  function CalculateTotals(rs: seq<Recipient>): (t: Totals)
    ensures t.total == AmountSum(rs)
  {
    var total := AmountSum(rs);
    var fee := total * FeeRate;
    Totals(total, fee, total + fee)
  }

  lemma {:induction false} AmountSumAppend(a: seq<Recipient>, b: seq<Recipient>)
    ensures AmountSum(a + b) == AmountSum(a) + AmountSum(b)
    decreases |a|
  {
    if a == [] {
      assert a + b == b;
    } else {
      assert (a + b)[1..] == a[1..] + b;
      AmountSumAppend(a[1..], b);
    }
  }

  /** With no negative amount, the fee lies between zero and the total, and the net is at least the total. */
  lemma {:induction false} TotalsBounds(rs: seq<Recipient>)
    requires forall r <- rs :: r.amount >= 0.0
    ensures 0.0 <= CalculateTotals(rs).fee <= CalculateTotals(rs).total <= CalculateTotals(rs).net
  {
    AmountSumNonNegative(rs);
  }

  /** Totals are additive: the rows of two lists together give the sums of their totals, fees and nets. */
  lemma TotalsAdditive(a: seq<Recipient>, b: seq<Recipient>)
    ensures CalculateTotals(a + b).total == CalculateTotals(a).total + CalculateTotals(b).total
    ensures CalculateTotals(a + b).fee == CalculateTotals(a).fee + CalculateTotals(b).fee
    ensures CalculateTotals(a + b).net == CalculateTotals(a).net + CalculateTotals(b).net
  {
    AmountSumAppend(a, b);
  }

  lemma {:induction false} AmountSumNonNegative(rs: seq<Recipient>)
    requires forall r <- rs :: r.amount >= 0.0
    ensures AmountSum(rs) >= 0.0
    decreases |rs|
  {
    if rs != [] {
      assert forall r <- rs[1..] :: r in rs;
      AmountSumNonNegative(rs[1..]);
    }
  }

  // ---------------------------------------------------------------------------
  // Editing the list
  // ---------------------------------------------------------------------------

  /** `handleManualAdd()`: one blank row whose id is the old length plus one. */
  function ManualAdd(rs: seq<Recipient>): (r: seq<Recipient>)
    ensures |r| == |rs| + 1 && r[..|rs|] == rs
    ensures r[|rs|].id == |rs| + 1 && r[|rs|].amount == 0.0 && r[|rs|].status == "pending"
  {
    rs + [Blank(|rs| + 1)]
  }

  /** A manual add does not change the totals, since the new row's amount is zero. */
  lemma ManualAddTotals(rs: seq<Recipient>)
    ensures CalculateTotals(ManualAdd(rs)) == CalculateTotals(rs)
  {
    AmountSumAppend(rs, [Blank(|rs| + 1)]);
    assert AmountSum([Blank(|rs| + 1)]) == 0.0;
  }

  /**
   * The new id repeats an existing one after a deletion: from rows 1 and 2,
   * deleting 1 and adding a row leaves two rows with id 2, which a later
   * delete or update of id 2 then treats as one.
   */
  lemma ManualAddAfterDeleteRepeatsId()
    ensures var rs := ManualAdd(DeleteRecipient(ManualAdd(ManualAdd([])), 1));
            |rs| == 2 && rs[0].id == 2 && rs[1].id == 2
  {
    var two := ManualAdd(ManualAdd([]));
    assert two == [Blank(1), Blank(2)];
    assert DeleteRecipient(two, 1) == [Blank(2)];
  }

  /** `handleDeleteRecipient(id)`: `recipients.filter(r => r.id !== id)`. */
  function DeleteRecipient(rs: seq<Recipient>, id: int): (r: seq<Recipient>)
    ensures forall x <- r :: x in rs && x.id != id
    ensures forall x <- rs :: x.id != id ==> x in r
    ensures forall x :: multiset(r)[x] == if x.id != id then multiset(rs)[x] else 0
  {
    FilterCounts(rs, (x: Recipient) => x.id != id);
    Filter(rs, (x: Recipient) => x.id != id)
  }

  /** Deleting keeps the remaining rows in their order. */
  lemma DeleteKeepsOrder(rs: seq<Recipient>, id: int)
    ensures IsSubsequence(DeleteRecipient(rs, id), rs)
  {
    FilterIsSubsequence(rs, (x: Recipient) => x.id != id);
  }

  /** The text columns of a row. */
  datatype TextField = Name | Email | Phone | Currency | Method | Country | Status

  function GetText(r: Recipient, f: TextField): string {
    match f
    case Name => r.name
    case Email => r.email
    case Phone => r.phone
    case Currency => r.currency
    case Method => r.payMethod
    case Country => r.country
    case Status => r.status
  }

  /** The edits the review table makes: a text column set to a string, or the amount set to a number. */
  datatype Edit = SetText(field: TextField, value: string) | SetAmount(amount: real)

  /** `{ ...r, [field]: value }`: exactly the edited column changes. */
  function ApplyEdit(r: Recipient, e: Edit): (r': Recipient)
    ensures r'.id == r.id
    ensures e.SetText? ==> GetText(r', e.field) == e.value && r'.amount == r.amount
    ensures e.SetText? ==> forall g :: g != e.field ==> GetText(r', g) == GetText(r, g)
    ensures e.SetAmount? ==> r'.amount == e.amount && forall g :: GetText(r', g) == GetText(r, g)
  {
    match e
    case SetAmount(a) => r.(amount := a)
    case SetText(f, v) =>
      match f
      case Name => r.(name := v)
      case Email => r.(email := v)
      case Phone => r.(phone := v)
      case Currency => r.(currency := v)
      case Method => r.(payMethod := v)
      case Country => r.(country := v)
      case Status => r.(status := v)
  }

  /** `handleUpdateRecipient(id, field, value)`: the edit applies to every row with that id and to no other. */
  function UpdateRecipient(rs: seq<Recipient>, id: int, e: Edit): (r: seq<Recipient>)
    ensures |r| == |rs|
    ensures forall i :: 0 <= i < |rs| ==> r[i] == if rs[i].id == id then ApplyEdit(rs[i], e) else rs[i]
  {
    seq(|rs|, i requires 0 <= i < |rs| => if rs[i].id == id then ApplyEdit(rs[i], e) else rs[i])
  }

  // ---------------------------------------------------------------------------
  // Validation
  // ---------------------------------------------------------------------------

  /** A row passes: it has a name, a positive amount and a payment method. */
  predicate RowValid(r: Recipient) {
    r.name != "" && r.amount > 0.0 && r.payMethod != ""
  }

  /** The label the source puts in front of each message of row `row` (numbered from 1). */
  function RowPrefix(row: int): string {
    "Row " + IntToString(row) + ": "
  }

  const NameMessage := "Name is required"
  const AmountMessage := "Valid amount required"
  const MethodMessage := "Payment method required"

  /**
   * The messages for one row, each starting with the row's label `prefix`,
   * in the order of the three checks: one message per failed check (see
   * `RowMessages` for which).
   */
  function RowErrors(r: Recipient, prefix: string): (es: seq<string>)
    ensures es == [] <==> RowValid(r)
    ensures |es| == (if r.name == "" then 1 else 0) + (if r.amount <= 0.0 then 1 else 0) + (if r.payMethod == "" then 1 else 0)
  {
    NameErrors(r, prefix) + AmountErrors(r, prefix) + MethodErrors(r, prefix)
  }

  /** Each check's own message is among a row's messages exactly when that check fails, and every message carries the row's label. */
  lemma RowMessages(r: Recipient, prefix: string)
    ensures prefix + NameMessage in RowErrors(r, prefix) <==> r.name == ""
    ensures prefix + AmountMessage in RowErrors(r, prefix) <==> r.amount <= 0.0
    ensures prefix + MethodMessage in RowErrors(r, prefix) <==> r.payMethod == ""
    ensures forall k :: 0 <= k < |RowErrors(r, prefix)| ==> StartsWith(RowErrors(r, prefix)[k], prefix)
  {
    var p := prefix;
    MessagesDiffer(p);
    OneMessagePerCheck(p + NameMessage, p + AmountMessage, p + MethodMessage, r.name == "", r.amount <= 0.0, r.payMethod == "");
    forall k | 0 <= k < |RowErrors(r, p)| ensures StartsWith(RowErrors(r, p)[k], p) {
      var e := RowErrors(r, p)[k];
      assert e in RowErrors(r, p);
      assert e == p + NameMessage || e == p + AmountMessage || e == p + MethodMessage;
      assert e[..|p|] == p;
    }
  }

  /** Three distinct messages, each pushed when its check fails: a message is present exactly when its check failed. */
  lemma OneMessagePerCheck(a: string, b: string, c: string, x: bool, y: bool, z: bool)
    requires a != b && a != c && b != c
    ensures var es := (if x then [a] else []) + (if y then [b] else []) + (if z then [c] else []);
            (a in es <==> x) && (b in es <==> y) && (c in es <==> z)
  {
  }

  /** The three messages of a row are distinct strings. */
  lemma MessagesDiffer(p: string)
    ensures p + NameMessage != p + AmountMessage
    ensures p + NameMessage != p + MethodMessage
    ensures p + AmountMessage != p + MethodMessage
  {
    assert (p + NameMessage)[|p|] == 'N';
    assert (p + AmountMessage)[|p|] == 'V';
    assert (p + MethodMessage)[|p|] == 'P';
  }

  function NameErrors(r: Recipient, prefix: string): seq<string> {
    if r.name == "" then [prefix + NameMessage] else []
  }

  function AmountErrors(r: Recipient, prefix: string): seq<string> {
    if r.amount <= 0.0 then [prefix + AmountMessage] else []
  }

  function MethodErrors(r: Recipient, prefix: string): seq<string> {
    if r.payMethod == "" then [prefix + MethodMessage] else []
  }

  /** Each row's messages, rows in order, the row at position `i` labelled `rowLabel(i + 1)`. */
  function LabelledErrors(rs: seq<Recipient>, rowLabel: int -> string): seq<string>
    decreases |rs|
  {
    if rs == [] then [] else LabelledErrors(rs[..|rs| - 1], rowLabel) + RowErrors(rs[|rs| - 1], rowLabel(|rs|))
  }

  /** The error list `handleSubmit` builds: rows labelled "Row 1: ", "Row 2: ", and so on. */
  function ValidationErrors(rs: seq<Recipient>): seq<string> {
    LabelledErrors(rs, RowPrefix)
  }

  /*
   * The lemmas below hold whatever the labels are; `ValidationErrors` is the
   * instance with `RowPrefix`.
   */

  /** The error list is empty exactly when every row passes all three checks. */
  lemma {:induction false} ErrorsEmptyIff(rs: seq<Recipient>, rowLabel: int -> string)
    ensures LabelledErrors(rs, rowLabel) == [] <==> forall i :: 0 <= i < |rs| ==> RowValid(rs[i])
    decreases |rs|
  {
    if rs != [] {
      var init := rs[..|rs| - 1];
      ErrorsEmptyIff(init, rowLabel);
      assert forall i :: 0 <= i < |init| ==> init[i] == rs[i];
    }
  }

  /** Every message belongs to a row that fails a check, labelled by its position from 1. */
  lemma {:induction false} ErrorsNameFailingRows(rs: seq<Recipient>, rowLabel: int -> string)
    ensures forall e <- LabelledErrors(rs, rowLabel) :: exists j :: 0 <= j < |rs| && e in RowErrors(rs[j], rowLabel(j + 1)) && !RowValid(rs[j])
    decreases |rs|
  {
    if rs != [] {
      var init := rs[..|rs| - 1];
      ErrorsNameFailingRows(init, rowLabel);
      forall e <- LabelledErrors(rs, rowLabel)
        ensures exists j :: 0 <= j < |rs| && e in RowErrors(rs[j], rowLabel(j + 1)) && !RowValid(rs[j])
      {
        if e in LabelledErrors(init, rowLabel) {
          var j :| 0 <= j < |init| && e in RowErrors(init[j], rowLabel(j + 1)) && !RowValid(init[j]);
          assert init[j] == rs[j];
        } else {
          assert e in RowErrors(rs[|rs| - 1], rowLabel(|rs|));
        }
      }
    }
  }

  /** Conversely, every failing row contributes its messages. */
  lemma {:induction false} FailingRowsReported(rs: seq<Recipient>, rowLabel: int -> string)
    ensures forall j :: 0 <= j < |rs| ==> forall e <- RowErrors(rs[j], rowLabel(j + 1)) :: e in LabelledErrors(rs, rowLabel)
    decreases |rs|
  {
    if rs != [] {
      var init := rs[..|rs| - 1];
      FailingRowsReported(init, rowLabel);
      forall j | 0 <= j < |rs|
        ensures forall e <- RowErrors(rs[j], rowLabel(j + 1)) :: e in LabelledErrors(rs, rowLabel)
      {
        if j < |init| {
          assert init[j] == rs[j];
        }
      }
    }
  }

  lemma NextRow(rs: seq<Recipient>, index: nat, rowLabel: int -> string)
    requires index < |rs|
    ensures LabelledErrors(rs[..index + 1], rowLabel) == LabelledErrors(rs[..index], rowLabel) + RowErrors(rs[index], rowLabel(index + 1))
  {
    assert rs[..index + 1][..index] == rs[..index];
  }

  /** The `forEach` over the rows that pushes one message per failed check. */
  method CollectErrors(rs: seq<Recipient>) returns (errors: seq<string>)
    ensures errors == ValidationErrors(rs)
  {
    errors := [];
    var index := 0;
    while index < |rs|
      invariant 0 <= index <= |rs|
      invariant errors == LabelledErrors(rs[..index], RowPrefix)
    {
      errors := PushRowErrors(errors, rs[index], RowPrefix(index + 1));
      NextRow(rs, index, RowPrefix);
      index := index + 1;
    }
    assert rs[..|rs|] == rs;
  }

  /** One pass of the `forEach` body: the three checks on one row, each pushing its message. */
  method PushRowErrors(before: seq<string>, r: Recipient, prefix: string) returns (errors: seq<string>)
    ensures errors == before + RowErrors(r, prefix)
  {
    errors := before;
    if r.name == "" {
      errors := errors + [prefix + NameMessage];
    }
    assert errors == before + NameErrors(r, prefix);
    if r.amount <= 0.0 {
      errors := errors + [prefix + AmountMessage];
    }
    assert errors == before + NameErrors(r, prefix) + AmountErrors(r, prefix);
    if r.payMethod == "" {
      errors := errors + [prefix + MethodMessage];
    }
  }

  /** Every demonstration row passes all three checks, so by `ErrorsEmptyIff` the sample yields no errors. */
  lemma SampleIsValid()
    ensures forall i :: 0 <= i < |Sample| ==> RowValid(Sample[i])
  {
  }

  // ---------------------------------------------------------------------------
  // Processing outcome
  // ---------------------------------------------------------------------------

  /** The statuses after processing: rows whose position is in `succeeded` completed, the others failed. */
  function Settle(rs: seq<Recipient>, succeeded: set<nat>): (r: seq<Recipient>)
    ensures |r| == |rs|
    ensures forall i :: 0 <= i < |rs| ==> r[i] == rs[i].(status := if i in succeeded then "completed" else "failed")
  {
    seq(|rs|, i requires 0 <= i < |rs| => rs[i].(status := if i in succeeded then "completed" else "failed"))
  }

  function CountStatus(rs: seq<Recipient>, status: string): nat {
    |Filter(rs, (r: Recipient) => r.status == status)|
  }

  /** When every status is one of two distinct values, the two counts add up to the row count. */
  lemma {:induction false} TwoStatusCounts(rs: seq<Recipient>, a: string, b: string)
    requires a != b
    requires forall r <- rs :: r.status == a || r.status == b
    ensures CountStatus(rs, a) + CountStatus(rs, b) == |rs|
    decreases |rs|
  {
    if rs != [] {
      assert forall r <- rs[1..] :: r in rs;
      TwoStatusCounts(rs[1..], a, b);
    }
  }

  /** After processing, every row completed or failed, and the completed and failed counts add up to the row count. */
  lemma SettledCounts(rs: seq<Recipient>, succeeded: set<nat>)
    ensures forall r <- Settle(rs, succeeded) :: r.status == "completed" || r.status == "failed"
    ensures CountStatus(Settle(rs, succeeded), "completed") + CountStatus(Settle(rs, succeeded), "failed") == |rs|
  {
    var s := Settle(rs, succeeded);
    assert forall r <- s :: r.status == "completed" || r.status == "failed" by {
      forall r <- s ensures r.status == "completed" || r.status == "failed" {
        var i :| 0 <= i < |s| && s[i] == r;
      }
    }
    TwoStatusCounts(s, "completed", "failed");
  }

  // ---------------------------------------------------------------------------
  // The wizard state
  // ---------------------------------------------------------------------------

  /** The component's `step`, `recipients` and `errors` state, replaced through its setters. */
  class Wizard {
    var step: int
    var recipients: seq<Recipient>
    var errors: seq<string>

    ghost predicate Valid()
      reads this
    {
      1 <= step <= 5
    }

    constructor ()
      ensures Valid() && step == 1 && recipients == [] && errors == []
    {
      step, recipients, errors := 1, [], [];
    }

    /** `handleUploadCSV`, and "Parse & Continue": the demonstration rows, then review. */
    method UploadSample()
      modifies this
      ensures Valid() && step == 2 && recipients == Sample && errors == old(errors)
    {
      recipients := Sample;
      step := 2;
    }

    /** "Start Adding Recipients": one blank row with id 1, then review. */
    method StartManual()
      modifies this
      ensures Valid() && step == 2 && recipients == [Blank(1)] && errors == old(errors)
    {
      recipients := [Blank(1)];
      step := 2;
    }

    method AddRecipient()
      requires Valid()
      modifies this
      ensures Valid() && step == old(step) && errors == old(errors)
      ensures recipients == ManualAdd(old(recipients))
    {
      recipients := ManualAdd(recipients);
    }

    method RemoveRecipient(id: int)
      requires Valid()
      modifies this
      ensures Valid() && step == old(step) && errors == old(errors)
      ensures recipients == DeleteRecipient(old(recipients), id)
    {
      recipients := DeleteRecipient(recipients, id);
    }

    method EditRecipient(id: int, e: Edit)
      requires Valid()
      modifies this
      ensures Valid() && step == old(step) && errors == old(errors)
      ensures recipients == UpdateRecipient(old(recipients), id, e)
    {
      recipients := UpdateRecipient(recipients, id, e);
    }

    /** `handleSubmit`: moves to confirm (3) only when no row fails; otherwise stores the errors and stays. */
    method Submit()
      requires Valid()
      modifies this
      ensures Valid() && recipients == old(recipients)
      ensures errors == ValidationErrors(recipients)
      ensures step == if errors == [] then 3 else old(step)
      ensures step == 3 <==> (old(step) == 3 || forall i :: 0 <= i < |recipients| ==> RowValid(recipients[i]))
    {
      var found := CollectErrors(recipients);
      ErrorsEmptyIff(recipients, RowPrefix);
      if |found| > 0 {
        errors := found;
        return;
      }
      errors := [];
      step := 3;
    }

    /** "Back" on review and "Create New Payout" on complete: `setStep(1)`; the rows are kept. */
    method BackToUpload()
      modifies this
      ensures Valid() && step == 1 && recipients == old(recipients) && errors == old(errors)
    {
      step := 1;
    }

    /** "Back to Edit" on confirm: `setStep(2)`. */
    method BackToEdit()
      modifies this
      ensures Valid() && step == 2 && recipients == old(recipients) && errors == old(errors)
    {
      step := 2;
    }

    /** `handleConfirm`: processing (4) at once. */
    method Confirm()
      modifies this
      ensures Valid() && step == 4 && recipients == old(recipients) && errors == old(errors)
    {
      step := 4;
    }

    /**
     * The timer callback `handleConfirm` schedules: complete (5), with each
     * row's random outcome given by whether its position is in `succeeded`.
     */
    method FinishProcessing(succeeded: set<nat>)
      modifies this
      ensures Valid() && step == 5 && errors == old(errors)
      ensures recipients == Settle(old(recipients), succeeded)
      ensures CountStatus(recipients, "completed") + CountStatus(recipients, "failed") == |recipients|
    {
      SettledCounts(recipients, succeeded);
      recipients := Settle(recipients, succeeded);
      step := 5;
    }
  }
}
