/** The "Add New Trade" form of the journal page: its field rules, the P&L it
    computes on submit, and the record it hands to the page. */
module JournalForm {
  import opened Common
  import Trades

  /** The form's fields as entered; an empty number field is `None`, an unpicked
      trade type is `None`. */
  datatype FormValues = FormValues(
    date: string,
    symbol: string,
    tradeType: Option<string>,
    amount: Option<real>,
    entryPrice: Option<real>,
    exitPrice: Option<real>,
    notes: string)

  /** The record handed to the page: the entered fields plus the computed P&L. */
  datatype JournalEntry = JournalEntry(
    date: string,
    symbol: string,
    tradeType: Option<string>,
    amount: real,
    entryPrice: real,
    exitPrice: real,
    notes: string,
    pnl: real)

  /** The fields of a fresh (or reset) form. */
  const EmptyForm: FormValues := FormValues("", "", None, None, None, None, "")

  /** A field's rule failed, with the message shown under it. */
  datatype FieldError = FieldError(field: string, message: string)

  /** The rule of a required positive number field. */
  function NumberError(field: string, v: Option<real>, requiredMessage: string, positiveMessage: string): (r: Option<FieldError>)
    ensures r.None? <==> v.Some? && v.value > 0.0
    ensures v.None? ==> r == Some(FieldError(field, requiredMessage))
  {
    if v.None? then Some(FieldError(field, requiredMessage))
    else if v.value > 0.0 then None
    else Some(FieldError(field, positiveMessage))
  }

  /** The rule of a required text field. */
  function TextError(field: string, v: string, requiredMessage: string): (r: Option<FieldError>)
    ensures r.None? <==> v != ""
  {
    if v == "" then Some(FieldError(field, requiredMessage)) else None
  }

  function Present(e: Option<FieldError>): seq<FieldError>
  {
    if e.Some? then [e.value] else []
  }

  /** The failed rules, in the order of the fields; the type and notes fields have none. */
  function Validate(f: FormValues): (r: seq<FieldError>)
    ensures r == [] <==> f.date != "" && f.symbol != "" && f.amount.Some? && f.amount.value > 0.0
                         && f.entryPrice.Some? && f.entryPrice.value > 0.0
                         && f.exitPrice.Some? && f.exitPrice.value > 0.0
  {
    Present(TextError("date", f.date, "Date is required"))
    + Present(TextError("symbol", f.symbol, "Symbol is required"))
    + Present(NumberError("amount", f.amount, "Amount is required", "Amount must be greater than 0"))
    + Present(NumberError("entryPrice", f.entryPrice, "Entry price is required", "Price must be greater than 0"))
    + Present(NumberError("exitPrice", f.exitPrice, "Exit price is required", "Price must be greater than 0"))
  }

  /** The P&L the form computes: a buy gains when the price rises, anything else
      (a sell, or no type picked) when it falls. No fee is involved. */
  function FormPnl(tradeType: Option<string>, amount: real, entryPrice: real, exitPrice: real): real
  {
    if tradeType == Some("buy") then (exitPrice - entryPrice) * amount
    else (entryPrice - exitPrice) * amount
  }

  /** With valid inputs, a buy is profitable exactly when the exit is above the entry,
      and any other type exactly when it is below; equal prices give 0. */
  lemma FormPnlSign(tradeType: Option<string>, amount: real, entryPrice: real, exitPrice: real)
    requires amount > 0.0
    ensures tradeType == Some("buy") ==> (FormPnl(tradeType, amount, entryPrice, exitPrice) > 0.0 <==> exitPrice > entryPrice)
    ensures tradeType != Some("buy") ==> (FormPnl(tradeType, amount, entryPrice, exitPrice) > 0.0 <==> exitPrice < entryPrice)
    ensures entryPrice == exitPrice ==> FormPnl(tradeType, amount, entryPrice, exitPrice) == 0.0
  {
    if tradeType == Some("buy") {
      ProductSign(exitPrice - entryPrice, amount);
    } else {
      ProductSign(entryPrice - exitPrice, amount);
    }
  }

  /** On valid inputs the form agrees with the trade service's P&L rule, an unpicked
      type counting as a sell in both. */
  lemma FormPnlMatchesService(tradeType: Option<string>, amount: real, entryPrice: real, exitPrice: real)
    requires amount > 0.0 && entryPrice > 0.0 && exitPrice > 0.0
    ensures FormPnl(tradeType, amount, entryPrice, exitPrice)
         == Trades.CalculatePnl(if tradeType.Some? then tradeType.value else "", Some(amount), Some(entryPrice), Some(exitPrice))
  {
  }

  /** `handleFormSubmit` behind the form's validation: the failed rules, or the entry
      handed to the page. Either way the form's fields afterwards are given: reset after
      a submission, as entered after a refusal. */
  function HandleFormSubmit(f: FormValues): (r: (Result<JournalEntry, seq<FieldError>>, FormValues))
    ensures r.0.Ok? <==> Validate(f) == []
    ensures r.0.Err? ==> r.0.error == Validate(f) && r.1 == f
    ensures r.0.Ok? ==> r.1 == EmptyForm
    ensures r.0.Ok? ==> var e := r.0.value;
      && e.date == f.date && e.symbol == f.symbol && e.tradeType == f.tradeType && e.notes == f.notes
      && Some(e.amount) == f.amount && Some(e.entryPrice) == f.entryPrice && Some(e.exitPrice) == f.exitPrice
      && e.pnl == FormPnl(f.tradeType, e.amount, e.entryPrice, e.exitPrice)
      && (e.pnl > 0.0 <==> (if f.tradeType == Some("buy") then e.exitPrice > e.entryPrice else e.exitPrice < e.entryPrice))
  {
    var errors := Validate(f);
    if errors != [] then (Err(errors), f)
    else
      var amount, entry, exit := f.amount.value, f.entryPrice.value, f.exitPrice.value;
      FormPnlSign(f.tradeType, amount, entry, exit);
      (Ok(JournalEntry(f.date, f.symbol, f.tradeType, amount, entry, exit, f.notes,
                       FormPnl(f.tradeType, amount, entry, exit))), EmptyForm)
  }

  /** `handleClose`: the fields are reset whatever they held, and `onClose` (the page's
      `setIsFormOpen(false)`) closes the form; the result is the new fields and the
      page's open flag. */
  function HandleClose(f: FormValues): (r: (FormValues, bool))
    ensures r.0 == EmptyForm && !r.1
    ensures Validate(r.0) != [] && r.0.date == "" && r.0.amount.None?
  {
    (EmptyForm, false)
  }
}
