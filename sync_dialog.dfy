/** The "Sync Trades from Exchange" dialog: its fields, the symbol picker, the submit
    guard and the options it builds, and what it does with the run's result. */
module SyncDialog {
  import opened Common
  import TradeSync

  /** The options the dialog hands the sync; dates stay the entered text (their
      conversion to instants belongs to the date library). */
  datatype DialogSyncOptions = DialogSyncOptions(
    apiKeyId: string,
    startDate: Option<string>,
    endDate: Option<string>,
    symbols: Option<seq<string>>)

  /** What a click on "Sync Trades" does: report the missing key, or start a run. */
  datatype SubmitOutcome = KeyRequired | StartSync(options: DialogSyncOptions)

  /** A notification shown to the user. */
  datatype Toast = Toast(title: string, description: string, isError: bool)

  /** The picker's rule: a non-empty symbol not yet selected is appended. */
  function AddedSymbols(selected: seq<string>, v: string): (r: seq<string>)
    ensures NoDups(selected) ==> NoDups(r)
    ensures forall x :: x in r <==> x in selected || (x == v && v != "")
    ensures v == "" || v in selected ==> r == selected
    ensures v != "" && v !in selected ==> r == selected + [v]
  {
    if v != "" && v !in selected then selected + [v] else selected
  }

  /** Clicking a selected symbol's chip: that symbol goes, the others stay in order. */
  function RemovedSymbol(selected: seq<string>, v: string): (r: seq<string>)
    ensures forall x :: x in r <==> x in selected && x != v
    ensures NoDups(selected) ==> NoDups(r)
    ensures |r| <= |selected|
  {
    var p := (s: string) => s != v;
    if NoDups(selected) then FilterNoDups(selected, p); Filter(selected, p) else Filter(selected, p)
  }

  /** Removing a symbol just added restores a selection that lacked it. */
  lemma {:induction false} AddThenRemove(selected: seq<string>, v: string)
    requires v !in selected
    ensures RemovedSymbol(AddedSymbols(selected, v), v) == selected
  {
    var p := (s: string) => s != v;
    if v != "" {
      FilterAppend(selected, [v], p);
      assert [v][..0] == [];
    }
    FilterKeepsAll(selected, p);
  }

  /** The submit button is disabled without a key or while the last run is in progress. */
  function SubmitDisabled(selectedApiKey: string, latest: Option<TradeSync.SyncRecord>): (r: bool)
    ensures !r <==> selectedApiKey != "" && (latest.None? || latest.value.status != TradeSync.InProgress)
  {
    selectedApiKey == "" || (latest.Some? && latest.value.status == TradeSync.InProgress)
  }

  /** The notification for the result of a run. */
  function ResultToast(result: TradeSync.SyncResult): (r: Toast)
    ensures r.isError <==> result.status != TradeSync.Completed
    ensures !r.isError ==> r.description == "Successfully imported " + NatToString(result.tradesImported) + " trades"
    ensures r.isError ==> r.description == if TruthyText(result.errorMessage) then result.errorMessage.value
                                           else "Unknown error occurred"
  {
    if result.status == TradeSync.Completed then
      Toast("Trades synchronized", "Successfully imported " + NatToString(result.tradesImported) + " trades", false)
    else
      Toast("Sync failed", if TruthyText(result.errorMessage) then result.errorMessage.value else "Unknown error occurred", true)
  }

  /** The notification for a run that threw instead of returning a result: the error's
      message when it is an `Error` (even an empty one), "Unknown error occurred" when
      it is not. `None` stands for a thrown value that is not an `Error`. */
  function ErrorToast(message: Option<string>): (r: Toast)
    ensures r.isError && r.title == "Sync failed"
    ensures message.Some? ==> r.description == message.value
    ensures message.None? ==> r.description == "Unknown error occurred"
  {
    Toast("Sync failed", if message.Some? then message.value else "Unknown error occurred", true)
  }

  /** A thrown error is reported like a failed run with the same message, except for an
      empty message: a failed run falls back to "Unknown error occurred", a thrown
      `Error` shows its empty message. */
  lemma ErrorToastLikeFailedRun(message: Option<string>, result: TradeSync.SyncResult)
    requires result.status != TradeSync.Completed && result.errorMessage == message
    ensures message != Some("") ==> ErrorToast(message) == ResultToast(result)
    ensures message == Some("") ==> ErrorToast(message).description == "" != ResultToast(result).description
  {
  }

  /** The dialog: whether it is open, and its fields. */
  class SyncDialogState {
    var open: bool
    var selectedApiKey: string
    var startDate: string
    var endDate: string
    var syncAll: bool
    var selectedSymbols: seq<string>

    /** The selection never holds a symbol twice. */
    ghost predicate Valid()
      reads this
    {
      NoDups(selectedSymbols)
    }

    constructor (open: bool)
      ensures Valid() && this.open == open
      ensures selectedApiKey == "" && startDate == "" && endDate == "" && syncAll && selectedSymbols == []
    {
      this.open := open;
      selectedApiKey := "";
      startDate := "";
      endDate := "";
      syncAll := true;
      selectedSymbols := [];
    }

    /** The symbol picker's change handler. */
    method AddSymbol(v: string)
      requires Valid()
      modifies this
      ensures Valid() && selectedSymbols == AddedSymbols(old(selectedSymbols), v)
      ensures open == old(open) && selectedApiKey == old(selectedApiKey) && syncAll == old(syncAll)
      ensures startDate == old(startDate) && endDate == old(endDate)
    {
      if v != "" && v !in selectedSymbols {
        selectedSymbols := selectedSymbols + [v];
      }
    }

    /** A symbol chip's click handler. */
    method RemoveSymbol(v: string)
      requires Valid()
      modifies this
      ensures Valid() && selectedSymbols == RemovedSymbol(old(selectedSymbols), v)
      ensures open == old(open) && selectedApiKey == old(selectedApiKey) && syncAll == old(syncAll)
      ensures startDate == old(startDate) && endDate == old(endDate)
    {
      selectedSymbols := RemovedSymbol(selectedSymbols, v);
    }

    /** `handleClose`: the fields back to their initial values, and the dialog closed. */
    method HandleClose()
      modifies this
      ensures Valid() && !open
      ensures selectedApiKey == "" && startDate == "" && endDate == "" && syncAll && selectedSymbols == []
    {
      selectedApiKey, startDate, endDate, syncAll, selectedSymbols := "", "", "", true, [];
      open := false;
    }

    /** `handleSubmit`: without a key, nothing starts; otherwise the options of the
        fields, empty dates as absent and no symbol list when all pairs are synced. */
    method HandleSubmit() returns (r: SubmitOutcome)
      ensures r.KeyRequired? <==> selectedApiKey == ""
      ensures r.StartSync? ==> r.options.apiKeyId == selectedApiKey
      ensures r.StartSync? ==> (r.options.symbols.None? <==> syncAll)
      ensures r.StartSync? && !syncAll ==> r.options.symbols == Some(selectedSymbols)
      ensures r.StartSync? ==> (r.options.startDate.None? <==> startDate == "")
                               && (r.options.endDate.None? <==> endDate == "")
      ensures r.StartSync? && startDate != "" ==> r.options.startDate == Some(startDate)
      ensures r.StartSync? && endDate != "" ==> r.options.endDate == Some(endDate)
    {
      if selectedApiKey == "" {
        return KeyRequired;
      }
      r := StartSync(DialogSyncOptions(
        selectedApiKey,
        if startDate != "" then Some(startDate) else None,
        if endDate != "" then Some(endDate) else None,
        if syncAll then None else Some(selectedSymbols)));
    }

    /** The run's `onSuccess`: a completed run closes the dialog (through the page's
        close callback, so the fields are kept); any other status leaves it open. */
    method OnSyncResult(result: TradeSync.SyncResult) returns (toast: Toast)
      modifies this
      ensures toast == ResultToast(result)
      ensures open == (old(open) && result.status != TradeSync.Completed)
      ensures selectedApiKey == old(selectedApiKey) && selectedSymbols == old(selectedSymbols)
      ensures startDate == old(startDate) && endDate == old(endDate) && syncAll == old(syncAll)
    {
      toast := ResultToast(result);
      if result.status == TradeSync.Completed {
        open := false;
      }
    }

    /** The run's `onError`, when the sync throws (its opening insert failed): a failure
        notification, with the dialog left open and every field kept. */
    method OnSyncError(message: Option<string>) returns (toast: Toast)
      ensures toast == ErrorToast(message)
      ensures toast.isError && toast.title == "Sync failed"
    {
      toast := ErrorToast(message);
    }
  }
}
