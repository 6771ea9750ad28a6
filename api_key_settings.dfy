/** The API key settings page: how keys and secrets are masked for display, the
    exchange labels, the per-key "show secret" switches and the last-used date. */
module ApiKeySettings {
  import opened Common

  /** Ten bullets: the display of a hidden or short value. */
  const Bullets10: string := "••••••••••"

  /** Five bullets: the middle of a masked long key. */
  const Bullets5: string := "•••••"

  /** `maskApiKey`: ten bullets for a key of at most ten characters; otherwise its
      first five characters, five bullets and its last five characters. */
  function MaskApiKey(key: string): (r: string)
    ensures |key| <= 10 ==> r == Bullets10
    ensures |key| > 10 ==> |r| == 15 && r[..5] == key[..5] && r[5..10] == Bullets5 && r[10..] == key[|key| - 5..]
  {
    if |key| <= 10 then Bullets10 else key[..5] + Bullets5 + key[|key| - 5..]
  }

  /** Two long keys look the same exactly when their first five and last five
      characters agree; every short key looks the same. A long key never looks like a
      short one. */
  lemma MaskApiKeyReveals(a: string, b: string)
    ensures |a| <= 10 && |b| <= 10 ==> MaskApiKey(a) == MaskApiKey(b)
    ensures |a| > 10 && |b| > 10 ==>
      (MaskApiKey(a) == MaskApiKey(b) <==> a[..5] == b[..5] && a[|a| - 5..] == b[|b| - 5..])
    ensures |a| > 10 && |b| <= 10 ==> MaskApiKey(a) != MaskApiKey(b)
  {
    if |a| > 10 && |b| > 10 && MaskApiKey(a) == MaskApiKey(b) {
      assert a[..5] == MaskApiKey(a)[..5];
      assert a[|a| - 5..] == MaskApiKey(a)[10..];
    }
    if |a| > 10 && |b| <= 10 {
      assert |MaskApiKey(a)| == 15 && |Bullets10| == 10;
    }
  }

  /** `maskSecretKey`: the first ten characters (fewer for a shorter secret) followed by
      "..." when the secret is shown, ten bullets otherwise. */
  function MaskSecretKey(key: string, shown: bool): (r: string)
    ensures !shown ==> r == Bullets10
    ensures shown ==> var n := if |key| < 10 then |key| else 10;
      |r| == n + 3 && r[..n] == key[..n] && r[n..] == "..."
  {
    if shown then (if |key| < 10 then key else key[..10]) + "..." else Bullets10
  }

  /** `getExchangeLabel`: the display name of the three known exchanges; any other
      name is shown as given. */
  function GetExchangeLabel(exchange: string): (r: string)
    ensures exchange == "binance" ==> r == "Binance"
    ensures exchange == "bybit" ==> r == "Bybit"
    ensures exchange == "okx" ==> r == "OKX"
    ensures exchange !in {"binance", "bybit", "okx"} ==> r == exchange
  {
    if exchange == "binance" then "Binance"
    else if exchange == "bybit" then "Bybit"
    else if exchange == "okx" then "OKX"
    else exchange
  }

  /** The label shown is the name with its first letter capitalised (all capitals for
      OKX), so labels of known exchanges lower-case back to their names. */
  lemma ExchangeLabelFolds(exchange: string)
    requires exchange in {"binance", "bybit", "okx"}
    ensures ToLower(GetExchangeLabel(exchange)) == exchange
    ensures GetExchangeLabel(exchange) != exchange
  {
    assert ToLower("Binance") == "binance";
    assert ToLower("Bybit") == "bybit";
    assert ToLower("OKX") == "okx";
  }

  /** `formatDate`: "Never" for a missing or empty date; otherwise the locale's
      rendering of it, which the date library supplies. */
  function FormatDate(dateString: Option<string>, localized: string): (r: string)
    ensures !TruthyText(dateString) ==> r == "Never"
    ensures TruthyText(dateString) ==> r == localized
  {
    if !TruthyText(dateString) then "Never" else localized
  }

  /** `showSecretKey[id]`: an id never toggled counts as hidden. */
  function IsShown(shown: map<string, bool>, id: string): bool
  {
    id in shown && shown[id]
  }

  /** The record after `toggleSecretVisibility(id)`. */
  function Toggled(shown: map<string, bool>, id: string): (r: map<string, bool>)
    ensures IsShown(r, id) == !IsShown(shown, id)
    ensures forall other :: other != id ==> IsShown(r, other) == IsShown(shown, other)
    ensures r.Keys == shown.Keys + {id}
  {
    shown[id := !IsShown(shown, id)]
  }

  /** Toggling the same id twice shows and hides exactly what was shown and hidden
      before (the record may have gained an explicit `false` entry). */
  lemma ToggleTwice(shown: map<string, bool>, id: string)
    ensures forall x :: IsShown(Toggled(Toggled(shown, id), id), x) == IsShown(shown, x)
  {
  }

  /** Toggles on different ids commute. */
  lemma TogglesCommute(shown: map<string, bool>, a: string, b: string)
    requires a != b
    ensures Toggled(Toggled(shown, a), b) == Toggled(Toggled(shown, b), a)
  {
  }

  /** The page's `showSecretKey` state. */
  class SecretVisibility {
    var shown: map<string, bool>

    constructor ()
      ensures shown == map[]
    {
      shown := map[];
    }

    /** `toggleSecretVisibility`: flips the given id and leaves every other one. */
    method ToggleSecretVisibility(id: string)
      modifies this
      ensures shown == Toggled(old(shown), id)
    {
      shown := shown[id := !(id in shown && shown[id])];
    }

    /** The secret column of the row with this id. */
    function MaskSecret(key: string, id: string): string
      reads this
    {
      MaskSecretKey(key, IsShown(shown, id))
    }
  }
}
