/** The exchange client factory and its adapters. The adapters are placeholders
    that return fixed trade lists; the Binance one stamps its trades relative to the
    clock, which is a parameter here. */
module ExchangeClient {
  import opened Common

  /** A fill reported by an exchange. */
  datatype ExchangeTrade = ExchangeTrade(
    orderId: string,
    symbol: string,
    side: string,
    price: real,
    amount: real,
    timestamp: int,
    fee: Option<real>,
    feeCurrency: Option<string>,
    realizedPnl: Option<real>)

  datatype FetchTradesOptions = FetchTradesOptions(
    startTime: Option<int>,
    endTime: Option<int>,
    symbols: Option<seq<string>>,
    limit: Option<nat>)

  /** The adapters the factory can build; each keeps the credentials it was given. */
  datatype Client =
    | BinanceClient(apiKey: string, apiSecret: string)
    | BybitClient(apiKey: string, apiSecret: string)
    | KucoinClient(apiKey: string, apiSecret: string)

  /** The lower-case name under which the factory builds each adapter. */
  function ClientName(c: Client): string
  {
    match c
    case BinanceClient(_, _) => "binance"
    case BybitClient(_, _) => "bybit"
    case KucoinClient(_, _) => "kucoin"
  }

  const SupportedExchanges: set<string> := {"binance", "bybit", "kucoin"}

  /** The exchanges the settings page lets a user pick when adding an API key. */
  const OfferedExchanges: seq<string> := ["binance", "bybit", "okx"]

  /** `createExchangeClient`: picks the adapter by the lower-cased name; any other name
      is an error naming the exchange as given. */
  function CreateExchangeClient(exchange: string, apiKey: string, apiSecret: string): (r: Result<Client, string>)
    ensures r.Ok? <==> ToLower(exchange) in SupportedExchanges
    ensures r.Ok? ==> ClientName(r.value) == ToLower(exchange)
                      && r.value.apiKey == apiKey && r.value.apiSecret == apiSecret
    ensures r.Err? ==> r.error == "Unsupported exchange: " + exchange
  {
    var name := ToLower(exchange);
    if name == "binance" then Ok(BinanceClient(apiKey, apiSecret))
    else if name == "bybit" then Ok(BybitClient(apiKey, apiSecret))
    else if name == "kucoin" then Ok(KucoinClient(apiKey, apiSecret))
    else Err("Unsupported exchange: " + exchange)
  }

  /** Names that differ only in ASCII case select the same adapter. */
  lemma CreateExchangeClientIgnoresCase(a: string, b: string, apiKey: string, apiSecret: string)
    requires ToLower(a) == ToLower(b)
    ensures CreateExchangeClient(a, apiKey, apiSecret).Ok? == CreateExchangeClient(b, apiKey, apiSecret).Ok?
    ensures CreateExchangeClient(a, apiKey, apiSecret).Ok? ==>
      CreateExchangeClient(a, apiKey, apiSecret) == CreateExchangeClient(b, apiKey, apiSecret)
  {
  }

  /** Of the exchanges the settings page offers, OKX is the one the factory rejects. */
  lemma OfferedButUnsupported(apiKey: string, apiSecret: string)
    ensures forall e :: e in OfferedExchanges ==>
      (CreateExchangeClient(e, apiKey, apiSecret).Err? <==> e == "okx")
    ensures CreateExchangeClient("okx", apiKey, apiSecret) == Err("Unsupported exchange: okx")
  {
    ToLowerNoCapitals("binance");
    ToLowerNoCapitals("bybit");
    ToLowerNoCapitals("okx");
    assert "Unsupported exchange: " + "okx" == "Unsupported exchange: okx";
  }

  /** The first Binance placeholder fill: a buy one day before `now`. */
  function BinanceMockBuy(now: int): ExchangeTrade
  {
    ExchangeTrade("mock-order-1", "BTC/USDT", "buy", 42000.0, 0.1, now - 86400000, None, None, Some(0.0))
  }

  /** The second Binance placeholder fill: a sell two days before `now`. */
  function BinanceMockSell(now: int): ExchangeTrade
  {
    ExchangeTrade("mock-order-2", "ETH/USDT", "sell", 2200.0, 1.5, now - 172800000, None, None, Some(150.0))
  }

  /** `fetchTrades` of each adapter; `now` is `Date.now()`. The options are ignored. */
  function FetchTrades(client: Client, options: FetchTradesOptions, now: int): seq<ExchangeTrade>
  {
    match client
    case BinanceClient(_, _) => [BinanceMockBuy(now), BinanceMockSell(now)]
    case BybitClient(_, _) => []
    case KucoinClient(_, _) => []
  }

  /** What the placeholders return: nothing for Bybit and KuCoin whatever the options;
      for Binance two fills with distinct order ids, one buy and one sell, with positive
      price and amount, whatever the options. */
  lemma FetchTradesStubs(client: Client, options: FetchTradesOptions, other: FetchTradesOptions, now: int)
    ensures !client.BinanceClient? ==> FetchTrades(client, options, now) == []
    ensures FetchTrades(client, options, now) == FetchTrades(client, other, now)
    ensures client.BinanceClient? ==>
      var ts := FetchTrades(client, options, now);
      && |ts| == 2
      && ts[0].orderId != ts[1].orderId
      && ts[0].side == "buy" && ts[1].side == "sell"
      && forall t :: t in ts ==> t.price > 0.0 && t.amount > 0.0 && t.timestamp < now
  {
  }
}
