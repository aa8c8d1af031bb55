/**
 * The currency table and the price formatting built on it. The number
 * formatting itself (`Intl.NumberFormat` on a floating-point price) is
 * outside this model and comes in as a function of the locale, the number
 * of fraction digits and the price.
 */
module Currency {
  import opened Common

  /** The six ISO 4217 currencies of the table. */
  datatype Currency = EUR | USD | GBP | CHF | UAH | HUF

  datatype Position = Start | End

  datatype Config = Config(locale: string, symbol: string, position: Position)

  /** A price as the caller holds it; its arithmetic is not modelled. */
  type Price

  /** `CURRENCY_CONFIG`: only the dollar and the pound put their symbol first. */
  function ConfigOf(c: Currency): (config: Config)
    ensures config.position == Start <==> c == USD || c == GBP
  {
    match c
    case EUR => Config("de-DE", "€", End)
    case USD => Config("en-US", "$", Start)
    case GBP => Config("en-GB", "£", Start)
    case CHF => Config("de-CH", "CHF", End)
    case UAH => Config("uk-UA", "₴", End)
    case HUF => Config("hu-HU", "Ft", End)
  }

  /** The table's six entries, each with its locale, symbol and position. */
  lemma ConfigTable()
    ensures ConfigOf(EUR) == Config("de-DE", "€", End)
    ensures ConfigOf(USD) == Config("en-US", "$", Start)
    ensures ConfigOf(GBP) == Config("en-GB", "£", Start)
    ensures ConfigOf(CHF) == Config("de-CH", "CHF", End)
    ensures ConfigOf(UAH) == Config("uk-UA", "₴", End)
    ensures ConfigOf(HUF) == Config("hu-HU", "Ft", End)
  {
  }

  /** No two currencies share a symbol or a locale, so either one tells the currency. */
  lemma SymbolsAndLocalesIdentifyCurrencies(a: Currency, b: Currency)
    ensures ConfigOf(a).symbol == ConfigOf(b).symbol ==> a == b
    ensures ConfigOf(a).locale == ConfigOf(b).locale ==> a == b
  {
  }

  /** The code under which a currency is keyed. */
  function Code(c: Currency): string
  {
    match c
    case EUR => "EUR"
    case USD => "USD"
    case GBP => "GBP"
    case CHF => "CHF"
    case UAH => "UAH"
    case HUF => "HUF"
  }

  /** The currency keyed by a code, if the table has one. */
  function ParseCurrency(s: string): (r: Option<Currency>)
    ensures r.Some? ==> Code(r.value) == s
    ensures r.None? ==> forall c: Currency :: Code(c) != s
  {
    if s == "EUR" then Some(EUR)
    else if s == "USD" then Some(USD)
    else if s == "GBP" then Some(GBP)
    else if s == "CHF" then Some(CHF)
    else if s == "UAH" then Some(UAH)
    else if s == "HUF" then Some(HUF)
    else None
  }

  /** Every currency's code parses back to it, so distinct currencies have distinct codes. */
  lemma CodeRoundTrip(c: Currency)
    ensures ParseCurrency(Code(c)) == Some(c)
  {
    match c
    case EUR =>
    case USD =>
    case GBP =>
    case CHF =>
    case UAH =>
    case HUF =>
  }

  /** `isValidCurrency`: the code is one of the table's six keys. */
  function IsValidCurrency(s: string): (ok: bool)
    ensures ok <==> exists c: Currency :: Code(c) == s
  {
    var r := ParseCurrency(s);
    if r.Some? then true else false
  }

  /** `SUPPORTED_CURRENCIES`: the table's keys in their order. */
  const SupportedCurrencies: seq<Currency> := [EUR, USD, GBP, CHF, UAH, HUF]

  /** Where a currency sits in the supported list. */
  function SupportedIndex(c: Currency): (i: nat)
    ensures i < |SupportedCurrencies| && SupportedCurrencies[i] == c
  {
    match c
    case EUR => 0
    case USD => 1
    case GBP => 2
    case CHF => 3
    case UAH => 4
    case HUF => 5
  }

  /** The supported list names each of the six currencies exactly once, in the table's order. */
  lemma SupportedCurrenciesAreTheTable()
    ensures |SupportedCurrencies| == 6
    ensures forall c: Currency :: c in SupportedCurrencies
    ensures forall i, j :: 0 <= i < j < |SupportedCurrencies| ==> SupportedCurrencies[i] != SupportedCurrencies[j]
    ensures forall s :: IsValidCurrency(s) <==> exists i :: 0 <= i < |SupportedCurrencies| && Code(SupportedCurrencies[i]) == s
  {
    forall c: Currency
      ensures c in SupportedCurrencies
    {
      var i := SupportedIndex(c);
    }
    forall s | IsValidCurrency(s)
      ensures exists i :: 0 <= i < |SupportedCurrencies| && Code(SupportedCurrencies[i]) == s
    {
      var i := SupportedIndex(ParseCurrency(s).value);
    }
  }

  /** `getDefaultCurrency`. */
  function GetDefaultCurrency(): (c: Currency)
    ensures Code(c) == "EUR" && IsValidCurrency(Code(c))
  {
    EUR
  }

  /** The currency a code stands for, falling back to EUR for an unknown code. */
  function Resolve(s: string): (c: Currency)
    ensures IsValidCurrency(s) ==> Code(c) == s
    ensures !IsValidCurrency(s) ==> c == EUR
  {
    var r := ParseCurrency(s);
    if r.Some? then r.value else EUR
  }

  /** `getCurrencySymbol`: the table's symbol, or the euro sign for an unknown code. */
  function GetCurrencySymbol(s: string): (symbol: string)
    ensures IsValidCurrency(s) ==> exists c: Currency :: Code(c) == s && symbol == ConfigOf(c).symbol
    ensures !IsValidCurrency(s) ==> symbol == "€"
  {
    ConfigOf(Resolve(s)).symbol
  }

  /** The fraction digits the formatter is given: none for the forint, two otherwise. */
  function FractionDigits(c: Currency): (digits: nat)
    ensures c == HUF ==> digits == 0
    ensures c != HUF ==> digits == 2
  {
    if c == HUF then 0 else 2
  }

  /**
   * `formatPrice`: empty for a null price; otherwise the formatted number
   * with the symbol before it for the dollar and the pound and after it for
   * the other four, an unknown code being formatted as EUR.
   */
  function FormatPrice(formatNumber: (string, nat, Price) -> string, price: Option<Price>,
                       currency: string := "EUR"): (s: string)
    ensures price.None? ==> s == ""
    ensures price.Some? ==>
              var c := Resolve(currency);
              var number := formatNumber(ConfigOf(c).locale, FractionDigits(c), price.value);
              && (c == USD || c == GBP ==> s == ConfigOf(c).symbol + number)
              && (c != USD && c != GBP ==> s == number + ConfigOf(c).symbol)
              && (!IsValidCurrency(currency) ==> s == formatNumber("de-DE", 2, price.value) + "€")
  {
    if price.None? then ""
    else
      var config := ConfigOf(Resolve(currency));
      var number := formatNumber(config.locale, FractionDigits(Resolve(currency)), price.value);
      if config.position == Start then config.symbol + number else number + config.symbol
  }
}
