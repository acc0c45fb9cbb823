/**
 * The shared display formatters: document and phone masks, truncation,
 * signed profit/loss strings, colour classes and the key-to-label tables.
 * Locale rendering (`Intl.NumberFormat`, `toFixed`) is not modelled; where a
 * formatter builds on it, the rendering is a function parameter.
 */
module Formatters {
  import opened Text

  // ---------------------------------------------------------------------------
  // CPF and phone masks
  // ---------------------------------------------------------------------------

  /** `ddd.ddd.ddd-dd`: the shape of a masked CPF. */
  predicate CpfMask(r: string) {
    |r| == 14 && r[3] == '.' && r[7] == '.' && r[11] == '-'
    && forall i :: 0 <= i < 14 && i != 3 && i != 7 && i != 11 ==> IsDigit(r[i])
  }

  /** `(dd) dddd-dddd`: a ten-digit phone. */
  predicate PhoneMask10(r: string) {
    |r| == 14 && r[0] == '(' && r[3] == ')' && r[4] == ' ' && r[9] == '-'
    && forall i :: 0 <= i < 14 && i !in {0, 3, 4, 9} ==> IsDigit(r[i])
  }

  /** `(dd) ddddd-dddd`: an eleven-digit phone. */
  predicate PhoneMask11(r: string) {
    |r| == 15 && r[0] == '(' && r[3] == ')' && r[4] == ' ' && r[10] == '-'
    && forall i :: 0 <= i < 15 && i !in {0, 3, 4, 10} ==> IsDigit(r[i])
  }

  /**
   * `formatters.cpf`: the first eleven digits of the input as `ddd.ddd.ddd-dd`,
   * or the input unchanged when it holds fewer than eleven digits.
   */
  function Cpf(value: string): (r: string)
    ensures |Digits(value)| < 11 ==> r == value
    ensures |Digits(value)| >= 11 ==> CpfMask(r)
  {
    var cleaned := SliceTo(Digits(value), 11);
    if |cleaned| < 11 then value
    else cleaned[..3] + "." + cleaned[3..6] + "." + cleaned[6..9] + "-" + cleaned[9..]
  }

  /** Stripping the non-digits from a CPF mask gives back the (at most eleven) digits it was built from. */
  lemma CpfDigits(value: string)
    ensures Digits(Cpf(value)) == SliceTo(Digits(value), 11)
  {
    var d := Digits(value);
    var c := SliceTo(d, 11);
    if |c| == 11 {
      assert c == d[..11];
      assert AllDigits(c[..3]) && AllDigits(c[3..6]) && AllDigits(c[6..9]) && AllDigits(c[9..]);
      assert Cpf(value) == c[..3] + ['.'] + c[3..6] + ['.'] + c[6..9] + ['-'] + c[9..];
      MaskDigits4(c[..3], '.', c[3..6], '.', c[6..9], '-', c[9..]);
      assert c[..3] + c[3..6] + c[6..9] + c[9..] == c;
    }
  }

  /** Masking an already masked CPF changes nothing. */
  lemma CpfIdempotent(value: string)
    ensures Cpf(Cpf(value)) == Cpf(value)
  {
    CpfDigits(value);
  }

  /**
   * `formatters.phone`: with ten digits `(dd) dddd-dddd`, with eleven or more
   * `(dd) ddddd-dddd` from the first eleven, and below ten the input unchanged.
   */
  function Phone(value: string): (r: string)
    ensures |Digits(value)| < 10 ==> r == value
    ensures |Digits(value)| == 10 ==> PhoneMask10(r)
    ensures |Digits(value)| >= 11 ==> PhoneMask11(r)
  {
    var cleaned := SliceTo(Digits(value), 11);
    if |cleaned| < 10 then value
    else if |cleaned| == 10 then "(" + cleaned[..2] + ") " + cleaned[2..6] + "-" + cleaned[6..]
    else "(" + cleaned[..2] + ") " + cleaned[2..7] + "-" + cleaned[7..]
  }

  /** Stripping the non-digits from a phone mask gives back the digits it was built from. */
  lemma PhoneDigits(value: string)
    ensures Digits(Phone(value)) == SliceTo(Digits(value), 11)
  {
    var c := SliceTo(Digits(value), 11);
    if |c| >= 10 {
      var k := if |c| == 10 then 6 else 7;
      PhoneMaskDigits(c[..2], c[2..k], c[k..]);
      assert c[..2] + c[2..k] + c[k..] == c;
    }
  }

  /** Masking an already masked phone changes nothing. */
  lemma PhoneIdempotent(value: string)
    ensures Phone(Phone(value)) == Phone(value)
  {
    PhoneDigits(value);
  }

  lemma PhoneMaskDigits(a: string, b: string, e: string)
    requires AllDigits(a) && AllDigits(b) && AllDigits(e)
    ensures Digits("(" + a + ") " + b + "-" + e) == a + b + e
  {
    var s1 := "(" + a;
    assert Digits(s1) == a by { DigitsAppend("(", a); }
    var s2 := s1 + ") ";
    assert Digits(s2) == a by { DigitsAppend(s1, ") "); }
    var s3 := s2 + b;
    assert Digits(s3) == a + b by { DigitsAppend(s2, b); }
    var s4 := s3 + "-";
    assert Digits(s4) == a + b by { DigitsAppend(s3, "-"); }
    DigitsAppend(s4, e);
  }

  lemma MaskDigits3(a: string, x: char, b: string, y: char, c: string, z: char, d: string)
    requires !IsDigit(x) && !IsDigit(y) && !IsDigit(z)
    ensures Digits(a + [x] + b + [y] + c + [z] + d) == Digits(a) + Digits(b) + Digits(c) + Digits(d)
  {
    DigitsSkip(a + [x] + b + [y] + c, z, d);
    DigitsSkip(a + [x] + b, y, c);
    DigitsSkip(a, x, b);
  }

  lemma MaskDigits4(a: string, x: char, b: string, y: char, c: string, z: char, d: string)
    requires !IsDigit(x) && !IsDigit(y) && !IsDigit(z)
    ensures Digits(a + [x] + b + [y] + c + [z] + d) == a + b + c + d
    requires AllDigits(a) && AllDigits(b) && AllDigits(c) && AllDigits(d)
  {
    MaskDigits3(a, x, b, y, c, z, d);
  }

  // ---------------------------------------------------------------------------
  // Truncation
  // ---------------------------------------------------------------------------

  /**
   * `formatters.truncate`: the text itself when it fits, otherwise
   * `text.slice(0, maxLength)` followed by "..." (a negative `maxLength`
   * drops that many characters from the end, as `slice` does).
   */
  function Truncate(text: string, maxLength: int): (r: string)
    ensures |text| <= maxLength ==> r == text
    ensures 0 <= maxLength < |text| ==>
              |r| == maxLength + 3 && r[..maxLength] == text[..maxLength] && r[maxLength..] == "..."
    ensures maxLength < 0 ==>
              |r| >= 3 && r[|r| - 3..] == "..." && r[..|r| - 3] <= text
              && |r| - 3 == (if |text| + maxLength > 0 then |text| + maxLength else 0)
  {
    if |text| <= maxLength then text else SliceTo(text, maxLength) + "..."
  }

  // ---------------------------------------------------------------------------
  // Signed amounts and percentages
  // ---------------------------------------------------------------------------

  function Abs(x: real): real {
    if x < 0.0 then -x else x
  }

  /** `formatters.profitLoss`: '+' for a non-negative value, '-' otherwise, then the currency text of |value|. */
  function ProfitLoss(value: real, currency: real -> string): (r: string)
    ensures |r| >= 1 && r[1..] == currency(Abs(value))
    ensures r[0] == '+' <==> value >= 0.0
    ensures r[0] == '-' <==> value < 0.0
  {
    var formatted := currency(Abs(value));
    if value >= 0.0 then "+" + formatted else "-" + formatted
  }

  /** A gain and the loss of the same size differ only in their sign character. */
  lemma ProfitLossMirror(v: real, currency: real -> string)
    requires v > 0.0
    ensures ProfitLoss(v, currency)[1..] == ProfitLoss(-v, currency)[1..]
    ensures ProfitLoss(v, currency)[0] == '+' && ProfitLoss(-v, currency)[0] == '-'
  {
    assert Abs(-v) == Abs(v);
  }

  /** The number of decimals `percentage` and `profitLossPercentage` use when the caller omits it. */
  const DefaultDecimals := 2

  /** `formatters.percentage`: the fixed-point text of the value followed by '%'. */
  function Percentage(value: real, decimals: int, toFixed: (real, int) -> string): (r: string)
    ensures |r| >= 1 && r[|r| - 1] == '%' && r[..|r| - 1] == toFixed(value, decimals)
  {
    toFixed(value, decimals) + "%"
  }

  /**
   * `formatters.profitLossPercentage`: a '+' is added before a non-negative
   * value; a negative value gets no prefix of its own.
   */
  function ProfitLossPercentage(value: real, decimals: int, toFixed: (real, int) -> string): (r: string)
    ensures |r| >= 1 && r[|r| - 1] == '%'
    ensures value >= 0.0 ==> r[0] == '+' && r[1..] == Percentage(value, decimals, toFixed)
    ensures value < 0.0 ==> r == Percentage(value, decimals, toFixed)
  {
    var sign := if value >= 0.0 then "+" else "";
    sign + Percentage(value, decimals, toFixed)
  }

  // ---------------------------------------------------------------------------
  // Label tables
  // ---------------------------------------------------------------------------

  const InvestmentTypes: map<string, string> := map[
    "acao" := "Ação", "fii" := "FII", "cdb" := "CDB", "fundo" := "Fundo",
    "tesouro" := "Tesouro Direto", "cripto" := "Criptomoeda"]

  const InvestmentTypesShort: map<string, string> := map[
    "acao" := "Ação", "fii" := "FII", "cdb" := "CDB", "fundo" := "Fundo",
    "tesouro" := "TDirect", "cripto" := "₿"]

  const AccountTypes: map<string, string> := map[
    "investimento" := "Investimento", "poupanca" := "Poupança",
    "conta_corrente" := "Conta Corrente"]

  const Liquidities: map<string, string> := map[
    "diaria" := "Diária", "30-dias" := "30 dias", "90-dias" := "90 dias",
    "longo-prazo" := "Longo Prazo"]

  /** `formatters.investmentType`: the display name, or the key itself when unknown. */
  function InvestmentType(key: string): (r: string)
    ensures key in InvestmentTypes ==> r == InvestmentTypes[key]
    ensures key !in InvestmentTypes ==> r == key
  {
    LabelOr(InvestmentTypes, key)
  }

  /** `formatters.investmentTypeShort`: the short display name, or the key itself when unknown. */
  function InvestmentTypeShort(key: string): (r: string)
    ensures key in InvestmentTypesShort ==> r == InvestmentTypesShort[key]
    ensures key !in InvestmentTypesShort ==> r == key
  {
    LabelOr(InvestmentTypesShort, key)
  }

  /** `formatters.accountType`: the display name, or the key itself when unknown. */
  function AccountType(key: string): (r: string)
    ensures key in AccountTypes ==> r == AccountTypes[key]
    ensures key !in AccountTypes ==> r == key
  {
    LabelOr(AccountTypes, key)
  }

  /** `formatters.liquidity`: the display name, or the key itself when unknown. */
  function Liquidity(key: string): (r: string)
    ensures key in Liquidities ==> r == Liquidities[key]
    ensures key !in Liquidities ==> r == key
  {
    LabelOr(Liquidities, key)
  }

  // ---------------------------------------------------------------------------
  // Colour classes
  // ---------------------------------------------------------------------------

  const GainColor := "text-green-600"
  const LossColor := "text-red-600"
  const NeutralColor := "text-gray-600"

  /** `getProfitLossColor`: green for a gain, red for a loss, gray for zero. */
  function ProfitLossColor(value: real): (r: string)
    ensures r == GainColor <==> value > 0.0
    ensures r == LossColor <==> value < 0.0
    ensures r == NeutralColor <==> value == 0.0
  {
    if value > 0.0 then GainColor
    else if value < 0.0 then LossColor
    else NeutralColor
  }

  const LowRisk := "bg-green-100 text-green-800"
  const MediumRisk := "bg-yellow-100 text-yellow-800"
  const HighRisk := "bg-red-100 text-red-800"
  const UnknownRisk := "bg-gray-100 text-gray-800"

  /** `getRiskLevelColor`: the level compared case-insensitively, gray when it is none of the three. */
  function RiskLevelColor(level: string): (r: string)
    ensures r == LowRisk <==> ToLower(level) == "baixo"
    ensures r == MediumRisk <==> ToLower(level) == "médio"
    ensures r == HighRisk <==> ToLower(level) == "alto"
    ensures r == UnknownRisk <==> ToLower(level) !in {"baixo", "médio", "alto"}
  {
    var key := ToLower(level);
    if key == "baixo" then LowRisk
    else if key == "médio" then MediumRisk
    else if key == "alto" then HighRisk
    else UnknownRisk
  }

  /** Case does not matter to the risk colour. */
  lemma RiskLevelColorIgnoresCase(level: string)
    ensures RiskLevelColor(ToLower(level)) == RiskLevelColor(level)
  {
    ToLowerIdempotent(level);
  }

  const OpportunityAlert := "bg-blue-100 text-blue-800"
  const WarningAlert := "bg-yellow-100 text-yellow-800"
  const InfoAlert := "bg-gray-100 text-gray-800"

  /** `getAlertTypeColor`: blue for an opportunity, yellow for a warning, gray for "info" and anything else. */
  function AlertTypeColor(alertType: string): (r: string)
    ensures r == OpportunityAlert <==> alertType == "opportunity"
    ensures r == WarningAlert <==> alertType == "warning"
    ensures r == InfoAlert <==> alertType != "opportunity" && alertType != "warning"
  {
    if alertType == "opportunity" then OpportunityAlert
    else if alertType == "warning" then WarningAlert
    else if alertType == "info" then InfoAlert
    else InfoAlert
  }
}
