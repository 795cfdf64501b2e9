/**
 The decision functions of the web page's script: the Russian word for
 "day" shown after the two period inputs, the height of the country
 select box, and the text of the collapse button. The DOM is left out:
 each function takes the value it reads from the page and returns what it
 writes back.
 */
module Script {
  import opened Outcomes

  /** The three forms of "day" the page uses. */
  datatype DayWord =
    | SinNom  // день — singular nominative
    | SinGen  // дня  — singular genitive
    | PluGen  // дней — plural genitive

  /** The `cases` table: the text written into the label. */
  function Word(w: DayWord): string {
    match w
    case SinNom => "день"
    case SinGen => "дня"
    case PluGen => "дней"
  }

  lemma WordInjective(v: DayWord, w: DayWord)
    requires Word(v) == Word(w)
    ensures v == w
  {
  }

  /** JavaScript's `a % b` for a positive divisor: the remainder takes the
      sign of the dividend (truncating division), unlike Dafny's `%`. */
  function JsRem(a: int, b: int): (r: int)
    requires b > 0
    ensures exists q :: a == q * b + r
    ensures a >= 0 ==> 0 <= r < b
    ensures a <= 0 ==> -b < r <= 0
  {
    if a >= 0 then
      assert a == (a / b) * b + a % b;
      a % b
    else
      var r := -((-a) % b);
      assert a == -((-a) / b) * b + r;
      r
  }

  /** `modifyLabelNom`: the word after "for N ...", chosen from the value of
      the input coerced to a number. */
  function ModifyLabelNom(n: int): DayWord {
    if 11 <= JsRem(n, 100) <= 19 then PluGen
    else
      var last := JsRem(n, 10);
      if last == 1 then SinNom
      else if last == 2 || last == 3 || last == 4 then SinGen
      else PluGen
  }

  /** `modifyLabelGen`: the word after "over N ...". */
  function ModifyLabelGen(n: int): (w: DayWord)
    ensures w != SinNom
  {
    if JsRem(n, 10) == 1 && JsRem(n, 100) != 11 then SinGen else PluGen
  }

  // ---------------------------------------------------------------------
  // Reference: the Russian agreement rule stated on decimal digits

  function LastDigit(n: nat): nat { n % 10 }
  function TensDigit(n: nat): nat { (n / 10) % 10 }

  /** Russian agreement of a cardinal with "day": any number whose tens
      digit is 1 takes "дней"; otherwise a last digit of 1 takes "день",
      2 to 4 take "дня", everything else "дней". */
  function NominativeByDigits(n: nat): DayWord {
    if TensDigit(n) == 1 then PluGen
    else if LastDigit(n) == 1 then SinNom
    else if 2 <= LastDigit(n) <= 4 then SinGen
    else PluGen
  }

  /** Genitive agreement ("over N days"): "дня" exactly when the number
      ends in 1 but not in 11. */
  function GenitiveByDigits(n: nat): DayWord {
    if LastDigit(n) == 1 && TensDigit(n) != 1 then SinGen else PluGen
  }

  /** The last two decimal digits of n are those of n % 100. */
  lemma LastTwoDigits(n: nat)
    ensures LastDigit(n) == (n % 100) % 10
    ensures TensDigit(n) == (n % 100) / 10
  {
    var q, r := n / 100, n % 100;
    assert n == 10 * (10 * q + r / 10) + r % 10;
    assert n / 10 == 10 * q + r / 10;
    assert (10 * q + r / 10) % 10 == r / 10;
  }

  /** For inputs the page accepts (non-negative), `modifyLabelNom` follows
      the grammar rule: its "11..19" window on n % 100 picks out exactly
      the numbers whose tens digit is 1, apart from those ending in 10,
      which the last-digit 0 case already sends to "дней". */
  lemma NomMatchesGrammar(n: nat)
    ensures ModifyLabelNom(n) == NominativeByDigits(n)
  {
    LastTwoDigits(n);
  }

  lemma GenMatchesGrammar(n: nat)
    ensures ModifyLabelGen(n) == GenitiveByDigits(n)
  {
    LastTwoDigits(n);
  }

  /** A negative value has a non-positive JavaScript remainder, so neither
      the 11..19 window nor the cases 1..4 can match: both labels read
      "дней". */
  lemma NegativeIsPlural(n: int)
    requires n < 0
    ensures ModifyLabelNom(n) == PluGen
    ensures ModifyLabelGen(n) == PluGen
  {
  }

  /** Both labels depend only on the last two digits: n and n + 100 get the
      same word, for every n the page produces (n >= 0). */
  lemma LabelsPeriodic(n: nat)
    ensures ModifyLabelNom(n + 100) == ModifyLabelNom(n)
    ensures ModifyLabelGen(n + 100) == ModifyLabelGen(n)
  {
    assert (n + 100) % 100 == n % 100;
    assert (n + 100) % 10 == n % 10;
  }

  /** Periodicity stops at zero under the truncating remainder: -99 gets
      "дней" while 1 gets "день". */
  lemma PeriodicityFailsAcrossZero()
    ensures ModifyLabelNom(-99) != ModifyLabelNom(1)
  {
    assert JsRem(-99, 100) == -99;
  }

  // ---------------------------------------------------------------------
  // Select box size and collapse button text

  const DesktopSelectSize: string := "15"
  const TabletSelectSize: string := "5"
  const DesktopMinWidth: int := 768

  /** `changeSelectSize`: the country list shows 15 rows on wide windows
      and 5 otherwise. */
  function ChangeSelectSize(innerWidth: int): (size: string)
    ensures size == DesktopSelectSize <==> innerWidth >= DesktopMinWidth
    ensures size == TabletSelectSize <==> innerWidth < DesktopMinWidth
  {
    if innerWidth >= DesktopMinWidth then DesktopSelectSize else TabletSelectSize
  }

  const TextClosed: string := "Показать дополнительные настройки (экстраполяция)"
  const TextOpened: string := "Скрыть дополнительные настройки (экстраполяция)"

  /** `toggleButtonText`: `ariaExpanded` is the attribute as
      `getAttribute` returns it (None when absent). Only the exact string
      "true" selects the "show" text. */
  function ToggleButtonText(ariaExpanded: Option<string>): (text: string)
    ensures text == TextClosed <==> ariaExpanded == Some("true")
    ensures text == TextOpened <==> ariaExpanded != Some("true")
  {
    if ariaExpanded == Some("true") then TextClosed else TextOpened
  }
}
