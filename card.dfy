/**
 * The values the property card derives from a record: integers pulled out
 * of free-text columns, the currency label, the cover image and whether
 * the expenses line is shown.
 */
module Card {
  import opened Wrappers
  import opened Records
  import Photos

  const Placeholder: string := "/placeholder.svg"

  /** `\d` in a regular expression without the `u` flag: an ASCII decimal digit. */
  predicate IsDigit(c: char) {
    '0' <= c <= '9'
  }

  predicate AllDigits(s: string) {
    forall k :: 0 <= k < |s| ==> IsDigit(s[k])
  }

  predicate HasDigit(s: string) {
    exists k :: 0 <= k < |s| && IsDigit(s[k])
  }

  function DigitValue(c: char): (d: nat)
    requires IsDigit(c)
    ensures d < 10
  {
    (c as int) - ('0' as int)
  }

  function DigitChar(d: nat): (c: char)
    requires d < 10
    ensures IsDigit(c) && DigitValue(c) == d
  {
    ('0' as int + d) as char
  }

  function Pow10(k: nat): (p: nat)
    ensures p >= 1
  {
    if k == 0 then 1 else 10 * Pow10(k - 1)
  }

  /** `parseInt(ds, 10)` for a string of decimal digits: a value below `10^|ds|`. */
  function ParseDecimal(ds: string): (n: nat)
    requires AllDigits(ds)
    ensures n < Pow10(|ds|)
  {
    if ds == [] then 0 else ParseDecimal(ds[..|ds| - 1]) * 10 + DigitValue(ds[|ds| - 1])
  }

  /** Index of the first digit of `s`, or `|s|` when there is none. */
  function FirstDigit(s: string): (i: nat)
    ensures i <= |s|
    ensures forall k :: 0 <= k < i ==> !IsDigit(s[k])
    ensures i < |s| ==> IsDigit(s[i])
  {
    if s == [] || IsDigit(s[0]) then 0 else 1 + FirstDigit(s[1..])
  }

  /** End (exclusive) of the run of digits that starts at `i`. */
  function DigitRunEnd(s: string, i: nat): (j: nat)
    requires i <= |s|
    ensures i <= j <= |s|
    ensures forall k :: i <= k < j ==> IsDigit(s[k])
    ensures j < |s| ==> !IsDigit(s[j])
    decreases |s| - i
  {
    if i < |s| && IsDigit(s[i]) then DigitRunEnd(s, i + 1) else i
  }

  /**
   * `extractInteger(text)`: `text?.match(/\d+/)` then `parseInt(match[0], 10)`,
   * or 0 when `text` is null or has no digit.
   */
  function ExtractInteger(text: Option<string>): (n: nat)
    ensures text.None? ==> n == 0
    ensures text.Some? && !HasDigit(text.value) ==> n == 0
  {
    match text
    case None => 0
    case Some(s) =>
      var i := FirstDigit(s);
      if i == |s| then 0 else ParseDecimal(s[i..DigitRunEnd(s, i)])
  }

  /**
   * The first maximal run of digits decides the result: with `pre` free of
   * digits and `post` not starting with one, the digits `ds` in between
   * are what is parsed, whatever `post` holds.
   */
  lemma ExtractFirstRun(pre: string, ds: string, post: string)
    requires !HasDigit(pre)
    requires ds != [] && AllDigits(ds)
    requires post == [] || !IsDigit(post[0])
    ensures ExtractInteger(Some(pre + ds + post)) == ParseDecimal(ds)
  {
    var s := pre + ds + post;
    assert s[|pre|] == ds[0];
    var i := FirstDigit(s);
    assert i == |pre|;
    var j := DigitRunEnd(s, i);
    assert forall k :: |pre| <= k < |pre| + |ds| ==> s[k] == ds[k - |pre|];
    assert |pre| + |ds| < |s| ==> s[|pre| + |ds|] == post[0];
    assert j == |pre| + |ds|;
    assert s[i..j] == ds;
  }

  /** Leading zeros do not change the parsed value. */
  lemma {:induction false} LeadingZeroIgnored(ds: string)
    requires AllDigits(ds)
    ensures ParseDecimal(['0'] + ds) == ParseDecimal(ds)
  {
    if ds != [] {
      var z := ['0'] + ds;
      assert z[..|z| - 1] == ['0'] + ds[..|ds| - 1];
      LeadingZeroIgnored(ds[..|ds| - 1]);
    }
  }

  /** The parsed value is positive exactly when some digit is not `0`. */
  lemma {:induction false} ParsePositiveIffNonZeroDigit(ds: string)
    requires AllDigits(ds)
    ensures ParseDecimal(ds) > 0 <==> exists k :: 0 <= k < |ds| && ds[k] != '0'
  {
    if ds != [] {
      var init := ds[..|ds| - 1];
      ParsePositiveIffNonZeroDigit(init);
      if exists k :: 0 <= k < |init| && init[k] != '0' {
        var k :| 0 <= k < |init| && init[k] != '0';
        assert ds[k] == init[k];
      }
      if exists k :: 0 <= k < |ds| && ds[k] != '0' {
        var k :| 0 <= k < |ds| && ds[k] != '0';
        if k < |init| {
          assert init[k] == ds[k];
        }
      }
    }
  }

  /** Canonical decimal digits of `n`, without leading zeros. */
  function DecimalDigits(n: nat): (ds: string)
    ensures ds != [] && AllDigits(ds)
    ensures n > 0 ==> ds[0] != '0'
  {
    if n < 10 then [DigitChar(n)] else DecimalDigits(n / 10) + [DigitChar(n % 10)]
  }

  /** Parsing the digits of `n` gives `n` back. */
  lemma {:induction false} ParseDecimalDigits(n: nat)
    ensures ParseDecimal(DecimalDigits(n)) == n
  {
    if n >= 10 {
      var ds := DecimalDigits(n);
      assert ds[..|ds| - 1] == DecimalDigits(n / 10);
      ParseDecimalDigits(n / 10);
    }
  }

  /** Any non-negative integer written out in a text without other digits nearby is extracted exactly. */
  lemma ExtractWrittenNumber(pre: string, n: nat, post: string)
    requires !HasDigit(pre)
    requires post == [] || !IsDigit(post[0])
    ensures ExtractInteger(Some(pre + DecimalDigits(n) + post)) == n
  {
    ExtractFirstRun(pre, DecimalDigits(n), post);
    ParseDecimalDigits(n);
  }

  /** A leading minus sign is not part of the match: the result is never negative. */
  lemma MinusSignIgnored(s: string)
    ensures ExtractInteger(Some("-" + s)) == ExtractInteger(Some(s))
  {
    var t := "-" + s;
    assert !IsDigit(t[0]);
    assert t[1..] == s;
    var i := FirstDigit(t);
    assert i == 1 + FirstDigit(s);
    DigitRunShifted(s, FirstDigit(s));
    assert t[i..DigitRunEnd(t, i)] == s[i - 1..DigitRunEnd(s, i - 1)];
  }

  lemma {:induction false} DigitRunShifted(s: string, i: nat)
    requires i <= |s|
    ensures DigitRunEnd("-" + s, i + 1) == DigitRunEnd(s, i) + 1
    decreases |s| - i
  {
    var t := "-" + s;
    if i < |s| {
      assert t[i + 1] == s[i];
      if IsDigit(s[i]) {
        DigitRunShifted(s, i + 1);
      }
    }
  }

  /** Digits after the first non-digit are ignored: `"1.200"` gives 1. */
  lemma DecimalPointStopsMatch()
    ensures ExtractInteger(Some("1.200")) == 1
  {
    assert "1.200" == [] + "1" + ".200";
    ExtractFirstRun([], "1", ".200");
  }

  /** `getCurrencySymbol`: `"$"` for the peso sign, `"USD"` for anything else, null included. */
  function CurrencySymbol(currency: Option<string>): (symbol: string)
    ensures symbol == "$" <==> currency == Some("$")
    ensures symbol != "$" ==> symbol == "USD"
  {
    if currency == Some("$") then "$" else "USD"
  }

  /** `fotos[0] || "/placeholder.svg"`: an empty first entry is falsy too. */
  function ImageSource(fotos: seq<string>): (src: string)
    ensures src != []
    ensures src == Placeholder || (fotos != [] && src == fotos[0])
  {
    if fotos != [] && fotos[0] != [] then fotos[0] else Placeholder
  }

  /**
   * For a record built by the hook, the image is the first photo when
   * there is one, and the placeholder exactly when there is none.
   */
  lemma ImageOfParsedPhotos(r: Row)
    ensures var p := WithPhotos(r);
      (p.fotos != [] ==> ImageSource(p.fotos) == p.fotos[0]) &&
      (p.fotos == [] <==> ImageSource(p.fotos) == Placeholder)
  {
    var p := WithPhotos(r);
    if p.fotos != [] {
      assert Photos.IsPhotoUrl(p.fotos[0]);
      var i :| 0 <= i <= |p.fotos[0]| && Photos.UrlMarker <= p.fotos[0][i..];
      assert p.fotos[0] != [];
      assert p.fotos[0] != Placeholder by {
        if p.fotos[0] == Placeholder {
          NoMarkerInPlaceholder();
        }
      }
    }
  }

  lemma NoMarkerInPlaceholder()
    ensures !Photos.IsPhotoUrl(Placeholder)
  {
    forall i | 0 <= i <= |Placeholder| ensures !(Photos.UrlMarker <= Placeholder[i..]) {
      if i < |Placeholder| && Placeholder[i] == 'h' {
        assert i == 6;
        assert Placeholder[i..][1] == Placeholder[7] == 'o';
      }
    }
  }

  /** `expensesAmount > 0`: the expenses line is shown. */
  predicate ShowsExpenses(expenses: Option<string>)
    ensures ShowsExpenses(expenses) ==> expenses.Some? && HasDigit(expenses.value)
  {
    ExtractInteger(expenses) > 0
  }

  /**
   * The expenses line is shown exactly when the first run of digits in
   * the expenses text has a digit other than `0`.
   */
  lemma ShowsExpensesIff(pre: string, ds: string, post: string)
    requires !HasDigit(pre)
    requires ds != [] && AllDigits(ds)
    requires post == [] || !IsDigit(post[0])
    ensures ShowsExpenses(Some(pre + ds + post)) <==> exists k :: 0 <= k < |ds| && ds[k] != '0'
  {
    ExtractFirstRun(pre, ds, post);
    ParsePositiveIffNonZeroDigit(ds);
  }

  /** What the card shows, apart from markup and locale formatting. */
  datatype CardView = CardView(
    imageSrc: string,
    currencySymbol: string,
    showExpenses: bool,
    expenses: nat,
    bedrooms: nat,
    bathrooms: nat,
    area: nat,
    age: nat)

  function CardFor(p: Property): (v: CardView)
    ensures v.expenses == ExtractInteger(p.row.expensesAmount)
    ensures v.showExpenses == ShowsExpenses(p.row.expensesAmount)
    ensures v.showExpenses <==> v.expenses > 0
    ensures v.imageSrc == ImageSource(p.fotos)
    ensures v.imageSrc == Placeholder || (p.fotos != [] && v.imageSrc == p.fotos[0])
    ensures v.currencySymbol == CurrencySymbol(p.row.priceCurrency)
    ensures v.currencySymbol == "$" <==> p.row.priceCurrency == Some("$")
    ensures v.bedrooms == ExtractInteger(p.row.dormitorios)
    ensures v.bathrooms == ExtractInteger(p.row.banos)
    ensures v.area == ExtractInteger(p.row.superficieCubierta)
    ensures v.age == ExtractInteger(p.row.antiguedad)
  {
    var expenses := ExtractInteger(p.row.expensesAmount);
    CardView(
      ImageSource(p.fotos),
      CurrencySymbol(p.row.priceCurrency),
      expenses > 0,
      expenses,
      ExtractInteger(p.row.dormitorios),
      ExtractInteger(p.row.banos),
      ExtractInteger(p.row.superficieCubierta),
      ExtractInteger(p.row.antiguedad))
  }
}
