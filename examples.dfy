/** Worked examples from the script's comments and typical price texts, checked
    on the model. Each is assembled from one-fact lemmas about the literal texts,
    so that no proof has to evaluate a long text in one go. */
module Examples {
  import opened Wrappers
  import opened Config
  import opened PriceText
  import opened PriceNumber
  import opened Selector
  import opened Notifier
  import opened Tracker

  /** Filtering a text whose head filters to `head` and whose tail is already clean. */
  lemma KeepJoin(a: string, b: string, head: string)
    requires KeepPriceChars(a) == head && IsPriceText(b)
    ensures KeepPriceChars(a + b) == head + b
  {
    KeepConcat(a, b);
    KeepPriceText(b);
  }

  /** Appending a digit to a numeral: ten times the value, plus the digit. */
  lemma DigitsSnoc(s: string, c: char)
    requires IsDigits(s) && IsDigit(c)
    ensures IsDigits(s + [c])
    ensures DigitsValue(s + [c]) == DigitsValue(s) * 10 + (c as int - '0' as int)
  {
    assert (s + [c])[..|s|] == s;
  }

  /** A text that starts with a digit has a digit. */
  lemma LeadingDigit(s: string)
    requires s != [] && IsDigit(s[0])
    ensures HasDigit(s)
  {
  }

  lemma Value1299() ensures IsDigits("1299") && DigitsValue("1299") == 1299 {
    assert DigitsValue("1") == 1;
    DigitsSnoc("1", '2'); assert "1" + ['2'] == "12";
    DigitsSnoc("12", '9'); assert "12" + ['9'] == "129";
    DigitsSnoc("129", '9'); assert "129" + ['9'] == "1299";
  }

  // "$1,299.00" -> "1299.00"

  lemma DollarSplit() ensures "$1,299.00" == "$1," + "299.00" { }
  lemma DollarHead() ensures KeepPriceChars("$1,") == "1" { }
  lemma DollarTail() ensures IsPriceText("299.00") { }
  lemma DollarJoin() ensures "1" + "299.00" == "1299.00" { }

  lemma DollarsWithSeparator()
    ensures Clean("$1,299.00") == "1299.00"
  {
    CleanIsKeep("$1,299.00");
    DollarSplit();
    DollarHead();
    DollarTail();
    KeepJoin("$1,", "299.00", "1");
    DollarJoin();
  }

  lemma DollarDigitsValue() ensures DigitsValue("129900") == 129900 {
    Value1299();
    DigitsSnoc("1299", '0'); assert "1299" + ['0'] == "12990";
    DigitsSnoc("12990", '0'); assert "12990" + ['0'] == "129900";
  }
  lemma DollarDropDot() ensures RemoveAll("1299.00", '.') == "129900" {
    RemoveDotsAround("1299.00", 4);
    assert "1299.00"[..4] + "1299.00"[5..] == "129900";
  }

  /** "1299.00" reads as 1299.00. */
  lemma DollarsParse()
    ensures ParseFloat("1299.00") == Some(Decimal(129900, 2))
  {
    ParseOneDot("1299.00", 4);
    DollarDigitsValue();
    DollarDropDot();
    LeadingDigit("1299.00");
  }

  /** ... which stands for 1299. */
  lemma DollarsValue() ensures Value(Decimal(129900, 2)) == 1299.0 {
    assert Pow10(2) == 100;
  }

  // "USD 50.00" -> "50.00"

  lemma CodeSplit() ensures "USD 50.00" == "USD " + "50.00" { }
  lemma CodeHead() ensures KeepPriceChars("USD ") == [] { }
  lemma CodeTail() ensures IsPriceText("50.00") { }

  /** Extra text such as a currency code is filtered out. */
  lemma CurrencyCode()
    ensures Clean("USD 50.00") == "50.00"
  {
    CleanIsKeep("USD 50.00");
    CodeSplit();
    CodeHead();
    CodeTail();
    KeepJoin("USD ", "50.00", []);
  }

  lemma CodeDigitsValue() ensures DigitsValue("5000") == 5000 {
    assert DigitsValue("5") == 5;
    DigitsSnoc("5", '0'); assert "5" + ['0'] == "50";
    DigitsSnoc("50", '0'); assert "50" + ['0'] == "500";
    DigitsSnoc("500", '0'); assert "500" + ['0'] == "5000";
  }
  lemma CodeDropDot() ensures RemoveAll("50.00", '.') == "5000" {
    RemoveDotsAround("50.00", 2);
    assert "50.00"[..2] + "50.00"[3..] == "5000";
  }

  /** "50.00" reads as 50.00. */
  lemma CurrencyCodeParse()
    ensures ParseFloat("50.00") == Some(Decimal(5000, 2))
  {
    ParseOneDot("50.00", 2);
    CodeDigitsValue();
    CodeDropDot();
    LeadingDigit("50.00");
  }

  // " 1,299. " -> "1299."

  lemma TrailingSplit() ensures " 1,299. " == (" 1," + "299.") + " " { }
  lemma TrailingHead() ensures KeepPriceChars(" 1,") == "1" { }
  lemma TrailingTail() ensures IsPriceText("299.") { }
  lemma TrailingSpace() ensures KeepPriceChars(" ") == [] { }
  lemma TrailingJoin() ensures "1" + "299." == "1299." { }

  lemma TrailingKept() ensures KeepPriceChars(" 1,299. ") == "1299." {
    TrailingSplit();
    TrailingHead();
    TrailingTail();
    KeepJoin(" 1,", "299.", "1");
    TrailingSpace();
    KeepConcat(" 1," + "299.", " ");
    TrailingJoin();
  }

  /** The whole-rupee figure Amazon shows ends in a dot: the element text
      " 1,299. " strips and cleans to "1299.". */
  lemma TrailingDot()
    ensures Clean(Strip(" 1,299. ")) == "1299."
  {
    CleanStripped(" 1,299. ");
    TrailingKept();
  }

  lemma TrailingDropDot() ensures RemoveAll("1299.", '.') == "1299" {
    RemoveDotsAround("1299.", 4);
    assert "1299."[..4] + "1299."[5..] == "1299";
  }

  /** "1299." reads as 1299. */
  lemma TrailingDotParse()
    ensures ParseFloat("1299.") == Some(Decimal(1299, 0))
  {
    ParseOneDot("1299.", 4);
    Value1299();
    TrailingDropDot();
    LeadingDigit("1299.");
  }

  /** "199" reads as 199. */
  lemma WholeNumber()
    ensures ParseFloat("199") == Some(Decimal(199, 0))
    ensures Value(Decimal(199, 0)) == 199.0
  {
    assert NatDigits(199) == "199";
    ParsePlain("199");
    ValueUnscaled(Decimal(199, 0));
  }

  /** Text without a digit cleans to the empty text. */
  lemma NoDigitsKept() ensures KeepPriceChars("abc") == "" { }
  lemma NoDigits() ensures Clean("abc") == "" { CleanIsKeep("abc"); NoDigitsKept(); }

  /** The empty text, a lone dot and two dots are not numbers. */
  lemma EmptyNotANumber() ensures ParseFloat("") == None { }
  lemma DotNotANumber() ensures ParseFloat(".") == None { }
  lemma TwoDotsNotANumber() ensures ParseFloat("1.2.3") == None { }

  lemma LowHead() ensures KeepPriceChars("$150.00") == "150.00" {
    assert "$150.00" == "$" + "150.00";
    KeepJoin("$", "150.00", []);
  }
  lemma LowDigitsValue() ensures DigitsValue("15000") == 15000 {
    assert DigitsValue("1") == 1;
    DigitsSnoc("1", '5'); assert "1" + ['5'] == "15";
    DigitsSnoc("15", '0'); assert "15" + ['0'] == "150";
    DigitsSnoc("150", '0'); assert "150" + ['0'] == "1500";
    DigitsSnoc("1500", '0'); assert "1500" + ['0'] == "15000";
  }
  lemma LowDropDot() ensures RemoveAll("150.00", '.') == "15000" {
    RemoveDotsAround("150.00", 3);
    assert "150.00"[..3] + "150.00"[4..] == "15000";
  }
  lemma LowParse() ensures ParseFloat("150.00") == Some(Decimal(15000, 2)) {
    ParseOneDot("150.00", 3);
    LowDigitsValue();
    LowDropDot();
    assert IsDigit("150.00"[0]);
  }

  lemma HighHead() ensures KeepPriceChars("$250.00") == "250.00" {
    assert "$250.00" == "$" + "250.00";
    KeepJoin("$", "250.00", []);
  }
  lemma HighDigitsValue() ensures DigitsValue("25000") == 25000 {
    assert DigitsValue("2") == 2;
    DigitsSnoc("2", '5'); assert "2" + ['5'] == "25";
    DigitsSnoc("25", '0'); assert "25" + ['0'] == "250";
    DigitsSnoc("250", '0'); assert "250" + ['0'] == "2500";
    DigitsSnoc("2500", '0'); assert "2500" + ['0'] == "25000";
  }
  lemma HighDropDot() ensures RemoveAll("250.00", '.') == "25000" {
    RemoveDotsAround("250.00", 3);
    assert "250.00"[..3] + "250.00"[4..] == "25000";
  }
  lemma HighParse() ensures ParseFloat("250.00") == Some(Decimal(25000, 2)) {
    ParseOneDot("250.00", 3);
    HighDigitsValue();
    HighDropDot();
    assert IsDigit("250.00"[0]);
  }

  lemma LowValue() ensures Value(Decimal(15000, 2)) == 150.0 { assert Pow10(2) == 100; }
  lemma HighValue() ensures Value(Decimal(25000, 2)) == 250.0 { assert Pow10(2) == 100; }

  /** The run's outcome for an element whose filtered text parses to a non-zero `d`. */
  lemma PriceFromText(settings: Settings, creds: Credentials, page: Page, render: real -> string, text: string, d: Decimal)
    requires Locate(page, settings.selectors) == Some(text)
    requires ParseFloat(KeepPriceChars(text)) == Some(d) && d.mantissa > 0
    ensures Value(d) < settings.targetPrice ==> Run(settings, creds, Some(page), render).PriceLow?
    ensures Value(d) >= settings.targetPrice ==> Run(settings, creds, Some(page), render).StillTooHigh?
  {
    ElementPrice(page, settings.selectors, text);
  }

  /** With a target of 200, a page whose price span reads "$150.00" raises the alert. */
  lemma BelowTargetAlerts(url: string, creds: Credentials, page: Page, render: real -> string)
    requires page.findByTagClass("span", "a-price-whole") == Some("$150.00")
    ensures Run(Settings(url, 200.0, SourceSelectors), creds, Some(page), render).PriceLow?
  {
    var settings := Settings(url, 200.0, SourceSelectors);
    SourceSelectorsSearchSpan(page);
    LowHead();
    LowParse();
    LowValue();
    PriceFromText(settings, creds, page, render, "$150.00", Decimal(15000, 2));
  }

  /** With a target of 200, a page whose price span reads "$250.00" does not. */
  lemma AboveTargetWaits(url: string, creds: Credentials, page: Page, render: real -> string)
    requires page.findByTagClass("span", "a-price-whole") == Some("$250.00")
    ensures Run(Settings(url, 200.0, SourceSelectors), creds, Some(page), render).StillTooHigh?
  {
    var settings := Settings(url, 200.0, SourceSelectors);
    SourceSelectorsSearchSpan(page);
    HighHead();
    HighParse();
    HighValue();
    PriceFromText(settings, creds, page, render, "$250.00", Decimal(25000, 2));
  }

  /** An id that matches nothing means no price, even when the span is there. */
  lemma IdMissExample(url: string, creds: Credentials, page: Page, render: real -> string)
    requires page.findById("price") == None
    requires page.findByTagClass("span", "a-price-whole") == Some("$150.00")
    ensures Run(Settings(url, 200.0, Selectors(Some("price"), Some("a-price-whole"), Some("span"))),
                creds, Some(page), render) == NoValidPrice
  {
  }

  /** Without a sender address, or with an empty password, the alert is skipped. */
  lemma NoCredentialsExample(url: string, render: real -> string)
    ensures SendEmail(150.0, url, Credentials(None, Some("secret"), None), render) == Skipped
    ensures SendEmail(150.0, url, Credentials(Some("me@example.com"), Some(""), None), render) == Skipped
  {
  }

  lemma TrailingValue() ensures Value(Decimal(1299, 0)) == 1299.0 {
    ValueUnscaled(Decimal(1299, 0));
  }

  /** A span reading " 1,299. " alerts under any settings that search that span
      with a target above 1299. */
  lemma TrailingDotAlerts(settings: Settings, creds: Credentials, page: Page, render: real -> string)
    requires settings.selectors == SourceSelectors && settings.targetPrice > 1299.0
    requires page.findByTagClass("span", "a-price-whole") == Some(" 1,299. ")
    ensures Run(settings, creds, Some(page), render).PriceLow?
  {
    SourceSelectorsSearchSpan(page);
    TrailingKept();
    TrailingDotParse();
    TrailingValue();
    PriceFromText(settings, creds, page, render, " 1,299. ", Decimal(1299, 0));
  }

  /** With the script's own settings (target 20000, the `a-price-whole` span),
      a page whose span reads " 1,299. " raises the alert. */
  lemma ConfiguredRunAlerts(creds: Credentials, page: Page, render: real -> string)
    requires page.findByTagClass("span", "a-price-whole") == Some(" 1,299. ")
    ensures Run(SourceSettings, creds, Some(page), render).PriceLow?
  {
    TrailingDotAlerts(SourceSettings, creds, page, render);
  }
}
