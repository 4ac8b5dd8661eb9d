/** The price check: `get_product_price` (lines 29-80 of main.py) and `main`
    (lines 103-117). The HTTP response is an input: `None` when the request
    raised or returned an error status, otherwise the parsed page. */
module Tracker {
  import opened Wrappers
  import opened Config
  import opened PriceText
  import opened PriceNumber
  import opened Selector
  import opened Notifier

  /** The three ways `get_product_price` ends in `None`. */
  datatype FetchFailure = TransportFailed | ElementNotFound | NotANumber(cleaned: string)

  /** The extraction pipeline: locate the element, strip and clean its text,
      parse it. The contract states it against the plain digit-and-dot filter of
      the element's text, which the replace chain and the strip turn out to be. */
  function Extract(response: Option<Page>, sel: Selectors): (r: Result<Decimal, FetchFailure>)
    ensures response.None? ==> r == Failure(TransportFailed)
    ensures response.Some? && Locate(response.value, sel).None? ==> r == Failure(ElementNotFound)
    ensures response.Some? && Locate(response.value, sel).Some? ==>
      var cleaned := KeepPriceChars(Locate(response.value, sel).value);
      && (ParseFloat(cleaned).Some? ==> r == Success(ParseFloat(cleaned).value))
      && (ParseFloat(cleaned).None? ==> r == Failure(NotANumber(cleaned)))
  {
    match response
    case None => Failure(TransportFailed)
    case Some(page) =>
      match Locate(page, sel)
      case None => Failure(ElementNotFound)
      case Some(text) =>
        var raw := Strip(text);
        var cleaned := Clean(raw);
        CleanStripped(text);
        match ParseFloat(cleaned)
        case None => Failure(NotANumber(cleaned))
        case Some(d) => Success(d)
  }

  /** `get_product_price(url)`: the price as an exact number, or `None`. */
  function GetProductPrice(response: Option<Page>, sel: Selectors): (price: Option<real>)
    ensures price.Some? <==> Extract(response, sel).Success?
    ensures price.Some? ==> price.value == Value(Extract(response, sel).value) && price.value >= 0.0
    ensures price.Some? ==> (price.value == 0.0 <==> Extract(response, sel).value.mantissa == 0)
  {
    match Extract(response, sel)
    case Success(d) =>
      ValueSign(d);
      Some(Value(d))
    case Failure(_) => None
  }

  /** The price read from an element's text is `float()` of the text filtered to
      digits and dots, and it is present exactly when that filtered text holds a
      digit and at most one dot. */
  lemma ElementPrice(page: Page, sel: Selectors, text: string)
    requires Locate(page, sel) == Some(text)
    ensures var p := ParseFloat(KeepPriceChars(text));
      GetProductPrice(Some(page), sel) == if p.Some? then Some(Value(p.value)) else None
    ensures var c := KeepPriceChars(text);
      GetProductPrice(Some(page), sel).Some? <==> HasDigit(c) && multiset(c)['.'] <= 1
  {
    ParseFloatSpec(KeepPriceChars(text));
  }

  /** What one run of `main` ends with. */
  datatype RunOutcome = NoValidPrice | StillTooHigh(price: real) | PriceLow(price: real, mail: Mail)

  /** Python truthiness of `get_product_price`'s result: `None` and `0.0` are false. */
  predicate PriceTruthy(p: Option<real>) {
    p.Some? && p.value != 0.0
  }

  /** `main()`: fetch, then alert when the price is truthy and strictly below the
      target, report "still too high" when it is truthy and not below, and report
      a failure otherwise. `render` is Python's text for a float. */
  function Run(settings: Settings, creds: Credentials, response: Option<Page>, render: real -> string): (o: RunOutcome)
    ensures var r := Extract(response, settings.selectors);
      o.PriceLow? <==> r.Success? && r.value.mantissa > 0 && Value(r.value) < settings.targetPrice
    ensures var r := Extract(response, settings.selectors);
      o.StillTooHigh? <==> r.Success? && r.value.mantissa > 0 && Value(r.value) >= settings.targetPrice
    ensures !o.NoValidPrice? ==> o.price == Value(Extract(response, settings.selectors).value) && o.price > 0.0
    ensures o.PriceLow? ==> o.mail == SendEmail(o.price, settings.url, creds, render)
  {
    var current := GetProductPrice(response, settings.selectors);
    if PriceTruthy(current) then
      if current.value < settings.targetPrice then
        PriceLow(current.value, SendEmail(current.value, settings.url, creds, render))
      else StillTooHigh(current.value)
    else NoValidPrice
  }

  /** From the page to the alert: `main` sends the alert exactly when the
      configured search finds an element whose text, filtered to digits and
      dots, parses to a non-zero price strictly below the target. */
  lemma AlertIffBelowTarget(settings: Settings, creds: Credentials, page: Page, render: real -> string)
    ensures Run(settings, creds, Some(page), render).PriceLow? <==>
      && Locate(page, settings.selectors).Some?
      && var p := ParseFloat(KeepPriceChars(Locate(page, settings.selectors).value));
      && p.Some? && p.value.mantissa > 0 && Value(p.value) < settings.targetPrice
  {
    if Locate(page, settings.selectors).Some? {
      ElementPrice(page, settings.selectors, Locate(page, settings.selectors).value);
    }
  }

  /** A parsed price of zero is reported as a failure to read the price. */
  lemma ZeroPriceIsNoPrice(settings: Settings, creds: Credentials, response: Option<Page>, render: real -> string)
    requires GetProductPrice(response, settings.selectors) == Some(0.0)
    ensures Run(settings, creds, response, render) == NoValidPrice
  {
  }

  /** A price equal to the target does not alert. */
  lemma AtTargetNoAlert(settings: Settings, creds: Credentials, response: Option<Page>, render: real -> string)
    ensures GetProductPrice(response, settings.selectors) == Some(settings.targetPrice) ==>
      !Run(settings, creds, response, render).PriceLow?
  {
  }

  /** A failed request ends the run with no price and no mail. */
  lemma TransportFailureNoAlert(settings: Settings, creds: Credentials, render: real -> string)
    ensures Run(settings, creds, None, render) == NoValidPrice
  {
  }

  /** A mail is attempted exactly when the price is low and both the sender
      address and the password are set and non-empty; it then goes to the relay
      with the alert for this price. */
  lemma MailIffLowAndCredentials(settings: Settings, creds: Credentials, response: Option<Page>, render: real -> string)
    ensures var o := Run(settings, creds, response, render);
      (o.PriceLow? && o.mail.Attempted?) <==>
        && PriceTruthy(GetProductPrice(response, settings.selectors))
        && GetProductPrice(response, settings.selectors).value < settings.targetPrice
        && Truthy(creds.address) && Truthy(creds.password)
    ensures var o := Run(settings, creds, response, render);
      o.PriceLow? && o.mail.Attempted? ==>
        o.mail.host == RelayHost && o.mail.port == RelayPort
        && o.mail.message == Compose(AlertSubject(render(o.price)), AlertBody(render(o.price), settings.url))
  {
  }

  /** With the repository's selectors the tracker reads the first `span` of class
      `a-price-whole`, and nothing else. */
  lemma SourceSelectorsSearchSpan(page: Page)
    ensures Locate(page, SourceSelectors) == page.findByTagClass("span", "a-price-whole")
  {
  }
}
