# Price tracker: a verified model of its price check

The price tracker is a single Python script, `main.py`. It downloads one Amazon
product page and finds the price element. It does this by a configured element
id or, when no id is configured, by a tag name together with a class. It strips the
element's text, drops currency symbols and thousands separators, and keeps only
digits and dots. It then reads what is left with `float()`. When the price is
present, non-zero and strictly below the target, it mails an alert through
smtp.gmail.com:587. It sends nothing when the sender address or the password is
missing.

This project models that logic as pure Dafny functions and proves properties
about them. The modules are:

- `Wrappers`: the `Option` and `Result` types.
- `Config`: the configuration, namely the URL, the target price of 20000, the
  selectors (no id, class `a-price-whole`, tag `span`) and the relay address.
  It also holds Python truthiness of an optional string and the credentials
  read from the environment.
- `PriceText`: `str.strip()`, the chain of `replace` calls and the
  digit-and-dot filter.
- `PriceNumber`: `float()` on a text of digits and dots. The result is an exact
  decimal `Decimal(mantissa, scale)`, which stands for mantissa / 10^scale. A
  formatter is the parser's inverse.
- `Selector`: which lookup is made on the parsed page. The page is an oracle
  that answers BeautifulSoup's two kinds of `find`.
- `Notifier`: `send_email`, covering the credential guard, the message text and
  the relay. It also holds a reader of the message that recovers its subject and
  body.
- `Tracker`: `get_product_price` and `main`.
- `Examples`: worked examples from the script's comments and typical price texts.

The HTTP response is an input of the model. It is `None` when the request
raised or returned an error status, and otherwise the parsed page. The
environment's credentials are an input too. So is `render`, the text Python
prints for a float inside an f-string.

The filter keeps every dot. So "1.2.3" reaches `float()` and fails there; it
is not repaired, and the model follows the code in this.

A remark about the script rather than the model: its comment at line 34 says
the request headers make it look like a desktop browser, but the User-Agent it
sends names a crawler ("CCBot/2.0"). The request is not modelled.

## Model

| member | source | states |
|---|---|---|
| Config.Truthy | main.py:49-52 | Python truthiness of an optional string: `None` and the empty string are false (also used at line 86) |
| PriceText.IsSpace | main.py:58 | the characters `str.strip()` removes: those for which Python's `str.isspace()` holds |
| PriceText.IsDigit | main.py:66 | `str.isdigit()`, restricted to the ASCII digits 0-9 |
| PriceText.TrimStart | main.py:58 | the result is a suffix of the text, everything cut off is whitespace, and it does not start with whitespace |
| PriceText.TrimEnd | main.py:58 | the result is a prefix of the text, everything cut off is whitespace, and it does not end with whitespace |
| PriceText.Strip | main.py:58 | the text is whitespace + result + whitespace, and the result neither starts nor ends with whitespace (Python's `str.isspace` set) |
| PriceText.RemoveAll | main.py:62 | `replace(c, "")` leaves no `c` and never lengthens the text |
| PriceText.RemoveAllCounts | main.py:62 | removing `c` keeps every other character exactly as often as it occurred |
| PriceText.RemoveAllConcat | main.py:62 | removal distributes over concatenation |
| PriceText.DropCurrencyMarks | main.py:62 | the replace chain deletes every `$`, `£`, `€` and `,` and keeps every other character as often as it occurred |
| PriceText.DropCurrencyMarksConcat | main.py:62 | the replace chain keeps the characters it keeps in their order: it commutes with concatenation |
| PriceText.DropCurrencyMarksChar | main.py:62 | on one character the replace chain deletes it if it is `$`, `£`, `€` or `,` and keeps it otherwise |
| PriceText.KeepPriceChars | main.py:66 | the filtered text holds only digits and dots and is no longer than the input |
| PriceText.KeepCounts | main.py:66 | the filter keeps each digit and dot as often as it occurred and nothing else |
| PriceText.KeepConcat | main.py:66 | the filter keeps characters in order: filtering a concatenation concatenates the filtered parts |
| PriceText.KeepPriceText | main.py:66 | a text of digits and dots passes the filter unchanged |
| PriceText.KeepSpace | main.py:58-66 | whitespace never survives the filter |
| PriceText.KeepAfterRemove | main.py:62-66 | deleting a character the filter drops anyway does not change the filtered text |
| PriceText.Clean | main.py:62-66 | the cleaned text holds only digits and dots |
| PriceText.CleanIsKeep | main.py:62-66 | the replace chain followed by the filter equals the filter alone |
| PriceText.CleanStripped | main.py:58-66 | strip, then replace chain, then filter equals filtering the element's raw text |
| PriceText.CleanIdempotent | main.py:62-66 | cleaning a cleaned text changes nothing |
| PriceNumber.ParseFloat | main.py:68-73 | `float()` on a digit-and-dot text: `None` where Python raises `ValueError`; its contract is stated in `ParseFloatSpec` |
| PriceNumber.Value | main.py:69 | the number an exact decimal stands for, mantissa / 10^scale; its properties are stated in `ValueSign` and `ValueUnscaled` |
| PriceNumber.DigitsValue | main.py:69 | a numeral of n digits is worth less than 10^n |
| PriceNumber.FirstDot | main.py:69 | the position found holds a dot and no dot precedes it |
| PriceNumber.DigitsOfPriceText | main.py:69 | a digit-and-dot text without its dots is a numeral, non-empty exactly when the text has a digit |
| PriceNumber.DigitsValueConcat | main.py:69 | the value of two numerals side by side is the first shifted by the second's length plus the second |
| PriceNumber.ParseFloatSpec | main.py:68-73 | `float()` succeeds exactly when the text has a digit and at most one dot; then the mantissa is the number its digits spell and the scale is the count of digits after the dot |
| PriceNumber.ParseOneDot | main.py:68-73 | with a single dot: success iff a digit exists, and the value is the digits' number scaled by the digits after the dot |
| PriceNumber.RemoveAllAbsent | main.py:62 | removing an absent character changes nothing |
| PriceNumber.ValueSign | main.py:69 | a parsed price is never negative and is 0.0 exactly when its mantissa is zero |
| PriceNumber.ValueUnscaled | main.py:69 | a price without fraction digits equals its mantissa |
| PriceNumber.NatDigits | main.py:69 | round-trip partner of `float()`, not code the script runs: the numeral of n is a non-empty digit string whose value is n |
| PriceNumber.ZeroPad | main.py:69 | round-trip partner of `float()`, not code the script runs: leading zeros reach the width and keep the value |
| PriceNumber.Format | main.py:69 | round-trip partner of `float()`, not code the script runs: the formatted decimal is a digit-and-dot text |
| PriceNumber.ParseFormat | main.py:68-70 | round trip: parsing the formatted decimal gives the same decimal back |
| PriceNumber.ParsePlain | main.py:69 | a numeral without a dot parses to its value with scale 0 |
| PriceNumber.ParseDotted | main.py:69 | a numeral with a dot inserted parses to its value scaled by the digits after the dot |
| Selector.ChooseSearch | main.py:49-54 | a truthy id is searched by id; otherwise a truthy tag and class together are searched; otherwise nothing is |
| Selector.Locate | main.py:49-54 | the element found is the id lookup's answer, the tag-and-class lookup's answer, or none, following that precedence |
| Selector.IdPrecedence | main.py:49-51 | with an id configured, pages that agree on the id lookup give the same element whatever their tags and classes |
| Selector.IdMissIsFinal | main.py:49-54 | an id that matches nothing yields no element even when a tag-and-class match exists |
| Selector.NoSelectorNoElement | main.py:52-54 | without an id and without both tag and class, no element is found |
| Notifier.AlertSubject | main.py:90 | the subject line's text for a rendered price; the exact string is stated in `AlertText` |
| Notifier.AlertBody | main.py:91 | the body's text for a rendered price and the product URL; the exact string is stated in `AlertText` |
| Notifier.Compose | main.py:92 | a Subject header, a blank line, then the body; `SplitCompose` is its inverse |
| Notifier.AlertText | main.py:90-92 | the exact alert text: "Subject: Price Alert! Dropped to P", a blank line, "The price is now P!", a blank line, "Link: URL" |
| Notifier.FindBlankLine | main.py:92 | reading partner of the message, not code the script runs: the position returned is the first blank line, and none means there is no blank line |
| Notifier.SplitMessage | main.py:92 | reading partner of the message, not code the script runs: what the reader recovers recomposes to the message |
| Notifier.SplitCompose | main.py:90-92 | a subject without line breaks and any body are recovered exactly from the composed message |
| Notifier.SplitAlert | main.py:90-92 | the alert's subject and body are recovered when the price text has no line break |
| Notifier.SendEmail | main.py:82-101 | skipped iff the sender address or the password is missing or empty; otherwise sent to smtp.gmail.com:587 from the sender to the receiver, with the alert message |
| Tracker.Extract | main.py:40-80 | a failed request, a missing element and an unreadable number each give their failure; otherwise the result is `float()` of the element's text filtered to digits and dots |
| Tracker.GetProductPrice | main.py:29-80 | a price is returned exactly when extraction succeeds; it is then the parsed value, non-negative, and 0.0 exactly when the mantissa is zero |
| Tracker.ElementPrice | main.py:57-73 | for a found element, the price is present iff its filtered text has a digit and at most one dot, and it equals that text's value |
| Tracker.PriceTruthy | main.py:107 | Python truthiness of the price: `None` and 0.0 are false |
| Tracker.Run | main.py:103-117 | alert iff the price is present, non-zero and strictly below the target; "still too high" iff present, non-zero and not below; the alert carries `send_email`'s result |
| Tracker.AlertIffBelowTarget | main.py:49-73 | end to end from the page: alert iff the configured search finds an element whose filtered text parses to a non-zero value below the target |
| Tracker.ZeroPriceIsNoPrice | main.py:107 | a price of 0.0 is reported as a failure to read the price |
| Tracker.AtTargetNoAlert | main.py:111 | a price equal to the target raises no alert |
| Tracker.TransportFailureNoAlert | main.py:78-80 | a failed request ends the run with no price and no mail |
| Tracker.MailIffLowAndCredentials | main.py:86-113 | a mail is attempted iff the price is truthy and below the target and both sender and password are set; it then carries the alert for that price |
| Tracker.SourceSelectorsSearchSpan | main.py:19-22 | with the configured selectors the tracker reads the first `span` of class `a-price-whole` |
| Examples.DollarsWithSeparator | main.py:61-62 | "$1,299.00" cleans to "1299.00" |
| Examples.DollarsParse | main.py:69 | "1299.00" parses to mantissa 129900, scale 2 |
| Examples.DollarsValue | main.py:69 | that decimal is 1299 |
| Examples.CurrencyCode | main.py:64-66 | "USD 50.00" cleans to "50.00" |
| Examples.CurrencyCodeParse | main.py:69 | "50.00" parses to mantissa 5000, scale 2 |
| Examples.TrailingDot | main.py:58-66 | the element text " 1,299. " strips and cleans to "1299." |
| Examples.TrailingDotParse | main.py:69 | "1299." parses to 1299 |
| Examples.WholeNumber | main.py:18 | "199" parses to 199 |
| Examples.NoDigits | main.py:66 | "abc" cleans to the empty text |
| Examples.EmptyNotANumber | main.py:68-73 | the empty text is not a number |
| Examples.DotNotANumber | main.py:68-73 | a lone dot is not a number |
| Examples.TwoDotsNotANumber | main.py:68-73 | "1.2.3" is not a number |
| Examples.PriceFromText | main.py:107-115 | a found element whose filtered text parses to a non-zero value alerts below the target and waits otherwise |
| Examples.BelowTargetAlerts | main.py:111-113 | with a target of 200, a span reading "$150.00" raises the alert |
| Examples.AboveTargetWaits | main.py:114-115 | with a target of 200, a span reading "$250.00" does not |
| Examples.IdMissExample | main.py:49-51 | an id that misses yields no price even though the price span exists |
| Examples.ConfiguredRunAlerts | main.py:15-22 | with the script's own settings (target 20000, the `a-price-whole` span), a span reading " 1,299. " raises the alert |
| Examples.TrailingDotAlerts | main.py:103-113 | a span reading " 1,299. " alerts under any settings that search that span with a target above 1299 |
| Examples.NoCredentialsExample | main.py:86-88 | a missing sender address or an empty password skips the mail |

## Left out

- Network access: `requests.get`, its headers, `raise_for_status` and the exceptions it raises are not modelled. The response is an input, `None` on any failure, which the code maps to `None` at lines 78-80.
- HTML parsing: BeautifulSoup is not modelled. The page is an oracle giving the text of the first element matching an id, or a tag and a class. A found element is always truthy, as a bs4 `Tag` is.
- SMTP: the connection, STARTTLS, login and sending are not modelled. A failure is caught and only logged, so the model records the one attempted submission (`Mail.Attempted`). Line-ending conversion by `smtplib` is not modelled.
- Environment: `load_dotenv` and `os.environ.get` become the `Credentials` input.
- Console output: every `print` call and the 50-character URL preview are left out.
- Scheduling: the script runs once. "Checking again tomorrow" is only a message.
- Tracker.Run: prices are exact decimals, not IEEE doubles. Rounding of long mantissas, overflow to infinity, underflow to 0.0 and comparison of rounded values against the target are not modelled.
- Tracker.GetProductPrice: "0.0 exactly when the mantissa is zero" holds for exact decimals only. In Python a text such as "0." followed by 400 zeros and a "1" underflows to 0.0, which line 107 treats as no price; the model reads it as a small non-zero price, so `Run` alerts where the script would not.
- Notifier.SendEmail: the text of the float in the message (`str(float)`, for example `1299.0`) is the `render` parameter, not a model of Python's shortest-repr algorithm.
- PriceText.IsDigit: `str.isdigit()` is limited to the ASCII digits 0-9. Other Unicode digits, such as Devanagari or superscript digits, which Python also keeps and which `float()` may reject or read, are not modelled.
- PriceNumber.ParseFloat: `float()` is modelled only on texts of digits and dots, the only texts the filter can produce. Signs, exponents, underscores, "inf" and "nan" are not reachable and are not modelled.
