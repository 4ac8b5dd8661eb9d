/** The tracker's configuration: the in-code constants (URL, target price,
    selectors) and the credentials read from the environment, as plain values. */
module Config {
  import opened Wrappers

  /** Python truthiness of a value that is either `None` or a string:
      both `None` and the empty string are false. */
  predicate Truthy(o: Option<string>) {
    o.Some? && o.value != ""
  }

  /** ELEMENT_ID, ELEMENT_CLASS and ELEMENT_TAG; each may be `None`. */
  datatype Selectors = Selectors(elementId: Option<string>, elementClass: Option<string>, elementTag: Option<string>)

  /** The page to watch, the threshold and how to find the price on the page. */
  datatype Settings = Settings(url: string, targetPrice: real, selectors: Selectors)

  /** EMAIL_ADDRESS, EMAIL_PASSWORD and RECEIVER_EMAIL as `os.environ.get` yields them. */
  datatype Credentials = Credentials(address: Option<string>, password: Option<string>, receiver: Option<string>)

  const Url: string := "https://www.amazon.in/GUESS-White-Dial-Men-Watch/dp/B07HBLDVP3/ref=sr_1_1_sspa?crid=2GW9XMRZXN43Z&dib=eyJ2IjoiMSJ9.OoIKv06C8NtXMIAqS7d4_bj0tm5b6asFBqdAOZ_T8mv98lY5CaWT3TvC0-NxoMJmeGb1KNLBDoq2zEvdVk9Ktq7p-HDqmanCVng9uJuYFl1la2sr_0ii3MYuA6js85I5mAgY23w8gbwEQhxX8DF5W3MZneX6j49QSNGYkJ3naXRzhdXASF14ihq-3LCGE8eOa7jVCrtXtZSLhFL1nNkhlLQz3CtofONH1JNsV_igXT1i8z7Ee7njau863h2TxIJQhCLwineOOlRU0GgAhj3RNoAfELim3SXRxejMV0GHWxk.CJ8x6GLF-RZgrv2d_eeNGPGUV31uaI77Ons3xKKzlZ4&dib_tag=se&keywords=watch&qid=1767632984&s=apparel&sprefix=watch+%2Capparel%2C506&sr=1-1-spons&aref=sj8hgR2Gtw&sp_csd=d2lkZ2V0TmFtZT1zcF9hdGY&psc=1"

  const TargetPrice: real := 20000.0

  /** No id; the first `span` carrying class `a-price-whole`. */
  const SourceSelectors: Selectors := Selectors(None, Some("a-price-whole"), Some("span"))

  const SourceSettings: Settings := Settings(Url, TargetPrice, SourceSelectors)

  /** The mail relay the notifier submits to. */
  const RelayHost: string := "smtp.gmail.com"
  const RelayPort: nat := 587
}
