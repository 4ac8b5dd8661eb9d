/** The notifier, `send_email` (lines 82-101 of main.py): the credential guard,
    the message text, and the single submission to the mail relay. The SMTP
    session itself is I/O; the model records what would be submitted. */
module Notifier {
  import opened Wrappers
  import opened Config

  /** What one call to `send_email` does: nothing, or one submission attempt
      (its failure is caught and logged, so an attempt is the whole effect). */
  datatype Mail =
    | Skipped
    | Attempted(host: string, port: nat, sender: string, password: string, receiver: Option<string>, message: string)

  function AlertSubject(shown: string): string {
    "Price Alert! Dropped to " + shown
  }

  function AlertBody(shown: string, url: string): string {
    "The price is now " + shown + "!\n\nLink: " + url
  }

  /** A message as the relay receives it: a Subject header, a blank line, the body. */
  function Compose(subject: string, body: string): string {
    "Subject: " + subject + "\n\n" + body
  }

  /** The alert written out in one piece. */
  lemma AlertText(shown: string, url: string)
    ensures Compose(AlertSubject(shown), AlertBody(shown, url)) ==
      "Subject: Price Alert! Dropped to " + shown + "\n\nThe price is now " + shown + "!\n\nLink: " + url
  {
    JoinSubjectLiterals();
    JoinBodyLiterals();
  }

  lemma JoinSubjectLiterals()
    ensures "Subject: " + "Price Alert! Dropped to " == "Subject: Price Alert! Dropped to "
  {
  }

  lemma JoinBodyLiterals()
    ensures "\n\n" + "The price is now " == "\n\nThe price is now "
  {
  }

  /** The position of the first blank line, that is of the first "\n\n". */
  function FindBlankLine(s: string): (r: Option<nat>)
    ensures r.Some? ==> r.value + 2 <= |s| && s[r.value] == '\n' && s[r.value + 1] == '\n'
    ensures r.Some? ==> forall j :: 0 <= j < r.value ==> !(s[j] == '\n' && s[j + 1] == '\n')
    ensures r.None? ==> forall j :: 0 <= j < |s| - 1 ==> !(s[j] == '\n' && s[j + 1] == '\n')
  {
    if |s| < 2 then None
    else if s[0] == '\n' && s[1] == '\n' then Some(0)
    else
      match FindBlankLine(s[1..])
      case None => None
      case Some(i) => Some(i + 1)
  }

  /** How a reader of the message separates the subject from the body: the
      header line after "Subject: ", up to the first blank line. */
  function SplitMessage(msg: string): (r: Option<(string, string)>)
    ensures r.Some? ==> msg == Compose(r.value.0, r.value.1)
  {
    if |msg| < 9 || msg[..9] != "Subject: " then None
    else
      match FindBlankLine(msg[9..])
      case None => None
      case Some(i) =>
        var rest := msg[9..];
        assert msg == "Subject: " + rest[..i] + "\n\n" + rest[i + 2..];
        Some((rest[..i], rest[i + 2..]))
  }

  /** A subject without line breaks is recovered exactly, and so is the body,
      whatever it holds. */
  lemma SplitCompose(subject: string, body: string)
    requires '\n' !in subject
    ensures SplitMessage(Compose(subject, body)) == Some((subject, body))
  {
    var msg := Compose(subject, body);
    var rest := subject + "\n\n" + body;
    assert msg[..9] == "Subject: " && msg[9..] == rest;
    var r := FindBlankLine(rest);
    assert rest[|subject|] == '\n' && rest[|subject| + 1] == '\n';
    assert r.Some?;
    assert r.value == |subject|;
    assert rest[..|subject|] == subject && rest[|subject| + 2..] == body;
  }

  /** The alert's subject and body can be read back from its text whenever the
      price text has no line break. */
  lemma SplitAlert(shown: string, url: string)
    ensures '\n' !in shown ==>
      SplitMessage(Compose(AlertSubject(shown), AlertBody(shown, url))) == Some((AlertSubject(shown), AlertBody(shown, url)))
  {
    if '\n' !in shown {
      assert '\n' !in AlertSubject(shown);
      SplitCompose(AlertSubject(shown), AlertBody(shown, url));
    }
  }

  /** `send_email(price, product_url)`: skipped when the sender address or the
      password is missing or empty; otherwise one message to the relay at
      smtp.gmail.com:587, from the sender to the receiver. `render` is the text
      Python gives the float in an f-string. */
  function SendEmail(price: real, url: string, creds: Credentials, render: real -> string): (m: Mail)
    ensures m.Skipped? <==> !Truthy(creds.address) || !Truthy(creds.password)
    ensures m.Attempted? ==>
      && m.host == RelayHost && m.port == RelayPort
      && m.sender == creds.address.value && m.password == creds.password.value
      && m.receiver == creds.receiver
    ensures m.Attempted? ==> m.message == Compose(AlertSubject(render(price)), AlertBody(render(price), url))
    ensures m.Attempted? && '\n' !in render(price) ==>
      SplitMessage(m.message) == Some((AlertSubject(render(price)), AlertBody(render(price), url)))
  {
    if !Truthy(creds.address) || !Truthy(creds.password) then Skipped
    else
      var shown := render(price);
      var msg := Compose(AlertSubject(shown), AlertBody(shown, url));
      SplitAlert(shown, url);
      Attempted(RelayHost, RelayPort, creds.address.value, creds.password.value, creds.receiver, msg)
  }
}
