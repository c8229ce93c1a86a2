/** The contact endpoint: the SMTP settings read from the environment, the mail
    it assembles from the posted name, email and message, and the JSON reply. */
module ContactRoute {
  import opened Wrappers
  import JsText
  import ContactForm

  /** The environment variables the endpoint reads; None when unset. */
  datatype Env = Env(
    smtpHost: Option<string>,
    smtpPort: Option<string>,
    smtpSecure: Option<string>,
    smtpUser: Option<string>,
    contactEmail: Option<string>)

  /** The transport settings; a port of None is the NaN `parseInt` gives for text
      without a numeral. */
  datatype Transport = Transport(host: string, port: Option<int>, secure: bool, user: Option<string>)

  datatype MailOptions = MailOptions(
    from: string, to: string, subject: string, replyTo: string, text: string, html: string)

  /** How `sendMail` ends: with a message id, or by throwing (an `Error` with its
      message, or some other value). */
  datatype SendOutcome = Sent(messageId: string) | Threw(errorMessage: Option<string>)

  /** The JSON reply with its HTTP status. */
  datatype Reply = Reply(
    httpStatus: int, status: string, messageId: Option<string>, message: Option<string>, error: Option<string>)

  const DefaultHost: string := "smtp.gmail.com"
  const DefaultPort: string := "587"
  const FallbackRecipient: string := "ianez7659@gmail.com"
  const SubjectPrefix: string := "New contact form submission from "

  /** The fixed markup around the three fields of the HTML body. */
  const HtmlBeforeName: string := "\n        <div style=\"font-family: Arial, sans-serif; max-width: 600px; margin: 0 auto;\">\n          <h2 style=\"color: #333;\">New Contact Form Submission</h2>\n          <div style=\"background-color: #f9f9f9; padding: 20px; border-radius: 5px;\">\n            <p><strong>Name:</strong> "
  const HtmlBeforeEmail: string := "</p>\n            <p><strong>Email:</strong> "
  const HtmlBeforeMessage: string := "</p>\n            <p><strong>Message:</strong></p>\n            <div style=\"background-color: white; padding: 15px; border-radius: 3px; margin-top: 10px;\">\n              "
  const HtmlAfterMessage: string := "\n            </div>\n          </div>\n          <p style=\"margin-top: 20px; color: #666; font-size: 12px;\">\n            This message was sent from the Tezukuri Van contact form.\n          </p>\n        </div>\n      "

  /** `value || fallback` on an environment variable. */
  function OrDefault(v: Option<string>, fallback: string): (r: string)
    ensures v.Some? && v.value != "" ==> r == v.value
    ensures !(v.Some? && v.value != "") ==> r == fallback
  {
    if v.Some? && v.value != "" then v.value else fallback
  }

  /** An unset variable prints as "undefined" in a template literal. */
  function Interpolate(v: Option<string>): string {
    v.GetOr("undefined")
  }

  function TransportOf(env: Env): (t: Transport)
    ensures t.host == OrDefault(env.smtpHost, DefaultHost)
    ensures t.port == JsText.ParseInt(OrDefault(env.smtpPort, DefaultPort))
    ensures t.secure <==> env.smtpSecure == Some("true")
    ensures t.user == env.smtpUser
  {
    Transport(OrDefault(env.smtpHost, DefaultHost),
              JsText.ParseInt(OrDefault(env.smtpPort, DefaultPort)),
              env.smtpSecure == Some("true"),
              env.smtpUser)
  }

  /** Without SMTP_PORT the transport uses port 587; a numeral in SMTP_PORT is read
      back as its value. */
  lemma PortDefaults(env: Env, n: nat)
    ensures env.smtpPort.None? ==> TransportOf(env).port == Some(587)
    ensures env.smtpPort == Some(JsText.NatToString(n)) ==> TransportOf(env).port == Some(n)
  {
    if env.smtpPort.None? {
      DefaultPortIsNumeral();
      JsText.ParseIntOfNumeral(587);
    }
    if env.smtpPort == Some(JsText.NatToString(n)) {
      JsText.ParseIntOfNumeral(n);
      assert OrDefault(env.smtpPort, DefaultPort) == JsText.NatToString(n);
    }
  }

  /** The default port is the numeral of 587. */
  lemma DefaultPortIsNumeral()
    ensures JsText.NatToString(587) == DefaultPort
  {
    assert JsText.NatToString(5) == "5";
    assert JsText.NatToString(58) == JsText.NatToString(5) + ['8'];
    assert JsText.NatToString(587) == JsText.NatToString(58) + ['7'];
  }

  /** `message.replace(/\n/g, '<br>')`. */
  function MessageHtml(message: string): (r: string)
    ensures '\n' !in r
    ensures '\n' !in message ==> r == message
  {
    JsText.ReplaceChar(message, '\n', "<br>")
  }

  /** Turns each `<br>` back into a newline. */
  function BreaksToNewlines(h: string): string {
    if h == [] then []
    else if |h| >= 4 && h[..4] == "<br>" then ['\n'] + BreaksToNewlines(h[4..])
    else [h[0]] + BreaksToNewlines(h[1..])
  }

  /** Only newlines are rewritten: a message without `<` of its own comes back
      exactly from its HTML form. */
  lemma {:induction false} MessageHtmlRoundTrip(message: string)
    requires '<' !in message
    ensures BreaksToNewlines(MessageHtml(message)) == message
  {
    if message != [] {
      var rest := message[1..];
      MessageHtmlRoundTrip(rest);
      if message[0] == '\n' {
        assert MessageHtml(message) == "<br>" + MessageHtml(rest);
        assert ("<br>" + MessageHtml(rest))[4..] == MessageHtml(rest);
      } else {
        assert MessageHtml(message) == [message[0]] + MessageHtml(rest);
        assert ([message[0]] + MessageHtml(rest))[1..] == MessageHtml(rest);
      }
      assert message == [message[0]] + rest;
    }
  }

  /** The plain-text body: three labelled lines, the message last and unaltered. */
  function PlainText(name: string, email: string, message: string): (r: string)
    ensures |r| == |"Name: \nEmail: \nMessage: "| + |name| + |email| + |message|
    ensures r[..|"Name: "| + |name|] == "Name: " + name
    ensures r[|r| - |message| - |"\nMessage: "|..] == "\nMessage: " + message
  {
    var r := "Name: " + (name + ("\nEmail: " + (email + ("\nMessage: " + message))));
    assert r == ("Name: " + name) + ("\nEmail: " + email) + ("\nMessage: " + message);
    r
  }

  /** Reads the three fields back out of the plain-text body. */
  function ParsePlainText(t: string): Option<(string, string, string)> {
    match JsText.Expect("Name: ", t)
    case None => None
    case Some(t1) =>
      match JsText.SplitAtFirst(t1, '\n')
      case None => None
      case Some((name, t2)) =>
        match JsText.Expect("Email: ", t2)
        case None => None
        case Some(t3) =>
          match JsText.SplitAtFirst(t3, '\n')
          case None => None
          case Some((email, t4)) =>
            match JsText.Expect("Message: ", t4)
            case None => None
            case Some(message) => Some((name, email, message))
  }

  /** The plain-text body carries the three fields unaltered: when name and email are
      single lines they can be read back, the message with its own newlines. */
  lemma PlainTextRoundTrip(name: string, email: string, message: string)
    requires '\n' !in name && '\n' !in email
    ensures ParsePlainText(PlainText(name, email, message)) == Some((name, email, message))
  {
    var t4 := "Message: " + message;
    var t2 := "Email: " + (email + ("\n" + t4));
    assert "\nMessage: " + message == "\n" + t4;
    assert "\nEmail: " + (email + ("\n" + t4)) == "\n" + t2;
    assert PlainText(name, email, message) == "Name: " + (name + ("\n" + t2));
    JsText.ExpectPrefix("Name: ", name + ("\n" + t2));
    assert name + ("\n" + t2) == name + ['\n'] + t2;
    JsText.SplitAtFirstOf(name, '\n', t2);
    JsText.ExpectPrefix("Email: ", email + ("\n" + t4));
    assert email + ("\n" + t4) == email + ['\n'] + t4;
    JsText.SplitAtFirstOf(email, '\n', t4);
    JsText.ExpectPrefix("Message: ", message);
  }

  /** The HTML body: the fixed header, the name and email inline, then the rewritten
      message just before the fixed footer, from where it can be read back. */
  function HtmlBody(name: string, email: string, message: string): (r: string)
    ensures |HtmlBeforeName| <= |r| && r[..|HtmlBeforeName|] == HtmlBeforeName
    ensures |MessageHtml(message)| + |HtmlAfterMessage| <= |r|
    ensures r[|r| - |HtmlAfterMessage|..] == HtmlAfterMessage
    ensures '<' !in message ==>
      BreaksToNewlines(r[|r| - |HtmlAfterMessage| - |MessageHtml(message)|..|r| - |HtmlAfterMessage|]) == message
  {
    var fields := name + HtmlBeforeEmail + email + HtmlBeforeMessage;
    var r := HtmlBeforeName + fields + MessageHtml(message) + HtmlAfterMessage;
    FramedSlices(HtmlBeforeName, fields, MessageHtml(message), HtmlAfterMessage);
    if '<' in message then r
    else
      MessageHtmlRoundTrip(message);
      r
  }

  /** Where the parts of `h + f + m + z` sit in it. */
  lemma FramedSlices(h: string, f: string, m: string, z: string)
    ensures var r := h + f + m + z;
      |r| == |h| + |f| + |m| + |z| && r[..|h|] == h && r[|r| - |z|..] == z
      && r[|r| - |z| - |m|..|r| - |z|] == m
  {
    var r := h + f + m + z;
    assert r[..|h|] == h;
    assert r[|r| - |z|..] == z;
    assert r[|r| - |z| - |m|..|r| - |z|] == m;
  }

  /** The mail sent for a submission. */
  function MailFor(env: Env, name: string, email: string, message: string): (m: MailOptions)
    ensures m.from == "\"Tezukuri Van Contact\" <" + Interpolate(env.smtpUser) + ">"
    ensures m.to == OrDefault(env.contactEmail, FallbackRecipient)
    ensures JsText.Expect(SubjectPrefix, m.subject) == Some(name)
    ensures m.replyTo == email
    ensures '\n' !in name && '\n' !in email ==> ParsePlainText(m.text) == Some((name, email, message))
    ensures m.html == HtmlBody(name, email, message)
  {
    JsText.ExpectPrefix(SubjectPrefix, name);
    var text := (
      if '\n' in name || '\n' in email then PlainText(name, email, message)
      else
        PlainTextRoundTrip(name, email, message);
        PlainText(name, email, message));
    MailOptions(
      "\"Tezukuri Van Contact\" <" + Interpolate(env.smtpUser) + ">",
      OrDefault(env.contactEmail, FallbackRecipient),
      SubjectPrefix + name,
      email,
      text,
      HtmlBody(name, email, message))
  }

  /** The endpoint's reply: 200 with the message id when the mail went out, 500 with
      the error otherwise. */
  function Respond(outcome: SendOutcome): (r: Reply)
    ensures outcome.Sent? <==> r.httpStatus == 200
    ensures outcome.Sent? ==> r.status == "ok" && r.messageId == Some(outcome.messageId) && r.error.None?
    ensures outcome.Threw? ==> r.status == "error" && r.httpStatus == 500 && r.messageId.None?
    ensures outcome.Threw? ==> r.error == Some(outcome.errorMessage.GetOr("Unknown error"))
  {
    match outcome
    case Sent(id) => Reply(200, "ok", Some(id), Some("Email sent successfully"), None)
    case Threw(e) => Reply(500, "error", None, None, Some(e.GetOr("Unknown error")))
  }

  /** `res.ok` on the form side: a 2xx status. */
  predicate ResponseOk(r: Reply) {
    200 <= r.httpStatus <= 299
  }

  /** End to end, with the form's reply handling as written: the form reports
      success exactly when the mail was sent, and then clears its fields. */
  lemma FormSucceedsIffSent(st: ContactForm.FormState, outcome: SendOutcome)
    ensures var after := ContactForm.ReceiveAsWritten(ContactForm.Submit(st), ContactForm.Responded(ResponseOk(Respond(outcome))));
      (after.status == ContactForm.Success <==> outcome.Sent?)
      && (outcome.Sent? ==> after.fields == ContactForm.EmptyFields())
      && (outcome.Threw? ==> after.fields == st.fields)
  {
  }
}
