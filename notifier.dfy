/**
 * Composite formatting as Console.WriteLine(format, arg0, arg1, arg2) uses it, reduced to the
 * one check the notifier's log line depends on.
 */
module CompositeFormat {

  /**
   * One of the checks String.Format makes on a composite format: every '{' that is not the
   * escape "{{" opens a format item, and an item starts with a decimal index. A format that fails
   * this check makes the call throw FormatException. (The other checks, on the rest of an item
   * and on a lone '}', are not modelled.)
   */
  predicate HolesOpenWithIndex(format: string): (ok: bool)
    ensures (forall i :: 0 <= i < |format| ==> format[i] != '{') ==> ok
    decreases |format|
  {
    if format == [] then true
    else if format[0] != '{' then HolesOpenWithIndex(format[1..])
    else if |format| >= 2 && format[1] == '{' then HolesOpenWithIndex(format[2..])
    else |format| >= 2 && IsDigit(format[1]) && HolesOpenWithIndex(format[2..])
  }

  predicate IsDigit(ch: char) {
    '0' <= ch <= '9'
  }

  /** Text without a '{' in front of a format leaves the check to the format. */
  lemma {:induction false} PlainTextThenHoles(text: string, format: string)
    requires forall i :: 0 <= i < |text| ==> text[i] != '{'
    requires HolesOpenWithIndex(format)
    ensures HolesOpenWithIndex(text + format)
    decreases |text|
  {
    if text != [] {
      var rest := text[1..];
      assert forall i :: 0 <= i < |rest| ==> rest[i] != '{' by {
        forall i | 0 <= i < |rest| ensures rest[i] != '{' {
          assert rest[i] == text[i + 1];
        }
      }
      PlainTextThenHoles(rest, format);
      assert (text + format)[0] == text[0] != '{';
      assert (text + format)[1..] == rest + format;
    } else {
      assert text + format == format;
    }
  }

  /** An item opened by '{' and a digit, with no further '{' in it, passes ahead of a passing format. */
  lemma ItemThenHoles(item: string, format: string)
    requires |item| >= 2 && item[0] == '{' && IsDigit(item[1])
    requires forall i :: 2 <= i < |item| ==> item[i] != '{'
    requires HolesOpenWithIndex(format)
    ensures HolesOpenWithIndex(item + format)
  {
    var tail := item[2..];
    assert forall i :: 0 <= i < |tail| ==> tail[i] != '{' by {
      forall i | 0 <= i < |tail| ensures tail[i] != '{' {
        assert tail[i] == item[i + 2];
      }
    }
    PlainTextThenHoles(tail, format);
    assert (item + format)[2..] == tail + format;
  }

  /** A format whose first '{' is followed by neither '{' nor a digit fails the check. */
  lemma {:induction false} NamedHoleFails(format: string, k: nat)
    requires k + 1 < |format| && format[k] == '{' && format[k + 1] != '{' && !IsDigit(format[k + 1])
    requires forall i :: 0 <= i < k ==> format[i] != '{'
    ensures !HolesOpenWithIndex(format)
    decreases k
  {
    if k > 0 {
      NamedHoleFails(format[1..], k - 1);
    }
  }

  /** The text in front of the first item of the log line written before sending. */
  const LogHead := "Attempting to send email to "

  /** The format of that log line as written: its holes are names, not indexes. */
  const AttemptLogFormat := LogHead + "{to} from {from} with subject {subject}..."

  /** The same log line with the indexed holes that composite formatting expects. */
  const IndexedLogFormat := LogHead + ("{0}" + (" from " + ("{1}" + (" with subject " + ("{2}" + "...")))))

  /** The log line as written throws: its first item, "{to}", does not start with an index. */
  lemma AttemptLogFormatThrows()
    ensures !HolesOpenWithIndex(AttemptLogFormat)
  {
    var f := AttemptLogFormat;
    assert forall i :: 0 <= i < |LogHead| ==> LogHead[i] != '{';
    assert f[28] == '{' && f[29] == 't';
    NamedHoleFails(f, 28);
  }

  /** With indexed holes the log line passes the check. */
  lemma IndexedLogFormatPasses()
    ensures HolesOpenWithIndex(IndexedLogFormat)
  {
    assert HolesOpenWithIndex("...");
    ItemThenHoles("{2}", "...");
    PlainTextThenHoles(" with subject ", "{2}" + "...");
    ItemThenHoles("{1}", " with subject " + ("{2}" + "..."));
    PlainTextThenHoles(" from ", "{1}" + (" with subject " + ("{2}" + "...")));
    ItemThenHoles("{0}", " from " + ("{1}" + (" with subject " + ("{2}" + "..."))));
    PlainTextThenHoles(LogHead, "{0}" + (" from " + ("{1}" + (" with subject " + ("{2}" + "...")))));
  }
}

/**
 * The welcome notifier: a message factory that fills the company name into a fixed template,
 * and a customer email service that hands the rendered message to a pluggable sender.
 *
 * The sender stands for any IEmailSenderService (the console stub or the SMTP client): what it
 * does with a message is outside the model, so it only records, in a ghost log, each call made.
 */
module Notifier {
  import opened Wrappers
  import opened Entities
  import opened CompositeFormat

  /**
   * String.Replace(pattern, replacement) with ordinal comparison: one left-to-right pass that
   * replaces each non-overlapping occurrence and never rescans the text it inserted.
   * (.NET rejects an empty pattern, hence the requires.)
   */
  function Replace(s: string, pattern: string, replacement: string): (r: string)
    requires |pattern| > 0
    ensures |replacement| == |pattern| ==> |r| == |s|
  {
    if |s| < |pattern| then s
    else if s[..|pattern|] == pattern then replacement + Replace(s[|pattern|..], pattern, replacement)
    else [s[0]] + Replace(s[1..], pattern, replacement)
  }

  /** A prefix in which the pattern's first character never occurs passes through unchanged. */
  lemma {:induction false} ReplaceSkipsPrefix(a: string, t: string, pattern: string, replacement: string)
    requires |pattern| > 0
    requires forall i :: 0 <= i < |a| ==> a[i] != pattern[0]
    ensures Replace(a + t, pattern, replacement) == a + Replace(t, pattern, replacement)
  {
    if a != [] {
      var s := a + t;
      if |s| < |pattern| {
        ReplaceShort(t, pattern, replacement);
      } else {
        assert s[..|pattern|][0] == a[0];
        assert s[1..] == a[1..] + t;
        ReplaceSkipsPrefix(a[1..], t, pattern, replacement);
      }
    } else {
      assert a + t == t;
    }
  }

  /** A text in which the pattern's first character never occurs is left unchanged. */
  lemma ReplaceWithoutPattern(s: string, pattern: string, replacement: string)
    requires |pattern| > 0
    requires forall i :: 0 <= i < |s| ==> s[i] != pattern[0]
    ensures Replace(s, pattern, replacement) == s
  {
    ReplaceSkipsPrefix(s, [], pattern, replacement);
    ReplaceShort([], pattern, replacement);
    assert s + [] == s;
  }

  lemma ReplaceShort(s: string, pattern: string, replacement: string)
    requires 0 < |pattern| && |s| < |pattern|
    ensures Replace(s, pattern, replacement) == s
  {
  }

  /** A text that starts with the pattern starts with the replacement, and the rest is scanned on. */
  lemma ReplaceAtMatch(pattern: string, t: string, replacement: string)
    requires |pattern| > 0
    ensures Replace(pattern + t, pattern, replacement) == replacement + Replace(t, pattern, replacement)
  {
    assert (pattern + t)[..|pattern|] == pattern;
    assert (pattern + t)[|pattern|..] == t;
  }

  /** Replacing a pattern by itself leaves every text as it was. */
  lemma {:induction false} ReplaceBySelf(s: string, pattern: string)
    requires |pattern| > 0
    ensures Replace(s, pattern, pattern) == s
    decreases |s|
  {
    if |s| >= |pattern| {
      if s[..|pattern|] == pattern {
        ReplaceBySelf(s[|pattern|..], pattern);
        assert s == pattern + s[|pattern|..];
      } else {
        ReplaceBySelf(s[1..], pattern);
        assert s == [s[0]] + s[1..];
      }
    }
  }

  const Placeholder := "{{CompanyName}}"
  const WelcomeHead := "Welcome "
  const WelcomeTail := " to the Nimble Pros family!"

  /** "Welcome {{CompanyName}} to the Nimble Pros family!" */
  const WelcomeTemplate := WelcomeHead + (Placeholder + WelcomeTail)

  /** The text .NET substitutes for a replacement: a null replacement removes the pattern. */
  function ReplacementText(s: Option<string>): string {
    if s.None? then "" else s.value
  }

  /**
   * EmailMessageFactory.GenerateWelcomeMessage: the template with the company name filled in,
   * once. A name that itself contains the placeholder is not expanded again, and nothing but the
   * company name affects the message.
   */
  function GenerateWelcomeMessage(newCustomer: Customer): (body: string)
    ensures body == "Welcome " + ReplacementText(newCustomer.companyName) + " to the Nimble Pros family!"
  {
    FillTemplate(ReplacementText(newCustomer.companyName));
    Replace(WelcomeTemplate, Placeholder, ReplacementText(newCustomer.companyName))
  }

  lemma FillTemplate(name: string)
    ensures Replace(WelcomeTemplate, Placeholder, name) == "Welcome " + name + " to the Nimble Pros family!"
  {
    assert forall i :: 0 <= i < |WelcomeHead| ==> WelcomeHead[i] != Placeholder[0];
    assert forall i :: 0 <= i < |WelcomeTail| ==> WelcomeTail[i] != Placeholder[0];
    ReplaceWithoutPattern(WelcomeTail, Placeholder, name);
    ReplaceAtMatch(Placeholder, WelcomeTail, name);
    ReplaceSkipsPrefix(WelcomeHead, Placeholder + WelcomeTail, Placeholder, name);
  }

  /** One call of IEmailSenderService.SendEmailAsync. */
  datatype Email = Email(from: string, to: Option<string>, subject: string, body: string)

  /** A sender: every call is appended to the log, and nothing else is observed. */
  class EmailSender {
    ghost var sent: seq<Email>

    constructor ()
      ensures sent == []
    {
      sent := [];
    }

    method SendEmail(from: string, to: Option<string>, subject: string, body: string)
      modifies this
      ensures sent == old(sent) + [Email(from, to, subject, body)]
    {
      sent := sent + [Email(from, to, subject, body)];
    }
  }

  const WelcomeFrom := "crazy_dotnet"
  const WelcomeSubject := "Welcome to Nimble Pros!"

  /** How a send attempt ends: it reached the sender, or the log line threw first. */
  datatype SendOutcome = Completed | ThrewFormatException

  /** CustomerEmailService: a message factory and a sender, both chosen by whoever builds it. */
  class CustomerEmailService {
    const messageFactory: Customer -> string
    const sender: EmailSender

    constructor (messageFactory: Customer -> string, sender: EmailSender)
      ensures this.messageFactory == messageFactory && this.sender == sender
    {
      this.messageFactory := messageFactory;
      this.sender := sender;
    }

    /**
     * The steps of SendWelcomeEmail with the log line's format as a parameter: the message is
     * rendered, the log line is written (throwing if its format fails the check), and then the
     * sender is called once.
     */
    method SendLogged(logFormat: string, newCustomer: Customer) returns (outcome: SendOutcome)
      modifies sender
      ensures HolesOpenWithIndex(logFormat) ==>
        outcome == Completed
        && sender.sent == old(sender.sent) + [Email(WelcomeFrom, newCustomer.email, WelcomeSubject, messageFactory(newCustomer))]
      ensures !HolesOpenWithIndex(logFormat) ==> outcome == ThrewFormatException && sender.sent == old(sender.sent)
    {
      var from := WelcomeFrom;
      var to := newCustomer.email;
      var subject := WelcomeSubject;
      var body := messageFactory(newCustomer);
      if !HolesOpenWithIndex(logFormat) {
        return ThrewFormatException;
      }
      sender.SendEmail(from, to, subject, body);
      outcome := Completed;
    }

    /**
     * SendWelcomeEmail as written: the log line's named holes make Console.WriteLine throw,
     * so the sender is never called.
     */
    method SendWelcomeEmailAsWritten(newCustomer: Customer) returns (outcome: SendOutcome)
      modifies sender
      ensures outcome == ThrewFormatException && sender.sent == old(sender.sent)
    {
      AttemptLogFormatThrows();
      outcome := SendLogged(AttemptLogFormat, newCustomer);
    }

    /**
     * SendWelcomeEmail with the log line's holes indexed, as evidently intended: exactly one
     * message, from "crazy_dotnet", to the customer's email, with the fixed subject and the
     * factory's output for that customer as its body.
     */
    method SendWelcomeEmail(newCustomer: Customer) returns (outcome: SendOutcome)
      modifies sender
      ensures outcome == Completed
      ensures sender.sent == old(sender.sent) + [Email(WelcomeFrom, newCustomer.email, WelcomeSubject, messageFactory(newCustomer))]
    {
      IndexedLogFormatPasses();
      outcome := SendLogged(IndexedLogFormat, newCustomer);
    }
  }
}
