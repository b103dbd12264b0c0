/**
 * The contact form's submit listener: trim the fields, validate them, and either
 * show the errors and stop, or submit the trimmed data, show a success notice and
 * reset the form.
 */
module Contact {
  import opened Validation

  /** The handler reads each control's value trimmed. */
  function Trimmed(raw: FormData): (data: FormData)
    ensures IsTrimmed(data.name) && IsTrimmed(data.email) && IsTrimmed(data.message)
    ensures data.name == "" <==> AllWhitespace(raw.name)
    ensures data.email == "" <==> AllWhitespace(raw.email)
    ensures data.message == "" <==> AllWhitespace(raw.message)
  {
    FormData(Trim(raw.name), Trim(raw.email), Trim(raw.message))
  }

  /** What one submit attempt does: stop with the errors, or hand the data on. */
  datatype Outcome = Rejected(errors: seq<FieldError>) | Submitted(payload: FormData)

  /** The validate-then-submit decision for the raw field values. */
  function Decide(raw: FormData): (o: Outcome)
    ensures o.Submitted? <==>
              !AllWhitespace(raw.name) && !AllWhitespace(raw.email) &&
              ValidateEmail(Trim(raw.email)) && !AllWhitespace(raw.message)
    ensures o.Submitted? ==> o.payload == Trimmed(raw)
    ensures o.Rejected? ==> o.errors != [] && InCheckOrder(o.errors)
    ensures o.Rejected? ==> (NameMissing in o.errors <==> AllWhitespace(raw.name))
    ensures o.Rejected? ==> (EmailMissing in o.errors <==> AllWhitespace(raw.email))
    ensures o.Rejected? ==>
              (EmailInvalid in o.errors <==> !AllWhitespace(raw.email) && !ValidateEmail(Trim(raw.email)))
    ensures o.Rejected? ==> (MessageMissing in o.errors <==> AllWhitespace(raw.message))
  {
    var data := Trimmed(raw);
    var errors := ValidateForm(data);
    if |errors| > 0 then Rejected(errors) else Submitted(data)
  }

  /** `lines.join('\n')`: the text of the alert listing the errors. */
  function JoinLines(lines: seq<string>): (text: string)
    ensures lines == [] ==> text == ""
    ensures |lines| == 1 ==> text == lines[0]
    ensures |lines| > 1 ==> |lines[0]| < |text| && text[..|lines[0]| + 1] == lines[0] + "\n"
  {
    if lines == [] then ""
    else if |lines| == 1 then lines[0]
    else lines[0] + "\n" + JoinLines(lines[1..])
  }

  /** Appending a line appends a newline and that line, so the text is built line by line. */
  lemma {:induction false} JoinLinesAppend(lines: seq<string>, line: string)
    requires lines != []
    ensures JoinLines(lines + [line]) == JoinLines(lines) + "\n" + line
    decreases |lines|
  {
    if |lines| > 1 {
      assert (lines + [line])[1..] == lines[1..] + [line];
      JoinLinesAppend(lines[1..], line);
    } else {
      assert lines + [line] == [lines[0], line];
    }
  }

  /** The number of newlines in a text. */
  function NewlineCount(text: string): nat
  {
    if text == [] then 0 else (if text[0] == '\n' then 1 else 0) + NewlineCount(text[1..])
  }

  lemma {:induction false} NewlineCountAppend(a: string, b: string)
    ensures NewlineCount(a + b) == NewlineCount(a) + NewlineCount(b)
    decreases |a|
  {
    if a != [] {
      assert (a + b)[1..] == a[1..] + b;
      NewlineCountAppend(a[1..], b);
    } else {
      assert a + b == b;
    }
  }

  /** Lines without newlines give a text of one line per entry: one separator between each two. */
  lemma {:induction false} JoinLinesCount(lines: seq<string>)
    requires lines != []
    requires forall i :: 0 <= i < |lines| ==> NewlineCount(lines[i]) == 0
    ensures NewlineCount(JoinLines(lines)) == |lines| - 1
    decreases |lines|
  {
    if |lines| > 1 {
      JoinLinesCount(lines[1..]);
      NewlineCountAppend(lines[0], "\n");
      NewlineCountAppend(lines[0] + "\n", JoinLines(lines[1..]));
    }
  }

  /** Whitespace around a field does not stop a submission, and is not sent. */
  lemma DecideAcceptsPadded()
    ensures Decide(FormData("  Alice\n", "a@b.com", "Hi")) == Submitted(FormData("Alice", "a@b.com", "Hi"))
  {
    var data := FormData("Alice", "a@b.com", "Hi");
    TrimExample();
    TrimKeepsTrimmed("a@b.com");
    TrimKeepsTrimmed("Hi");
    assert ValidateForm(data) == [] by {
      EmailAcceptsExample();
    }
  }

  /** A blank name, a malformed email and an empty message give all three errors, in order. */
  lemma DecideRejectsExample()
    ensures Decide(FormData(" ", "foo", "")) == Rejected([NameMissing, EmailInvalid, MessageMissing])
  {
    var data := FormData("", "foo", "");
    assert AllWhitespace(" ");
    TrimKeepsTrimmed("foo");
    assert ValidateForm(data) == [NameMissing, EmailInvalid, MessageMissing] by {
      EmailRejectsExamples();
    }
  }

  /** The contact form element: its controls' values and what the page has shown. */
  class ContactForm {
    var name: string
    var email: string
    var message: string
    /** The values `reset()` puts back into the controls. */
    const defaults: FormData
    /** Texts shown with `alert`, oldest first. */
    var alerts: seq<string>
    /** Payloads handed to the (simulated) submission, oldest first. */
    var sent: seq<FormData>
    /** Success notices inserted after the form. */
    var notices: nat

    function Fields(): FormData
      reads this
    {
      FormData(name, email, message)
    }

    constructor (defaults: FormData)
      ensures this.defaults == defaults && Fields() == defaults
      ensures alerts == [] && sent == [] && notices == 0
    {
      this.defaults := defaults;
      name, email, message := defaults.name, defaults.email, defaults.message;
      alerts, sent, notices := [], [], 0;
    }

    /**
     * The submit listener. On errors it alerts them, one per line, and returns with
     * the form untouched; otherwise the submission (which always succeeds) sends the
     * trimmed data, a success notice appears and the form is reset.
     */
    method Submit() returns (o: Outcome)
      modifies this
      ensures o == Decide(old(Fields()))
      ensures o.Rejected? ==>
                Fields() == old(Fields()) && alerts == old(alerts) + [JoinLines(Messages(o.errors))] &&
                sent == old(sent) && notices == old(notices)
      ensures o.Submitted? ==>
                Fields() == defaults && alerts == old(alerts) &&
                sent == old(sent) + [o.payload] && notices == old(notices) + 1
    {
      var data := Trimmed(Fields());
      var errors := ValidateForm(data);
      if |errors| > 0 {
        alerts := alerts + [JoinLines(Messages(errors))];
        return Rejected(errors);
      }
      sent := sent + [data];
      notices := notices + 1;
      name, email, message := defaults.name, defaults.email, defaults.message;
      o := Submitted(data);
    }
  }
}
