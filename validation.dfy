/**
 * Client-side validation of the contact form: whitespace trimming, the email
 * pattern and the ordered list of error messages.
 */
module Validation {

  /**
   * One character class for both `String.prototype.trim` and the regular-expression
   * escape `\s`: ECMAScript's WhiteSpace and LineTerminator code points.
   */
  predicate IsWhitespace(c: char): (b: bool)
    ensures c == '@' || c == '.' ==> !b
  {
    c == '\t' || c == '\n' || c == '\U{000B}' || c == '\U{000C}' || c == '\r' || c == ' ' ||
    c == '\U{00A0}' || c == '\U{1680}' || ('\U{2000}' <= c <= '\U{200A}') ||
    c == '\U{2028}' || c == '\U{2029}' || c == '\U{202F}' || c == '\U{205F}' ||
    c == '\U{3000}' || c == '\U{FEFF}'
  }

  /** Below U+0080 the class holds exactly tab, line feed, vertical tab, form feed, carriage return and space. */
  lemma AsciiWhitespaceChars(c: char)
    requires c < '\U{0080}'
    ensures IsWhitespace(c) <==> c in "\t\n\U{000B}\U{000C}\r "
  {
  }

  predicate AllWhitespace(s: string)
  {
    forall k :: 0 <= k < |s| ==> IsWhitespace(s[k])
  }

  /** Neither starts nor ends with whitespace. */
  predicate IsTrimmed(s: string)
  {
    s == [] || (!IsWhitespace(s[0]) && !IsWhitespace(s[|s| - 1]))
  }

  /** The first index at or after `i` that does not hold whitespace. */
  function SkipLeading(s: string, i: nat): (lo: nat)
    requires i <= |s|
    ensures i <= lo <= |s|
    ensures forall k :: i <= k < lo ==> IsWhitespace(s[k])
    ensures lo < |s| ==> !IsWhitespace(s[lo])
    decreases |s| - i
  {
    if i < |s| && IsWhitespace(s[i]) then SkipLeading(s, i + 1) else i
  }

  /** The end of `s[lo..hi]` once the whitespace at its end is dropped. */
  function SkipTrailing(s: string, lo: nat, hi: nat): (end: nat)
    requires lo <= hi <= |s|
    ensures lo <= end <= hi
    ensures forall k :: end <= k < hi ==> IsWhitespace(s[k])
    ensures lo < end ==> !IsWhitespace(s[end - 1])
    decreases hi
  {
    if lo < hi && IsWhitespace(s[hi - 1]) then SkipTrailing(s, lo, hi - 1) else hi
  }

  /** `String.prototype.trim`: drops whitespace at both ends. */
  function Trim(s: string): (r: string)
    ensures IsTrimmed(r)
    ensures r == [] <==> AllWhitespace(s)
    ensures |r| <= |s|
  {
    var lo := SkipLeading(s, 0);
    s[lo..SkipTrailing(s, lo, |s|)]
  }

  /** What `Trim` drops is whitespace on either side of what it keeps. */
  lemma TrimSplits(s: string) returns (pre: string, post: string)
    ensures AllWhitespace(pre) && AllWhitespace(post)
    ensures s == pre + Trim(s) + post
  {
    var lo := SkipLeading(s, 0);
    var hi := SkipTrailing(s, lo, |s|);
    pre, post := s[..lo], s[hi..];
    assert s == s[..lo] + s[lo..hi] + s[hi..];
  }

  /** Trimming whitespace padding around a trimmed string gives that string back. */
  lemma TrimPadding(pre: string, t: string, post: string)
    requires AllWhitespace(pre) && AllWhitespace(post) && IsTrimmed(t)
    ensures Trim(pre + t + post) == t
  {
    var s := pre + t + post;
    if t == [] {
      assert AllWhitespace(s) by {
        forall k | 0 <= k < |s| ensures IsWhitespace(s[k]) {
          if k < |pre| { assert s[k] == pre[k]; } else { assert s[k] == post[k - |pre|]; }
        }
      }
    } else {
      var lo := SkipLeading(s, 0);
      assert s[|pre|] == t[0];
      assert forall k :: 0 <= k < |pre| ==> s[k] == pre[k];
      assert lo == |pre|;
      var hi := SkipTrailing(s, lo, |s|);
      assert s[|pre| + |t| - 1] == t[|t| - 1];
      assert forall k :: |pre| + |t| <= k < |s| ==> s[k] == post[k - |pre| - |t|];
      assert hi == |pre| + |t|;
      assert s[lo..hi] == t;
    }
  }

  /** A string without whitespace at either end is left as it is. */
  lemma TrimKeepsTrimmed(t: string)
    requires IsTrimmed(t)
    ensures Trim(t) == t
  {
    TrimPadding([], t, []);
    assert [] + t + [] == t;
  }

  lemma TrimIdempotent(s: string)
    ensures Trim(Trim(s)) == Trim(s)
  {
    TrimKeepsTrimmed(Trim(s));
  }

  lemma TrimExample()
    ensures Trim("  Alice\n") == "Alice"
  {
    TrimPadding("  ", "Alice", "\n");
    assert "  " + "Alice" + "\n" == "  Alice\n";
  }

  // ---------------------------------------------------------------------------
  // The email pattern /^[^\s@]+@[^\s@]+\.[^\s@]+$/
  // ---------------------------------------------------------------------------

  /** A character of the class `[^\s@]`. */
  predicate PlainChar(c: char)
  {
    !IsWhitespace(c) && c != '@'
  }

  /** A string matched by `[^\s@]+`. */
  predicate PlainRun(t: string)
  {
    |t| > 0 && forall k :: 0 <= k < |t| ==> PlainChar(t[k])
  }

  /** `s` matches the email pattern with its `@` at index `at` and its `\.` at index `dot`. */
  predicate MatchesAt(s: string, at: int, dot: int)
  {
    0 <= at < dot < |s| && s[at] == '@' && s[dot] == '.' &&
    PlainRun(s[..at]) && PlainRun(s[at + 1..dot]) && PlainRun(s[dot + 1..])
  }

  /** The language of the regular expression, stated directly from its structure. */
  ghost predicate EmailPattern(s: string)
  {
    exists at, dot :: MatchesAt(s, at, dot)
  }

  /** The first index at or after `from` holding `c`, or `|s|` when there is none. */
  function IndexOf(s: string, c: char, from: nat): (i: nat)
    requires from <= |s|
    ensures from <= i <= |s|
    ensures i < |s| ==> s[i] == c
    ensures forall k :: from <= k < i ==> s[k] != c
    decreases |s| - from
  {
    if from == |s| || s[from] == c then from else IndexOf(s, c, from + 1)
  }

  /** Every character is of the class `[^\s@]` (scanned left to right). */
  predicate AllPlain(t: string)
  {
    t == [] || (PlainChar(t[0]) && AllPlain(t[1..]))
  }

  /** A `.` that is neither the first nor the last character. */
  predicate HasInnerDot(domain: string)
  {
    |domain| >= 3 && '.' in domain[1..|domain| - 1]
  }

  /**
   * `validateEmail`, hand-coded: split at the first `@`; the part before it is a
   * non-empty run of `[^\s@]`, and the part after it is a run of `[^\s@]` (so there
   * is no second `@`) with an inner dot.
   */
  predicate ValidateEmail(email: string): (ok: bool)
    ensures ok ==> 5 <= |email| && '@' in email && '.' in email
    ensures ok ==> !IsWhitespace(email[0]) && email[0] != '@'
  {
    var at := IndexOf(email, '@', 0);
    0 < at < |email| && AllPlain(email[..at]) &&
    AllPlain(email[at + 1..]) && HasInnerDot(email[at + 1..])
  }

  lemma {:induction false} AllPlainIff(t: string)
    ensures AllPlain(t) <==> forall k :: 0 <= k < |t| ==> PlainChar(t[k])
    decreases |t|
  {
    if t != [] {
      AllPlainIff(t[1..]);
      assert forall k :: 1 <= k < |t| ==> t[k] == t[1..][k - 1];
    }
  }

  /** Every string the hand-coded check accepts matches the regular expression. */
  lemma ValidateEmailSound(email: string)
    requires ValidateEmail(email)
    ensures EmailPattern(email)
  {
    var at := IndexOf(email, '@', 0);
    var d := email[at + 1..];
    AllPlainIff(email[..at]);
    AllPlainIff(d);
    var k :| 0 <= k < |d[1..|d| - 1]| && d[1..|d| - 1][k] == '.';
    var dot := at + 2 + k;
    assert email[dot] == d[k + 1] == '.';
    var d1, d2 := email[at + 1..dot], email[dot + 1..];
    forall i | 0 <= i < |d1| ensures PlainChar(d1[i]) {
      assert d1[i] == d[i];
    }
    forall i | 0 <= i < |d2| ensures PlainChar(d2[i]) {
      assert d2[i] == d[dot - at + i];
    }
    assert MatchesAt(email, at, dot);
  }

  /** Every string the regular expression matches passes the hand-coded check. */
  lemma ValidateEmailComplete(email: string)
    requires EmailPattern(email)
    ensures ValidateEmail(email)
  {
    var a, dot :| MatchesAt(email, a, dot);
    assert forall k :: 0 <= k < a ==> email[k] == email[..a][k];
    assert IndexOf(email, '@', 0) == a;
    AllPlainIff(email[..a]);
    var d := email[a + 1..];
    forall k | 0 <= k < |d| ensures PlainChar(d[k]) {
      if k < dot - a - 1 {
        assert d[k] == email[a + 1..dot][k];
      } else if k > dot - a - 1 {
        assert d[k] == email[dot + 1..][k - (dot - a)];
      }
    }
    AllPlainIff(d);
    assert d[1..|d| - 1][dot - a - 2] == '.';
  }

  /** The hand-coded check accepts exactly the strings the regular expression matches. */
  lemma ValidateEmailIsPattern(email: string)
    ensures ValidateEmail(email) <==> EmailPattern(email)
  {
    if ValidateEmail(email) {
      ValidateEmailSound(email);
    }
    if EmailPattern(email) {
      ValidateEmailComplete(email);
    }
  }

  /** Strings the email check rejects: no `@`, no dot, an empty local part. */
  lemma EmailRejectsExamples()
    ensures !ValidateEmail("foo")
    ensures !ValidateEmail("foo@bar")
    ensures !ValidateEmail("@bar.com")
  {
    assert IndexOf("foo@bar", '@', 0) == 3;
    assert "foo@bar"[4..] == "bar";
  }

  /** A dot right after the `@` or at the very end is not an inner dot. */
  lemma EmailRejectsEdgeDots()
    ensures !ValidateEmail("a@.com")
    ensures !ValidateEmail("a@b.")
  {
    assert IndexOf("a@.com", '@', 0) == 1;
    assert ".com"[1..3] == "co";
    assert IndexOf("a@b.", '@', 0) == 1;
  }

  lemma EmailRejectsSecondAt()
    ensures !ValidateEmail("a@b@c.d")
  {
    assert IndexOf("a@b@c.d", '@', 0) == 1;
    assert "a@b@c.d"[2..][1] == '@';
  }

  lemma EmailAcceptsExample()
    ensures ValidateEmail("a@b.com")
  {
    var email := "a@b.com";
    assert IndexOf(email, '@', 0) == 1;
    assert email[..1] == "a" && email[2..] == "b.com";
    assert AllPlain("a");
    assert AllPlain("b.com") by {
      AllPlainIff("b.com");
      assert forall k :: 0 <= k < 5 ==> PlainChar("b.com"[k]);
    }
    assert "b.com"[1..4][0] == '.';
  }

  // ---------------------------------------------------------------------------
  // validateForm
  // ---------------------------------------------------------------------------

  /** The three trimmed fields of one submission attempt. */
  datatype FormData = FormData(name: string, email: string, message: string)

  /** One violated rule; `Text` is the message shown to the user. */
  datatype FieldError = NameMissing | EmailMissing | EmailInvalid | MessageMissing
  {
    function Text(): string
    {
      match this
      case NameMissing => "Please enter your name"
      case EmailMissing => "Please enter your email address"
      case EmailInvalid => "Please enter a valid email address"
      case MessageMissing => "Please enter your message"
    }

    /** The position of the rule among the checks, which run in this order. */
    function Rank(): nat
    {
      match this
      case NameMissing => 0
      case EmailMissing => 1
      case EmailInvalid => 2
      case MessageMissing => 3
    }
  }

  /** Listed in the order the rules are checked, each at most once. */
  predicate InCheckOrder(errors: seq<FieldError>)
  {
    forall i, j :: 0 <= i < j < |errors| ==> errors[i].Rank() < errors[j].Rank()
  }

  /** `validateForm`: one entry per violated rule, in check order. */
  function ValidateForm(data: FormData): (errors: seq<FieldError>)
    ensures NameMissing in errors <==> data.name == ""
    ensures EmailMissing in errors <==> data.email == ""
    ensures EmailInvalid in errors <==> data.email != "" && !ValidateEmail(data.email)
    ensures MessageMissing in errors <==> data.message == ""
    ensures InCheckOrder(errors)
    ensures errors == [] <==>
              data.name != "" && data.email != "" && ValidateEmail(data.email) && data.message != ""
    ensures !(EmailMissing in errors && EmailInvalid in errors)
    ensures |errors| <= 3
  {
    var none: seq<FieldError> := [];
    var e1 := if data.name == "" then none + [NameMissing] else none;
    var e2 := if data.email == "" then e1 + [EmailMissing] else e1;
    var e3 := if data.email != "" && !ValidateEmail(data.email) then e2 + [EmailInvalid] else e2;
    var e4 := if data.message == "" then e3 + [MessageMissing] else e3;
    PushInOrder(e1, EmailMissing);
    PushInOrder(e2, EmailInvalid);
    PushInOrder(e3, MessageMissing);
    e4
  }

  /** Appending a rule checked after every listed one keeps the list in check order. */
  lemma PushInOrder(errors: seq<FieldError>, e: FieldError)
    requires InCheckOrder(errors)
    requires forall x :: x in errors ==> x.Rank() < e.Rank()
    ensures InCheckOrder(errors + [e])
  {
  }

  lemma RankInjective(e: FieldError, f: FieldError)
    requires e.Rank() == f.Rank()
    ensures e == f
  {
  }

  /** The first entry of a list in check order has the least rank. */
  lemma FirstIsLeast(errors: seq<FieldError>, e: FieldError)
    requires InCheckOrder(errors) && e in errors
    ensures errors[0].Rank() <= e.Rank()
  {
    var k :| 0 <= k < |errors| && errors[k] == e;
  }

  /** Dropping the same first entry from two such lists leaves the same members. */
  lemma SameMembersAfterFirst(a: seq<FieldError>, b: seq<FieldError>)
    requires InCheckOrder(a) && InCheckOrder(b)
    requires a != [] && b != [] && a[0] == b[0]
    requires forall e :: e in a <==> e in b
    ensures forall e :: e in a[1..] <==> e in b[1..]
  {
    assert a == [a[0]] + a[1..] && b == [b[0]] + b[1..];
    forall e | e in a[1..] ensures e in b[1..] {
      var k :| 0 <= k < |a[1..]| && a[1..][k] == e;
      assert a[k + 1] == e && a[0].Rank() < e.Rank();
      assert e in b && e != b[0];
    }
    forall e | e in b[1..] ensures e in a[1..] {
      var k :| 0 <= k < |b[1..]| && b[1..][k] == e;
      assert b[k + 1] == e && b[0].Rank() < e.Rank();
      assert e in a && e != a[0];
    }
  }

  /** Two lists in check order with the same members are the same list. */
  lemma {:induction false} InCheckOrderUnique(a: seq<FieldError>, b: seq<FieldError>)
    requires InCheckOrder(a) && InCheckOrder(b)
    requires forall e :: e in a <==> e in b
    ensures a == b
    decreases |a|
  {
    if a == [] {
      assert forall i :: 0 <= i < |b| ==> b[i] in b;
    } else {
      assert a[0] in b;
      assert b[0] in a;
      FirstIsLeast(a, b[0]);
      FirstIsLeast(b, a[0]);
      RankInjective(a[0], b[0]);
      SameMembersAfterFirst(a, b);
      InCheckOrderUnique(a[1..], b[1..]);
      assert a == [a[0]] + a[1..] && b == [b[0]] + b[1..];
    }
  }

  /**
   * The result of `validateForm` is determined by which rules are violated: any
   * list in check order holding exactly the violated rules is that result.
   */
  lemma ValidateFormCharacterized(data: FormData, errors: seq<FieldError>)
    requires InCheckOrder(errors)
    requires NameMissing in errors <==> data.name == ""
    requires EmailMissing in errors <==> data.email == ""
    requires EmailInvalid in errors <==> data.email != "" && !ValidateEmail(data.email)
    requires MessageMissing in errors <==> data.message == ""
    ensures errors == ValidateForm(data)
  {
    var v := ValidateForm(data);
    forall e ensures e in errors <==> e in v {
      match e
      case NameMissing =>
      case EmailMissing =>
      case EmailInvalid =>
      case MessageMissing =>
    }
    InCheckOrderUnique(errors, v);
  }

  /** The messages the user sees, in list order. */
  function Messages(errors: seq<FieldError>): (texts: seq<string>)
    ensures |texts| == |errors|
    ensures forall i :: 0 <= i < |errors| ==> texts[i] == errors[i].Text()
  {
    if errors == [] then [] else [errors[0].Text()] + Messages(errors[1..])
  }
}
