/** The quick reservation form in the sidebar and the main contact form: their submit
    handlers, the whitespace trimming they rely on and the email pattern
    ^[^\s@]+@[^\s@]+\.[^\s@]+$ . The date input's text is a field; the instant it parses
    to and the current clock are parameters of the submit handler. */
module Forms {

  datatype Option<T> = None | Some(value: T)

  // ---------------------------------------------------------------------------
  // Whitespace and trimming
  // ---------------------------------------------------------------------------

  /** The characters String.prototype.trim removes and the regular expression class \s
      matches: the ECMAScript WhiteSpace and LineTerminator code points. */
  predicate IsSpace(c: char) {
    c == '\t' || c == '\n' || c == '\U{000B}' || c == '\U{000C}' || c == '\r' || c == ' ' ||
    c == '\U{00A0}' || c == '\U{1680}' || ('\U{2000}' <= c <= '\U{200A}') ||
    c == '\U{2028}' || c == '\U{2029}' || c == '\U{202F}' || c == '\U{205F}' ||
    c == '\U{3000}' || c == '\U{FEFF}'
  }

  /** Nothing but whitespace (the empty string included). */
  predicate IsBlank(s: string) {
    forall k :: 0 <= k < |s| ==> IsSpace(s[k])
  }

  /** Drops the leading whitespace: the result is a suffix of s that does not start with
      whitespace, and everything dropped is whitespace. */
  function TrimStart(s: string): (r: string)
    ensures |r| <= |s| && r == s[|s| - |r|..]
    ensures r == [] || !IsSpace(r[0])
    ensures forall k :: 0 <= k < |s| - |r| ==> IsSpace(s[k])
    decreases |s|
  {
    if s != [] && IsSpace(s[0]) then TrimStart(s[1..]) else s
  }

  /** Drops the trailing whitespace: the result is a prefix of s that does not end with
      whitespace, and everything dropped is whitespace. */
  function TrimEnd(s: string): (r: string)
    ensures |r| <= |s| && r == s[..|r|]
    ensures r == [] || !IsSpace(r[|r| - 1])
    ensures forall k :: |r| <= k < |s| ==> IsSpace(s[k])
    decreases |s|
  {
    if s != [] && IsSpace(s[|s| - 1]) then TrimEnd(s[..|s| - 1]) else s
  }

  /** String.prototype.trim: neither starts nor ends with whitespace. */
  function Trim(s: string): (r: string)
    ensures |r| <= |s|
    ensures r == [] || (!IsSpace(r[0]) && !IsSpace(r[|r| - 1]))
  {
    TrimEnd(TrimStart(s))
  }

  /** What trim() keeps is the slice of s between a blank prefix and a blank suffix. */
  lemma TrimIsInnerSlice(s: string)
    ensures exists i | 0 <= i <= |s| - |Trim(s)| ::
      Trim(s) == s[i..i + |Trim(s)|] && IsBlank(s[..i]) && IsBlank(s[i + |Trim(s)|..])
  {
    var t := TrimStart(s);
    var r := TrimEnd(t);
    var i := |s| - |t|;
    assert r == s[i..i + |r|];
    assert IsBlank(s[..i]) by {
      forall k | 0 <= k < i ensures IsSpace(s[..i][k]) { assert s[..i][k] == s[k]; }
    }
    assert IsBlank(s[i + |r|..]) by {
      var tail := s[i + |r|..];
      forall k | 0 <= k < |tail| ensures IsSpace(tail[k]) {
        assert tail[k] == t[|r| + k];
      }
    }
  }

  /** A value trims to the empty string exactly when it is all whitespace. */
  lemma TrimEmptyIffBlank(s: string)
    ensures Trim(s) == [] <==> IsBlank(s)
  {
  }

  // ---------------------------------------------------------------------------
  // The email pattern
  // ---------------------------------------------------------------------------

  /** One [^\s@]+ run: at least one character, none of them whitespace or '@'. */
  predicate IsEmailPart(p: string) {
    |p| > 0 && forall k :: 0 <= k < |p| ==> !IsSpace(p[k]) && p[k] != '@'
  }

  /** The pattern matches s with '@' at position at and the literal '.' at position dot. */
  predicate EmailSplit(s: string, at: int, dot: int) {
    0 <= at < dot < |s| && s[at] == '@' && s[dot] == '.' &&
    IsEmailPart(s[..at]) && IsEmailPart(s[at + 1..dot]) && IsEmailPart(s[dot + 1..])
  }

  /** The regular expression test: some choice of the '@' and the '.' makes the whole
      string match the three runs. */
  predicate EmailMatches(s: string) {
    exists at, dot | 0 <= at < |s| && 0 <= dot < |s| :: EmailSplit(s, at, dot)
  }

  /** Position at holds the only '@' of s. */
  predicate OnlyAtSignAt(s: string, at: int) {
    0 <= at < |s| && s[at] == '@' && forall k :: 0 <= k < |s| && s[k] == '@' ==> k == at
  }

  /** Some '.' after position at has at least one character on each side within the
      part of s after at. */
  predicate InnerDotAfter(s: string, at: int) {
    exists dot | 0 <= dot < |s| :: at + 1 < dot < |s| - 1 && s[dot] == '.'
  }

  /** No whitespace anywhere, exactly one '@' with something before it, and after the
      '@' a '.' that is neither the first nor the last character of what follows it. */
  predicate EmailShape(s: string) {
    (forall k :: 0 <= k < |s| ==> !IsSpace(s[k])) &&
    exists at | 0 <= at < |s| :: 0 < at && OnlyAtSignAt(s, at) && InnerDotAfter(s, at)
  }

  /** s[i..j] is one run when it is non-empty and free of whitespace and '@'. */
  lemma SliceIsEmailPart(s: string, i: int, j: int)
    requires 0 <= i < j <= |s|
    requires forall k :: i <= k < j ==> !IsSpace(s[k]) && s[k] != '@'
    ensures IsEmailPart(s[i..j])
  {
  }

  /** A match has the shape. */
  lemma MatchHasShape(s: string, at: int, dot: int)
    requires EmailSplit(s, at, dot)
    ensures EmailShape(s)
  {
    forall k | 0 <= k < |s|
      ensures !IsSpace(s[k]) && (s[k] == '@' ==> k == at)
    {
      if k < at {
        assert s[k] == s[..at][k];
      } else if at < k < dot {
        assert s[k] == s[at + 1..dot][k - at - 1];
      } else if dot < k {
        assert s[k] == s[dot + 1..][k - dot - 1];
      }
    }
    assert OnlyAtSignAt(s, at);
    assert InnerDotAfter(s, at) by {
      assert at + 1 < dot < |s| - 1 && s[dot] == '.';
    }
  }

  /** The shape gives a match, splitting at the only '@' and at the inner '.'. */
  lemma ShapeHasMatch(s: string)
    requires EmailShape(s)
    ensures EmailMatches(s)
  {
    var at :| 0 <= at < |s| && 0 < at && OnlyAtSignAt(s, at) && InnerDotAfter(s, at);
    var dot :| 0 <= dot < |s| && at + 1 < dot < |s| - 1 && s[dot] == '.';
    SliceIsEmailPart(s, 0, at);
    SliceIsEmailPart(s, at + 1, dot);
    SliceIsEmailPart(s, dot + 1, |s|);
    assert EmailSplit(s, at, dot);
  }

  /** The pattern, read as a description of the string. */
  lemma EmailMatchesIff(s: string)
    ensures EmailMatches(s) <==> EmailShape(s)
  {
    if EmailMatches(s) {
      var at, dot :| 0 <= at < |s| && 0 <= dot < |s| && EmailSplit(s, at, dot);
      MatchHasShape(s, at, dot);
    }
    if EmailShape(s) {
      ShapeHasMatch(s);
    }
  }

  /** The three examples the pattern is meant for. */
  lemma EmailExamples()
    ensures EmailMatches("a@b.co")
    ensures !EmailMatches("a@b")
    ensures !EmailMatches("a b@c.com")
  {
    assert IsEmailPart("a@b.co"[..1]) && IsEmailPart("a@b.co"[2..3]) && IsEmailPart("a@b.co"[4..]);
    assert EmailSplit("a@b.co", 1, 3);
    EmailMatchesIff("a@b");
    EmailMatchesIff("a b@c.com");
    assert IsSpace("a b@c.com"[1]);
  }

  // ---------------------------------------------------------------------------
  // Messages
  // ---------------------------------------------------------------------------

  const QuickNameRequired: string := "お名前を入力してください。"
  const QuickDateRequired: string := "日時を選択してください。"
  const QuickSent: string := "送信しました。追ってご連絡します。"

  const NameRequired: string := "お名前を入力してください。"
  const EmailInvalid: string := "有効なメールアドレスを入力してください。"
  const DateRequired: string := "ご希望日時を入力してください。"
  const DateInPast: string := "未来の日付を選択してください。"
  const ContactThanks: string := "ご予約ありがとうございます。追ってご連絡いたします。"

  // ---------------------------------------------------------------------------
  // Quick reservation form
  // ---------------------------------------------------------------------------

  /** The outcome of one quick-form submission; only the first failing check is reported. */
  datatype QuickOutcome = MissingName | MissingDate | Sent

  function QuickCheck(name: string, date: string): (r: QuickOutcome)
    ensures r == MissingName <==> IsBlank(name)
    ensures r == MissingDate <==> !IsBlank(name) && date == ""
    ensures r == Sent <==> !IsBlank(name) && date != ""
  {
    TrimEmptyIffBlank(name);
    if Trim(name) == [] then MissingName
    else if date == "" then MissingDate
    else Sent
  }

  /** The status text each outcome writes. */
  function QuickMessage(r: QuickOutcome): (m: string)
    ensures m != ""
  {
    match r
    case MissingName => QuickNameRequired
    case MissingDate => QuickDateRequired
    case Sent => QuickSent
  }

  /** A blank name stops the checks before the date is looked at. */
  lemma QuickNameFirst(name: string, date1: string, date2: string)
    requires IsBlank(name)
    ensures QuickCheck(name, date1) == QuickCheck(name, date2) == MissingName
  {
  }

  /** The three outcomes write three different messages. */
  lemma QuickMessagesDistinct(r1: QuickOutcome, r2: QuickOutcome)
    requires r1 != r2
    ensures QuickMessage(r1) != QuickMessage(r2)
  {
  }

  class QuickForm {
    var name: string
    var date: string
    /** The text of the status slot. */
    var message: string

    constructor ()
      ensures name == "" && date == "" && message == ""
    {
      name, date, message := "", "", "";
    }

    /** The submit handler: on a failed check only the status changes; on success the
        status says sent and the form is reset. */
    method Submit()
      modifies this
      ensures message == QuickMessage(QuickCheck(old(name), old(date)))
      ensures QuickCheck(old(name), old(date)) == Sent ==> name == "" && date == ""
      ensures QuickCheck(old(name), old(date)) != Sent ==> name == old(name) && date == old(date)
    {
      if Trim(name) == [] {
        message := QuickNameRequired;
        return;
      }
      if date == "" {
        message := QuickDateRequired;
        return;
      }
      message := QuickSent;
      name, date := "", "";
    }
  }

  // ---------------------------------------------------------------------------
  // Main contact form
  // ---------------------------------------------------------------------------

  /** The date check: when is the instant the input's text parses to, or None when it
      parses to an invalid date, which compares as not earlier than anything. */
  predicate DateIsPast(when: Option<int>, now: int) {
    when.Some? && when.value < now
  }

  /** All three checks pass. */
  predicate ContactAccepted(name: string, email: string, date: string, when: Option<int>, now: int) {
    !IsBlank(name) && EmailMatches(email) && date != "" && !DateIsPast(when, now)
  }

  /** A date for the current instant itself is accepted; only a strictly earlier one is
      refused. */
  lemma NowIsNotPast(now: int)
    ensures !DateIsPast(Some(now), now)
    ensures DateIsPast(Some(now - 1), now)
  {
  }

  /** A date text that parses to an invalid date is never in the past (JavaScript's < on
      NaN is false), so with a valid name and email such a submission is accepted. */
  lemma InvalidDateNotPast(now: int)
    ensures !DateIsPast(None, now)
    ensures ContactAccepted("Bob", "bob@example.com", "garbage", None, now)
  {
    assert !IsSpace("Bob"[0]);
    assert EmailSplit("bob@example.com", 3, 11);
  }

  class ContactForm {
    var name: string
    var email: string
    var date: string
    /** The error slots next to the three inputs, and the overall status slot. */
    var nameError: string
    var emailError: string
    var dateError: string
    var message: string

    constructor ()
      ensures name == "" && email == "" && date == ""
      ensures nameError == "" && emailError == "" && dateError == "" && message == ""
    {
      name, email, date := "", "", "";
      nameError, emailError, dateError, message := "", "", "", "";
    }

    /** The submit handler: clear every slot, run all three checks, each filling its own
        slot, and succeed only when none failed. */
    method Submit(when: Option<int>, now: int)
      modifies this
      ensures nameError == (if IsBlank(old(name)) then NameRequired else "")
      ensures emailError == (if EmailMatches(old(email)) then "" else EmailInvalid)
      ensures dateError == (if old(date) == "" then DateRequired
                            else if DateIsPast(when, now) then DateInPast
                            else "")
      ensures ContactAccepted(old(name), old(email), old(date), when, now)
        <==> nameError == "" && emailError == "" && dateError == ""
      ensures message == (if ContactAccepted(old(name), old(email), old(date), when, now)
                          then ContactThanks else "")
      ensures ContactAccepted(old(name), old(email), old(date), when, now) ==>
        name == "" && email == "" && date == ""
      ensures !ContactAccepted(old(name), old(email), old(date), when, now) ==>
        name == old(name) && email == old(email) && date == old(date)
    {
      nameError, emailError, dateError := "", "", "";
      message := "";

      var valid := true;
      TrimEmptyIffBlank(name);
      var nameMissing := Trim(name) == [];
      var emailOk := EmailMatches(email);
      if nameMissing {
        nameError := NameRequired;
        valid := false;
      }
      if !emailOk {
        emailError := EmailInvalid;
        valid := false;
      }
      if date == "" {
        dateError := DateRequired;
        valid := false;
      } else if when.Some? && when.value < now {
        dateError := DateInPast;
        valid := false;
      }

      if !valid {
        return;
      }

      message := ContactThanks;
      name, email, date := "", "", "";
    }
  }
}
