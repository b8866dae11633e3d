/**
  The page's static rule tables: the four regular expressions of `ValidationPatterns`
  (script.js:18-23), each read as a predicate over characters, and the German texts of
  `ErrorMessages` (script.js:25-38).
 */
module Patterns {
  import opened JsText

  /** `[a-zA-ZÀ-ÿ\s-']`: ASCII letters, U+00C0..U+00FF (which takes in × and ÷), white space, `-`, `'`. */
  predicate IsNameChar(c: char) {
    ('a' <= c <= 'z') || ('A' <= c <= 'Z') || ('\U{00C0}' <= c <= '\U{00FF}') ||
    IsSpace(c) || c == '-' || c == '\''
  }

  /**
    `^[a-zA-ZÀ-ÿ\s-']{2,50}$`. Every character of the class is one UTF-16 unit, so the
    quantifier's count of units is the number of characters.
   */
  predicate NamePattern(v: string) {
    2 <= |v| <= 50 && forall k | 0 <= k < |v| :: IsNameChar(v[k])
  }

  /** `[^\s@]`: anything but white space and `@`. */
  predicate IsEmailAtom(c: char) {
    !IsSpace(c) && c != '@'
  }

  /** `[^\s@]+` matching the whole of `s`. */
  predicate AtomRun(s: string) {
    |s| > 0 && forall k | 0 <= k < |s| :: IsEmailAtom(s[k])
  }

  /**
    `^[^\s@]+@[^\s@]+\.[^\s@]+$`, read as the regular expression reads it: the value splits
    into a run, `@`, a run, `.`, a run.
   */
  predicate EmailPattern(v: string) {
    exists i, j | 0 < i < |v| && 0 < j < |v| - 1 && i < j ::
      v[i] == '@' && v[j] == '.' && AtomRun(v[..i]) && AtomRun(v[i + 1..j]) && AtomRun(v[j + 1..])
  }

  /**
    The same language described without splitting: no white space, exactly one `@`, which
    is not first, and a `.` after it with at least one character on each side.
   */
  predicate EmailShape(v: string) {
    (forall k | 0 <= k < |v| :: !IsSpace(v[k])) &&
    multiset(v)['@'] == 1 &&
    exists i, j | 0 < i < |v| && 0 < j < |v| - 1 && i + 1 < j :: v[i] == '@' && v[j] == '.'
  }

  /** `[\d\s+\-()]`: ASCII digits, white space, `+`, `-`, `(`, `)`. */
  predicate IsPhoneChar(c: char) {
    ('0' <= c <= '9') || IsSpace(c) || c == '+' || c == '-' || c == '(' || c == ')'
  }

  /** `^[\d\s+\-()]{10,20}$` */
  predicate PhonePattern(v: string) {
    10 <= |v| <= 20 && forall k | 0 <= k < |v| :: IsPhoneChar(v[k])
  }

  /**
    `^.{10,}$` without the `s` flag: `.` is any UTF-16 unit but a line terminator, and
    at least ten units are needed.
   */
  predicate MessagePattern(v: string) {
    Utf16Length(v) >= 10 && forall k | 0 <= k < |v| :: !IsLineTerminator(v[k])
  }

  /** The texts of `ErrorMessages`, one constant per key. */
  const NameText := "Bitte geben Sie einen gültigen Namen ein (2-50 Zeichen, nur Buchstaben)."
  const FirstNameText := "Bitte geben Sie einen gültigen Vornamen ein (2-50 Zeichen)."
  const LastNameText := "Bitte geben Sie einen gültigen Nachnamen ein (2-50 Zeichen)."
  const EmailText := "Bitte geben Sie eine gültige E-Mail-Adresse ein."
  const PhoneText := "Bitte geben Sie eine gültige Telefonnummer ein."
  const MessageText := "Die Nachricht muss mindestens 10 Zeichen lang sein."
  const RequiredText := "Dieses Feld ist erforderlich."
  const PrivacyText := "Bitte akzeptieren Sie die Datenschutzbestimmungen."
  const DestinationText := "Bitte wählen Sie ein Reiseziel aus."
  const ServiceText := "Bitte wählen Sie eine Dienstleistung aus."
  const TravelDateText := "Bitte wählen Sie ein Reisedatum aus."
  const TravelersText := "Bitte wählen Sie die Anzahl der Reisenden aus."

  /** `ErrorMessages`, keyed as in the page. */
  const ErrorMessages: map<string, string> := map[
    "name" := NameText,
    "firstName" := FirstNameText,
    "lastName" := LastNameText,
    "email" := EmailText,
    "phone" := PhoneText,
    "message" := MessageText,
    "required" := RequiredText,
    "privacy" := PrivacyText,
    "destination" := DestinationText,
    "service" := ServiceText,
    "travelDate" := TravelDateText,
    "travelers" := TravelersText
  ]

  /** The inline text of the travel-date rule, which is not taken from `ErrorMessages`. */
  const PastDateMessage := "Das Datum darf nicht in der Vergangenheit liegen."

  /** The `@`s of `v` are those before position `i`, the one at `i` if any, and those after it. */
  lemma AtCountSplit(v: string, i: nat)
    requires i < |v|
    ensures multiset(v)['@'] == multiset(v[..i])['@'] + (if v[i] == '@' then 1 else 0) + multiset(v[i + 1..])['@']
  {
    assert v == v[..i] + [v[i]] + v[i + 1..];
  }

  /** A sequence with no `@` at all has a count of zero, and one with a count of zero has none. */
  lemma NoAtIff(s: string)
    ensures multiset(s)['@'] == 0 <==> forall k | 0 <= k < |s| :: s[k] != '@'
  {
    if multiset(s)['@'] == 0 {
      forall k | 0 <= k < |s| ensures s[k] != '@' {
        assert s[k] in multiset(s);
      }
    } else {
      assert '@' in multiset(s);
      assert '@' in s;
    }
  }

  /** The regular expression and the shape description accept the same values. */
  lemma EmailPatternIffShape(v: string)
    ensures EmailPattern(v) <==> EmailShape(v)
  {
    if EmailPattern(v) { EmailPatternHasShape(v); }
    if EmailShape(v) { EmailShapeMatchesPattern(v); }
  }

  lemma EmailPatternHasShape(v: string)
    requires EmailPattern(v)
    ensures EmailShape(v)
  {
    var i, j :| 0 < i < |v| && 0 < j < |v| - 1 && i < j &&
      v[i] == '@' && v[j] == '.' && AtomRun(v[..i]) && AtomRun(v[i + 1..j]) && AtomRun(v[j + 1..]);
    SplitAtoms(v, i, j);
    SplitOneAt(v, i);
    assert v[i + 1..j][0] == v[i + 1];
  }

  /** Off the `@`, every character of a split value is an atom. */
  lemma SplitAtoms(v: string, i: nat, j: nat)
    requires 0 < i < j < |v| - 1 && v[i] == '@' && v[j] == '.'
    requires AtomRun(v[..i]) && AtomRun(v[i + 1..j]) && AtomRun(v[j + 1..])
    ensures forall k | 0 <= k < |v| && k != i :: IsEmailAtom(v[k])
  {
    forall k | 0 <= k < |v| && k != i ensures IsEmailAtom(v[k]) {
      if k < i { assert v[..i][k] == v[k]; }
      else if k < j { assert v[i + 1..j][k - i - 1] == v[k]; }
      else if k > j { assert v[j + 1..][k - j - 1] == v[k]; }
    }
  }

  /** An `@` at `i` and none elsewhere makes a count of one. */
  lemma SplitOneAt(v: string, i: nat)
    requires i < |v| && v[i] == '@'
    requires forall k | 0 <= k < |v| && k != i :: IsEmailAtom(v[k])
    ensures multiset(v)['@'] == 1
  {
    AtCountSplit(v, i);
    var before, after := v[..i], v[i + 1..];
    forall k | 0 <= k < |before| ensures before[k] != '@' { assert before[k] == v[k]; }
    forall k | 0 <= k < |after| ensures after[k] != '@' { assert after[k] == v[i + 1 + k]; }
    NoAtIff(before);
    NoAtIff(after);
  }

  lemma EmailShapeMatchesPattern(v: string)
    requires EmailShape(v)
    ensures EmailPattern(v)
  {
    var i, j :| 0 < i < |v| && 0 < j < |v| - 1 && i + 1 < j && v[i] == '@' && v[j] == '.';
    AtCountSplit(v, i);
    NoAtIff(v[..i]);
    NoAtIff(v[i + 1..]);
    forall k | 0 <= k < |v| && k != i ensures v[k] != '@' {
      if k < i { assert v[..i][k] == v[k]; } else { assert v[i + 1..][k - i - 1] == v[k]; }
    }
    assert AtomRun(v[..i]);
    assert AtomRun(v[i + 1..j]);
    assert AtomRun(v[j + 1..]);
  }

  /** `"a@b.c"` passes the email rule and `"a@b"` does not. */
  lemma EmailExamples()
    ensures EmailPattern("a@b.c")
    ensures !EmailPattern("a@b")
  {
    var v := "a@b.c";
    assert v[..1] == "a" && v[2..3] == "b" && v[4..] == "c";
    assert v[1] == '@' && v[3] == '.' && AtomRun(v[..1]) && AtomRun(v[1 + 1..3]) && AtomRun(v[3 + 1..]);
  }
}
