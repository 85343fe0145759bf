/**
 * The registration schema: per-field rules for `email`, `name`, `password`,
 * `passwordCheck` and `year`, one object-level refinement that requires the
 * two passwords to agree, and the way the form resolver turns the schema's
 * list of issues into one message per field.
 *
 * The e-mail syntax check belongs to the validation library and is not part
 * of this model: every operation that needs it takes it as the parameter
 * `isEmail`.
 */
module RegisterSchema {
  import opened Wrappers

  datatype Field = Email | Name | Password | PasswordCheck | Year

  /** The fields shown on the first step of the form. */
  const IdentityFields: set<Field> := {Email, Name, Password, PasswordCheck}

  /** Every message the schema can attach to a field. */
  datatype Message =
    | EmailRequired
    | EmailFormat
    | NameTooShort
    | NameTooLong
    | PasswordRequired
    | PasswordCheckRequired
    | PasswordFormat
    | YearRequired
    | PasswordMismatch

  /** The message text, verbatim. */
  function Text(m: Message): string
  {
    match m
    case EmailRequired => "이메일을 입력해주세요."
    case EmailFormat => "이메일 형식이 올바르지 않습니다."
    case NameTooShort => "이름은 3글자 이상이어야 합니다."
    case NameTooLong => "이름은 10글자 이하여야 합니다."
    case PasswordRequired => "비밀번호를 입력해주세요."
    case PasswordCheckRequired => "비밀번호를 다시 입력해주세요."
    case PasswordFormat => "영문+숫자+특수문자(! @ # $ % & * ?) 조합 8~15자리를 입력해주세요."
    case YearRequired => "생년월일을 입력해주세요."
    case PasswordMismatch => "비밀번호가 일치하지 않습니다."
  }

  /** The values handed to the schema. `year` is absent until one is chosen. */
  datatype Draft = Draft(
    email: string,
    name: string,
    password: string,
    passwordCheck: string,
    year: Option<string>)

  /** One failed check, reported against the path of the field it concerns. */
  datatype Issue = Issue(path: Field, message: Message)

  // ---------------------------------------------------------------------
  // The password pattern  ^(?=.*[a-zA-Z])(?=.*[!@#$%^*+=-])(?=.*[0-9]).{8,15}$
  // read literally: three look-aheads from the start, then 8 to 15 `.`s
  // up to the end of the input (no `m` flag, so `$` is the end of input).
  // ---------------------------------------------------------------------

  /** Characters a regular-expression `.` does not match (no `s` flag). */
  predicate IsLineTerminator(c: char)
  {
    c == '\n' || c == '\r' || c == '\U{2028}' || c == '\U{2029}'
  }

  datatype CharClass = Letters | Symbols | Digits

  /** `[a-zA-Z]`, `[!@#$%^*+=-]` (the final `-` is literal) and `[0-9]`. */
  predicate InClass(c: char, k: CharClass)
  {
    match k
    case Letters => 'a' <= c <= 'z' || 'A' <= c <= 'Z'
    case Symbols =>
      c == '!' || c == '@' || c == '#' || c == '$' || c == '%' ||
      c == '^' || c == '*' || c == '+' || c == '=' || c == '-'
    case Digits => '0' <= c <= '9'
  }

  /** `(?=.*[k])` tried at position 0: a character of class `k` is reached over `.`s only. */
  predicate LookaheadFromStart(s: string, k: CharClass)
  {
    exists j :: 0 <= j < |s| && InClass(s[j], k) && forall i :: 0 <= i < j ==> !IsLineTerminator(s[i])
  }

  /** `.{lo,hi}$` tried at position 0. */
  predicate DotsToEnd(s: string, lo: nat, hi: nat)
  {
    lo <= |s| <= hi && forall i :: 0 <= i < |s| ==> !IsLineTerminator(s[i])
  }

  predicate PasswordPattern(s: string)
  {
    LookaheadFromStart(s, Letters) && LookaheadFromStart(s, Symbols) &&
    LookaheadFromStart(s, Digits) && DotsToEnd(s, 8, 15)
  }

  predicate Contains(s: string, k: CharClass)
  {
    exists i :: 0 <= i < |s| && InClass(s[i], k)
  }

  predicate NoLineTerminator(s: string)
  {
    forall i :: 0 <= i < |s| ==> !IsLineTerminator(s[i])
  }

  /**
   * What the pattern accepts: 8 to 15 characters, no line terminator, and at
   * least one ASCII letter, one ASCII digit and one of `! @ # $ % ^ * + = -`.
   */
  lemma PasswordPatternMeaning(s: string)
    ensures PasswordPattern(s) <==>
      8 <= |s| <= 15 && NoLineTerminator(s) &&
      Contains(s, Letters) && Contains(s, Digits) && Contains(s, Symbols)
  {
  }

  /** The format message names `&` and `?` among the accepted symbols. */
  lemma FormatMessageNamesSymbols()
    ensures '&' in Text(PasswordFormat) && '?' in Text(PasswordFormat)
  {
    var t := Text(PasswordFormat);
    assert t[21] == '&' && t[25] == '?';
  }

  /** The symbols `&` and `?` that the format message names are not in the class. */
  lemma MessageSymbolsOutsideClass()
    ensures !InClass('&', Symbols) && !InClass('?', Symbols)
    ensures !PasswordPattern("Abc12345&") && !PasswordPattern("Abc12345?")
  {
  }

  // ---------------------------------------------------------------------
  // Per-field rules. zod runs every check of a string field and reports
  // each failure, in the order the checks are declared.
  // ---------------------------------------------------------------------

  /** `email`: nonempty, then the library's e-mail syntax check. */
  function EmailIssues(s: string, isEmail: string -> bool): (r: seq<Message>)
    ensures s == [] ==> r != [] && r[0] == EmailRequired
    ensures s != [] ==> (r == [] <==> isEmail(s))
  {
    (if s == [] then [EmailRequired] else []) + (if isEmail(s) then [] else [EmailFormat])
  }

  /** `name`: min(3), then max(10). */
  function NameIssues(s: string): (r: seq<Message>)
  {
    (if |s| < 3 then [NameTooShort] else []) + (if |s| > 10 then [NameTooLong] else [])
  }

  /** `password`: nonempty, then the pattern. */
  function PasswordIssues(s: string): (r: seq<Message>)
  {
    (if s == [] then [PasswordRequired] else []) + (if PasswordPattern(s) then [] else [PasswordFormat])
  }

  /** `passwordCheck`: the same rule as `password` with its own nonempty message. */
  function PasswordCheckIssues(s: string): (r: seq<Message>)
  {
    (if s == [] then [PasswordCheckRequired] else []) + (if PasswordPattern(s) then [] else [PasswordFormat])
  }

  /** `year`: any string; only a missing value is reported (`required_error`). */
  function YearIssues(y: Option<string>): (r: seq<Message>)
  {
    if y.None? then [YearRequired] else []
  }

  /** The field's own rule applied to the field's own value. */
  function OwnIssues(d: Draft, f: Field, isEmail: string -> bool): seq<Message>
  {
    match f
    case Email => EmailIssues(d.email, isEmail)
    case Name => NameIssues(d.name)
    case Password => PasswordIssues(d.password)
    case PasswordCheck => PasswordCheckIssues(d.passwordCheck)
    case Year => YearIssues(d.year)
  }

  /**
   * Whether the object-level refinement is evaluated. The library skips it
   * only when parsing the object was aborted, which among these fields a
   * missing `year` (a type error) does; failed string checks do not.
   */
  predicate RefinementRuns(d: Draft)
  {
    d.year.Some?
  }

  /** The refinement `password === passwordCheck`, reported on `passwordCheck`. */
  function MismatchIssues(d: Draft): (r: seq<Message>)
  {
    if RefinementRuns(d) && d.password != d.passwordCheck then [PasswordMismatch] else []
  }

  /** Every message about field `f`, in the order the schema produces them. */
  function FieldIssues(d: Draft, f: Field, isEmail: string -> bool): seq<Message>
  {
    OwnIssues(d, f, isEmail) + (if f == PasswordCheck then MismatchIssues(d) else [])
  }

  /** The messages of one field as issues on its path. */
  function Tag(f: Field, ms: seq<Message>): (r: seq<Issue>)
    ensures |r| == |ms|
  {
    if ms == [] then [] else [Issue(f, ms[0])] + Tag(f, ms[1..])
  }

  /** The issue list of one parse: fields in declaration order, the refinement last. */
  function Issues(d: Draft, isEmail: string -> bool): seq<Issue>
  {
    Arrange(OwnIssues(d, Email, isEmail), OwnIssues(d, Name, isEmail), OwnIssues(d, Password, isEmail),
            OwnIssues(d, PasswordCheck, isEmail), OwnIssues(d, Year, isEmail), MismatchIssues(d))
  }

  /** The per-field message lists tagged with their paths and laid end to end. */
  function Arrange(oe: seq<Message>, on: seq<Message>, op: seq<Message>,
                   oc: seq<Message>, oy: seq<Message>, om: seq<Message>): seq<Issue>
  {
    Tag(Email, oe) + Tag(Name, on) + Tag(Password, op) +
    Tag(PasswordCheck, oc) + Tag(Year, oy) + Tag(PasswordCheck, om)
  }

  /** The resolver's error object: the first issue reported for each path wins. */
  function FirstErrors(issues: seq<Issue>): map<Field, Message>
  {
    if issues == [] then map[]
    else FirstErrors(issues[1..])[issues[0].path := issues[0].message]
  }

  /** `registerSchema` as the form's resolver applies it. */
  function Validate(d: Draft, isEmail: string -> bool): Result<Draft, map<Field, Message>>
  {
    var issues := Issues(d, isEmail);
    if issues == [] then Ok(d) else Err(FirstErrors(issues))
  }

  function Head(ms: seq<Message>): Option<Message>
  {
    if ms == [] then None else Some(ms[0])
  }

  /** The message shown under field `f` after validating `d` (none when it passes). */
  function ErrorFor(d: Draft, f: Field, isEmail: string -> bool): Option<Message>
  {
    match Validate(d, isEmail)
    case Ok(_) => None
    case Err(errors) => if f in errors then Some(errors[f]) else None
  }

  /** Every field passes its own rule. */
  predicate FieldsPass(d: Draft, isEmail: string -> bool)
  {
    forall f: Field :: OwnIssues(d, f, isEmail) == []
  }

  // ---------------------------------------------------------------------
  // Properties of the per-field rules
  // ---------------------------------------------------------------------

  /** `name` passes iff it has 3 to 10 characters; otherwise exactly one bound's message. */
  lemma NameRule(s: string)
    ensures NameIssues(s) == [] <==> 3 <= |s| <= 10
    ensures |s| < 3 ==> NameIssues(s) == [NameTooShort]
    ensures |s| > 10 ==> NameIssues(s) == [NameTooLong]
  {
  }

  /** Any string the pattern accepts is non-empty. */
  lemma PatternImpliesNonEmpty(s: string)
    requires PasswordPattern(s)
    ensures |s| >= 8
  {
  }

  /**
   * `password` passes iff the pattern accepts it. The nonempty check only
   * decides which message the empty string gets first.
   */
  lemma PasswordRule(s: string)
    ensures PasswordIssues(s) == [] <==> PasswordPattern(s)
    ensures PasswordIssues("") == [PasswordRequired, PasswordFormat]
    ensures s != "" ==> PasswordIssues(s) == (if PasswordPattern(s) then [] else [PasswordFormat])
  {
  }

  /** `passwordCheck` has exactly the predicate of `password`; only the empty-input message differs. */
  lemma PasswordCheckSameRule(s: string)
    ensures PasswordCheckIssues(s) == [] <==> PasswordIssues(s) == []
    ensures s != "" ==> PasswordCheckIssues(s) == PasswordIssues(s)
    ensures PasswordCheckIssues("") == [PasswordCheckRequired, PasswordFormat]
  {
  }

  /** An empty `email` is first reported as missing; a non-empty one fails only the syntax check. */
  lemma EmailRule(s: string, isEmail: string -> bool)
    ensures Head(EmailIssues("", isEmail)) == Some(EmailRequired)
    ensures s != "" ==> EmailIssues(s, isEmail) == (if isEmail(s) then [] else [EmailFormat])
  {
  }

  /** `year` accepts every present string, the empty one included. */
  lemma YearRule(y: Option<string>)
    ensures YearIssues(y) == [] <==> y.Some?
    ensures YearIssues(Some("")) == []
    ensures y.None? ==> YearIssues(y) == [YearRequired]
  {
  }

  // ---------------------------------------------------------------------
  // From the issue list to the error object
  // ---------------------------------------------------------------------

  /** The messages of the issues whose path is `f`, in order. */
  function PathMessages(issues: seq<Issue>, f: Field): seq<Message>
  {
    if issues == [] then []
    else (if issues[0].path == f then [issues[0].message] else []) + PathMessages(issues[1..], f)
  }

  /** The resolver keeps, for each path, the first message reported on it. */
  lemma {:induction false} FirstErrorsAreFirstMessages(issues: seq<Issue>, f: Field)
    ensures f in FirstErrors(issues) <==> PathMessages(issues, f) != []
    ensures f in FirstErrors(issues) ==> FirstErrors(issues)[f] == PathMessages(issues, f)[0]
  {
    if issues != [] {
      FirstErrorsAreFirstMessages(issues[1..], f);
    }
  }

  lemma {:induction false} PathMessagesAppend(a: seq<Issue>, b: seq<Issue>, f: Field)
    ensures PathMessages(a + b, f) == PathMessages(a, f) + PathMessages(b, f)
  {
    if a == [] {
      assert a + b == b;
    } else {
      assert (a + b)[1..] == a[1..] + b;
      PathMessagesAppend(a[1..], b, f);
    }
  }

  lemma {:induction false} PathMessagesTag(g: Field, ms: seq<Message>, f: Field)
    ensures PathMessages(Tag(g, ms), f) == if g == f then ms else []
  {
    if ms != [] {
      assert Tag(g, ms)[1..] == Tag(g, ms[1..]);
      PathMessagesTag(g, ms[1..], f);
      assert ms == [ms[0]] + ms[1..];
    }
  }

  lemma PathMessagesOfSix(a: seq<Issue>, b: seq<Issue>, c: seq<Issue>,
                          d: seq<Issue>, e: seq<Issue>, g: seq<Issue>, f: Field)
    ensures PathMessages(a + b + c + d + e + g, f) ==
      PathMessages(a, f) + PathMessages(b, f) + PathMessages(c, f) +
      PathMessages(d, f) + PathMessages(e, f) + PathMessages(g, f)
  {
    PathMessagesAppend(a + b + c + d + e, g, f);
    PathMessagesAppend(a + b + c + d, e, f);
    PathMessagesAppend(a + b + c, d, f);
    PathMessagesAppend(a + b, c, f);
    PathMessagesAppend(a, b, f);
  }

  /** The messages that `Arrange` places on path `f`. */
  lemma {:induction false} PathMessagesArrange(oe: seq<Message>, on: seq<Message>, op: seq<Message>,
                                               oc: seq<Message>, oy: seq<Message>, om: seq<Message>, f: Field)
    ensures PathMessages(Arrange(oe, on, op, oc, oy, om), f) == Route(f, oe, on, op, oc, oy, om)
  {
    var e, n, p, c, y, m := Tag(Email, oe), Tag(Name, on), Tag(Password, op),
                            Tag(PasswordCheck, oc), Tag(Year, oy), Tag(PasswordCheck, om);
    PathMessagesOfSix(e, n, p, c, y, m, f);
    PathMessagesTag(Email, oe, f);
    PathMessagesTag(Name, on, f);
    PathMessagesTag(Password, op, f);
    PathMessagesTag(PasswordCheck, oc, f);
    PathMessagesTag(Year, oy, f);
    PathMessagesTag(PasswordCheck, om, f);
    RouteSum(PathMessages(e, f), PathMessages(n, f), PathMessages(p, f),
             PathMessages(c, f), PathMessages(y, f), PathMessages(m, f),
             oe, on, op, oc, oy, om, f);
  }

  /** Where message lists `o*` land when only the lists on path `f` survive. */
  function Route(f: Field, oe: seq<Message>, on: seq<Message>, op: seq<Message>,
                 oc: seq<Message>, oy: seq<Message>, om: seq<Message>): seq<Message>
  {
    match f
    case Email => oe
    case Name => on
    case Password => op
    case PasswordCheck => oc + om
    case Year => oy
  }

  lemma RouteSum(pe: seq<Message>, pn: seq<Message>, pp: seq<Message>,
                 pc: seq<Message>, py: seq<Message>, pm: seq<Message>,
                 oe: seq<Message>, on: seq<Message>, op: seq<Message>,
                 oc: seq<Message>, oy: seq<Message>, om: seq<Message>, f: Field)
    requires pe == (if f == Email then oe else []) && pn == (if f == Name then on else [])
    requires pp == (if f == Password then op else []) && pc == (if f == PasswordCheck then oc else [])
    requires py == (if f == Year then oy else []) && pm == (if f == PasswordCheck then om else [])
    ensures pe + pn + pp + pc + py + pm == Route(f, oe, on, op, oc, oy, om)
  {
  }

  /** Read off the issue list, field `f` gets exactly its own messages, the mismatch last. */
  lemma IssuesOfField(d: Draft, f: Field, isEmail: string -> bool)
    ensures PathMessages(Issues(d, isEmail), f) == FieldIssues(d, f, isEmail)
  {
    PathMessagesArrange(OwnIssues(d, Email, isEmail), OwnIssues(d, Name, isEmail), OwnIssues(d, Password, isEmail),
                        OwnIssues(d, PasswordCheck, isEmail), OwnIssues(d, Year, isEmail), MismatchIssues(d), f);
  }

  /**
   * The message shown under each field is the first of that field's own
   * issues, the mismatch coming after `passwordCheck`'s own checks.
   */
  lemma ErrorForField(d: Draft, f: Field, isEmail: string -> bool)
    ensures ErrorFor(d, f, isEmail) == Head(FieldIssues(d, f, isEmail))
  {
    IssuesOfField(d, f, isEmail);
    FirstErrorsAreFirstMessages(Issues(d, isEmail), f);
  }

  /** Validation succeeds iff every field passes its own rule and the passwords are equal. */
  lemma ValidateSucceedsIff(d: Draft, isEmail: string -> bool)
    ensures Validate(d, isEmail).Ok? <==> FieldsPass(d, isEmail) && d.password == d.passwordCheck
    ensures Validate(d, isEmail).Ok? ==> Validate(d, isEmail).value == d
  {
  }

  /**
   * When every field passes its own rule but the passwords differ, the only
   * error is the mismatch, and it is keyed to `passwordCheck`.
   */
  lemma MismatchOnPasswordCheckOnly(d: Draft, isEmail: string -> bool)
    requires FieldsPass(d, isEmail) && d.password != d.passwordCheck
    ensures Validate(d, isEmail) == Err(map[PasswordCheck := PasswordMismatch])
  {
    assert OwnIssues(d, Year, isEmail) == [];
    assert OwnIssues(d, Email, isEmail) == [] && OwnIssues(d, Name, isEmail) == [];
    assert OwnIssues(d, Password, isEmail) == [] && OwnIssues(d, PasswordCheck, isEmail) == [];
    var issue := Issue(PasswordCheck, PasswordMismatch);
    assert Issues(d, isEmail) == [issue];
    assert [issue][1..] == [];
    assert FirstErrors([issue]) == map[][PasswordCheck := PasswordMismatch];
  }

  /** `password` is never given the mismatch message: its entry is decided by its own rule. */
  lemma PasswordErrorIsOwn(d: Draft, isEmail: string -> bool)
    ensures ErrorFor(d, Password, isEmail) == Head(PasswordIssues(d.password))
    ensures ErrorFor(d, Password, isEmail) != Some(PasswordMismatch)
  {
    ErrorForField(d, Password, isEmail);
  }

  /** The value of field `f` is the same in both drafts. */
  predicate SameValue(d1: Draft, d2: Draft, f: Field)
  {
    match f
    case Email => d1.email == d2.email
    case Name => d1.name == d2.name
    case Password => d1.password == d2.password
    case PasswordCheck => d1.passwordCheck == d2.passwordCheck
    case Year => d1.year == d2.year
  }

  /** Apart from the mismatch rule, a field's message depends only on that field's value. */
  lemma ErrorIsLocal(d1: Draft, d2: Draft, f: Field, isEmail: string -> bool)
    requires f != PasswordCheck && SameValue(d1, d2, f)
    ensures ErrorFor(d1, f, isEmail) == ErrorFor(d2, f, isEmail)
  {
    ErrorForField(d1, f, isEmail);
    ErrorForField(d2, f, isEmail);
  }

  /** `passwordCheck`'s message depends only on the two passwords and on whether a year is present. */
  lemma PasswordCheckErrorInputs(d1: Draft, d2: Draft, isEmail: string -> bool)
    requires d1.password == d2.password && d1.passwordCheck == d2.passwordCheck
    requires d1.year.Some? == d2.year.Some?
    ensures ErrorFor(d1, PasswordCheck, isEmail) == ErrorFor(d2, PasswordCheck, isEmail)
  {
    ErrorForField(d1, PasswordCheck, isEmail);
    ErrorForField(d2, PasswordCheck, isEmail);
  }

  // ---------------------------------------------------------------------
  // Worked examples
  // ---------------------------------------------------------------------

  /** A password with a letter, a digit and `!` in range passes the pattern. */
  lemma SamplePasswordMatches()
    ensures PasswordPattern("Abc12345!")
  {
    var s := "Abc12345!";
    forall i | 0 <= i < |s| ensures !IsLineTerminator(s[i]) {
      assert ' ' <= s[i] <= '~';
    }
    assert InClass(s[0], Letters) && InClass(s[3], Digits) && InClass(s[8], Symbols);
    assert LookaheadFromStart(s, Letters);
    assert LookaheadFromStart(s, Digits);
    assert LookaheadFromStart(s, Symbols);
  }

  /** A complete, consistent draft passes whenever the e-mail check accepts its address. */
  lemma AcceptsCompleteDraft(isEmail: string -> bool)
    requires isEmail("user@gmail.com")
    ensures Validate(Draft("user@gmail.com", "Alice", "Abc12345!", "Abc12345!", Some("2015")), isEmail).Ok?
  {
    var d := Draft("user@gmail.com", "Alice", "Abc12345!", "Abc12345!", Some("2015"));
    SamplePasswordMatches();
    assert forall f: Field :: OwnIssues(d, f, isEmail) == [];
    ValidateSucceedsIff(d, isEmail);
  }

  /** A confirmation ending in `?` fails the pattern itself, before any mismatch is considered. */
  lemma QuestionMarkConfirmation(isEmail: string -> bool)
    ensures ErrorFor(Draft("user@gmail.com", "Alice", "Abc12345!", "Abc12345?", Some("2015")),
                     PasswordCheck, isEmail) == Some(PasswordFormat)
  {
    var d := Draft("user@gmail.com", "Alice", "Abc12345!", "Abc12345?", Some("2015"));
    MessageSymbolsOutsideClass();
    ErrorForField(d, PasswordCheck, isEmail);
  }

  /** A two-letter name gets the minimum-length message. */
  lemma ShortName(d: Draft, isEmail: string -> bool)
    requires d.name == "Al"
    ensures ErrorFor(d, Name, isEmail) == Some(NameTooShort)
  {
    ErrorForField(d, Name, isEmail);
  }
}
