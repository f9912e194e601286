/** The registration form's field validators and the password-strength
    meter (src/utils/validation.ts). Each validator answers with no error or
    with the first problem found: an empty field before a malformed one. The
    four patterns of src/utils/constants.ts are written out as predicates
    shaped like the regular expressions (`Matches*`), and each is then
    characterised in plain terms by a lemma. */
module Validation {
  import opened Wrappers
  import opened Chars

  /** The error messages a validator can return, one constructor per message. */
  datatype ValidationError = Required | EmailInvalid | PasswordWeak | PasswordMismatch | PhoneInvalid | UsernameInvalid

  // ----- Character classes -----

  /** `[@$!%*?&]`: the special characters a password may and must use. */
  predicate IsSpecial(c: char) {
    c == '@' || c == '$' || c == '!' || c == '%' || c == '*' || c == '?' || c == '&'
  }

  /** The four kinds of character a strong password mixes. */
  datatype CharClass = Lower | Upper | Digit | Special

  predicate InClass(cls: CharClass, c: char) {
    match cls
    case Lower => IsLower(c)
    case Upper => IsUpper(c)
    case Digit => IsDigit(c)
    case Special => IsSpecial(c)
  }

  /** `/[...]/.test(s)` for one of the classes: some character of `s` is in it. */
  predicate Contains(s: string, cls: CharClass) {
    exists i | 0 <= i < |s| :: InClass(cls, s[i])
  }

  // ----- EMAIL_REGEX: ^[^\s@]+@[^\s@]+\.[^\s@]+$ -----

  /** `[^\s@]`. */
  predicate EmailChar(c: char) {
    !IsWhitespace(c) && c != '@'
  }

  /** `[^\s@]+`: a non-empty run of e-mail characters. */
  predicate EmailRun(t: string) {
    |t| > 0 && forall k | 0 <= k < |t| :: EmailChar(t[k])
  }

  /** The pattern as written: three runs, split by an '@' at `i` and a '.' at `j`. */
  predicate MatchesEmail(s: string) {
    exists i, j | 0 < i < j < |s| ::
      && s[i] == '@' && s[j] == '.'
      && EmailRun(s[..i]) && EmailRun(s[i + 1..j]) && EmailRun(s[j + 1..])
  }

  /** The domain has a '.' that is neither its first nor its last character. */
  predicate DotInside(d: string) {
    exists k | 0 < k < |d| - 1 :: d[k] == '.'
  }

  /** The address in plain terms: no white space, exactly one '@' (at `i`),
      something before it, and a dot inside the part after it. */
  predicate EmailWellFormed(s: string) {
    && (forall k | 0 <= k < |s| :: !IsWhitespace(s[k]))
    && exists i | 0 < i < |s| ::
         && s[i] == '@'
         && (forall k | 0 <= k < |s| && s[k] == '@' :: k == i)
         && DotInside(s[i + 1..])
  }

  /** Splitting a string into three runs keeps every character in one of them. */
  lemma EmailRunsCover(s: string, i: int, j: int, k: int)
    requires 0 < i < j < |s| && 0 <= k < |s|
    requires EmailRun(s[..i]) && EmailRun(s[i + 1..j]) && EmailRun(s[j + 1..])
    ensures k != i && k != j ==> EmailChar(s[k])
  {
    if k < i {
      assert s[k] == s[..i][k];
    } else if i < k < j {
      assert s[k] == s[i + 1..j][k - (i + 1)];
    } else if j < k {
      assert s[k] == s[j + 1..][k - (j + 1)];
    }
  }

  /** A non-empty stretch of e-mail characters is a run. */
  lemma SliceIsRun(s: string, lo: int, hi: int)
    requires 0 <= lo < hi <= |s|
    requires forall k | lo <= k < hi :: EmailChar(s[k])
    ensures EmailRun(s[lo..hi])
  {
    var t := s[lo..hi];
    forall k | 0 <= k < |t| ensures EmailChar(t[k]) {
      assert t[k] == s[lo + k];
    }
  }

  lemma MatchesEmailIsWellFormed(s: string)
    requires MatchesEmail(s)
    ensures EmailWellFormed(s)
  {
    var i, j :| 0 < i < j < |s| && s[i] == '@' && s[j] == '.'
      && EmailRun(s[..i]) && EmailRun(s[i + 1..j]) && EmailRun(s[j + 1..]);
    forall k | 0 <= k < |s|
      ensures !IsWhitespace(s[k]) && (s[k] == '@' ==> k == i)
    {
      EmailRunsCover(s, i, j, k);
    }
    var d := s[i + 1..];
    assert d[j - (i + 1)] == '.';
    assert DotInside(d);
  }

  lemma WellFormedEmailMatches(s: string)
    requires EmailWellFormed(s)
    ensures MatchesEmail(s)
  {
    var i :| 0 < i < |s| && s[i] == '@' && (forall k | 0 <= k < |s| && s[k] == '@' :: k == i) && DotInside(s[i + 1..]);
    var d := s[i + 1..];
    var dot :| 0 < dot < |d| - 1 && d[dot] == '.';
    var j := i + 1 + dot;
    assert s[j] == '.';
    forall k | 0 <= k < |s| && k != i
      ensures EmailChar(s[k])
    {
    }
    SliceIsRun(s, 0, i);
    SliceIsRun(s, i + 1, j);
    SliceIsRun(s, j + 1, |s|);
    assert s[0..i] == s[..i] && s[j + 1..|s|] == s[j + 1..];
  }

  /** EMAIL_REGEX accepts exactly the addresses with no white space, one
      '@' with something before it, and a dot strictly inside the domain. */
  lemma EmailShape(s: string)
    ensures MatchesEmail(s) <==> EmailWellFormed(s)
  {
    if MatchesEmail(s) {
      MatchesEmailIsWellFormed(s);
    }
    if EmailWellFormed(s) {
      WellFormedEmailMatches(s);
    }
  }

  // ----- PASSWORD_REGEX: ^(?=.*[a-z])(?=.*[A-Z])(?=.*\d)(?=.*[@$!%*?&])[A-Za-z\d@$!%*?&]{8,}$ -----

  /** `[A-Za-z\d@$!%*?&]`. */
  predicate PasswordChar(c: char) {
    IsLower(c) || IsUpper(c) || IsDigit(c) || IsSpecial(c)
  }

  /** `(?=.*[...])` at the start: a character of the class follows a run of
      characters that `.` matches, i.e. with no line terminator before it. */
  predicate LookaheadFinds(s: string, cls: CharClass) {
    exists i | 0 <= i < |s| :: InClass(cls, s[i]) && forall k | 0 <= k < i :: !IsLineTerminator(s[k])
  }

  /** The pattern as written: four lookaheads, then eight or more allowed
      characters. Without the `u` flag `{8,}` counts UTF-16 code units, but
      every allowed character is a single unit, so `|s|` counts the same. */
  predicate MatchesPassword(s: string) {
    && LookaheadFinds(s, Lower) && LookaheadFinds(s, Upper)
    && LookaheadFinds(s, Digit) && LookaheadFinds(s, Special)
    && |s| >= 8 && forall k | 0 <= k < |s| :: PasswordChar(s[k])
  }

  /** Over allowed characters alone, a lookahead finds exactly what the string contains. */
  lemma LookaheadIsContains(s: string, cls: CharClass)
    requires forall k | 0 <= k < |s| :: PasswordChar(s[k])
    ensures LookaheadFinds(s, cls) <==> Contains(s, cls)
  {
    if Contains(s, cls) {
      var i :| 0 <= i < |s| && InClass(cls, s[i]);
      assert forall k | 0 <= k < i :: !IsLineTerminator(s[k]) by {
        forall k | 0 <= k < i ensures !IsLineTerminator(s[k]) {
          assert PasswordChar(s[k]);
        }
      }
    }
  }

  /** PASSWORD_REGEX accepts exactly the strings of at least 8 characters,
      all letters, digits or @$!%*?&, with at least one lower-case letter,
      one upper-case letter, one digit and one special character. */
  lemma PasswordShape(s: string)
    ensures MatchesPassword(s) <==>
      && |s| >= 8 && (forall k | 0 <= k < |s| :: PasswordChar(s[k]))
      && Contains(s, Lower) && Contains(s, Upper) && Contains(s, Digit) && Contains(s, Special)
  {
    if forall k | 0 <= k < |s| :: PasswordChar(s[k]) {
      LookaheadIsContains(s, Lower);
      LookaheadIsContains(s, Upper);
      LookaheadIsContains(s, Digit);
      LookaheadIsContains(s, Special);
    }
  }

  // ----- PHONE_REGEX: ^\+?[\d\s\-()]{10,}$ -----

  /** `[\d\s\-()]`. */
  predicate PhoneChar(c: char) {
    IsDigit(c) || IsWhitespace(c) || c == '-' || c == '(' || c == ')'
  }

  predicate AllPhoneChars(t: string) {
    forall k | 0 <= k < |t| :: PhoneChar(t[k])
  }

  /** The pattern as written: without the optional '+', or with it. */
  predicate MatchesPhone(s: string) {
    || (|s| >= 10 && AllPhoneChars(s))
    || (|s| >= 11 && s[0] == '+' && AllPhoneChars(s[1..]))
  }

  /** The number without its leading '+', if it has one. */
  function PhoneBody(s: string): (body: string)
    ensures |s| > 0 && s[0] == '+' ==> s == "+" + body
    ensures !(|s| > 0 && s[0] == '+') ==> s == body
  {
    if |s| > 0 && s[0] == '+' then s[1..] else s
  }

  /** PHONE_REGEX accepts exactly the strings whose part after a leading
      '+' (if any) is ten or more digits, white space, '-', '(' or ')';
      the '+' is never itself one of those, so there is only one way to match. */
  lemma PhoneShape(s: string)
    ensures MatchesPhone(s) <==> |PhoneBody(s)| >= 10 && AllPhoneChars(PhoneBody(s))
  {
    if |s| > 0 && s[0] == '+' {
      assert !PhoneChar(s[0]);
    }
  }

  /** The class admits white space, so ten spaces pass as a phone number. */
  lemma BlankPhoneMatches()
    ensures MatchesPhone("          ")
  {
    var blank := "          ";
    forall k | 0 <= k < |blank| ensures PhoneChar(blank[k]) {
      assert blank[k] == ' ';
    }
  }

  // ----- USERNAME_REGEX: ^[a-zA-Z0-9_]{3,20}$ -----

  /** `[a-zA-Z0-9_]`. */
  predicate UsernameChar(c: char) {
    IsLower(c) || IsUpper(c) || IsDigit(c) || c == '_'
  }

  predicate MatchesUsername(s: string) {
    3 <= |s| <= 20 && forall k | 0 <= k < |s| :: UsernameChar(s[k])
  }

  // ----- The validators -----

  /** `validateEmail`: Required for an empty field, otherwise no error exactly
      when the address is well formed. */
  function ValidateEmail(email: string): (r: Option<ValidationError>)
    ensures r == Some(Required) <==> email == []
    ensures email != [] ==> (r == None <==> EmailWellFormed(email)) && (r != None ==> r == Some(EmailInvalid))
  {
    EmailShape(email);
    if email == [] then Some(Required)
    else if !MatchesEmail(email) then Some(EmailInvalid)
    else None
  }

  /** `validatePassword`: Required for an empty field, otherwise no error
      exactly when the password has the length, the alphabet and the mix of
      classes PASSWORD_REGEX demands. */
  function ValidatePassword(password: string): (r: Option<ValidationError>)
    ensures r == Some(Required) <==> password == []
    ensures password != [] ==>
      && (r == None <==>
            && |password| >= 8 && (forall k | 0 <= k < |password| :: PasswordChar(password[k]))
            && Contains(password, Lower) && Contains(password, Upper)
            && Contains(password, Digit) && Contains(password, Special))
      && (r != None ==> r == Some(PasswordWeak))
  {
    PasswordShape(password);
    if password == [] then Some(Required)
    else if !MatchesPassword(password) then Some(PasswordWeak)
    else None
  }

  /** `validateConfirmPassword`: Required for an empty confirmation (even if
      the password is empty too), otherwise a mismatch exactly when the two differ. */
  function ValidateConfirmPassword(password: string, confirmPassword: string): (r: Option<ValidationError>)
    ensures r == None <==> confirmPassword != [] && confirmPassword == password
    ensures r == Some(Required) <==> confirmPassword == []
    ensures r == Some(PasswordMismatch) <==> confirmPassword != [] && confirmPassword != password
  {
    if confirmPassword == [] then Some(Required)
    else if password != confirmPassword then Some(PasswordMismatch)
    else None
  }

  /** `validatePhoneNumber`: Required for an empty field, otherwise no error
      exactly when the number is an optional '+' and ten or more phone characters. */
  function ValidatePhoneNumber(phone: string): (r: Option<ValidationError>)
    ensures r == Some(Required) <==> phone == []
    ensures phone != [] ==>
      && (r == None <==> |PhoneBody(phone)| >= 10 && AllPhoneChars(PhoneBody(phone)))
      && (r != None ==> r == Some(PhoneInvalid))
  {
    PhoneShape(phone);
    if phone == [] then Some(Required)
    else if !MatchesPhone(phone) then Some(PhoneInvalid)
    else None
  }

  /** `validateUsername`: Required for an empty field, otherwise no error
      exactly when the name has 3 to 20 letters, digits or underscores. */
  function ValidateUsername(username: string): (r: Option<ValidationError>)
    ensures r == Some(Required) <==> username == []
    ensures username != [] ==>
      && (r == None <==> 3 <= |username| <= 20 && forall k | 0 <= k < |username| :: UsernameChar(username[k]))
      && (r != None ==> r == Some(UsernameInvalid))
  {
    if username == [] then Some(Required)
    else if !MatchesUsername(username) then Some(UsernameInvalid)
    else None
  }

  /** A username that passes has no '@', so it is never also a valid e-mail
      address: the two keys registration files a user under are distinct. */
  lemma UsernameIsNeverEmail(username: string, email: string)
    requires ValidateUsername(username) == None && ValidateEmail(email) == None
    ensures username != email
  {
    var i :| 0 < i < |email| && email[i] == '@'
      && (forall k | 0 <= k < |email| && email[k] == '@' :: k == i) && DotInside(email[i + 1..]);
    assert !UsernameChar(email[i]);
  }

  /** The value `validateRequired` takes: a text field or a check box. */
  datatype FieldValue = Text(text: string) | Flag(checked: bool)

  /** `validateRequired`: Required exactly for the falsy values, the empty
      text and the unchecked box. */
  function ValidateRequired(value: FieldValue): (r: Option<ValidationError>)
    ensures r == None || r == Some(Required)
    ensures r == Some(Required) <==> value == Text([]) || value == Flag(false)
  {
    match value
    case Text(text) => if text == [] then Some(Required) else None
    case Flag(checked) => if !checked then Some(Required) else None
  }

  // ----- Password strength -----

  /** The five things the strength meter looks for. */
  datatype Criterion = LongEnough | Has(cls: CharClass)

  const AllCriteria: set<Criterion> := {LongEnough, Has(Lower), Has(Upper), Has(Digit), Has(Special)}

  /** The length criterion is `password.length`, in UTF-16 code units. */
  predicate Meets(password: string, c: Criterion) {
    match c
    case LongEnough => Utf16Length(password) >= 8
    case Has(cls) => Contains(password, cls)
  }

  /** The criteria `password` meets. */
  function Satisfied(password: string): (met: set<Criterion>)
    ensures met <= AllCriteria
    ensures forall c | c in AllCriteria :: c in met <==> Meets(password, c)
  {
    set c | c in AllCriteria && Meets(password, c)
  }

  lemma AllCriteriaCount()
    ensures |AllCriteria| == 5
  {
  }

  /** One point if `b` holds. */
  function Point(b: bool): nat {
    if b then 1 else 0
  }

  /** `met` with `c` recorded when it holds. */
  function Record(met: set<Criterion>, c: Criterion, holds: bool): set<Criterion> {
    if holds then met + {c} else met
  }

  /** Recording a criterion not yet among the checked ones adds one point
      when it holds. */
  lemma CountStep(met: set<Criterion>, checked: set<Criterion>, c: Criterion, holds: bool)
    requires c !in checked && met <= checked
    ensures var next := Record(met, c, holds);
      && |next| == |met| + Point(holds) && next <= checked + {c}
  {
  }

  /** A set of criteria that records each criterion exactly when it is met
      is the set of satisfied criteria. */
  lemma SatisfiedByCriterion(password: string, met: set<Criterion>)
    requires met <= AllCriteria
    requires LongEnough in met <==> Utf16Length(password) >= 8
    requires Has(Lower) in met <==> Contains(password, Lower)
    requires Has(Upper) in met <==> Contains(password, Upper)
    requires Has(Digit) in met <==> Contains(password, Digit)
    requires Has(Special) in met <==> Contains(password, Special)
    ensures met == Satisfied(password)
  {
    forall c | c in AllCriteria
      ensures c in met <==> Meets(password, c)
    {
      match c
      case LongEnough =>
      case Has(cls) =>
    }
  }

  /** The criteria recorded by five yes/no answers, in the meter's order. */
  function CriteriaSet(long: bool, lower: bool, upper: bool, digit: bool, special: bool): set<Criterion> {
    var met1 := Record({}, LongEnough, long);
    var met2 := Record(met1, Has(Lower), lower);
    var met3 := Record(met2, Has(Upper), upper);
    Record(Record(met3, Has(Digit), digit), Has(Special), special)
  }

  /** Five answers record a criterion exactly when its answer is yes. */
  lemma CriteriaSetMembers(long: bool, lower: bool, upper: bool, digit: bool, special: bool)
    ensures var met := CriteriaSet(long, lower, upper, digit, special);
      && (LongEnough in met <==> long) && (Has(Lower) in met <==> lower) && (Has(Upper) in met <==> upper)
      && (Has(Digit) in met <==> digit) && (Has(Special) in met <==> special)
  {
  }

  /** Five answers record one criterion per yes. */
  lemma CriteriaSetSize(long: bool, lower: bool, upper: bool, digit: bool, special: bool)
    ensures var met := CriteriaSet(long, lower, upper, digit, special);
      && |met| == Point(long) + Point(lower) + Point(upper) + Point(digit) + Point(special)
      && met <= AllCriteria
  {
    CountStep({}, {}, LongEnough, long);
    var met1 := Record({}, LongEnough, long);
    CountStep(met1, {LongEnough}, Has(Lower), lower);
    var met2 := Record(met1, Has(Lower), lower);
    CountStep(met2, {LongEnough, Has(Lower)}, Has(Upper), upper);
    var met3 := Record(met2, Has(Upper), upper);
    CountStep(met3, {LongEnough, Has(Lower), Has(Upper)}, Has(Digit), digit);
    var met4 := Record(met3, Has(Digit), digit);
    CountStep(met4, {LongEnough, Has(Lower), Has(Upper), Has(Digit)}, Has(Special), special);
    assert CriteriaSet(long, lower, upper, digit, special) == Record(met4, Has(Special), special);
  }

  /** The number of satisfied criteria is one point per criterion met,
      counted in the order the meter checks them. */
  lemma SatisfiedCount(password: string)
    ensures |Satisfied(password)| ==
      Point(Utf16Length(password) >= 8) + Point(Contains(password, Lower)) + Point(Contains(password, Upper))
      + Point(Contains(password, Digit)) + Point(Contains(password, Special))
  {
    var long, lower, upper := Utf16Length(password) >= 8, Contains(password, Lower), Contains(password, Upper);
    var digit, special := Contains(password, Digit), Contains(password, Special);
    CriteriaSetSize(long, lower, upper, digit, special);
    CriteriaSetMembers(long, lower, upper, digit, special);
    SatisfiedByCriterion(password, CriteriaSet(long, lower, upper, digit, special));
  }

  datatype StrengthLabel = Weak | Medium | Strong

  /** `getPasswordStrength`: one point per criterion met, checked one after
      another; Weak up to 2 points, Medium at 3, Strong from 4. The colour
      that goes with each label is not modelled. */
  method GetPasswordStrength(password: string) returns (strength: nat, verdict: StrengthLabel)
    ensures strength == |Satisfied(password)| && strength <= 5
    ensures verdict == Weak <==> strength <= 2
    ensures verdict == Medium <==> strength == 3
    ensures verdict == Strong <==> strength >= 4
  {
    strength := 0;
    if Utf16Length(password) >= 8 {
      strength := strength + 1;
    }
    if Contains(password, Lower) {
      strength := strength + 1;
    }
    if Contains(password, Upper) {
      strength := strength + 1;
    }
    if Contains(password, Digit) {
      strength := strength + 1;
    }
    if Contains(password, Special) {
      strength := strength + 1;
    }
    SatisfiedCount(password);
    AllCriteriaCount();

    if strength <= 2 {
      return strength, Weak;
    }
    if strength <= 3 {
      return strength, Medium;
    }
    return strength, Strong;
  }

  /** Every password `validatePassword` accepts meets all five criteria, so
      the meter gives it the full 5 points (and so the Strong label). */
  lemma AcceptedPasswordIsStrong(password: string)
    requires ValidatePassword(password) == None
    ensures Satisfied(password) == AllCriteria && |Satisfied(password)| == 5
  {
    assert forall k | 0 <= k < |password| :: PasswordChar(password[k]);
    Utf16LengthOfBmp(password);
    AllCriteriaCount();
  }

  /** Length is counted in code units: "aA" and three U+1F600 is long
      enough, with a lower-case and an upper-case letter, so it scores 3
      (Medium), though it has only five characters. */
  lemma AstralPasswordScoresThree()
    ensures |Satisfied("aA\U{1F600}\U{1F600}\U{1F600}")| == 3
  {
    var p := "aA\U{1F600}\U{1F600}\U{1F600}";
    AstralCharsCountTwice();
    assert InClass(Lower, p[0]) && InClass(Upper, p[1]);
    assert !Contains(p, Digit) && !Contains(p, Special) by {
      assert forall k | 0 <= k < |p| :: p[k] == 'a' || p[k] == 'A' || p[k] == '\U{1F600}';
    }
    SatisfiedCount(p);
  }

  /** Each validator reports Required for the empty field before looking
      at its format, and `validateRequired` does so for an unchecked box. */
  lemma EmptyFieldIsRequired()
    ensures ValidateEmail([]) == Some(Required) && ValidatePassword([]) == Some(Required)
    ensures ValidatePhoneNumber([]) == Some(Required) && ValidateUsername([]) == Some(Required)
    ensures forall password :: ValidateConfirmPassword(password, []) == Some(Required)
    ensures ValidateRequired(Text([])) == Some(Required) && ValidateRequired(Flag(false)) == Some(Required)
  {
  }
}
