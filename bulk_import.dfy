/**
 * The bulk user-import pipeline of `client/src/components/AdminDashboard.jsx`:
 * turning each parsed spreadsheet row into a candidate user, validating it
 * (`validateUserData`), and collecting every violation in row order.
 */
module BulkImport {
  import opened Text

  /** One parsed spreadsheet row: column header to cell text. */
  type Row = map<string, string>

  /** A user about to be created, as it is sent to the server. */
  datatype CandidateUser = CandidateUser(username: string, email: string, password: string, phone: string, role: string)

  /** `String(row[key] || "").trim()`: a missing cell reads as the empty string. */
  function Cell(row: Row, key: string): (r: string)
    ensures Trimmed(r)
    ensures key !in row ==> r == ""
  {
    Trim(if key in row then row[key] else "")
  }

  /** The row mapping of `handleExcelUpload`: every field is the trimmed cell text
      (empty for a missing cell), the email is also lower-cased, and the role is
      always "user", whatever the row says. */
  function NormaliseRow(row: Row): (u: CandidateUser)
    ensures u.role == "user"
    ensures Trimmed(u.username) && Trimmed(u.email) && Trimmed(u.password) && Trimmed(u.phone)
  {
    var email := Cell(row, "email");
    ToLowerKeepsTrimmed(email);
    CandidateUser(Cell(row, "username"), ToLower(email), Cell(row, "password"), Cell(row, "phone"), "user")
  }

  /** The normalised email holds no upper-case ASCII letter. */
  lemma NormalisedEmailIsLower(row: Row)
    ensures forall k :: 0 <= k < |NormaliseRow(row).email| ==> !IsUpperAscii(NormaliseRow(row).email[k])
  {
  }

  /** A missing cell becomes the empty string, never an error. */
  lemma MissingCellsAreEmpty(row: Row)
    ensures "username" !in row ==> NormaliseRow(row).username == ""
    ensures "email" !in row ==> NormaliseRow(row).email == ""
    ensures "password" !in row ==> NormaliseRow(row).password == ""
    ensures "phone" !in row ==> NormaliseRow(row).phone == ""
  {
  }

  /** The JSON object the server receives for a candidate user. */
  function ToRecord(u: CandidateUser): map<string, string>
  {
    map["username" := u.username, "email" := u.email, "password" := u.password,
        "phone" := u.phone, "role" := u.role]
  }

  /** Normalising is stable: reading back the record of a normalised row gives the
      same user, so the normalised batch is a fixed point of the row mapping. */
  lemma NormaliseRowStable(row: Row)
    ensures NormaliseRow(ToRecord(NormaliseRow(row))) == NormaliseRow(row)
  {
    var u := NormaliseRow(row);
    ToLowerIdempotent(Cell(row, "email"));
    NormalisedUserStable(u);
  }

  lemma NormalisedUserStable(u: CandidateUser)
    requires Trimmed(u.username) && Trimmed(u.email) && Trimmed(u.password) && Trimmed(u.phone)
    requires ToLower(u.email) == u.email && u.role == "user"
    ensures NormaliseRow(ToRecord(u)) == u
  {
    RecordFields(u);
    CellOfTrimmed(ToRecord(u), "username", u.username);
    CellOfTrimmed(ToRecord(u), "email", u.email);
    CellOfTrimmed(ToRecord(u), "password", u.password);
    CellOfTrimmed(ToRecord(u), "phone", u.phone);
  }

  lemma RecordFields(u: CandidateUser)
    ensures var rec := ToRecord(u);
            && "username" in rec && rec["username"] == u.username
            && "email" in rec && rec["email"] == u.email
            && "password" in rec && rec["password"] == u.password
            && "phone" in rec && rec["phone"] == u.phone
  {
  }

  lemma CellOfTrimmed(row: Row, key: string, v: string)
    requires key in row && row[key] == v && Trimmed(v)
    ensures Cell(row, key) == v
  {
    TrimOfTrimmed(v);
  }

  // ---------------------------------------------------------------------------
  // The email rule

  /** `[^\s@]`: a character that is neither white space nor `@`. */
  predicate EmailChar(c: char)
  {
    !IsWhitespace(c) && c != '@'
  }

  predicate EmailChars(s: string)
  {
    forall k :: 0 <= k < |s| ==> EmailChar(s[k])
  }

  /** `s` splits at `i` and `j` as `^[^\s@]+@[^\s@]+\.[^\s@]+$` demands: a non-empty
      run, `@` at `i`, a non-empty run, `.` at `j`, and a non-empty run, none of the
      runs holding white space or `@`. */
  predicate EmailSplit(s: string, i: int, j: int)
  {
    && 0 < i && i + 1 < j && j + 1 < |s|
    && s[i] == '@' && s[j] == '.'
    && EmailChars(s[..i]) && EmailChars(s[i + 1..j]) && EmailChars(s[j + 1..])
  }

  /** The regular expression `^[^\s@]+@[^\s@]+\.[^\s@]+$`, read as written. */
  ghost predicate MatchesEmailPattern(s: string)
  {
    exists i, j :: EmailSplit(s, i, j)
  }

  /** The position of the first `c` in `s`, or `|s|` when there is none. */
  function IndexOf(s: string, c: char): (i: nat)
    ensures i <= |s|
    ensures i < |s| ==> s[i] == c
    ensures forall k :: 0 <= k < i ==> s[k] != c
  {
    if s == [] then 0
    else if s[0] == c then 0
    else 1 + IndexOf(s[1..], c)
  }

  /** A domain with a `.` that is neither its first nor its last character. */
  predicate HasInnerDot(d: string)
  {
    |d| >= 3 && '.' in d[1..|d| - 1]
  }

  /** The email test the model computes: no white space, exactly one `@` with a
      non-empty part before it, and a domain after it with an inner `.`. */
  predicate ValidEmail(s: string)
  {
    && NoWhitespace(s)
    && var i := IndexOf(s, '@');
       0 < i < |s| && '@' !in s[i + 1..] && HasInnerDot(s[i + 1..])
  }

  /** The computed test accepts exactly the strings the regular expression matches. */
  lemma EmailPatternIff(s: string)
    ensures MatchesEmailPattern(s) <==> ValidEmail(s)
  {
    if MatchesEmailPattern(s) {
      var i, j :| EmailSplit(s, i, j);
      MatchImpliesValid(s, i, j);
    }
    if ValidEmail(s) {
      var i := IndexOf(s, '@');
      var d := s[i + 1..];
      var m :| 0 <= m < |d| - 2 && d[1..|d| - 1][m] == '.';
      var j := i + 2 + m;
      ValidImpliesMatch(s, i, j);
    }
  }

  lemma MatchImpliesValid(s: string, i: int, j: int)
    requires EmailSplit(s, i, j)
    ensures ValidEmail(s)
  {
    assert forall k :: 0 <= k < i ==> s[..i][k] == s[k];
    assert forall k :: i + 1 <= k < j ==> s[i + 1..j][k - i - 1] == s[k];
    assert forall k :: j + 1 <= k < |s| ==> s[j + 1..][k - j - 1] == s[k];
    assert IndexOf(s, '@') == i;
    var d := s[i + 1..];
    assert d[1..|d| - 1][j - i - 2] == '.';
  }

  lemma ValidImpliesMatch(s: string, i: int, j: int)
    requires ValidEmail(s) && i == IndexOf(s, '@')
    requires i + 1 < j && j + 1 < |s| && s[j] == '.'
    ensures EmailSplit(s, i, j)
  {
    var d := s[i + 1..];
    assert '@' !in d;
    forall k | i + 1 <= k < |s|
      ensures s[k] != '@'
    {
      assert s[k] == d[k - i - 1];
    }
    SliceOfEmailChars(s, 0, i);
    SliceOfEmailChars(s, i + 1, j);
    SliceOfEmailChars(s, j + 1, |s|);
  }

  lemma SliceOfEmailChars(s: string, lo: int, hi: int)
    requires 0 <= lo <= hi <= |s| && NoWhitespace(s)
    requires forall k :: lo <= k < hi ==> s[k] != '@'
    ensures EmailChars(s[lo..hi])
  {
    assert forall k :: 0 <= k < hi - lo ==> s[lo..hi][k] == s[lo + k];
  }

  // ---------------------------------------------------------------------------
  // validateUserData

  /** The four checks, in the order `validateUserData` makes them. */
  datatype Rule = UsernameRule | EmailRule | PasswordRule | PhoneRule

  function Rank(rule: Rule): nat
  {
    match rule
    case UsernameRule => 0
    case EmailRule => 1
    case PasswordRule => 2
    case PhoneRule => 3
  }

  /** The guard of each check, with JavaScript's falsy empty string spelled out. */
  predicate Violates(u: CandidateUser, rule: Rule)
  {
    match rule
    case UsernameRule => u.username == "" || |u.username| < 3 || |u.username| > 50
    case EmailRule => u.email == "" || !ValidEmail(u.email)
    case PasswordRule => u.password == "" || |u.password| < 8
    case PhoneRule => u.phone == ""
  }

  /** `Row ${index + 1}: ` */
  function RowLabel(index: nat): string
  {
    "Row " + NatToString(index + 1) + ": "
  }

  function RuleText(rule: Rule): string
  {
    match rule
    case UsernameRule => "Username must be between 3 and 50 characters"
    case EmailRule => "Invalid email format"
    case PasswordRule => "Password must be at least 8 characters long"
    case PhoneRule => "Phone number is required"
  }

  function Message(index: nat, rule: Rule): string
  {
    RowLabel(index) + RuleText(rule)
  }

  /** `a` occurs in `xs` before `b` does. */
  predicate Before(xs: seq<string>, a: string, b: string)
  {
    exists i, j :: 0 <= i < j < |xs| && xs[i] == a && xs[j] == b
  }

  /** No message occurs twice in `xs`. */
  predicate NoRepeats(xs: seq<string>)
  {
    forall i, j :: 0 <= i < j < |xs| ==> xs[i] != xs[j]
  }

  /** The message list of one check: its message if the check failed. */
  function Check(failed: bool, message: string): seq<string>
  {
    if failed then [message] else []
  }

  /** The four checks' messages, in the order the checks are made, given each
      check's message and which checks failed. */
  function Collect(m1: string, m2: string, m3: string, m4: string, a: bool, b: bool, c: bool, d: bool): seq<string>
  {
    Check(a, m1) + Check(b, m2) + Check(c, m3) + Check(d, m4)
  }

  /** The one of four values that belongs to `rule`. */
  function Select<T>(rule: Rule, username: T, email: T, password: T, phone: T): T
  {
    match rule
    case UsernameRule => username
    case EmailRule => email
    case PasswordRule => password
    case PhoneRule => phone
  }

  /** A user that passes all four checks. */
  predicate Acceptable(u: CandidateUser)
  {
    !Violates(u, UsernameRule) && !Violates(u, EmailRule) && !Violates(u, PasswordRule) && !Violates(u, PhoneRule)
  }

  /** `validateUserData(user, index)`: at most four messages, none at all exactly
      when the user passes every check (the rest of its contract is
      `ValidateUserDataMeaning`). */
  function ValidateUserData(u: CandidateUser, index: nat): (errs: seq<string>)
    ensures |errs| <= 4
    ensures errs == [] <==> Acceptable(u)
  {
    Collect(Message(index, UsernameRule), Message(index, EmailRule), Message(index, PasswordRule), Message(index, PhoneRule),
            Violates(u, UsernameRule), Violates(u, EmailRule), Violates(u, PasswordRule), Violates(u, PhoneRule))
  }

  /** The message of a rule is present exactly when the user breaks that rule,
      every message is prefixed with the 1-based row number, and the messages come
      in the order username, email, password, phone. */
  lemma ValidateUserDataMeaning(u: CandidateUser, index: nat)
    ensures var errs := ValidateUserData(u, index);
            && (forall rule :: Message(index, rule) in errs <==> Violates(u, rule))
            && (forall k :: 0 <= k < |errs| ==> RowLabel(index) <= errs[k])
            && (forall r1, r2 :: Violates(u, r1) && Violates(u, r2) && Rank(r1) < Rank(r2) ==>
                  Before(errs, Message(index, r1), Message(index, r2)))
  {
    var m1, m2, m3, m4 := Message(index, UsernameRule), Message(index, EmailRule), Message(index, PasswordRule), Message(index, PhoneRule);
    var a, b, c, d := Violates(u, UsernameRule), Violates(u, EmailRule), Violates(u, PasswordRule), Violates(u, PhoneRule);
    forall rule ensures Violates(u, rule) == Select(rule, a, b, c, d) && Message(index, rule) == Select(rule, m1, m2, m3, m4) {
      match rule
      case UsernameRule =>
      case EmailRule =>
      case PasswordRule =>
      case PhoneRule =>
    }
    MessagesDistinct(index);
    MessageLabelled(index, UsernameRule);
    MessageLabelled(index, EmailRule);
    MessageLabelled(index, PasswordRule);
    MessageLabelled(index, PhoneRule);
    CollectPresent(m1, m2, m3, m4, a, b, c, d);
    CollectLabelled(RowLabel(index), m1, m2, m3, m4, a, b, c, d);
    CollectInOrder(m1, m2, m3, m4, a, b, c, d);
  }

  /** Nothing else is collected for a row: every message is the message of a check
      the user fails, and no message occurs twice. */
  lemma ValidateUserDataNothingElse(u: CandidateUser, index: nat)
    ensures var errs := ValidateUserData(u, index);
            && (forall m :: m in errs ==> exists rule :: m == Message(index, rule) && Violates(u, rule))
            && NoRepeats(errs)
  {
    var m1, m2, m3, m4 := Message(index, UsernameRule), Message(index, EmailRule), Message(index, PasswordRule), Message(index, PhoneRule);
    var a, b, c, d := Violates(u, UsernameRule), Violates(u, EmailRule), Violates(u, PasswordRule), Violates(u, PhoneRule);
    var errs := ValidateUserData(u, index);
    assert errs == Collect(m1, m2, m3, m4, a, b, c, d);
    forall m | m in errs ensures exists rule :: m == Message(index, rule) && Violates(u, rule) {
      InCollect(m, m1, m2, m3, m4, a, b, c, d);
      if a && m == m1 {
        assert m == Message(index, UsernameRule);
      } else if b && m == m2 {
        assert m == Message(index, EmailRule);
      } else if c && m == m3 {
        assert m == Message(index, PasswordRule);
      } else {
        assert m == Message(index, PhoneRule);
      }
    }
    MessagesDistinct(index);
    CollectNoRepeats(m1, m2, m3, m4, a, b, c, d);
  }

  /** With distinct messages, a rule's message is collected exactly when its check
      failed. */
  lemma CollectPresent(m1: string, m2: string, m3: string, m4: string, a: bool, b: bool, c: bool, d: bool)
    requires m1 != m2 && m1 != m3 && m1 != m4 && m2 != m3 && m2 != m4 && m3 != m4
    ensures forall rule :: Select(rule, m1, m2, m3, m4) in Collect(m1, m2, m3, m4, a, b, c, d) <==> Select(rule, a, b, c, d)
  {
    forall rule
      ensures Select(rule, m1, m2, m3, m4) in Collect(m1, m2, m3, m4, a, b, c, d) <==> Select(rule, a, b, c, d)
    {
      match rule
      case UsernameRule => InCollect(m1, m1, m2, m3, m4, a, b, c, d);
      case EmailRule => InCollect(m2, m1, m2, m3, m4, a, b, c, d);
      case PasswordRule => InCollect(m3, m1, m2, m3, m4, a, b, c, d);
      case PhoneRule => InCollect(m4, m1, m2, m3, m4, a, b, c, d);
    }
  }

  /** A message is collected exactly when it is the message of a failed check. */
  lemma InCollect(x: string, m1: string, m2: string, m3: string, m4: string, a: bool, b: bool, c: bool, d: bool)
    ensures x in Collect(m1, m2, m3, m4, a, b, c, d) <==> (a && x == m1) || (b && x == m2) || (c && x == m3) || (d && x == m4)
  {
    assert Collect(m1, m2, m3, m4, a, b, c, d) == Check(a, m1) + Check(b, m2) + Check(c, m3) + Check(d, m4);
  }

  /** Four distinct messages are collected at most once each. */
  lemma CollectNoRepeats(m1: string, m2: string, m3: string, m4: string, a: bool, b: bool, c: bool, d: bool)
    requires m1 != m2 && m1 != m3 && m1 != m4 && m2 != m3 && m2 != m4 && m3 != m4
    ensures NoRepeats(Collect(m1, m2, m3, m4, a, b, c, d))
  {
    var one, two, three := Check(a, m1), Check(a, m1) + Check(b, m2), Check(a, m1) + Check(b, m2) + Check(c, m3);
    ConcatNoRepeats(one, Check(b, m2));
    assert forall x :: x in two ==> x == m1 || x == m2;
    ConcatNoRepeats(two, Check(c, m3));
    assert forall x :: x in three ==> x == m1 || x == m2 || x == m3;
    ConcatNoRepeats(three, Check(d, m4));
  }

  /** Two lists without repeats and without a common message concatenate into a
      list without repeats. */
  lemma ConcatNoRepeats(xs: seq<string>, ys: seq<string>)
    requires NoRepeats(xs) && NoRepeats(ys)
    requires forall x :: x in xs ==> x !in ys
    ensures NoRepeats(xs + ys)
  {
    var zs := xs + ys;
    forall i, j | 0 <= i < j < |zs| ensures zs[i] != zs[j] {
      if j < |xs| {
        assert zs[i] == xs[i] && zs[j] == xs[j];
      } else if i >= |xs| {
        assert zs[i] == ys[i - |xs|] && zs[j] == ys[j - |xs|];
      } else {
        assert zs[i] == xs[i] && xs[i] in xs;
        assert zs[j] == ys[j - |xs|] && ys[j - |xs|] in ys;
      }
    }
  }

  /** A prefix shared by the four messages is shared by every collected message. */
  lemma CollectLabelled(prefix: string, m1: string, m2: string, m3: string, m4: string, a: bool, b: bool, c: bool, d: bool)
    requires prefix <= m1 && prefix <= m2 && prefix <= m3 && prefix <= m4
    ensures forall k :: 0 <= k < |Collect(m1, m2, m3, m4, a, b, c, d)| ==> prefix <= Collect(m1, m2, m3, m4, a, b, c, d)[k]
  {
    var errs := Collect(m1, m2, m3, m4, a, b, c, d);
    forall k | 0 <= k < |errs| ensures prefix <= errs[k] {
      assert errs[k] in errs;
    }
  }

  /** How many checks before `rule` failed: the place of `rule`'s message. */
  function Position(rule: Rule, a: bool, b: bool, c: bool): nat
  {
    (if Rank(rule) > 0 && a then 1 else 0)
    + (if Rank(rule) > 1 && b then 1 else 0)
    + (if Rank(rule) > 2 && c then 1 else 0)
  }

  lemma MessageAt(m1: string, m2: string, m3: string, m4: string, a: bool, b: bool, c: bool, d: bool, rule: Rule)
    requires Select(rule, a, b, c, d)
    ensures var errs := Collect(m1, m2, m3, m4, a, b, c, d);
            Position(rule, a, b, c) < |errs| && errs[Position(rule, a, b, c)] == Select(rule, m1, m2, m3, m4)
  {
  }

  /** The messages of two failed checks come in the order of the checks. */
  lemma CollectInOrder(m1: string, m2: string, m3: string, m4: string, a: bool, b: bool, c: bool, d: bool)
    ensures forall r1, r2 :: Select(r1, a, b, c, d) && Select(r2, a, b, c, d) && Rank(r1) < Rank(r2) ==>
              Before(Collect(m1, m2, m3, m4, a, b, c, d), Select(r1, m1, m2, m3, m4), Select(r2, m1, m2, m3, m4))
  {
    var errs := Collect(m1, m2, m3, m4, a, b, c, d);
    forall r1, r2 | Select(r1, a, b, c, d) && Select(r2, a, b, c, d) && Rank(r1) < Rank(r2)
      ensures Before(errs, Select(r1, m1, m2, m3, m4), Select(r2, m1, m2, m3, m4))
    {
      MessageAt(m1, m2, m3, m4, a, b, c, d, r1);
      MessageAt(m1, m2, m3, m4, a, b, c, d, r2);
      assert Position(r1, a, b, c) < Position(r2, a, b, c);
    }
  }

  /** Different checks give different messages (their texts differ in length). */
  lemma MessagesDistinct(index: nat)
    ensures forall r1, r2 :: r1 != r2 ==> Message(index, r1) != Message(index, r2)
  {
    forall r1, r2 | r1 != r2 ensures Message(index, r1) != Message(index, r2) {
      assert |RuleText(r1)| != |RuleText(r2)|;
    }
  }

  /** Every message starts with its row label. */
  lemma MessageLabelled(index: nat, rule: Rule)
    ensures RowLabel(index) <= Message(index, rule)
  {
    assert Message(index, rule)[..|RowLabel(index)|] == RowLabel(index);
  }

  /** What each check accepts once JavaScript's redundant emptiness tests are folded
      away: a username of 3 to 50 characters, an email the regular expression
      matches, a password of at least 8 characters, and any non-empty phone. */
  lemma RuleMeaning(u: CandidateUser)
    ensures Violates(u, UsernameRule) <==> !(3 <= |u.username| <= 50)
    ensures Violates(u, EmailRule) <==> !MatchesEmailPattern(u.email)
    ensures Violates(u, PasswordRule) <==> |u.password| < 8
    ensures Violates(u, PhoneRule) <==> u.phone == ""
  {
    EmailPatternIff(u.email);
  }

  /** `"a@b.com"` is a valid email. */
  lemma ValidEmailExample()
    ensures ValidEmail("a@b.com")
  {
    var s := "a@b.com";
    assert s[..1] == "a" && s[2..3] == "b" && s[4..] == "com";
    MatchImpliesValid(s, 1, 3);
  }

  /** `"not-an-email"` has no `@`, so it is not a valid email. */
  lemma InvalidEmailExample()
    ensures !ValidEmail("not-an-email")
  {
    var s := "not-an-email";
    assert '@' !in s;
  }

  /** A row with username "abcde", email "a@b.com", password "longenough1" and phone
      "1234567890" passes every check. */
  lemma WellFormedRowPasses(index: nat)
    ensures ValidateUserData(CandidateUser("abcde", "a@b.com", "longenough1", "1234567890", "user"), index) == []
  {
    ValidEmailExample();
  }

  // ---------------------------------------------------------------------------
  // The whole sheet

  /** The concatenation, in row order, of every row's messages. */
  function AllViolations(users: seq<CandidateUser>): seq<string>
  {
    if users == [] then []
    else AllViolations(users[..|users| - 1]) + ValidateUserData(users[|users| - 1], |users| - 1)
  }

  /** Adding a row appends that row's messages. */
  lemma AllViolationsSnoc(users: seq<CandidateUser>, u: CandidateUser)
    ensures AllViolations(users + [u]) == AllViolations(users) + ValidateUserData(u, |users|)
  {
    assert (users + [u])[..|users|] == users;
  }

  /** Every user of the sheet passes every check. */
  predicate AllAcceptable(users: seq<CandidateUser>)
  {
    users == [] || (AllAcceptable(users[..|users| - 1]) && Acceptable(users[|users| - 1]))
  }

  /** The sheet has no violation exactly when every row passes every check. */
  lemma NoViolationsIff(users: seq<CandidateUser>)
    ensures AllViolations(users) == [] <==> forall k :: 0 <= k < |users| ==> Acceptable(users[k])
  {
    NoViolationsIffAll(users);
    AllAcceptableIff(users);
  }

  lemma {:induction false} NoViolationsIffAll(users: seq<CandidateUser>)
    ensures AllViolations(users) == [] <==> AllAcceptable(users)
  {
    if users != [] {
      NoViolationsIffAll(users[..|users| - 1]);
    }
  }

  lemma {:induction false} AllAcceptableIff(users: seq<CandidateUser>)
    ensures AllAcceptable(users) <==> forall k :: 0 <= k < |users| ==> Acceptable(users[k])
  {
    if users != [] {
      var n := |users| - 1;
      AllAcceptableIff(users[..n]);
      assert forall k :: 0 <= k < n ==> users[..n][k] == users[k];
    }
  }

  /** A row's message for a check is collected exactly when that row exists and
      fails the check (`ViolationsNamed` adds that nothing else is collected). */
  lemma {:induction false} ViolationsExact(users: seq<CandidateUser>, k: nat, rule: Rule)
    ensures Message(k, rule) in AllViolations(users) <==> k < |users| && Violates(users[k], rule)
  {
    if users != [] {
      var n := |users| - 1;
      var pre, u := users[..n], users[n];
      ViolationsExact(pre, k, rule);
      ValidateUserDataMeaning(u, n);
      var last := ValidateUserData(u, n);
      assert AllViolations(users) == AllViolations(pre) + last;
      if k < n {
        assert pre[k] == users[k];
      }
      if k != n && Message(k, rule) in last {
        var i :| 0 <= i < |last| && last[i] == Message(k, rule);
        LabelDeterminesRow(n, k, rule);
      }
    }
  }

  /** `m` is the message of a check that some row of `users` fails. */
  predicate Named(users: seq<CandidateUser>, m: string)
  {
    exists k: nat, rule :: k < |users| && m == Message(k, rule) && Violates(users[k], rule)
  }

  /** Nothing but such messages is collected: every entry is the message of a check
      that a row of the sheet fails. */
  lemma {:induction false} ViolationsNamed(users: seq<CandidateUser>)
    ensures forall m :: m in AllViolations(users) ==> Named(users, m)
  {
    if users != [] {
      var n := |users| - 1;
      var pre, u := users[..n], users[n];
      ViolationsNamed(pre);
      ValidateUserDataNothingElse(u, n);
      var xs, ys := AllViolations(pre), ValidateUserData(u, n);
      assert AllViolations(users) == xs + ys;
      forall m | m in xs + ys ensures Named(users, m) {
        if m in xs {
          NamedInPrefix(pre, users, m);
        } else {
          var rule :| m == Message(n, rule) && Violates(u, rule);
          assert n < |users| && m == Message(n, rule) && Violates(users[n], rule);
        }
      }
    }
  }

  /** A message named by a prefix of the sheet is named by the sheet. */
  lemma NamedInPrefix(pre: seq<CandidateUser>, users: seq<CandidateUser>, m: string)
    requires pre <= users && Named(pre, m)
    ensures Named(users, m)
  {
    var k: nat, rule :| k < |pre| && m == Message(k, rule) && Violates(pre[k], rule);
    assert pre[k] == users[k];
  }

  /** No message is collected twice, so the collection lists each failed check of
      each row once. */
  lemma {:induction false} ViolationsNoRepeats(users: seq<CandidateUser>)
    ensures NoRepeats(AllViolations(users))
  {
    if users != [] {
      var n := |users| - 1;
      var pre, u := users[..n], users[n];
      ViolationsNoRepeats(pre);
      ViolationsNamed(pre);
      ValidateUserDataNothingElse(u, n);
      ValidateUserDataMeaning(u, n);
      var xs, ys := AllViolations(pre), ValidateUserData(u, n);
      assert AllViolations(users) == xs + ys;
      forall x | x in xs ensures x !in ys {
        assert Named(pre, x);
        var k: nat, rule :| k < |pre| && x == Message(k, rule) && Violates(pre[k], rule);
        if x in ys {
          var j :| 0 <= j < |ys| && ys[j] == x;
          LabelDeterminesRow(n, k, rule);
        }
      }
      ConcatNoRepeats(xs, ys);
    }
  }

  /** A message carries the label of its own row and of no other. */
  lemma LabelDeterminesRow(n: nat, k: nat, rule: Rule)
    requires RowLabel(n) <= Message(k, rule)
    ensures k == n
  {
    var a, b := NatToString(k + 1), NatToString(n + 1);
    assert a == b by {
      assert Message(k, rule) == "Row " + a + ": " + RuleText(rule);
      DigitsBeforeColon(a, b, RuleText(rule));
    }
    NatToStringInjective(k + 1, n + 1);
  }

  /** A run of digits between `"Row "` and `": "` can be read back: the digits end
      where the colon starts. */
  lemma DigitsBeforeColon(a: string, b: string, t: string)
    requires forall i :: 0 <= i < |a| ==> IsDigit(a[i])
    requires forall i :: 0 <= i < |b| ==> IsDigit(b[i])
    requires "Row " + b + ": " <= "Row " + a + ": " + t
    ensures a == b
  {
    var m := "Row " + a + ": " + t;
    var p := "Row " + b + ": ";
    assert forall i :: 0 <= i < |a| ==> m[4 + i] == a[i];
    assert forall i :: 0 <= i < |b| ==> p[4 + i] == b[i];
    assert m[4 + |a|] == ':' && p[4 + |b|] == ':';
    if |a| != |b| {
      // The shorter run ends at a colon where the longer one has a digit.
      assert false;
    }
    assert a == m[4..4 + |a|];
    assert b == p[4..4 + |b|];
  }

  /** The two-row example: the first row is valid, the second has the email
      "not-an-email"; exactly one message is collected, and it names row 2. */
  lemma TwoRowExample()
    ensures var good := CandidateUser("abcde", "a@b.com", "longenough1", "1234567890", "user");
            var bad := good.(email := "not-an-email");
            AllViolations([good, bad]) == [Message(1, EmailRule)]
  {
    var good := CandidateUser("abcde", "a@b.com", "longenough1", "1234567890", "user");
    var bad := good.(email := "not-an-email");
    WellFormedRowPasses(0);
    AllViolationsSnoc([], good);
    assert [] + [good] == [good];
    AllViolationsSnoc([good], bad);
    assert [good] + [bad] == [good, bad];
    BadEmailRowMessages();
  }

  /** The second row of the two-row example breaks the email check and nothing
      else. */
  lemma BadEmailRowMessages()
    ensures ValidateUserData(CandidateUser("abcde", "not-an-email", "longenough1", "1234567890", "user"), 1)
            == [Message(1, EmailRule)]
  {
    WellFormedRowPasses(1);
    InvalidEmailExample();
  }

  /** The users the sheet's rows normalise to, in row order. */
  function NormaliseAll(rows: seq<Row>): (users: seq<CandidateUser>)
    ensures |users| == |rows|
  {
    if rows == [] then [] else NormaliseAll(rows[..|rows| - 1]) + [NormaliseRow(rows[|rows| - 1])]
  }

  /** Taking one more row normalises one more user. */
  lemma NormaliseAllSnoc(rows: seq<Row>, index: nat)
    requires index < |rows|
    ensures NormaliseAll(rows[..index + 1]) == NormaliseAll(rows[..index]) + [NormaliseRow(rows[index])]
  {
    assert rows[..index + 1][..index] == rows[..index];
  }

  /** Row `k` of the sheet becomes user `k`. */
  lemma {:induction false} NormaliseAllPointwise(rows: seq<Row>)
    ensures forall k :: 0 <= k < |rows| ==> NormaliseAll(rows)[k] == NormaliseRow(rows[k])
  {
    if rows != [] {
      var n := |rows| - 1;
      NormaliseAllPointwise(rows[..n]);
      forall k | 0 <= k < |rows| ensures NormaliseAll(rows)[k] == NormaliseRow(rows[k]) {
        if k < n {
          assert rows[..n][k] == rows[k];
        }
      }
    }
  }

  /** The `jsonData.map` loop of `handleExcelUpload`: one normalised user per row,
      in row order, with each row's messages appended to `violations` as the loop
      reaches it. */
  method MapAndValidate(rows: seq<Row>) returns (users: seq<CandidateUser>, violations: seq<string>)
    ensures users == NormaliseAll(rows)
    ensures forall k :: 0 <= k < |rows| ==> users[k] == NormaliseRow(rows[k])
    ensures violations == AllViolations(users)
  {
    users, violations := [], [];
    var index := 0;
    while index < |rows|
      invariant 0 <= index <= |rows|
      invariant users == NormaliseAll(rows[..index])
      invariant violations == AllViolations(users)
    {
      var user := NormaliseRow(rows[index]);
      var errors := ValidateUserData(user, index);
      AllViolationsSnoc(users, user);
      NormaliseAllSnoc(rows, index);
      violations := violations + errors;
      users := users + [user];
      index := index + 1;
    }
    assert rows[..index] == rows;
    NormaliseAllPointwise(rows);
  }
}
